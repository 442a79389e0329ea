/**
 * The public pages (landing_doominium_real_state/views/public.py): the consultation
 * request with its per-address throttle, Telegram delivery and profile update; the meta
 * description of a listing page; and the choice of listings on the home page.
 *
 * The cache is an object holding counters with expiry times; the clock is a parameter.
 * Sending one Telegram message is a function parameter that gives the error text of a
 * failed send. `strip_tags` is a function parameter. Database orderings are parameters:
 * the listings newest first, and the listings in the random order `order_by("?")` gives.
 */
module PublicViews {
  import opened Wrappers
  import opened Text
  import opened Models
  import opened SearchService
  import opened Settings
  import opened Accounts
  import opened Forms

  // ---------------------------------------------------------------- the rate cache

  /** A cached counter and the time from which it has expired. */
  datatype Entry = Entry(count: int, expires: int)

  /** The counter cache (Django's local-memory cache): an entry counts until its expiry. */
  class RateCache {
    var entries: map<string, Entry>

    constructor ()
      ensures entries == map[]
    {
      entries := map[];
    }

    /** `cache.get(key, 0)`. */
    function Get(key: string, now: int): (n: int)
      reads this
      ensures key in entries && now < entries[key].expires ==> n == entries[key].count
      ensures !(key in entries && now < entries[key].expires) ==> n == 0
    {
      if key in entries && now < entries[key].expires then entries[key].count else 0
    }

    /** `cache.set(key, value, timeout)`. */
    method Set(key: string, value: int, timeout: int, now: int)
      modifies this
      ensures entries == old(entries)[key := Entry(value, now + timeout)]
    {
      entries := entries[key := Entry(value, now + timeout)];
    }

    /** `cache.incr(key)`: a live counter goes up by one and keeps its expiry; a missing or
        expired one raises (`ok` is false), and an expired one is dropped. */
    method Incr(key: string, now: int) returns (ok: bool)
      modifies this
      ensures ok <==> old(key in entries && now < entries[key].expires)
      ensures ok ==> entries == old(entries)[key := Entry(old(entries[key].count) + 1, old(entries[key].expires))]
      ensures !ok ==> entries == old(entries) - {key}
    {
      if key in entries && now < entries[key].expires {
        entries := entries[key := Entry(entries[key].count + 1, entries[key].expires)];
        ok := true;
      } else {
        entries := entries - {key};
        ok := false;
      }
    }

    /** Lines 36-52 of the consultation view: the hit read at `now` is refused when the
        count reached the limit; otherwise the counter starts at 1 or goes up by one at
        `later`, starting again at 1 when it expired in between. */
    method Hit(key: string, limit: int, window: int, now: int, later: int) returns (throttled: bool)
      modifies this
      ensures throttled <==> old(Get(key, now)) >= limit
      ensures entries == AfterHit(old(entries), key, limit, window, now, later)
    {
      var current := Get(key, now);
      if current >= limit {
        throttled := true;
      } else {
        throttled := false;
        if current == 0 {
          Set(key, 1, window, later);
        } else {
          var ok := Incr(key, later);
          if !ok {
            Set(key, 1, window, later);
          }
        }
      }
    }
  }

  function CountAt(entries: map<string, Entry>, key: string, now: int): int {
    if key in entries && now < entries[key].expires then entries[key].count else 0
  }

  /** The cache after one consultation hit. */
  function AfterHit(entries: map<string, Entry>, key: string, limit: int, window: int,
                    now: int, later: int): map<string, Entry>
  {
    var current := CountAt(entries, key, now);
    if current >= limit then entries
    else if current != 0 && key in entries && later < entries[key].expires then
      entries[key := Entry(entries[key].count + 1, entries[key].expires)]
    else entries[key := Entry(1, later + window)]
  }

  /** `n` hits at the same moment. */
  function Hits(entries: map<string, Entry>, key: string, limit: int, window: int, now: int, n: nat): map<string, Entry> {
    if n == 0 then entries else AfterHit(Hits(entries, key, limit, window, now, n - 1), key, limit, window, now, now)
  }

  /** From a fresh counter, `n` hits within the window are all let through and leave the
      count at `n`, so once `limit` hits were counted the next one is refused. */
  lemma {:induction false} HitsCount(entries: map<string, Entry>, key: string, limit: int, window: int, now: int, n: nat)
    requires CountAt(entries, key, now) == 0 && window > 0 && n <= limit
    ensures CountAt(Hits(entries, key, limit, window, now, n), key, now) == n
    ensures n > 0 ==> Hits(entries, key, limit, window, now, n)[key].expires == now + window
  {
    if n > 0 {
      HitsCount(entries, key, limit, window, now, n - 1);
    }
  }

  lemma ThrottleAfterLimit(entries: map<string, Entry>, key: string, limit: nat, window: int, now: int)
    requires CountAt(entries, key, now) == 0 && window > 0
    ensures forall n :: 0 <= n < limit ==> CountAt(Hits(entries, key, limit, window, now, n), key, now) < limit
    ensures CountAt(Hits(entries, key, limit, window, now, limit), key, now) >= limit
    ensures Hits(entries, key, limit, window, now, limit + 1) == Hits(entries, key, limit, window, now, limit)
  {
    forall n | 0 <= n < limit
      ensures CountAt(Hits(entries, key, limit, window, now, n), key, now) < limit
    {
      HitsCount(entries, key, limit, window, now, n);
    }
    HitsCount(entries, key, limit, window, now, limit);
  }

  /** Once the window has passed, the counter is fresh again. */
  lemma WindowExpires(entries: map<string, Entry>, key: string, limit: int, window: int, now: int, n: nat)
    requires CountAt(entries, key, now) == 0 && window > 0 && 0 < n <= limit
    ensures CountAt(Hits(entries, key, limit, window, now, n), key, now + window) == 0
  {
    HitsCount(entries, key, limit, window, now, n);
  }

  // ---------------------------------------------------------------- consultation

  /** The consultation form once validated, or the error messages of its fields. */
  datatype FormOutcome =
    | ValidForm(name: string, phone: string, email: Option<string>, message: string, property: Option<string>)
    | InvalidForm(errors: seq<string>)

  datatype SendError = SendError(chatId: ChatId, error: string)

  datatype Reply =
    | BadForm(errors: seq<string>)
    | Throttled
    | NotConfigured
    | SendFailed(details: seq<SendError>)
    | Sent

  function StatusCode(r: Reply): int {
    match r
    case BadForm(_) => 400
    case Throttled => 429
    case NotConfigured => 500
    case SendFailed(_) => 502
    case Sent => 200
  }

  const ThrottleKeyPrefix := "consultation-rate:"
  const NoProperty := "Не вказано"

  /** The message sent to every chat. */
  function MessageText(name: string, phone: string, email: string, message: string, propertyUrl: string): string {
    "📩 *Нова заявка на консультацію*\n"
    + "👤 *Ім'я:* " + name + "\n"
    + "📞 *Телефон:* " + phone + "\n"
    + "✉️ *Пошта:* " + (if email != "" then email else "Немає") + "\n"
    + "📝 *Повідомлення:* " + message + "\n"
    + "🔗 *Посилання на об'єкт:* " + propertyUrl
  }

  /** The chats whose send failed, in chat order, with the error each gave. */
  function Failures(chatIds: seq<ChatId>, text: string, send: (ChatId, string) -> Option<string>): (r: seq<SendError>)
    ensures |r| <= |chatIds|
  {
    if chatIds == [] then []
    else
      var init := Failures(chatIds[..|chatIds| - 1], text, send);
      var last := chatIds[|chatIds| - 1];
      match send(last, text)
      case Some(e) => init + [SendError(last, e)]
      case None => init
  }

  /** A chat is reported exactly when its send failed, with that send's error. */
  lemma {:induction false} FailuresExact(chatIds: seq<ChatId>, text: string, send: (ChatId, string) -> Option<string>, e: SendError)
    ensures e in Failures(chatIds, text, send) <==> e.chatId in chatIds && send(e.chatId, text) == Some(e.error)
  {
    if chatIds != [] {
      var init := chatIds[..|chatIds| - 1];
      FailuresExact(init, text, send, e);
      assert chatIds == init + [chatIds[|chatIds| - 1]];
    }
  }

  /** No failure is reported exactly when every chat's send succeeded. */
  lemma FailuresEmpty(chatIds: seq<ChatId>, text: string, send: (ChatId, string) -> Option<string>)
    ensures Failures(chatIds, text, send) == [] <==> forall k :: 0 <= k < |chatIds| ==> send(chatIds[k], text).None?
  {
    var r := Failures(chatIds, text, send);
    if r != [] {
      FailuresExact(chatIds, text, send, r[0]);
      var k :| 0 <= k < |chatIds| && chatIds[k] == r[0].chatId;
    } else {
      forall k | 0 <= k < |chatIds| ensures send(chatIds[k], text).None? {
        if send(chatIds[k], text).Some? {
          FailuresExact(chatIds, text, send, SendError(chatIds[k], send(chatIds[k], text).value));
        }
      }
    }
  }

  /** The loop over the chat ids: every chat is attempted, failures are collected. */
  method SendAll(chatIds: seq<ChatId>, text: string, send: (ChatId, string) -> Option<string>)
    returns (errors: seq<SendError>, attempted: seq<ChatId>)
    ensures errors == Failures(chatIds, text, send)
    ensures attempted == chatIds
  {
    errors := [];
    attempted := [];
    var i := 0;
    while i < |chatIds|
      invariant 0 <= i <= |chatIds|
      invariant errors == Failures(chatIds[..i], text, send)
      invariant attempted == chatIds[..i]
    {
      var chatId := chatIds[i];
      assert chatIds[..i + 1][..i] == chatIds[..i];
      var failure := send(chatId, text);
      attempted := attempted + [chatId];
      if failure.Some? {
        errors := errors + [SendError(chatId, failure.value)];
      }
      i := i + 1;
    }
    assert chatIds[..i] == chatIds;
  }

  /** Lines 93-103: the phone is written when given and different from the stored one;
      the e-mail only when given and the user has none. */
  method UpdateProfile(user: CustomUser, phone: string, email: string) returns (updated: seq<string>)
    modifies user
    ensures user.phoneNumber == (if phone != "" && old(user.phoneNumber) != Some(phone) then Some(phone) else old(user.phoneNumber))
    ensures user.email == (if email != "" && !Filled(old(user.email)) then Some(email) else old(user.email))
    ensures user.username == old(user.username) && user.fullName == old(user.fullName)
    ensures user.telegramUsername == old(user.telegramUsername)
    ensures ("phone_number" in updated <==> user.phoneNumber != old(user.phoneNumber))
    ensures ("email" in updated <==> user.email != old(user.email))
  {
    updated := [];
    if phone != "" && user.phoneNumber != Some(phone) {
      user.phoneNumber := Some(phone);
      updated := updated + ["phone_number"];
    }
    if email != "" && !Filled(user.email) {
      user.email := Some(email);
      updated := updated + ["email"];
    }
  }

  /** `consultation_view`: `ip` is the client address, `now` and `later` the times of the
      counter read and update, `user` the signed-in user or null. */
  method Consultation(form: FormOutcome, ip: string, cache: RateCache, limit: int, window: int,
                      now: int, later: int, token: string, chatIds: seq<ChatId>,
                      send: (ChatId, string) -> Option<string>, user: CustomUser?)
    returns (reply: Reply, attempted: seq<ChatId>)
    modifies cache, user
    ensures form.InvalidForm? ==> reply == BadForm(form.errors) && attempted == []
                                  && cache.entries == old(cache.entries)
    ensures form.ValidForm? ==>
              var key := ThrottleKeyPrefix + ip;
              (reply == Throttled <==> old(cache.Get(key, now)) >= limit)
              && cache.entries == AfterHit(old(cache.entries), key, limit, window, now, later)
    ensures reply.Throttled? || reply.NotConfigured? ==> attempted == []
    ensures form.ValidForm? && !reply.Throttled? && (token == "" || chatIds == []) ==> reply == NotConfigured
    ensures form.ValidForm? && !reply.Throttled? && token != "" && chatIds != [] ==> attempted == chatIds
    ensures form.ValidForm? && !reply.Throttled? && token != "" && chatIds != [] ==>
              var failures := Failures(chatIds, MessageText(form.name, form.phone, CleanEmail(form.email),
                                                            form.message, PropertyLine(form.property)), send);
              reply == (if failures == [] then Sent else SendFailed(failures))
    ensures reply.SendFailed? ==> reply.details != [] && forall e :: e in reply.details <==>
              e.chatId in chatIds && send(e.chatId, MessageText(form.name, form.phone, CleanEmail(form.email),
                                                                form.message, PropertyLine(form.property))) == Some(e.error)
    ensures user != null && !reply.Sent? ==> user.phoneNumber == old(user.phoneNumber) && user.email == old(user.email)
    ensures user != null && reply.Sent? ==>
              user.phoneNumber == (if form.phone != "" && old(user.phoneNumber) != Some(form.phone) then Some(form.phone) else old(user.phoneNumber))
              && user.email == (if CleanEmail(form.email) != "" && !Filled(old(user.email)) then Some(CleanEmail(form.email)) else old(user.email))
  {
    attempted := [];
    if form.InvalidForm? {
      reply := BadForm(form.errors);
    } else {
      var key := ThrottleKeyPrefix + ip;
      var throttled := cache.Hit(key, limit, window, now, later);
      if throttled {
        reply := Throttled;
      } else if token == "" || chatIds == [] {
        reply := NotConfigured;
      } else {
        var email := CleanEmail(form.email);
        var text := MessageText(form.name, form.phone, email, form.message, PropertyLine(form.property));
        var errors;
        errors, attempted := SendAll(chatIds, text, send);
        if errors != [] {
          forall e ensures e in errors <==> e.chatId in chatIds && send(e.chatId, text) == Some(e.error) {
            FailuresExact(chatIds, text, send, e);
          }
          reply := SendFailed(errors);
        } else {
          reply := Sent;
          if user != null {
            var _ := UpdateProfile(user, form.phone, email);
          }
        }
      }
    }
  }

  /** `cleaned.get("property") or "Не вказано"`. */
  function PropertyLine(property: Option<string>): (r: string)
    ensures property.Some? && property.value != "" ==> r == property.value
    ensures !(property.Some? && property.value != "") ==> r == NoProperty
  {
    if property.Some? && property.value != "" then property.value else NoProperty
  }

  // ---------------------------------------------------------------- listing meta description

  predicate IsWord(w: string) {
    w != [] && forall j :: 0 <= j < |w| ==> !IsSpace(w[j])
  }

  /** Length of the leading run of non-whitespace characters. */
  function WordEnd(s: string): (k: nat)
    ensures k <= |s|
    ensures forall j :: 0 <= j < k ==> !IsSpace(s[j])
    ensures k < |s| ==> IsSpace(s[k])
    ensures s != [] && !IsSpace(s[0]) ==> k > 0
  {
    if s == [] || IsSpace(s[0]) then 0 else 1 + WordEnd(s[1..])
  }

  /** The leading run of a text that starts with a non-space is a word. */
  lemma LeadingWord(t: string)
    requires t != [] && !IsSpace(t[0])
    ensures IsWord(t[..WordEnd(t)])
  {
    var w := t[..WordEnd(t)];
    forall j | 0 <= j < |w| ensures !IsSpace(w[j]) {
      assert w[j] == t[j];
    }
  }

  /** `s.split()`: the maximal runs of non-whitespace characters. */
  function Words(s: string): (r: seq<string>)
    ensures forall i :: 0 <= i < |r| ==> IsWord(r[i])
    decreases |s|
  {
    var t := TrimLeft(s, IsSpace);
    if t == [] then []
    else
      var k := WordEnd(t);
      var rest := Words(t[k..]);
      LeadingWord(t);
      ConsWords(t[..k], rest);
      [t[..k]] + rest
  }

  lemma ConsWords(w: string, rest: seq<string>)
    requires IsWord(w) && forall i :: 0 <= i < |rest| ==> IsWord(rest[i])
    ensures forall i :: 0 <= i < |rest| + 1 ==> IsWord(([w] + rest)[i])
  {
    forall i | 0 <= i < |rest| + 1 ensures IsWord(([w] + rest)[i]) {
      if i > 0 { assert ([w] + rest)[i] == rest[i - 1]; }
    }
  }

  /** `" ".join(s.split())`. */
  function Compact(s: string): string {
    Join(" ", Words(s))
  }

  lemma WordsSkipsSpace(c: char, s: string)
    requires IsSpace(c)
    ensures Words([c] + s) == Words(s)
  {
    assert ([c] + s)[1..] == s;
  }

  lemma {:induction false} WordEndOf(w: string, rest: string)
    requires IsWord(w) && (rest != [] ==> IsSpace(rest[0]))
    ensures WordEnd(w + rest) == |w|
    decreases |w|
  {
    if |w| > 1 {
      assert (w + rest)[1..] == w[1..] + rest;
      WordEndOf(w[1..], rest);
    } else {
      assert (w + rest)[1..] == rest;
    }
  }

  lemma {:induction false} JoinStartsWithWord(ws: seq<string>)
    requires ws != [] && IsWord(ws[0])
    ensures Join(" ", ws) != [] && Join(" ", ws)[0] == ws[0][0]
  {
  }

  lemma WordsOfWord(w: string, rest: string)
    requires IsWord(w) && (rest != [] ==> IsSpace(rest[0]))
    ensures Words(w + rest) == [w] + Words(rest)
  {
    var s := w + rest;
    assert s[0] == w[0];
    TrimLeftNoop(s, IsSpace);
    WordEndOf(w, rest);
    assert s[..|w|] == w && s[|w|..] == rest;
    assert Words(s) == [s[..WordEnd(s)]] + Words(s[WordEnd(s)..]);
  }

  /** Splitting single-space-joined words gives the words back. */
  lemma {:induction false} WordsOfJoin(ws: seq<string>)
    requires forall i :: 0 <= i < |ws| ==> IsWord(ws[i])
    ensures Words(Join(" ", ws)) == ws
    decreases |ws|
  {
    if ws == [] {
    } else if |ws| == 1 {
      WordsOfWord(ws[0], "");
      assert ws[0] + "" == ws[0];
    } else {
      var rest := ws[1..];
      var j := Join(" ", rest);
      JoinCons(" ", ws[0], rest);
      assert ws == [ws[0]] + rest;
      assert Join(" ", ws) == ws[0] + (" " + j);
      WordsOfWord(ws[0], " " + j);
      WordsSkipsSpace(' ', j);
      WordsOfJoin(rest);
    }
  }

  /** Compacting keeps the words and is idempotent: no run of whitespace survives it. */
  lemma CompactKeepsWords(s: string)
    ensures Words(Compact(s)) == Words(s)
    ensures Compact(Compact(s)) == Compact(s)
  {
    WordsOfJoin(Words(s));
  }

  const MetaLimit := 160
  const Ellipsis := '…'

  /** Lines 124-128: text over 160 characters is cut to 157 and given an ellipsis. */
  function Truncated(text: string): (r: string)
    ensures |r| <= MetaLimit
    ensures |text| <= MetaLimit ==> r == text
    ensures |text| > MetaLimit ==> |r| == 158 && r[..157] == text[..157] && r[157] == Ellipsis
  {
    if |text| > MetaLimit then text[..157] + [Ellipsis] else text
  }

  /** The listing page's meta description: the description without tags, whitespace
      compacted; the title and address sentence when nothing is left. */
  function DetailMetaDescription(listing: Listing, stripTags: string -> string): (r: string)
    ensures |r| <= MetaLimit
    ensures r != ""
    ensures Compact(stripTags(listing.description)) != "" ==> r == Truncated(Compact(stripTags(listing.description)))
    ensures Compact(stripTags(listing.description)) == "" ==>
              r == Truncated(listing.title + " — нерухомість DOMINIUM у " + listing.address + ".")
  {
    var compact := Compact(stripTags(listing.description));
    var text := if compact != "" then compact
                else listing.title + " — нерухомість DOMINIUM у " + listing.address + ".";
    Truncated(text)
  }

  // ---------------------------------------------------------------- home page

  /** `HomepageHighlightSettings`: the number of listings and the filters of the automatic
      picks. */
  datatype Highlight = Highlight(limit: nat, priceMin: Option<real>, priceMax: Option<real>,
                                 regionKeyword: string, typeIds: set<nat>)

  const DefaultHomeLimit := 3

  function HomeLimit(highlight: Option<Highlight>): (n: nat)
    ensures highlight.Some? && highlight.value.limit != 0 ==> n == highlight.value.limit
    ensures !(highlight.Some? && highlight.value.limit != 0) ==> n == DefaultHomeLimit
  {
    if highlight.Some? && highlight.value.limit != 0 then highlight.value.limit else DefaultHomeLimit
  }

  /** The filters of the automatic picks (none without settings). */
  predicate AutoFilter(highlight: Option<Highlight>, c: Candidate) {
    highlight.Some? ==>
      var h := highlight.value;
      (h.priceMin.Some? ==> c.listing.price >= h.priceMin.value)
      && (h.priceMax.Some? ==> c.listing.price <= h.priceMax.value)
      && (h.regionKeyword != "" ==> IContains(c.listing.address, Strip(h.regionKeyword)))
      && (h.typeIds != {} ==> c.listing.propertyType.Some? && c.listing.propertyType.value in h.typeIds)
  }

  predicate Featured(c: Candidate) {
    c.listing.featuredHomepage
  }

  predicate DistinctIds(rows: seq<Candidate>) {
    forall i, j :: 0 <= i < j < |rows| ==> rows[i].id != rows[j].id
  }

  function IdsOf(rows: seq<Candidate>): set<nat> {
    set c | c in rows :: c.id
  }

  /** The rows satisfying `keep`, in order. */
  function Passing(rows: seq<Candidate>, keep: Candidate -> bool): (r: seq<Candidate>)
    ensures forall c :: c in r <==> c in rows && keep(c)
  {
    if rows == [] then []
    else (if keep(rows[0]) then [rows[0]] else []) + Passing(rows[1..], keep)
  }

  /** The first `n` rows satisfying `keep`, in order. */
  function FirstWhere(rows: seq<Candidate>, keep: Candidate -> bool, n: nat): (r: seq<Candidate>)
    ensures |r| <= n
    ensures forall c :: c in r ==> c in rows && keep(c)
    ensures DistinctIds(rows) ==> DistinctIds(r)
    ensures r == Passing(rows, keep)[..if n < |Passing(rows, keep)| then n else |Passing(rows, keep)|]
  {
    if rows == [] || n == 0 then []
    else if keep(rows[0]) then
      var tail := FirstWhere(rows[1..], keep, n - 1);
      PassingTake(rows, keep, n, tail);
      assert DistinctIds(rows) ==> DistinctIds([rows[0]] + tail) by {
        if DistinctIds(rows) {
          forall i, j | 0 <= i < j < |[rows[0]] + tail| ensures ([rows[0]] + tail)[i].id != ([rows[0]] + tail)[j].id {
            if i == 0 {
              assert tail[j - 1] in rows[1..];
              var k :| 0 <= k < |rows[1..]| && rows[1..][k] == tail[j - 1];
              assert rows[k + 1] == tail[j - 1];
            }
          }
        }
      }
      [rows[0]] + tail
    else
      assert Passing(rows, keep) == Passing(rows[1..], keep);
      FirstWhere(rows[1..], keep, n)
  }

  /** Taking a passing first row and then n - 1 of the rest takes the first n passing rows. */
  lemma PassingTake(rows: seq<Candidate>, keep: Candidate -> bool, n: nat, tail: seq<Candidate>)
    requires rows != [] && keep(rows[0]) && n > 0
    requires var p := Passing(rows[1..], keep);
             tail == p[..if n - 1 < |p| then n - 1 else |p|]
    ensures var p := Passing(rows, keep);
            [rows[0]] + tail == p[..if n < |p| then n else |p|]
  {
    var p := Passing(rows[1..], keep);
    assert Passing(rows, keep) == [rows[0]] + p;
    var m := if n - 1 < |p| then n - 1 else |p|;
    assert ([rows[0]] + p)[..m + 1] == [rows[0]] + p[..m];
  }

  /** The automatic picks: up to `needed` random listings not yet chosen that pass the
      filters; fewer only when no other listing passes. */
  function AutoPicks(highlight: Option<Highlight>, shuffled: seq<Candidate>, chosen: set<nat>, needed: nat): (r: seq<Candidate>)
    ensures |r| <= needed
    ensures forall c :: c in r ==> c in shuffled && c.id !in chosen && AutoFilter(highlight, c)
    ensures DistinctIds(shuffled) ==> DistinctIds(r)
    ensures |r| < needed ==> forall c :: c in shuffled && c.id !in chosen && AutoFilter(highlight, c) ==> c in r
  {
    var eligible := (c: Candidate) => c.id !in chosen && AutoFilter(highlight, c);
    FirstWhereAll(shuffled, eligible, needed);
    FirstWhere(shuffled, eligible, needed)
  }

  /** The fallback picks: up to `needed` of the newest listings not yet chosen. */
  function FallbackPicks(newest: seq<Candidate>, taken: set<nat>, needed: nat): (r: seq<Candidate>)
    ensures |r| <= needed
    ensures forall c :: c in r ==> c in newest && c.id !in taken
    ensures DistinctIds(newest) ==> DistinctIds(r)
    ensures |r| < needed ==> forall c :: c in newest && c.id !in taken ==> c in r
  {
    FirstWhereAll(newest, (c: Candidate) => c.id !in taken, needed);
    FirstWhere(newest, (c: Candidate) => c.id !in taken, needed)
  }

  /** The shape of the home-page list after its featured prefix `f`: automatic picks up to
      position `k`, then fallback picks, and fallback picks only once no other listing
      passes the automatic filters. */
  predicate HomeShape(highlight: Option<Highlight>, newest: seq<Candidate>, shuffled: seq<Candidate>,
                      f: seq<Candidate>, selected: seq<Candidate>)
  {
    |f| <= |selected| && selected[..|f|] == f
    && exists k :: |f| <= k <= |selected|
         && (forall i :: |f| <= i < k ==> selected[i] in shuffled && AutoFilter(highlight, selected[i]))
         && (forall i :: k <= i < |selected| ==> selected[i] in newest)
         && (k < |selected| ==> forall c :: c in shuffled && c.id !in IdsOf(f) && AutoFilter(highlight, c) ==> c in selected[|f|..k])
  }

  lemma HomeShapeOf(highlight: Option<Highlight>, newest: seq<Candidate>, shuffled: seq<Candidate>,
                    f: seq<Candidate>, auto: seq<Candidate>, fallback: seq<Candidate>)
    requires forall c :: c in auto ==> c in shuffled && AutoFilter(highlight, c)
    requires forall c :: c in fallback ==> c in newest
    requires fallback != [] ==> forall c :: c in shuffled && c.id !in IdsOf(f) && AutoFilter(highlight, c) ==> c in auto
    ensures HomeShape(highlight, newest, shuffled, f, f + auto + fallback)
  {
    var s := f + auto + fallback;
    var k := |f| + |auto|;
    assert s[..|f|] == f;
    assert s[|f|..k] == auto;
    forall i | |f| <= i < k ensures s[i] in shuffled && AutoFilter(highlight, s[i]) {
      assert s[i] == auto[i - |f|];
    }
    forall i | k <= i < |s| ensures s[i] in newest {
      assert s[i] == fallback[i - k];
    }
  }

  /** The home-page list: the featured listings newest first, then the automatic picks
      while places remain, then the fallback picks while places still remain. */
  function HomeList(highlight: Option<Highlight>, newest: seq<Candidate>, shuffled: seq<Candidate>): (r: seq<Candidate>)
    requires DistinctIds(newest) && DistinctIds(shuffled)
    ensures |r| <= HomeLimit(highlight)
    ensures DistinctIds(r)
    ensures forall c :: c in r ==> c in newest || c in shuffled
    ensures HomeShape(highlight, newest, shuffled, FirstWhere(newest, Featured, HomeLimit(highlight)), r)
    ensures |r| < HomeLimit(highlight) ==> forall c :: c in newest ==> c.id in IdsOf(r)
  {
    var limit := HomeLimit(highlight);
    var featured := FirstWhere(newest, Featured, limit);
    var auto := HomeAuto(highlight, shuffled, featured, IdsOf(featured), limit);
    var fallback := HomeFallback(newest, featured + auto, IdsOf(featured) + IdsOf(auto), limit);
    HomeSelected(highlight, newest, shuffled, featured, auto, fallback);
    featured + auto + fallback
  }

  /** The automatic picks of the places the featured listings leave. */
  function HomeAuto(highlight: Option<Highlight>, shuffled: seq<Candidate>, selected: seq<Candidate>,
                    selectedIds: set<nat>, limit: nat): seq<Candidate> {
    if |selected| < limit then AutoPicks(highlight, shuffled, selectedIds, limit - |selected|) else []
  }

  /** The fallback picks of the places still left. */
  function HomeFallback(newest: seq<Candidate>, selected: seq<Candidate>, selectedIds: set<nat>, limit: nat): seq<Candidate> {
    if |selected| < limit then FallbackPicks(newest, selectedIds, limit - |selected|) else []
  }

  lemma HomeListOf(highlight: Option<Highlight>, newest: seq<Candidate>, shuffled: seq<Candidate>,
                   featured: seq<Candidate>, auto: seq<Candidate>, fallback: seq<Candidate>)
    requires DistinctIds(newest) && DistinctIds(shuffled)
    requires featured == FirstWhere(newest, Featured, HomeLimit(highlight))
    requires auto == HomeAuto(highlight, shuffled, featured, IdsOf(featured), HomeLimit(highlight))
    requires fallback == HomeFallback(newest, featured + auto, IdsOf(featured) + IdsOf(auto), HomeLimit(highlight))
    ensures HomeList(highlight, newest, shuffled) == featured + auto + fallback
  {
  }

  /** `base`: the featured listings newest first, then random listings passing the
      automatic filters, then the newest remaining listings, `limit` in all. */
  method HomepageSelection(highlight: Option<Highlight>, newest: seq<Candidate>, shuffled: seq<Candidate>)
    returns (selected: seq<Candidate>)
    requires DistinctIds(newest) && DistinctIds(shuffled)
    ensures selected == HomeList(highlight, newest, shuffled)
  {
    var limit := HomeLimit(highlight);
    selected := FirstWhere(newest, Featured, limit);
    ghost var featured := selected;
    var selectedIds := IdsOf(selected);
    var auto, fallback;
    selected, selectedIds, auto := AddAutoPicks(highlight, shuffled, selected, selectedIds, limit);
    selected, fallback := AddFallbackPicks(newest, selected, selectedIds, limit);
    HomeListOf(highlight, newest, shuffled, featured, auto, fallback);
    var cut := if |selected| < limit then |selected| else limit;
    ghost var whole := selected;
    selected := selected[..cut];
    assert selected == whole;
  }

  /** The automatic phase of `base`: when places are left, random listings not yet chosen
      that pass the filters are appended and their ids recorded. */
  method AddAutoPicks(highlight: Option<Highlight>, shuffled: seq<Candidate>, selected: seq<Candidate>,
                      selectedIds: set<nat>, limit: nat)
    returns (selected': seq<Candidate>, selectedIds': set<nat>, auto: seq<Candidate>)
    ensures auto == HomeAuto(highlight, shuffled, selected, selectedIds, limit)
    ensures selected' == selected + auto && selectedIds' == selectedIds + IdsOf(auto)
  {
    selected', selectedIds', auto := selected, selectedIds, [];
    var needed := limit - |selected|;
    if needed > 0 {
      auto := AutoPicks(highlight, shuffled, selectedIds, needed);
      selected' := selected + auto;
      selectedIds' := selectedIds + IdsOf(auto);
    } else {
      assert selected + auto == selected && IdsOf(auto) == {};
    }
  }

  /** The fallback phase of `base`: when places are still left, the newest listings not
      yet chosen are appended. */
  method AddFallbackPicks(newest: seq<Candidate>, selected: seq<Candidate>, selectedIds: set<nat>, limit: nat)
    returns (selected': seq<Candidate>, fallback: seq<Candidate>)
    ensures fallback == HomeFallback(newest, selected, selectedIds, limit)
    ensures selected' == selected + fallback
  {
    selected', fallback := selected, [];
    var needed := limit - |selected|;
    if needed > 0 {
      fallback := FallbackPicks(newest, selectedIds, needed);
      selected' := selected + fallback;
    } else {
      assert selected + fallback == selected;
    }
  }

  /** The three phases of `base` joined: featured, automatic, then fallback picks. */
  lemma HomeSelected(highlight: Option<Highlight>, newest: seq<Candidate>, shuffled: seq<Candidate>,
                     featured: seq<Candidate>, auto: seq<Candidate>, fallback: seq<Candidate>)
    requires DistinctIds(newest) && DistinctIds(shuffled)
    requires featured == FirstWhere(newest, Featured, HomeLimit(highlight))
    requires auto == HomeAuto(highlight, shuffled, featured, IdsOf(featured), HomeLimit(highlight))
    requires fallback == HomeFallback(newest, featured + auto, IdsOf(featured) + IdsOf(auto), HomeLimit(highlight))
    ensures |featured + auto + fallback| <= HomeLimit(highlight)
    ensures DistinctIds(featured + auto + fallback)
    ensures forall c :: c in featured + auto + fallback ==> c in newest || c in shuffled
    ensures HomeShape(highlight, newest, shuffled, featured, featured + auto + fallback)
    ensures |featured + auto + fallback| < HomeLimit(highlight) ==>
              forall c :: c in newest ==> c.id in IdsOf(featured + auto + fallback)
  {
    var limit := HomeLimit(highlight);
    var middleIds := IdsOf(featured) + IdsOf(auto);
    assert IdsOf(featured + auto) == middleIds;
    HomeFilled(newest, limit, featured + auto, middleIds, fallback);
    DisjointJoin(featured, auto);
    DisjointJoin(featured + auto, fallback);
    HomeShapeOf(highlight, newest, shuffled, featured, auto, fallback);
  }

  /** A home page left short of its limit holds every one of the newest listings. */
  lemma HomeFilled(newest: seq<Candidate>, limit: nat, middle: seq<Candidate>, middleIds: set<nat>,
                   fallback: seq<Candidate>)
    requires middleIds == IdsOf(middle)
    requires fallback == HomeFallback(newest, middle, middleIds, limit)
    ensures |middle + fallback| < limit ==> forall c :: c in newest ==> c.id in IdsOf(middle + fallback)
  {
    if |middle + fallback| < limit {
      forall c | c in newest ensures c.id in IdsOf(middle + fallback) {
        if c.id in middleIds {
          var d :| d in middle && d.id == c.id;
          assert d in middle + fallback;
        } else {
          assert c in fallback;
          assert c in middle + fallback;
        }
      }
    }
  }

  /** Fewer than `n` rows taken means every row satisfying `keep` was taken. */
  lemma FirstWhereAll(rows: seq<Candidate>, keep: Candidate -> bool, n: nat)
    ensures |FirstWhere(rows, keep, n)| < n ==> forall c :: c in rows && keep(c) ==> c in FirstWhere(rows, keep, n)
  {
    if |FirstWhere(rows, keep, n)| < n {
      forall c | c in rows && keep(c) ensures c in FirstWhere(rows, keep, n) {
        FirstWhereExhausted(rows, keep, n, c);
      }
    }
  }

  lemma {:induction false} FirstWhereExhausted(rows: seq<Candidate>, keep: Candidate -> bool, n: nat, c: Candidate)
    requires |FirstWhere(rows, keep, n)| < n && c in rows && keep(c)
    ensures c in FirstWhere(rows, keep, n)
  {
    if rows[0] != c {
      if keep(rows[0]) {
        FirstWhereExhausted(rows[1..], keep, n - 1, c);
      } else {
        FirstWhereExhausted(rows[1..], keep, n, c);
      }
    }
  }

  lemma DisjointJoin(a: seq<Candidate>, b: seq<Candidate>)
    requires DistinctIds(a) && DistinctIds(b)
    requires forall c :: c in b ==> c.id !in IdsOf(a)
    ensures DistinctIds(a + b)
  {
    forall i, j | 0 <= i < j < |a + b| ensures (a + b)[i].id != (a + b)[j].id {
      if i < |a| && j >= |a| {
        assert (a + b)[j] in b;
        assert (a + b)[i] in a;
      }
    }
  }
}
