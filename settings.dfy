/**
 * The settings helpers (landing_doominium_real_state/settings/base.py): reading a `.env`
 * file into the process environment, typed lookups of environment variables, the
 * database `OPTIONS` string and the Telegram chat ids. The environment is an object
 * whose variable map the loader updates; the file's text is a parameter (`None` when
 * the file does not exist).
 */
module Settings {
  import opened Wrappers
  import opened Text

  type Env = map<string, string>

  // ---------------------------------------------------------------- lines

  /** Characters `str.splitlines()` ends a line at. */
  predicate IsLineBreak(c: char) {
    c == '\n' || c == '\r' || c == '\U{0B}' || c == '\U{0C}' || ('\U{1C}' <= c <= '\U{1E}')
    || c == '\U{85}' || c == '\U{2028}' || c == '\U{2029}'
  }

  /** Index of the first line break, or `|s|`. */
  function BreakAt(s: string): (k: nat)
    ensures k <= |s|
    ensures k < |s| ==> IsLineBreak(s[k])
    ensures forall i :: 0 <= i < k ==> !IsLineBreak(s[i])
  {
    if s == [] then 0 else if IsLineBreak(s[0]) then 0 else 1 + BreakAt(s[1..])
  }

  /** `str.splitlines()`: "\r\n" is one break, and a final break opens no empty line. */
  function SplitLines(s: string): (r: seq<string>)
    ensures forall i :: 0 <= i < |r| ==> forall j :: 0 <= j < |r[i]| ==> !IsLineBreak(r[i][j])
    decreases |s|
  {
    if s == [] then []
    else
      var k := BreakAt(s);
      if k == |s| then [s]
      else
        var width := if s[k] == '\r' && k + 1 < |s| && s[k + 1] == '\n' then 2 else 1;
        [s[..k]] + SplitLines(s[k + width..])
  }

  /** Text without a line break is one line; a break at the end adds no empty line. */
  lemma SplitLinesEnds(s: string)
    requires s != [] && forall j :: 0 <= j < |s| ==> !IsLineBreak(s[j])
    ensures SplitLines(s) == [s]
    ensures SplitLines(s + "\n") == [s]
  {
    BreakAtNone(s);
    var t := s + "\n";
    assert t[..|s|] == s;
    assert t[|s|] == '\n';
    BreakAtStops(t, |s|);
    assert t[|s| + 1..] == [];
  }

  lemma {:induction false} BreakAtNone(s: string)
    requires forall j :: 0 <= j < |s| ==> !IsLineBreak(s[j])
    ensures BreakAt(s) == |s|
  {
    if s != [] {
      BreakAtNone(s[1..]);
    }
  }

  lemma {:induction false} BreakAtStops(s: string, k: nat)
    requires k < |s| && IsLineBreak(s[k]) && forall i :: 0 <= i < k ==> !IsLineBreak(s[i])
    ensures BreakAt(s) == k
  {
    if k > 0 {
      BreakAtStops(s[1..], k - 1);
    }
  }

  // ---------------------------------------------------------------- .env file

  /** A line that sets a variable: not blank, not a "#" comment, and holding an "="
      (`IndexOfIn` relates the search to `'=' in line`). */
  predicate Assigns(line: string) {
    line != "" && !StartsWith(Strip(line), "#") && IndexOf(line, '=') < |line|
  }

  /** The `KEY=VALUE` pair a line sets, if any: the line is cut at its first "=" and both
      sides trimmed. */
  function EnvEntry(line: string): (r: Option<(string, string)>)
    ensures r.Some? <==> Assigns(line)
  {
    if !Assigns(line) then None
    else
      var k := IndexOf(line, '=');
      Some((Strip(line[..k]), Strip(line[k + 1..])))
  }

  /** The entry of a line is its two sides around the first "=", stripped; the name holds
      no "=" and neither side keeps surrounding spaces. */
  lemma EnvEntryCut(line: string)
    requires Assigns(line)
    ensures var k := IndexOf(line, '=');
            k < |line| && EnvEntry(line) == Some((Strip(line[..k]), Strip(line[k + 1..])))
    ensures var (key, value) := EnvEntry(line).value;
            '=' !in key && Strip(key) == key && Strip(value) == value
  {
    var k := IndexOf(line, '=');
    var key := line[..k];
    assert '=' !in key;
    StripKeepsOut(key, '=');
    StripIdempotent(key);
    StripIdempotent(line[k + 1..]);
  }

  /** `os.environ.setdefault(key, value)` for the entry of a line, if it has one. */
  function SetDefault(env: Env, entry: Option<(string, string)>): (r: Env)
    ensures forall k :: k in env ==> k in r && r[k] == env[k]
    ensures forall k :: k in r && k !in env ==> entry.Some? && entry.value.0 == k
    ensures entry.Some? && entry.value.0 !in env ==> entry.value.0 in r && r[entry.value.0] == entry.value.1
  {
    if entry.Some? && entry.value.0 !in env then env[entry.value.0 := entry.value.1] else env
  }

  /** The entry of each line, in file order. */
  function Entries(lines: seq<string>): (r: seq<Option<(string, string)>>)
    ensures |r| == |lines|
    ensures forall i :: 0 <= i < |lines| ==> r[i] == EnvEntry(lines[i])
  {
    if lines == [] then [] else [EnvEntry(lines[0])] + Entries(lines[1..])
  }

  /** The environment after one `setdefault` per entry, in order. */
  function EnvAfter(env: Env, entries: seq<Option<(string, string)>>): Env
    decreases |entries|
  {
    if entries == [] then env else EnvAfter(SetDefault(env, entries[0]), entries[1..])
  }

  /** An entry `os.environ` refuses to store: putenv rejects an empty name, and a NUL
      character in the name or the value. */
  predicate Refused(entry: Option<(string, string)>) {
    entry.Some? && (entry.value.0 == "" || '\0' in entry.value.0 || '\0' in entry.value.1)
  }

  /** The environment after the `setdefault` calls, and whether one of them raised: the
      first refused entry for a name not yet set raises, and the entries after it are not
      reached. */
  function Load(env: Env, entries: seq<Option<(string, string)>>): (r: (Env, bool))
    ensures (forall i :: 0 <= i < |entries| ==> !Refused(entries[i])) ==> r == (EnvAfter(env, entries), false)
    ensures r.1 ==> exists i :: 0 <= i < |entries| && Refused(entries[i])
    ensures forall k :: k in env ==> k in r.0 && r.0[k] == env[k]
    decreases |entries|
  {
    if entries == [] then (env, false)
    else if Refused(entries[0]) && entries[0].value.0 !in env then (env, true)
    else
      var r := Load(SetDefault(env, entries[0]), entries[1..]);
      assert forall i :: 0 <= i < |entries[1..]| ==> entries[1..][i] == entries[i + 1];
      r
  }

  /** A line "=x", whose name strips to "", makes loading raise when no earlier line
      raised. */
  lemma EmptyNameRaises(env: Env, line: string, rest: seq<string>)
    requires EnvEntry(line).Some? && EnvEntry(line).value.0 == "" && "" !in env
    ensures Load(env, Entries([line] + rest)).1
  {
    var entries := Entries([line] + rest);
    assert entries[0] == EnvEntry(line);
    assert Refused(entries[0]) && entries[0].value.0 !in env;
  }

  /** Loading never overrides a variable that is already set. */
  lemma {:induction false} EnvKeepsSet(env: Env, entries: seq<Option<(string, string)>>)
    ensures forall k :: k in env ==> k in EnvAfter(env, entries) && EnvAfter(env, entries)[k] == env[k]
    decreases |entries|
  {
    if entries != [] {
      EnvKeepsSet(SetDefault(env, entries[0]), entries[1..]);
    }
  }

  /** Every variable loading adds comes from an entry of the file. */
  lemma EnvAddsEntries(env: Env, lines: seq<string>, k: string)
    requires k in EnvAfter(env, Entries(lines)) && k !in env
    ensures exists i :: 0 <= i < |lines| && EnvEntry(lines[i]).Some? && EnvEntry(lines[i]).value.0 == k
  {
    var i := EntryIndex(env, Entries(lines), k);
    assert EnvEntry(lines[i]) == Entries(lines)[i];
  }

  lemma {:induction false} EntryIndex(env: Env, entries: seq<Option<(string, string)>>, k: string) returns (i: nat)
    requires k in EnvAfter(env, entries) && k !in env
    ensures i < |entries| && entries[i].Some? && entries[i].value.0 == k
    decreases |entries|
  {
    var next := SetDefault(env, entries[0]);
    if k in next {
      i := 0;
    } else {
      var j := EntryIndex(next, entries[1..], k);
      i := j + 1;
    }
  }

  /** For a key not set beforehand, the first line that names it decides its value. */
  lemma FirstEntryWins(env: Env, line: string, rest: seq<string>)
    requires EnvEntry(line).Some? && EnvEntry(line).value.0 !in env
    ensures var (k, v) := EnvEntry(line).value;
            k in EnvAfter(env, Entries([line] + rest)) && EnvAfter(env, Entries([line] + rest))[k] == v
  {
    var entries := Entries([line] + rest);
    assert entries[0] == EnvEntry(line);
    EnvKeepsSet(SetDefault(env, entries[0]), entries[1..]);
  }

  class Environment {
    var vars: Env

    constructor (vars: Env)
      ensures this.vars == vars
    {
      this.vars := vars;
    }

    /** `_load_env_file(path)`; `raised` is the ValueError `os.environ` raises for a
        name it refuses, which leaves the variables set so far. */
    method LoadEnvFile(text: Option<string>) returns (raised: bool)
      modifies this
      ensures text.None? ==> vars == old(vars) && !raised
      ensures text.Some? ==> (vars, raised) == Load(old(vars), Entries(SplitLines(text.value)))
    {
      raised := false;
      if text.None? {
        return;
      }
      var entries := Entries(SplitLines(text.value));
      assert entries[0..] == entries;
      var i := 0;
      while i < |entries|
        invariant 0 <= i <= |entries|
        invariant Load(vars, entries[i..]) == Load(old(vars), entries)
      {
        var entry := entries[i];
        if Refused(entry) && entry.value.0 !in vars {
          raised := true;
          return;
        }
        vars := SetDefault(vars, entry);
        assert entries[i..][1..] == entries[i + 1..];
        i := i + 1;
      }
      assert entries[i..] == [];
    }
  }

  // ---------------------------------------------------------------- typed lookups

  /** `env_list(name, default, separator)`. */
  function EnvList(env: Env, name: string, default: Option<seq<string>>, separator: string): (r: seq<string>)
    requires |separator| > 0
    ensures (name !in env || env[name] == "") ==> r == default.GetOr([])
    ensures name in env && env[name] != "" ==> r == StrippedPieces(Split(env[name], separator))
    ensures name in env && env[name] != "" ==> forall i :: 0 <= i < |r| ==> r[i] != "" && Strip(r[i]) == r[i]
  {
    if name !in env || env[name] == "" then default.GetOr([])
    else StrippedPieces(Split(env[name], separator))
  }

  function TruthWords(): set<string> { {"1", "true", "yes", "on"} }

  /** `env_bool(name, default)`. */
  function EnvBool(env: Env, name: string, default: bool): (r: bool)
    ensures name !in env ==> r == default
    ensures name in env ==> (r <==> Lower(Strip(env[name])) in TruthWords())
  {
    if name !in env then default else Lower(Strip(env[name])) in TruthWords()
  }

  /** Spaces around a set value do not matter. */
  lemma EnvBoolStripped(env: Env, name: string, value: string, default: bool)
    ensures EnvBool(env[name := value], name, default) == EnvBool(env[name := Strip(value)], name, default)
  {
    StripIdempotent(value);
  }

  /** An empty value is false whatever the default. */
  lemma EnvBoolEmpty(env: Env, name: string, default: bool)
    ensures !EnvBool(env[name := ""], name, default)
  {
  }

  /** `env_int(name, default)`. */
  function EnvInt(env: Env, name: string, default: Option<int>): (r: Option<int>)
    ensures name !in env ==> r == default
    ensures name in env && ParseInt(env[name]).Some? ==> r == ParseInt(env[name])
    ensures name in env && ParseInt(env[name]).None? ==> r == default
  {
    if name !in env then default
    else match ParseInt(env[name])
      case Some(n) => Some(n)
      case None => default
  }

  /** A number written out reads back. */
  lemma EnvIntReadsNumber(env: Env, name: string, n: nat, default: Option<int>)
    ensures EnvInt(env[name := NatToString(n)], name, default) == Some(n)
  {
    ParseIntNatToString(n);
  }

  // ---------------------------------------------------------------- database options

  /** `{opt.split("=")[0]: opt.split("=")[1] for opt in options.split(",") if "=" in opt}`:
      later options with the same key win. */
  function DbOptions(options: string): map<string, string> {
    OptionsOf(Split(options, ","))
  }

  function OptionsOf(items: seq<string>): map<string, string>
    decreases |items|
  {
    if items == [] then map[]
    else
      var last := items[|items| - 1];
      var earlier := OptionsOf(items[..|items| - 1]);
      if '=' in last then
        var parts := Split(last, "=");
        SplitAtEquals(last);
        earlier[parts[0] := parts[1]]
      else earlier
  }

  /** The text before the first "=" and the text between the first and second "=". */
  lemma {:induction false} SplitAtEquals(opt: string)
    requires '=' in opt
    ensures |Split(opt, "=")| >= 2
    ensures var k := IndexOf(opt, '=');
            Split(opt, "=")[0] == opt[..k]
            && Split(opt, "=")[1] == opt[k + 1..][..IndexOf(opt[k + 1..], '=')]
    decreases |opt|
  {
    SplitFirst(opt, '=');
    if opt[0] == '=' {
      SplitFirst(opt[1..], '=');
    } else {
      SplitAtEquals(opt[1..]);
      assert Split(opt, "=") == [[opt[0]] + Split(opt[1..], "=")[0]] + Split(opt[1..], "=")[1..];
    }
  }

  /** Every option key comes from an item with "=", whose value is the text between its
      first and second "="; items without "=" give nothing. */
  lemma {:induction false} DbOptionsShape(items: seq<string>, key: string)
    ensures key in OptionsOf(items) ==>
            exists i :: 0 <= i < |items| && '=' in items[i]
                        && items[i][..IndexOf(items[i], '=')] == key
                        && var rest := items[i][IndexOf(items[i], '=') + 1..];
                           OptionsOf(items)[key] == rest[..IndexOf(rest, '=')]
    decreases |items|
  {
    if items != [] && key in OptionsOf(items) {
      var n := |items| - 1;
      var last := items[n];
      var init := items[..n];
      if '=' in last && Split(last, "=")[0] == key {
        SplitAtEquals(last);
      } else {
        DbOptionsShape(init, key);
        var i :| 0 <= i < |init| && '=' in init[i] && init[i][..IndexOf(init[i], '=')] == key
                 && var rest := init[i][IndexOf(init[i], '=') + 1..];
                    OptionsOf(init)[key] == rest[..IndexOf(rest, '=')];
        assert items[i] == init[i];
      }
    }
  }

  /** The key an option item gives: its text before the first "=". */
  function OptionKey(opt: string): string {
    opt[..IndexOf(opt, '=')]
  }

  /** The value an option item gives: its text between the first and second "=". */
  function OptionValue(opt: string): string
    requires '=' in opt
  {
    var rest := opt[IndexOf(opt, '=') + 1..];
    rest[..IndexOf(rest, '=')]
  }

  /** Every item holding "=" puts its key in the options; the value is the one of the
      last item with that key. */
  lemma {:induction false} DbOptionsFromItem(items: seq<string>, i: nat)
    requires i < |items| && '=' in items[i]
    ensures OptionKey(items[i]) in OptionsOf(items)
    ensures (forall j :: i < j < |items| && '=' in items[j] ==> OptionKey(items[j]) != OptionKey(items[i]))
            ==> OptionsOf(items)[OptionKey(items[i])] == OptionValue(items[i])
    decreases |items|
  {
    var n := |items| - 1;
    var last := items[n];
    var init := items[..n];
    if i == n {
      SplitAtEquals(last);
    } else {
      assert init[i] == items[i];
      DbOptionsFromItem(init, i);
      assert forall j :: i < j < |init| ==> init[j] == items[j];
      if '=' in last {
        SplitAtEquals(last);
      }
    }
  }

  // ---------------------------------------------------------------- Telegram chat ids

  /** A chat id: a number when `int()` reads it, else the text as given. */
  datatype ChatId = NumericId(n: int) | NamedId(name: string)

  function ChatIdOf(item: string): ChatId {
    match ParseInt(item)
    case Some(n) => NumericId(n)
    case None => NamedId(item)
  }

  /** The loop building `TELEGRAM_CHAT_IDS`. */
  method ChatIds(items: seq<string>) returns (ids: seq<ChatId>)
    ensures |ids| == |items|
    ensures forall i :: 0 <= i < |items| ==> ids[i] == ChatIdOf(items[i])
  {
    ids := [];
    var i := 0;
    while i < |items|
      invariant 0 <= i <= |items|
      invariant |ids| == i
      invariant forall j :: 0 <= j < i ==> ids[j] == ChatIdOf(items[j])
    {
      var parsed := ParseInt(items[i]);
      if parsed.Some? {
        ids := ids + [NumericId(parsed.value)];
      } else {
        ids := ids + [NamedId(items[i])];
      }
      i := i + 1;
    }
  }

  /** `int("-" + str(n))` is `-n`: negative group ids are read as numbers. */
  lemma ParseIntNegative(n: nat)
    ensures ParseInt("-" + NatToString(n)) == Some(-(n as int))
  {
    var d := NatToString(n);
    var s := "-" + d;
    assert s[0] == '-' && s[1..] == d && |s| > 1;
    assert s[|s| - 1] == d[|d| - 1];
    assert !IsSpace(s[|s| - 1]) by { assert IsDigit(d[|d| - 1]); }
    assert Strip(s) == s by { StripNoop(s); }
    assert AllDigits(s[1..]);
    NatToStringValue(n);
  }

  /** A numeric id keeps its number and its sign. */
  lemma ChatIdNumeric(n: nat)
    ensures ChatIdOf(NatToString(n)) == NumericId(n)
    ensures ChatIdOf("-" + NatToString(n)) == NumericId(-(n as int))
  {
    ParseIntNatToString(n);
    ParseIntNegative(n);
  }
}
