/**
 * The site's user account (accounts/models.py): the name fields that `display_name`
 * chooses from, and the contact fields the consultation form may fill in.
 */
module Accounts {
  import opened Wrappers

  const Fallback := "користувачу"

  /** A nullable text column is truthy when it is set and non-empty. */
  predicate Filled(v: Option<string>) {
    v.Some? && v.value != ""
  }

  class CustomUser {
    var username: string
    var email: Option<string>
    var telegramUsername: Option<string>
    var fullName: string
    var phoneNumber: Option<string>

    constructor (username: string, email: Option<string>, telegramUsername: Option<string>,
                 fullName: string, phoneNumber: Option<string>)
      ensures this.username == username && this.email == email
      ensures this.telegramUsername == telegramUsername && this.fullName == fullName
      ensures this.phoneNumber == phoneNumber
    {
      this.username := username;
      this.email := email;
      this.telegramUsername := telegramUsername;
      this.fullName := fullName;
      this.phoneNumber := phoneNumber;
    }

    /** `display_name`: the first filled of full name, Telegram name, username and email,
        else the fallback greeting. */
    function DisplayName(): (r: string)
      reads this
      ensures r != ""
      ensures fullName != "" ==> r == fullName
      ensures fullName == "" && Filled(telegramUsername) ==> r == telegramUsername.value
      ensures fullName == "" && !Filled(telegramUsername) && username != "" ==> r == username
      ensures fullName == "" && !Filled(telegramUsername) && username == "" && Filled(email) ==> r == email.value
      ensures fullName == "" && !Filled(telegramUsername) && username == "" && !Filled(email) ==> r == Fallback
    {
      if fullName != "" then fullName
      else if Filled(telegramUsername) then telegramUsername.value
      else if username != "" then username
      else if Filled(email) then email.value
      else Fallback
    }

    /** `__str__`. */
    function Str(): (r: string)
      reads this
      ensures r == DisplayName()
    {
      DisplayName()
    }
  }
}
