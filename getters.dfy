/** The nil-safe accessors of main.go: a nil pointer reads as the zero value. */
module Getters {
  import opened Wrappers
  import opened GitHub

  function GetInt(x: Option<int>): (r: int)
    ensures x.None? ==> r == 0
    ensures x.Some? ==> r == x.value
  {
    match x
    case None => 0
    case Some(v) => v
  }

  function GetString(x: Option<string>): (r: string)
    ensures x.None? ==> r == ""
    ensures x.Some? ==> r == x.value
  {
    match x
    case None => ""
    case Some(v) => v
  }

  /** The login of a user, "" for a nil user or a nil login. */
  function GetUserLogin(x: Option<User>): (r: string)
    ensures (x.None? || x.value.login.None?) ==> r == ""
    ensures x.Some? && x.value.login.Some? ==> r == x.value.login.value
  {
    if x.None? || x.value.login.None? then "" else x.value.login.value
  }

  function GetTime(x: Option<Time>): (r: Time)
    ensures x.None? ==> r == ZeroTime
    ensures x.Some? ==> r == x.value
  {
    match x
    case None => ZeroTime
    case Some(t) => t
  }
}
