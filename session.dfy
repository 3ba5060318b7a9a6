/**
 * What the two authentication pages share: the browser's storage slots they write and the
 * outcome of an authentication request, which arrives from the server as an input.
 */
module Session {
  import opened Wrappers
  import opened AppContext

  /** The 'token' slot and the 'user' slot the login page fills when "remember me" is ticked. */
  class Storage {
    var token: Option<string>
    var rememberedUser: Option<User>

    constructor (token: Option<string>, rememberedUser: Option<User>)
      ensures this.token == token && this.rememberedUser == rememberedUser
    {
      this.token := token;
      this.rememberedUser := rememberedUser;
    }
  }

  /**
   * The server's answer: the account's `_id`, name, email and token, or a failure with the
   * `message` of the error response when it carried one.
   */
  datatype AuthOutcome =
    | Authenticated(id: string, name: string, email: string, token: string)
    | Failed(message: Option<string>)

  /** The `{ id: data._id, name: data.name, email: data.email }` object handed to `setUser`. */
  function AccountUser(outcome: AuthOutcome): (u: User)
    requires outcome.Authenticated?
    ensures u.id == outcome.id && u.name == outcome.name && u.email == outcome.email && u.avatar.None?
  {
    User(outcome.id, outcome.name, outcome.email, None)
  }

  /** `error.response?.data?.message || fallback`: a missing or empty message gives the fallback. */
  function FailureMessage(message: Option<string>, fallback: string): (m: string)
    ensures message.Some? && message.value != "" ==> m == message.value
    ensures message.None? || message.value == "" ==> m == fallback
  {
    if message.Some? && message.value != "" then message.value else fallback
  }
}
