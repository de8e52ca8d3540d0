/**
 * The register and login forms: the payload each submit posts (the name
 * trimmed, the e-mail address lower-cased and trimmed, the password as typed),
 * the error message shown when the post fails, and what a successful post leads
 * to. The server's answer is a parameter of each submit.
 */
module AuthForms {
  import opened Wrappers
  import opened Text

  /** Trimming keeps a string free of upper-case letters: what is left is a slice of it. */
  lemma TrimKeepsLower(s: string)
    requires forall k :: 0 <= k < |s| ==> !IsUpperAscii(s[k])
    ensures forall k :: 0 <= k < |Trim(s)| ==> !IsUpperAscii(Trim(s)[k])
  {
    var r := Trim(s);
    var i :| SpaceAround(s, i, r);
    assert forall k :: 0 <= k < |r| ==> r[k] == s[i + k];
  }

  /** The e-mail address as both forms send it: lower-cased, then trimmed. */
  function NormalizeEmail(email: string): (r: string)
    ensures IsTrimmed(r) && exists i :: SpaceAround(ToLower(email), i, r)
    ensures forall k :: 0 <= k < |r| ==> !IsUpperAscii(r[k])
  {
    TrimKeepsLower(ToLower(email));
    Trim(ToLower(email))
  }

  /** Normalising an address that is already normalised leaves it alone. */
  lemma NormalizeEmailIdempotent(email: string)
    ensures NormalizeEmail(NormalizeEmail(email)) == NormalizeEmail(email)
  {
    var r := NormalizeEmail(email);
    ToLowerOfLower(r);
    TrimOfTrimmed(r);
  }

  /** Addresses that differ only in the case of their letters are sent the same. */
  lemma NormalizeEmailIgnoresCase(a: string, b: string)
    requires SameIgnoringCase(a, b)
    ensures NormalizeEmail(a) == NormalizeEmail(b)
  {
    ToLowerIffSameIgnoringCase(a, b);
  }

  /** The server's `message` when it sent a non-empty one, the form's own text otherwise (the `||` fallback). */
  function ServerMessageOr(message: Option<string>, fallback: string): (r: string)
    ensures message.Some? && message.value != "" ==> r == message.value
    ensures message.None? || message.value == "" ==> r == fallback
  {
    if message.Some? && message.value != "" then message.value else fallback
  }

  /** With a non-empty fallback a failed submit always shows some message. */
  lemma FailureAlwaysExplained(message: Option<string>, fallback: string)
    requires fallback != ""
    ensures ServerMessageOr(message, fallback) != ""
  {
  }

  /** The server's answer to a post: accepted with its response body, or rejected with the `message` it carried, if any. */
  datatype Reply = Accepted(data: map<string, string>) | Rejected(message: Option<string>)

  /** The inputs of the registration form (`formData`); also the shape of the payload it posts. */
  datatype RegisterFields = RegisterFields(name: string, email: string, password: string)

  /** The inputs of the login form (`formData`); also the shape of the payload it posts. */
  datatype LoginFields = LoginFields(email: string, password: string)

  const RegisterFailed: string := "Registration failed. Please try again."
  const LoginFailed: string := "Login failed. Please try again."

  /** The registration payload: the name stripped of surrounding whitespace, the address normalised, the password untouched. */
  function MakeRegisterPayload(form: RegisterFields): (p: RegisterFields)
    ensures IsTrimmed(p.name) && exists i :: SpaceAround(form.name, i, p.name)
    ensures IsTrimmed(p.email) && forall k :: 0 <= k < |p.email| ==> !IsUpperAscii(p.email[k])
    ensures exists i :: SpaceAround(ToLower(form.email), i, p.email)
    ensures p.password == form.password
  {
    RegisterFields(Trim(form.name), NormalizeEmail(form.email), form.password)
  }

  /** The login payload: the address normalised and the password untouched; nothing else is sent. */
  function MakeLoginPayload(form: LoginFields): (p: LoginFields)
    ensures IsTrimmed(p.email) && forall k :: 0 <= k < |p.email| ==> !IsUpperAscii(p.email[k])
    ensures exists i :: SpaceAround(ToLower(form.email), i, p.email)
    ensures p.password == form.password
  {
    LoginFields(NormalizeEmail(form.email), form.password)
  }

  /** An address registered in one letter case signs in when typed in any other. */
  lemma SameAddressBothForms(registered: RegisterFields, login: LoginFields)
    requires SameIgnoringCase(registered.email, login.email)
    ensures MakeRegisterPayload(registered).email == MakeLoginPayload(login).email
  {
    NormalizeEmailIgnoresCase(registered.email, login.email);
  }

  /** The registration page: its inputs, the error on show and the route it has navigated to. */
  class RegisterForm {
    var formData: RegisterFields
    var errorMessage: string
    var route: Option<string>

    constructor ()
      ensures formData == RegisterFields("", "", "") && errorMessage == "" && route == None
    {
      formData := RegisterFields("", "", "");
      errorMessage := "";
      route := None;
    }

    /**
     * `handleSubmit`: the error is cleared, the payload posted; on success the
     * page goes to `/login`, on failure it shows the server's message or the
     * form's own. The inputs stay as they are.
     */
    method HandleSubmit(reply: Reply) returns (sent: RegisterFields)
      modifies this
      ensures sent == MakeRegisterPayload(old(formData))
      ensures reply.Accepted? ==> errorMessage == "" && route == Some("/login")
      ensures reply.Rejected? ==> errorMessage == ServerMessageOr(reply.message, RegisterFailed) && route == old(route)
      ensures errorMessage != "" <==> reply.Rejected?
      ensures formData == old(formData)
    {
      sent := MakeRegisterPayload(formData);
      Respond(reply);
    }

    /** What `handleSubmit` does with the server's reply once the payload is posted. */
    method Respond(reply: Reply)
      modifies this
      ensures reply.Accepted? ==> errorMessage == "" && route == Some("/login")
      ensures reply.Rejected? ==> errorMessage == ServerMessageOr(reply.message, RegisterFailed) && route == old(route)
      ensures errorMessage != "" <==> reply.Rejected?
      ensures formData == old(formData)
    {
      errorMessage := "";
      match reply
      case Accepted(_) =>
        route := Some("/login");
      case Rejected(message) =>
        FailureAlwaysExplained(message, RegisterFailed);
        errorMessage := ServerMessageOr(message, RegisterFailed);
    }
  }

  /** The login page: its inputs, the error on show, the signed-in session and the route it has navigated to. */
  class LoginForm {
    var formData: LoginFields
    var errorMessage: string
    var session: Option<map<string, string>>
    var route: Option<string>

    constructor (current: Option<map<string, string>>)
      ensures formData == LoginFields("", "") && errorMessage == ""
      ensures session == current && route == None
    {
      formData := LoginFields("", "");
      errorMessage := "";
      session := current;
      route := None;
    }

    /**
     * `handleSubmit`: the error is cleared, the payload posted; only an accepted
     * post signs the user in with the response body and goes to `/tasks`. A
     * rejected one leaves the session as it was and shows a message.
     */
    method HandleSubmit(reply: Reply) returns (sent: LoginFields)
      modifies this
      ensures sent == MakeLoginPayload(old(formData))
      ensures reply.Accepted? ==> session == Some(reply.data) && errorMessage == "" && route == Some("/tasks")
      ensures reply.Rejected? ==> session == old(session) && route == old(route)
      ensures reply.Rejected? ==> errorMessage == ServerMessageOr(reply.message, LoginFailed)
      ensures errorMessage != "" <==> reply.Rejected?
      ensures formData == old(formData)
    {
      sent := MakeLoginPayload(formData);
      Respond(reply);
    }

    /** What `handleSubmit` does with the server's reply once the payload is posted. */
    method Respond(reply: Reply)
      modifies this
      ensures reply.Accepted? ==> session == Some(reply.data) && errorMessage == "" && route == Some("/tasks")
      ensures reply.Rejected? ==> session == old(session) && route == old(route)
      ensures reply.Rejected? ==> errorMessage == ServerMessageOr(reply.message, LoginFailed)
      ensures errorMessage != "" <==> reply.Rejected?
      ensures formData == old(formData)
    {
      errorMessage := "";
      match reply
      case Accepted(data) =>
        session := Some(data);
        route := Some("/tasks");
      case Rejected(message) =>
        FailureAlwaysExplained(message, LoginFailed);
        errorMessage := ServerMessageOr(message, LoginFailed);
    }
  }
}
