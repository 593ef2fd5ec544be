/** The sign-up and login form's submit handler: the client-side checks run before a registration
    request is sent, the toast each path shows, and the `loading` flag each path leaves behind.

    The request and the login action are foreign calls; their outcomes are parameters. */
module AuthForm {
  import opened Wrappers

  const FillAll: string := "Por favor, preencha todos os campos."
  const NameTooShort: string := "O nome deve ter pelo menos 3 letras."
  const PasswordTooShort: string := "A senha deve ter pelo menos 6 caracteres."
  const Registered: string := "Cadastro realizado com sucesso!"
  const RegisterFailed: string := "Erro ao cadastrar"
  const LoginUnexpected: string := "Erro inesperado. Tente novamente."

  datatype Toast = ErrorToast(message: string) | SuccessToast(message: string)

  /** The body of the registration request. */
  datatype Registration = Registration(name: string, email: string, password: string)

  /** What the registration request did: accepted, refused with the server's message (possibly
      empty), or thrown with an error's message. */
  datatype RegisterReply = Accepted | Refused(message: string) | Thrown(message: string)

  /** What a submit leaves behind: the toast shown (none when nothing is shown), the request sent
      (none when the checks stopped it), whether the page moves on, and the `loading` flag. */
  datatype Submit = Submit(toast: Option<Toast>, sent: Option<Registration>, redirect: bool, loading: bool)

  /** A form value is missing, or the empty string. */
  predicate Blank(v: Option<string>) {
    v.None? || v.value == ""
  }

  /** The sign-up checks, in order: every field filled, a name of at least 3 characters, a password
      of at least 6. `""` when they all pass. */
  function SignupError(name: Option<string>, email: Option<string>, password: Option<string>): (m: string)
    ensures (m == "") <==> !Blank(name) && !Blank(email) && !Blank(password) && |name.value| >= 3 && |password.value| >= 6
    ensures m in {"", FillAll, NameTooShort, PasswordTooShort}
  {
    if Blank(name) || Blank(email) || Blank(password) then FillAll
    else if |name.value| < 3 then NameTooShort
    else if |password.value| < 6 then PasswordTooShort
    else ""
  }

  /** `handleSubmit` for a sign-up. `loading` is set on entry; every refusal resets it, and only a
      registration the server accepts keeps it set while the page moves on. */
  function HandleSignup(name: Option<string>, email: Option<string>, password: Option<string>, reply: RegisterReply): (r: Submit)
    ensures r.sent.Some? <==> SignupError(name, email, password) == ""
    ensures r.sent.Some? ==> r.sent.value == Registration(name.value, email.value, password.value)
    ensures r.sent.None? ==> r == Submit(Some(ErrorToast(SignupError(name, email, password))), None, false, false)
    ensures r.redirect <==> r.sent.Some? && reply.Accepted?
    ensures r.loading <==> r.redirect
    ensures r.toast.Some?
  {
    var m := SignupError(name, email, password);
    if m != "" then Submit(Some(ErrorToast(m)), None, false, false)
    else
      var sent := Some(Registration(name.value, email.value, password.value));
      match reply
      case Accepted => Submit(Some(SuccessToast(Registered)), sent, true, true)
      case Refused(msg) => Submit(Some(ErrorToast(if msg != "" then msg else RegisterFailed)), sent, false, false)
      case Thrown(msg) => Submit(Some(ErrorToast(msg)), sent, false, false)
  }

  /** The checks are ordered and only the first failure is reported: missing fields win over a short
      name, and a short name over a short password. */
  lemma SignupChecksOrdered(name: Option<string>, email: Option<string>, password: Option<string>, reply: RegisterReply)
    ensures Blank(name) || Blank(email) || Blank(password) ==>
      HandleSignup(name, email, password, reply).toast == Some(ErrorToast(FillAll))
    ensures !Blank(name) && !Blank(email) && !Blank(password) && |name.value| < 3 ==>
      HandleSignup(name, email, password, reply).toast == Some(ErrorToast(NameTooShort))
    ensures !Blank(name) && !Blank(email) && !Blank(password) && |name.value| >= 3 && |password.value| < 6 ==>
      HandleSignup(name, email, password, reply).toast == Some(ErrorToast(PasswordTooShort))
  {
  }

  /** A refused sign-up does not depend on what the server would have said. */
  lemma RefusalIgnoresServer(name: Option<string>, email: Option<string>, password: Option<string>, a: RegisterReply, b: RegisterReply)
    requires SignupError(name, email, password) != ""
    ensures HandleSignup(name, email, password, a) == HandleSignup(name, email, password, b)
  {
  }

  /** What the login action returned: an error message, success, neither, or a throw. */
  datatype LoginReply = LoginError(message: string) | LoginSuccess | LoginNeither | LoginThrown

  /** `handleSubmit` for a login: an error (when its message is non-empty) or a throw shows a toast
      and resets `loading`; success moves on; anything else leaves the form loading. */
  function HandleLogin(reply: LoginReply): (r: Submit)
    ensures r.sent.None?
    ensures r.redirect <==> reply.LoginSuccess?
    ensures r.toast.Some? <==> !r.loading
    ensures reply.LoginThrown? ==> r.toast == Some(ErrorToast(LoginUnexpected))
  {
    match reply
    case LoginError(m) =>
      if m != "" then Submit(Some(ErrorToast(m)), None, false, false) else Submit(None, None, false, true)
    case LoginSuccess => Submit(None, None, true, true)
    case LoginNeither => Submit(None, None, false, true)
    case LoginThrown => Submit(Some(ErrorToast(LoginUnexpected)), None, false, false)
  }
}
