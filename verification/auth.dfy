/** The credentials provider and the two session callbacks of the
    authentication options: `authorize` turns a submitted email/password
    pair into a user, `jwt` copies the profile into the token at sign-in, and
    `session` copies the token into the session every request reads. */
module Auth {
  import opened Base
  import opened Users

  /** The submitted sign-in form; a field is `None` when it was not sent. */
  datatype Credentials = Credentials(email: Option<string>, password: Option<string>)

  /** The user object `authorize` hands to the authentication library. */
  datatype AuthUser = AuthUser(
    id: string,
    email: string,
    name: string,
    civilite: string,
    nom: string,
    prenom: string,
    telephone: string)

  /** The signed token kept in the session cookie. `sub`, `name` and `email`
      are written by the library itself at sign-in; the four profile claims
      are written by the `jwt` callback. */
  datatype Token = Token(
    sub: Option<string>,
    name: Option<string>,
    email: Option<string>,
    civilite: Option<string>,
    nom: Option<string>,
    prenom: Option<string>,
    telephone: Option<string>)

  datatype SessionUser = SessionUser(
    id: Option<string>,
    name: Option<string>,
    email: Option<string>,
    civilite: Option<string>,
    nom: Option<string>,
    prenom: Option<string>,
    telephone: Option<string>)

  /** What the server and the client see as "the session". */
  datatype Session = Session(user: SessionUser)

  /** `credentials?.field` is truthy: sent, and not the empty string. */
  predicate Present(f: Option<string>)
  {
    f.Some? && Truthy(f.value)
  }

  predicate Submitted(credentials: Option<Credentials>)
  {
    credentials.Some? && Present(credentials.value.email) && Present(credentials.value.password)
  }

  /** The object returned for a stored row: its identity and profile, with
      the display name "prenom nom"; never the password digest. */
  function Profile(u: User): AuthUser
  {
    AuthUser(u.id, u.email, u.prenom + " " + u.nom, u.civilite, u.nom, u.prenom, u.telephone)
  }

  /** `authorize`. `compare(plain, digest)` is the password-hash check. */
  function Authorize(t: UserTable, credentials: Option<Credentials>,
                     compare: (string, string) -> bool): (r: Option<AuthUser>)
    ensures !Submitted(credentials) ==> r.None?
    ensures Submitted(credentials) && !HasEmail(t, credentials.value.email.value) ==> r.None?
    ensures r.Some? ==>
      exists i :: 0 <= i < |t|
        && t[i].email == credentials.value.email.value
        && compare(credentials.value.password.value, t[i].password)
        && r.value == Profile(t[i])
    ensures r.Some? ==> r.value.name == r.value.prenom + " " + r.value.nom
  {
    if !Submitted(credentials) then None
    else
      var email := credentials.value.email.value;
      var password := credentials.value.password.value;
      match FindByEmail(t, email)
      case None => None
      case Some(i) =>
        if !compare(password, t[i].password) then None
        else Some(Profile(t[i]))
  }

  /** With the unique email index, a stored account whose digest accepts the
      submitted password is signed in, and nothing else is: authorisation
      succeeds exactly for such an account, which is then the one returned. */
  lemma AuthorizeExactly(t: UserTable, email: string, password: string,
                         compare: (string, string) -> bool, i: nat)
    requires EmailsUnique(t)
    requires Truthy(email) && Truthy(password)
    requires i < |t| && t[i].email == email
    ensures Authorize(t, Some(Credentials(Some(email), Some(password))), compare).Some?
            <==> compare(password, t[i].password)
    ensures compare(password, t[i].password) ==>
      Authorize(t, Some(Credentials(Some(email), Some(password))), compare) == Some(Profile(t[i]))
  {
  }

  /** The `jwt` callback: at sign-in (`user` present) the four profile
      claims are copied from the user; on every later call the token passes
      through unchanged. The library-owned claims are never touched. */
  function Jwt(token: Token, user: Option<AuthUser>): (r: Token)
    ensures user.None? ==> r == token
    ensures r.sub == token.sub && r.name == token.name && r.email == token.email
    ensures user.Some? ==>
      && r.civilite == Some(user.value.civilite)
      && r.nom == Some(user.value.nom)
      && r.prenom == Some(user.value.prenom)
      && r.telephone == Some(user.value.telephone)
  {
    match user
    case None => token
    case Some(u) =>
      token.(civilite := Some(u.civilite), nom := Some(u.nom),
             prenom := Some(u.prenom), telephone := Some(u.telephone))
  }

  /** The `session` callback: the user id is the token's subject and the
      four profile fields are the token's claims; name and email keep what
      the library put there. */
  function SessionOf(session: Session, token: Token): (r: Session)
    ensures r.user.id == token.sub
    ensures r.user.civilite == token.civilite && r.user.nom == token.nom
    ensures r.user.prenom == token.prenom && r.user.telephone == token.telephone
    ensures r.user.name == session.user.name && r.user.email == session.user.email
  {
    Session(session.user.(id := token.sub, civilite := token.civilite, nom := token.nom,
                          prenom := token.prenom, telephone := token.telephone))
  }

  /** The token the library builds at sign-in before calling `jwt`: subject,
      name and email of the authorised user. */
  function SignInToken(u: AuthUser): Token
  {
    Token(Some(u.id), Some(u.name), Some(u.email), None, None, None, None)
  }

  /** The session the library builds from a token before calling `session`. */
  function BaseSession(token: Token): Session
  {
    Session(SessionUser(None, token.name, token.email, None, None, None, None))
  }

  /** Replays `jwt` for `refreshes` later requests (no `user` argument). */
  function Refresh(token: Token, refreshes: nat): Token
  {
    if refreshes == 0 then token else Jwt(Refresh(token, refreshes - 1), None)
  }

  /** The full round: a successful `authorize`, the sign-in `jwt`, any number
      of later `jwt` calls and the `session` callback leave a session whose
      every field is the authorised user's. */
  lemma {:induction false} SessionCarriesProfile(u: AuthUser, refreshes: nat)
    ensures
      var token := Refresh(Jwt(SignInToken(u), Some(u)), refreshes);
      SessionOf(BaseSession(token), token).user
        == SessionUser(Some(u.id), Some(u.name), Some(u.email), Some(u.civilite),
                       Some(u.nom), Some(u.prenom), Some(u.telephone))
  {
    RefreshKeepsToken(Jwt(SignInToken(u), Some(u)), refreshes);
  }

  lemma {:induction false} RefreshKeepsToken(token: Token, refreshes: nat)
    ensures Refresh(token, refreshes) == token
  {
    if refreshes > 0 {
      RefreshKeepsToken(token, refreshes - 1);
    }
  }
}
