/** The account-creation endpoint: validate the six form fields, refuse an
    email already registered, store the account with a digest of the
    password, and answer with the stored row minus its password. */
module Signup {
  import opened Base
  import opened Users

  const MinPasswordLength := 6
  const CreatedText := "Compte créé avec succès"
  const InvalidText := "Données invalides"
  const DuplicateText := "Un compte avec cet email existe déjà"
  const InternalText := "Erreur interne du serveur"

  /** The JSON body as the schema sees it. */
  datatype SignupBody = SignupBody(
    civilite: Field,
    nom: Field,
    prenom: Field,
    telephone: Field,
    email: Field,
    password: Field)

  /** The fields once the schema has accepted them. */
  datatype SignupData = SignupData(
    civilite: string,
    nom: string,
    prenom: string,
    telephone: string,
    email: string,
    password: string)

  /** The columns the creation selects for the response: the password
      column is not among them. */
  datatype PublicUser = PublicUser(
    id: string,
    email: string,
    nom: string,
    prenom: string,
    civilite: string,
    telephone: string,
    createdAt: nat)

  datatype Response =
    | Created(user: PublicUser)   // 200 { message: CreatedText, user }
    | Invalid                     // 400 { error: InvalidText, details }
    | Duplicate                   // 400 { error: DuplicateText }
    | InternalError               // 500 { error: InternalText }
  {
    function Status(): nat
    {
      if Created? then 200 else if InternalError? then 500 else 400
    }

    /** The `message` of a success, the `error` of a failure. */
    function Text(): string
    {
      match this
      case Created(_) => CreatedText
      case Invalid => InvalidText
      case Duplicate => DuplicateText
      case InternalError => InternalText
    }
  }

  /** What the request handler cannot see into: the email syntax check of
      the schema library, the salted password digest, and the id and
      creation instant the database assigns. */
  datatype Env = Env(
    validEmail: string -> bool,
    hash: string -> string,
    newId: string,
    now: nat)

  /** `z.string().min(1)`: a string of at least one character. */
  predicate Filled(f: Field)
  {
    f.Str? && |f.s| >= 1
  }

  predicate Acceptable(b: SignupBody, validEmail: string -> bool)
  {
    && Filled(b.civilite) && Filled(b.nom) && Filled(b.prenom) && Filled(b.telephone)
    && b.email.Str? && validEmail(b.email.s)
    && b.password.Str? && |b.password.s| >= MinPasswordLength
  }

  /** `signupSchema.parse`: accepts exactly the bodies whose four profile
      fields are non-empty strings, whose email passes the syntax check and
      whose password has at least six characters, and keeps their values. */
  function Parse(b: SignupBody, validEmail: string -> bool): (r: Option<SignupData>)
    ensures r.Some? <==> Acceptable(b, validEmail)
    ensures r.Some? ==> |r.value.civilite| > 0 && |r.value.nom| > 0
                        && |r.value.prenom| > 0 && |r.value.telephone| > 0
    ensures r.Some? ==> validEmail(r.value.email) && |r.value.password| >= MinPasswordLength
    ensures r.Some? ==> r.value == SignupData(b.civilite.s, b.nom.s, b.prenom.s,
                                              b.telephone.s, b.email.s, b.password.s)
  {
    if Acceptable(b, validEmail) then
      Some(SignupData(b.civilite.s, b.nom.s, b.prenom.s, b.telephone.s, b.email.s, b.password.s))
    else None
  }

  function Project(u: User): PublicUser
  {
    PublicUser(u.id, u.email, u.nom, u.prenom, u.civilite, u.telephone, u.createdAt)
  }

  /** The row the creation inserts for accepted data. */
  function NewRow(d: SignupData, env: Env): User
  {
    User(env.newId, d.civilite, d.nom, d.prenom, d.telephone, d.email, env.hash(d.password), env.now)
  }

  /** `POST /api/auth/signup`. `body` is `None` when the request body is not
      JSON at all. Returns the response and the table afterwards. */
  function Post(t: UserTable, body: Option<SignupBody>, env: Env): (r: (Response, UserTable))
    ensures body.None? ==> r.0 == InternalError
    ensures body.Some? && !Acceptable(body.value, env.validEmail) ==> r.0 == Invalid
    ensures body.Some? && Acceptable(body.value, env.validEmail) && HasEmail(t, body.value.email.s)
            ==> r.0 == Duplicate
    ensures (body.Some? && Acceptable(body.value, env.validEmail)
             && !HasEmail(t, body.value.email.s) && HasId(t, env.newId))
            ==> r == (InternalError, t)
    ensures !r.0.Created? ==> r.1 == t
    ensures r.0.Created? ==>
      && body.Some? && Acceptable(body.value, env.validEmail)
      && !HasEmail(t, body.value.email.s)
      && !HasId(t, env.newId)
      && |r.1| == |t| + 1 && r.1[..|t|] == t
      && r.1[|t|].id == env.newId
      && r.1[|t|].email == body.value.email.s
      && r.1[|t|].password == env.hash(body.value.password.s)
      && r.0.user == Project(r.1[|t|])
  {
    match body
    case None => (InternalError, t)
    case Some(b) =>
      match Parse(b, env.validEmail)
      case None => (Invalid, t)
      case Some(d) =>
        if FindByEmail(t, d.email).Some? then (Duplicate, t)
        // the id column is unique too: a clash makes the insert throw
        else if HasId(t, env.newId) then (InternalError, t)
        else
          var row := NewRow(d, env);
          (Created(Project(row)), t + [row])
  }

  /** The HTTP answer for each kind of request: 400 "Données invalides"
      for refused fields, 400 with the duplicate text for a known email, 500
      for a body that is not JSON or an id clash, and 200 with the success
      message for everything else. */
  lemma PostAnswers(t: UserTable, body: Option<SignupBody>, env: Env)
    ensures var r := Post(t, body, env).0;
      (r.Status() == 400 && r.Text() == InvalidText)
      <==> body.Some? && !Acceptable(body.value, env.validEmail)
    ensures var r := Post(t, body, env).0;
      (r.Status() == 400 && r.Text() == DuplicateText)
      <==> body.Some? && Acceptable(body.value, env.validEmail) && HasEmail(t, body.value.email.s)
    ensures var r := Post(t, body, env).0;
      (r.Status() == 500 && r.Text() == InternalText)
      <==> (body.None? || (Acceptable(body.value, env.validEmail)
                           && !HasEmail(t, body.value.email.s) && HasId(t, env.newId)))
    ensures var r := Post(t, body, env).0;
      (r.Status() == 200 && r.Text() == CreatedText)
      <==> (body.Some? && Acceptable(body.value, env.validEmail)
            && !HasEmail(t, body.value.email.s) && !HasId(t, env.newId))
  {
  }

  /** A request with acceptable data for a new email and a fresh id creates
      exactly the account submitted. */
  lemma PostCreates(t: UserTable, b: SignupBody, env: Env)
    requires Acceptable(b, env.validEmail)
    requires !HasEmail(t, b.email.s) && !HasId(t, env.newId)
    ensures Post(t, Some(b), env).0.Created?
    ensures Post(t, Some(b), env).1
            == t + [User(env.newId, b.civilite.s, b.nom.s, b.prenom.s, b.telephone.s,
                         b.email.s, env.hash(b.password.s), env.now)]
  {
  }

  /** One signup never breaks the unique email index. */
  lemma PostKeepsEmailsUnique(t: UserTable, body: Option<SignupBody>, env: Env)
    requires EmailsUnique(t)
    ensures EmailsUnique(Post(t, body, env).1)
  {
    var r := Post(t, body, env);
    if r.0.Created? {
      forall i, j | 0 <= i < j < |r.1|
        ensures r.1[i].email != r.1[j].email
      {
        if j == |t| {
          assert r.1[i] == t[i];
        } else {
          assert r.1[i] == t[i] && r.1[j] == t[j];
        }
      }
    }
  }

  /** The table after a series of signup requests, answered in order. */
  function PostAll(t: UserTable, requests: seq<(Option<SignupBody>, Env)>): UserTable
    decreases |requests|
  {
    if |requests| == 0 then t
    else PostAll(Post(t, requests[0].0, requests[0].1).1, requests[1..])
  }

  /** Sequential signups keep every email in the table unique, and only ever
      add rows. */
  lemma {:induction false} PostAllKeepsEmailsUnique(t: UserTable,
                                                   requests: seq<(Option<SignupBody>, Env)>)
    requires EmailsUnique(t)
    ensures EmailsUnique(PostAll(t, requests))
    ensures |PostAll(t, requests)| >= |t| && PostAll(t, requests)[..|t|] == t
    decreases |requests|
  {
    if |requests| > 0 {
      var t' := Post(t, requests[0].0, requests[0].1).1;
      PostKeepsEmailsUnique(t, requests[0].0, requests[0].1);
      PostAllKeepsEmailsUnique(t', requests[1..]);
      assert t'[..|t|] == t;
      assert PostAll(t, requests)[..|t|] == PostAll(t', requests[1..])[..|t'|][..|t|];
    }
  }
}
