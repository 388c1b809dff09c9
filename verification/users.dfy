/** The `User` table of the persistence layer, as the signup route and the
    credentials provider use it: rows in insertion order, looked up by their
    unique `email`. */
module Users {
  import opened Base

  /** One stored account. `password` holds the bcrypt digest, never the
      plaintext; `createdAt` is the creation instant in milliseconds. */
  datatype User = User(
    id: string,
    civilite: string,
    nom: string,
    prenom: string,
    telephone: string,
    email: string,
    password: string,
    createdAt: nat)

  type UserTable = seq<User>

  predicate HasEmail(t: UserTable, email: string)
  {
    exists i :: 0 <= i < |t| && t[i].email == email
  }

  predicate HasId(t: UserTable, id: string)
  {
    exists i :: 0 <= i < |t| && t[i].id == id
  }

  /** The database's unique index on `email`. */
  predicate EmailsUnique(t: UserTable)
  {
    forall i, j :: 0 <= i < j < |t| ==> t[i].email != t[j].email
  }

  /** `findUnique({ where: { email } })`: the position of the row holding
      `email`, or `None` when there is none. */
  function FindByEmail(t: UserTable, email: string): (r: Option<nat>)
    ensures r.None? <==> !HasEmail(t, email)
    ensures r.Some? ==> r.value < |t| && t[r.value].email == email
    ensures r.Some? ==> forall j :: 0 <= j < r.value ==> t[j].email != email
  {
    if |t| == 0 then None
    else if t[0].email == email then Some(0)
    else
      match FindByEmail(t[1..], email)
      case None => None
      case Some(k) => Some(k + 1)
  }

  /** Under the unique index the row found is the only one with that email. */
  lemma FindByEmailUnique(t: UserTable, email: string, i: nat)
    requires EmailsUnique(t)
    requires i < |t| && t[i].email == email
    ensures FindByEmail(t, email) == Some(i)
  {
  }
}
