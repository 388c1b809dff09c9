/** The static variant of the site, where everything lives in the browser:
    a list of registered accounts, the signed-in account, the question
    counter, the chat input and the chat log. Registration refuses a known
    email, sign-in needs an exact email and password match, both reset the
    counter, and a signed-out visitor may send two questions. */
module StaticSite {
  import opened Base

  const FreeQuestions := 2
  const CannedReply := "Merci pour votre question. Notre équipe juridique vous répondra dans les plus brefs délais."

  /** A registered account, exactly as the form filled it in. */
  datatype Account = Account(
    civilite: string,
    nom: string,
    prenom: string,
    telephone: string,
    email: string,
    password: string)

  /** A chat bubble: from the visitor, or the site's answer. */
  datatype Line = Line(fromUser: bool, text: string)

  datatype Site = Site(
    users: seq<Account>,
    currentUser: Option<Account>,
    questionCount: int,
    input: string,
    chat: seq<Line>)

  /** `Array.prototype.find`, as the position of the first account that
      satisfies `p`. */
  function Find(users: seq<Account>, p: Account -> bool): (r: Option<nat>)
    ensures r.Some? ==> r.value < |users| && p(users[r.value])
    ensures r.Some? ==> forall j :: 0 <= j < r.value ==> !p(users[j])
    ensures r.None? ==> forall j :: 0 <= j < |users| ==> !p(users[j])
  {
    if |users| == 0 then None
    else if p(users[0]) then Some(0)
    else
      match Find(users[1..], p)
      case None => None
      case Some(k) => Some(k + 1)
  }

  /** The sign-in comparison: the same email and the same password. */
  predicate Matches(u: Account, email: string, password: string)
  {
    u.email == email && u.password == password
  }

  /** `i` is the first account matching the sign-in form. */
  predicate FirstMatch(users: seq<Account>, email: string, password: string, i: nat)
  {
    && i < |users| && Matches(users[i], email, password)
    && forall j :: 0 <= j < i ==> !Matches(users[j], email, password)
  }

  predicate EmailsUnique(users: seq<Account>)
  {
    forall i, j :: 0 <= i < j < |users| ==> users[i].email != users[j].email
  }

  /** `updateChatUI`: the chat input is shown, rather than the sign-in
      prompt, to a signed-in visitor or while fewer than two questions were
      asked. */
  predicate InputVisible(s: Site)
  {
    s.currentUser.Some? || s.questionCount < FreeQuestions
  }

  /** `updateAuthUI`, which ends in `updateChatUI`: a signed-in visitor's
      counter starts again at zero, so the input is shown to them; a
      signed-out visitor's state is kept as it is, and the input never goes
      from shown to hidden. */
  function UpdateAuth(s: Site): (r: Site)
    ensures r.users == s.users && r.currentUser == s.currentUser
    ensures r.input == s.input && r.chat == s.chat
    ensures s.currentUser.Some? ==> InputVisible(r) && r.questionCount == 0
    ensures InputVisible(s) ==> InputVisible(r)
    ensures s.currentUser.None? ==> r == s
  {
    if s.currentUser.Some? then s.(questionCount := 0) else s
  }

  /** The registration form: a known email changes nothing; otherwise the
      account is added at the end and signed in, with a fresh counter. */
  function Register(s: Site, data: Account): (r: Site)
    ensures (exists i :: 0 <= i < |s.users| && s.users[i].email == data.email) ==> r == s
    ensures (forall i :: 0 <= i < |s.users| ==> s.users[i].email != data.email) ==>
      r == s.(users := s.users + [data], currentUser := Some(data), questionCount := 0)
  {
    if Find(s.users, (u: Account) => u.email == data.email).Some? then s
    else UpdateAuth(s.(users := s.users + [data], currentUser := Some(data)))
  }

  /** The sign-in form: the first account with exactly this email and
      password is signed in, with a fresh counter; with none, nothing
      changes. */
  function Login(s: Site, email: string, password: string): (r: Site)
    ensures (forall i :: 0 <= i < |s.users| ==> !Matches(s.users[i], email, password)) ==> r == s
    ensures r != s ==>
      exists i: nat :: FirstMatch(s.users, email, password, i)
        && r == s.(currentUser := Some(s.users[i]), questionCount := 0)
  {
    match Find(s.users, (u: Account) => Matches(u, email, password))
    case None => s
    case Some(i) => UpdateAuth(s.(currentUser := Some(s.users[i])))
  }

  /** The sign-out button: the counter is left as it is. */
  function Logout(s: Site): (r: Site)
    ensures r.currentUser.None?
    ensures r.questionCount == s.questionCount && r.users == s.users && r.chat == s.chat
    ensures r == s.(currentUser := None)
  {
    UpdateAuth(s.(currentUser := None))
  }

  /** The send button. A blank message does nothing; a signed-out visitor
      with two questions asked only gets the sign-in prompt; otherwise the
      question and the site's answer are shown, the counter goes up by one
      and the input is cleared. */
  function Send(s: Site): (r: Site)
    ensures Trim(s.input) == [] ==> r == s
    ensures s.currentUser.None? && s.questionCount >= FreeQuestions ==> r == s
    ensures Trim(s.input) != [] && InputVisible(s) ==>
      && r.chat == s.chat + [Line(true, Trim(s.input)), Line(false, CannedReply)]
      && r.questionCount == s.questionCount + 1
      && r.input == []
      && r.users == s.users && r.currentUser == s.currentUser
  {
    var message := Trim(s.input);
    if message == [] then s
    else if s.currentUser.None? && s.questionCount >= FreeQuestions then s
    else s.(chat := s.chat + [Line(true, message), Line(false, CannedReply)],
            questionCount := s.questionCount + 1,
            input := [])
  }

  /** The send gate and the visibility rule agree: a non-blank message is
      sent exactly when the input is shown. */
  lemma SendAdmitsIffInputVisible(s: Site)
    requires Trim(s.input) != []
    ensures Send(s) != s <==> InputVisible(s)
  {
    if InputVisible(s) {
      assert |Send(s).chat| > |s.chat|;
    }
  }

  /** Sign-in succeeds exactly when some account matches both email and
      password, and then it is the first such account that is signed in. */
  lemma LoginSignsInFirstMatch(s: Site, email: string, password: string, i: nat)
    requires FirstMatch(s.users, email, password, i)
    ensures Login(s, email, password) == s.(currentUser := Some(s.users[i]), questionCount := 0)
  {
    var f := Find(s.users, (u: Account) => Matches(u, email, password));
    assert f.Some?;
    assert f == Some(i);
  }

  /** What the visitor does. `Reloaded` is a page load: the accounts, the
      signed-in account and the counter come back from the browser's
      storage, the chat log and the chat field, which live only in the
      page, come back empty, and the sign-in refresh runs. */
  datatype Event =
    | Registered(data: Account)
    | LoggedIn(email: string, password: string)
    | LoggedOut
    | Typed(text: string)
    | Sent
    | Reloaded

  function Apply(s: Site, e: Event): Site
  {
    match e
    case Registered(data) => Register(s, data)
    case LoggedIn(email, password) => Login(s, email, password)
    case LoggedOut => Logout(s)
    case Typed(text) => s.(input := text)
    case Sent => Send(s)
    case Reloaded => UpdateAuth(s.(chat := [], input := []))
  }

  function Run(s: Site, events: seq<Event>): Site
    decreases |events|
  {
    if |events| == 0 then s else Run(Apply(s, events[0]), events[1..])
  }

  lemma RegisterKeepsEmailsUnique(s: Site, data: Account)
    requires EmailsUnique(s.users)
    ensures EmailsUnique(Register(s, data).users)
  {
    var r := Register(s, data);
    if r.users != s.users {
      forall i, j | 0 <= i < j < |r.users|
        ensures r.users[i].email != r.users[j].email
      {
        assert r.users[i] == s.users[i];
      }
    }
  }

  /** Whatever the visitor does, no two accounts share an email. */
  lemma {:induction false} RunKeepsEmailsUnique(s: Site, events: seq<Event>)
    requires EmailsUnique(s.users)
    ensures EmailsUnique(Run(s, events).users)
    decreases |events|
  {
    if |events| > 0 {
      var s' := Apply(s, events[0]);
      if events[0].Registered? {
        RegisterKeepsEmailsUnique(s, events[0].data);
      }
      assert EmailsUnique(s'.users);
      RunKeepsEmailsUnique(s', events[1..]);
    }
  }

  predicate SignedOutChat(events: seq<Event>)
  {
    forall i :: 0 <= i < |events| ==> events[i].Typed? || events[i].Sent? || events[i].Reloaded?
  }

  /** A signed-out visitor who starts with at most two questions asked and
      only types, sends and reloads is never counted past two, and sends at
      most two questions: the chat log holds at most two lines per question
      sent, exactly two when the page was never reloaded. */
  lemma {:induction false} SignedOutSendsBounded(s: Site, events: seq<Event>)
    requires s.currentUser.None? && 0 <= s.questionCount <= FreeQuestions
    requires SignedOutChat(events)
    ensures var r := Run(s, events);
      && r.currentUser.None?
      && s.questionCount <= r.questionCount <= FreeQuestions
      && |r.chat| <= |s.chat| + 2 * (r.questionCount - s.questionCount)
    ensures (forall i :: 0 <= i < |events| ==> !events[i].Reloaded?) ==>
      |Run(s, events).chat| == |s.chat| + 2 * (Run(s, events).questionCount - s.questionCount)
    decreases |events|
  {
    if |events| > 0 {
      var s' := Apply(s, events[0]);
      assert SignedOutChat(events[1..]) by {
        forall i | 0 <= i < |events[1..]|
          ensures events[1..][i].Typed? || events[1..][i].Sent? || events[1..][i].Reloaded?
        {
          assert events[1..][i] == events[i + 1];
        }
      }
      SignedOutSendsBounded(s', events[1..]);
      if forall i :: 0 <= i < |events| ==> !events[i].Reloaded? {
        assert forall i :: 0 <= i < |events[1..]| ==> !events[1..][i].Reloaded? by {
          forall i | 0 <= i < |events[1..]|
            ensures !events[1..][i].Reloaded?
          {
            assert events[1..][i] == events[i + 1];
          }
        }
      }
    }
  }
}
