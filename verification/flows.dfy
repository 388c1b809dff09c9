/** Properties that span more than one part of the application: an account
    created by the signup endpoint can sign in, a signed-in session owns the
    conversations it opens, and the chat widget's requests never meet the
    server's guest check. */
module Flows {
  import opened Base
  import opened Users
  import Auth
  import Signup
  import ChatRoute
  import ChatInterface

  /** After a successful signup the same email and password sign in, as the
      account just created, provided the digest check accepts a password
      against its own digest and the email check refuses the empty string. */
  lemma SignupThenSignIn(t: UserTable, b: Signup.SignupBody, env: Signup.Env,
                         compare: (string, string) -> bool)
    requires Signup.Post(t, Some(b), env).0.Created?
    requires compare(b.password.s, env.hash(b.password.s))
    requires !env.validEmail("")
    ensures var t' := Signup.Post(t, Some(b), env).1;
      Auth.Authorize(t', Some(Auth.Credentials(Some(b.email.s), Some(b.password.s))), compare)
        == Some(Auth.Profile(t'[|t|]))
  {
    var t' := Signup.Post(t, Some(b), env).1;
    assert forall j :: 0 <= j < |t| ==> t'[j] == t[j];
    assert t'[|t|].email == b.email.s;
    assert FindByEmail(t', b.email.s) == Some(|t|);
  }

  /** The session built for a signed-in user. */
  function SessionFor(u: Auth.AuthUser): Auth.Session
  {
    var token := Auth.Jwt(Auth.SignInToken(u), Some(u));
    Auth.SessionOf(Auth.BaseSession(token), token)
  }

  /** A user signed in through the credentials provider is never refused by
      the guest check, and a conversation their request opens is owned by
      them and keyed by their id. */
  lemma SignedInRequestsOwnTheirConversations(store: ChatRoute.Store, u: Auth.AuthUser,
                                              req: ChatRoute.ChatRequest, env: ChatRoute.Env)
    requires Truthy(u.id)
    ensures var r := ChatRoute.Handle(store, Some(SessionFor(u)), req, env);
      && !(r.0.Responded? && r.0.status == 403)
      && (r.1.Keys != store.Keys ==>
            r.1[env.newId].userId == Some(u.id) && r.1[env.newId].sessionId == u.id)
  {
    Auth.SessionCarriesProfile(u, 0);
    ChatRoute.ConversationCreatedOnlyWithoutId(store, Some(SessionFor(u)), req, env);
  }

  /** The body the widget posts: the trimmed question and no conversation
      id. */
  function WidgetBody(s: ChatInterface.State): ChatRoute.ChatBody
  {
    ChatRoute.ChatBody(Str(Trim(s.input)), Absent)
  }

  /** The widget never sends a conversation id, so every guest question
      opens a new conversation and the server's guest check, which looks up
      a fresh guest id, never refuses it: the widget's own counter is the
      only limit a guest meets. */
  lemma WidgetQuestionsPassServerCheck(store: ChatRoute.Store, s: ChatInterface.State,
                                       env: ChatRoute.Env)
    requires ChatRoute.GuestId(env.lookupClock) !in store
    ensures var r := ChatRoute.Post(store, None, Some(WidgetBody(s)), env);
      !(r.0.Responded? && r.0.status == 403)
    ensures var r := ChatRoute.Post(store, None, Some(WidgetBody(s)), env);
      |Trim(s.input)| > ChatRoute.MaxMessageLength ==> r == (ChatRoute.Internal, store)
    ensures var r := ChatRoute.Post(store, None, Some(WidgetBody(s)), env);
      1 <= |Trim(s.input)| <= ChatRoute.MaxMessageLength && env.newId !in store ==>
        && r.1.Keys == store.Keys + {env.newId}
        && r.1[env.newId].messages[0] == ChatRoute.Message(ChatRoute.UserRole, Trim(s.input))
  {
    var b := WidgetBody(s);
    match ChatRoute.Parse(b)
    case None =>
    case Some(req) =>
      ChatRoute.GuestWithoutIdNeverRejected(store, req, env);
      ChatRoute.ConversationCreatedOnlyWithoutId(store, None, req, env);
      if ChatRoute.Admitted(store, None, req, env) {
        ChatRoute.HandleEffect(store, None, req, env);
      }
  }
}
