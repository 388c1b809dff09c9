/** `POST /api/chat`: the server side of the free-question gate.

    A request carries a message and, optionally, a conversation id. A guest
    (no session) is refused with 403 when the conversation it names already
    holds two user messages. Otherwise the conversation is created when no id
    was given, the user message is stored, and the assistant service is run
    and polled until it leaves `queued`/`in_progress`; only a `completed` run
    whose newest message starts with a text part yields a stored assistant
    reply and a 200.

    The store is a map from conversation id to conversation. The assistant
    service is an oracle fixed in advance: the sequence of statuses the
    successive polls would read and the newest thread message it would list. */
module ChatRoute {
  import opened Base
  import Auth

  const MaxMessageLength := 1000
  const FreeQuestions := 2
  const GuestPrefix := "guest-"
  const QuotaText := "Limite de 2 questions gratuites atteinte. Veuillez vous connecter."
  const GenerationText := "Erreur lors de la génération de la réponse"
  const InternalText := "Erreur interne du serveur"

  datatype Role = UserRole | AssistantRole

  datatype Message = Message(role: Role, content: string)

  /** A stored conversation: its owner (absent for guests), the session key
      it was opened under, and its messages in creation order. */
  datatype Conversation = Conversation(userId: Option<string>, sessionId: string, messages: seq<Message>)

  type Store = map<string, Conversation>

  /** The JSON body as the schema sees it. */
  datatype ChatBody = ChatBody(message: Field, conversationId: Field)

  /** A body the schema accepted. */
  datatype ChatRequest = ChatRequest(message: string, conversationId: Option<string>)

  /** The statuses an assistant run can report. */
  datatype RunStatus =
    | Queued | InProgress | RequiresAction | Cancelling | Cancelled
    | Failed | Completed | Incomplete | Expired

  /** One part of a thread message: text, or some non-text attachment. */
  datatype ContentPart = TextPart(value: string) | ImageFilePart | ImageUrlPart

  datatype ThreadMessage = ThreadMessage(content: seq<ContentPart>)

  /** What the assistant service does for one request. `Unavailable`: one of
      its calls (thread creation, message post, run creation, a status read,
      the message listing) throws. `Responds`: `statuses[i]` is what the
      i-th status read returns, and `latest` is the first entry of the message
      listing (`None` when the listing is empty). */
  datatype Service = Unavailable | Responds(statuses: seq<RunStatus>, latest: Option<ThreadMessage>)

  /** Everything the handler reads from its surroundings: the two clock
      readings taken for guest ids, the id the database assigns to a new
      conversation, and the assistant service. */
  datatype Env = Env(lookupClock: nat, createClock: nat, newId: string, service: Service)

  datatype Json = Answer(response: string) | Error(error: string)

  /** The HTTP answer, or `StillPolling` when every status read in the
      oracle still says `queued`/`in_progress` (the handler would keep
      waiting). */
  datatype Outcome = Responded(status: nat, json: Json) | StillPolling

  const Internal := Responded(500, Error(InternalText))

  /* ---------- schema ---------- */

  /** `chatSchema.parse`: the message must be a string of 1 to 1000
      characters; the conversation id may be missing or a string. */
  function Parse(b: ChatBody): (r: Option<ChatRequest>)
    ensures r.Some? <==>
      b.message.Str? && 1 <= |b.message.s| <= MaxMessageLength && !b.conversationId.NotString?
    ensures r.Some? ==> r.value.message == b.message.s
    ensures r.Some? && b.conversationId.Str? ==> r.value.conversationId == Some(b.conversationId.s)
    ensures r.Some? ==> (r.value.conversationId == None <==> b.conversationId.Absent?)
  {
    if b.message.Str? && 1 <= |b.message.s| <= MaxMessageLength then
      match b.conversationId
      case Absent => Some(ChatRequest(b.message.s, None))
      case Str(id) => Some(ChatRequest(b.message.s, Some(id)))
      case NotString => None
    else None
  }

  /* ---------- the quota ---------- */

  /** Number of user-role messages: the guest quota counter. */
  function UserCount(ms: seq<Message>): nat
  {
    if |ms| == 0 then 0
    else UserCount(ms[..|ms| - 1]) + (if ms[|ms| - 1].role == UserRole then 1 else 0)
  }

  lemma UserCountAppend(ms: seq<Message>, m: Message)
    ensures UserCount(ms + [m]) == UserCount(ms) + (if m.role == UserRole then 1 else 0)
  {
  }

  function DigitChar(d: nat): char
    requires d < 10
  {
    "0123456789"[d]
  }

  /** Decimal rendering of a clock reading. */
  function Digits(n: nat): string
  {
    (if n < 10 then "" else Digits(n / 10)) + [DigitChar(n % 10)]
  }

  /** `'guest-' + Date.now()`. */
  function GuestId(clock: nat): string
  {
    GuestPrefix + Digits(clock)
  }

  /** The id was given and is truthy (the empty string counts as missing). */
  predicate Supplied(id: Option<string>)
  {
    id.Some? && Truthy(id.value)
  }

  /** The id the guest check looks up. */
  function LookupId(req: ChatRequest, env: Env): string
  {
    if Supplied(req.conversationId) then req.conversationId.value else GuestId(env.lookupClock)
  }

  predicate OverQuota(store: Store, id: string)
  {
    id in store && UserCount(store[id].messages) >= FreeQuestions
  }

  /** The guest check refuses the request. */
  predicate Rejects(store: Store, session: Option<Auth.Session>, req: ChatRequest, env: Env)
  {
    session.None? && OverQuota(store, LookupId(req, env))
  }

  /* ---------- conversation and messages ---------- */

  /** The conversation the request writes to. */
  function Target(req: ChatRequest, env: Env): string
  {
    if Supplied(req.conversationId) then req.conversationId.value else env.newId
  }

  /** `session?.user?.id`. */
  function OwnerId(session: Option<Auth.Session>): Option<string>
  {
    if session.Some? then session.value.user.id else None
  }

  /** `session?.user?.id || 'guest-' + Date.now()`. */
  function SessionKey(session: Option<Auth.Session>, clock: nat): string
  {
    var owner := OwnerId(session);
    if Supplied(owner) then owner.value else GuestId(clock)
  }

  /** The request gets as far as storing its user message: it passes the
      guest check, and either names a stored conversation or gets a fresh
      id for a new one (a clash on either breaks a database constraint). */
  predicate Admitted(store: Store, session: Option<Auth.Session>, req: ChatRequest, env: Env)
  {
    && !Rejects(store, session, req, env)
    && (if Supplied(req.conversationId) then req.conversationId.value in store
        else env.newId !in store)
  }

  /** The messages the target conversation holds before the request. */
  function Prior(store: Store, req: ChatRequest, env: Env): seq<Message>
  {
    var id := Target(req, env);
    if id in store then store[id].messages else []
  }

  function AppendTo(store: Store, id: string, m: Message): (r: Store)
    requires id in store
    ensures r.Keys == store.Keys
    ensures r[id].messages == store[id].messages + [m]
    ensures r[id].userId == store[id].userId && r[id].sessionId == store[id].sessionId
    ensures forall k :: k in store && k != id ==> r[k] == store[k]
  {
    store[id := store[id].(messages := store[id].messages + [m])]
  }

  /* ---------- the assistant service ---------- */

  predicate Pending(s: RunStatus)
  {
    s == InProgress || s == Queued
  }

  datatype PollResult = Settled(at: nat) | NeverSettles

  /** The polling loop over the status reads: it stops at the first status
      that is neither `in_progress` nor `queued`. */
  function Poll(statuses: seq<RunStatus>): (r: PollResult)
    ensures r.Settled? ==> r.at < |statuses| && !Pending(statuses[r.at])
    ensures r.Settled? ==> forall i :: 0 <= i < r.at ==> Pending(statuses[i])
    ensures r.NeverSettles? ==> forall i :: 0 <= i < |statuses| ==> Pending(statuses[i])
  {
    if |statuses| == 0 then NeverSettles
    else if !Pending(statuses[0]) then Settled(0)
    else
      match Poll(statuses[1..])
      case NeverSettles => NeverSettles
      case Settled(k) => Settled(k + 1)
  }

  /** How the completion phase ends: a text reply, a 500 "generation" error,
      a thrown error (500 internal), or still waiting. */
  datatype Completion = Replied(text: string) | NotGenerated | Crashed | Waiting

  predicate CompletedWithText(service: Service, text: string)
  {
    && service.Responds?
    && Poll(service.statuses).Settled?
    && service.statuses[Poll(service.statuses).at] == Completed
    && service.latest.Some?
    && |service.latest.value.content| > 0
    && service.latest.value.content[0] == TextPart(text)
  }

  /** The completion phase throws, which the catch-all handler answers with
      the internal 500: a service call fails, or the listed message of a
      `completed` run has no content part, so reading the type of its first
      part fails. */
  predicate Throws(service: Service)
  {
    || service.Unavailable?
    || (&& Poll(service.statuses).Settled?
        && service.statuses[Poll(service.statuses).at] == Completed
        && service.latest.Some?
        && |service.latest.value.content| == 0)
  }

  /** The run settled but yields no text, which is answered with the
      generation 500: it settled on a status other than `completed`, or it
      completed and the listing is empty or starts with a non-text part. */
  predicate SettledWithoutText(service: Service)
  {
    && service.Responds?
    && Poll(service.statuses).Settled?
    && (|| service.statuses[Poll(service.statuses).at] != Completed
        || service.latest.None?
        || (|service.latest.value.content| > 0 && !service.latest.value.content[0].TextPart?))
  }

  /** The completion phase. A reply comes only from a run that settled as
      `completed` with a listed message whose first part is text, and it is
      that text; each way of failing is told apart by the error it leads
      to. */
  function Complete(service: Service): (r: Completion)
    ensures r.Replied? ==> CompletedWithText(service, r.text)
    ensures forall text :: CompletedWithText(service, text) ==> r == Replied(text)
    ensures service.Unavailable? ==> r == Crashed
    ensures r == Crashed <==> Throws(service)
    ensures r == NotGenerated <==> SettledWithoutText(service)
    ensures r == Waiting <==> service.Responds? && Poll(service.statuses).NeverSettles?
  {
    match service
    case Unavailable => Crashed
    case Responds(statuses, latest) =>
      match Poll(statuses)
      case NeverSettles => Waiting
      case Settled(k) =>
        if statuses[k] != Completed then NotGenerated
        else if latest.None? then NotGenerated
        // `content[0].type` on an empty part list throws
        else if |latest.value.content| == 0 then Crashed
        else match latest.value.content[0]
          case TextPart(v) => Replied(v)
          case _ => NotGenerated
  }

  /* ---------- the handler ---------- */

  /** The handler once the body has been parsed. Returns the outcome and the
      store afterwards; a request that is not admitted leaves the store as
      it was. */
  function Handle(store: Store, session: Option<Auth.Session>, req: ChatRequest, env: Env)
    : (r: (Outcome, Store))
    ensures !Admitted(store, session, req, env) ==> r.1 == store
    ensures !Admitted(store, session, req, env) ==> r.0.Responded? && r.0.status in {403, 500}
    ensures (!Rejects(store, session, req, env) && !Admitted(store, session, req, env))
            ==> r == (Internal, store)
  {
    if Rejects(store, session, req, env) then (Responded(403, Error(QuotaText)), store)
    else if !Admitted(store, session, req, env) then (Internal, store)
    else
      var id := Target(req, env);
      var current :=
        if Supplied(req.conversationId) then store
        else store[id := Conversation(OwnerId(session), SessionKey(session, env.createClock), [])];
      var withUser := AppendTo(current, id, Message(UserRole, req.message));
      match Complete(env.service)
      case Crashed => (Internal, withUser)
      case NotGenerated => (Responded(500, Error(GenerationText)), withUser)
      case Waiting => (StillPolling, withUser)
      case Replied(v) =>
        (Responded(200, Answer(v)), AppendTo(withUser, id, Message(AssistantRole, v)))
  }

  /** `POST`. `body` is `None` when the request body is not JSON. A body the
      schema refuses ends in the catch-all handler: 500, nothing stored. */
  function Post(store: Store, session: Option<Auth.Session>, body: Option<ChatBody>, env: Env)
    : (r: (Outcome, Store))
    ensures body.None? || Parse(body.value).None? ==> r == (Internal, store)
    ensures body.Some? && Parse(body.value).Some? ==> r == Handle(store, session, Parse(body.value).value, env)
  {
    if body.None? then (Internal, store)
    else match Parse(body.value)
      case None => (Internal, store)
      case Some(req) => Handle(store, session, req, env)
  }

  /* ---------- properties ---------- */

  /** The 403 answer is given exactly to a guest whose looked-up
      conversation exists and already holds two user messages, and it
      changes nothing in the store. */
  lemma QuotaRejectionExactly(store: Store, session: Option<Auth.Session>, req: ChatRequest, env: Env)
    ensures var r := Handle(store, session, req, env);
      (r.0.Responded? && r.0.status == 403)
      <==> (session.None? && LookupId(req, env) in store
            && UserCount(store[LookupId(req, env)].messages) >= FreeQuestions)
    ensures var r := Handle(store, session, req, env);
      r.0.Responded? && r.0.status == 403 ==> r.1 == store && r.0.json == Error(QuotaText)
  {
  }

  /** A signed-in request is never refused by the quota, whatever the
      conversation holds. */
  lemma SignedInNeverRejected(store: Store, session: Option<Auth.Session>, req: ChatRequest, env: Env)
    requires session.Some?
    ensures var r := Handle(store, session, req, env);
      !(r.0.Responded? && r.0.status == 403)
    ensures Admitted(store, session, req, env)
            <==> (if Supplied(req.conversationId) then req.conversationId.value in store
                  else env.newId !in store)
  {
  }

  /** Without a conversation id the guest check looks up a fresh guest id,
      which no stored conversation has, so it can never refuse. */
  lemma GuestWithoutIdNeverRejected(store: Store, req: ChatRequest, env: Env)
    requires !Supplied(req.conversationId)
    requires GuestId(env.lookupClock) !in store
    ensures !Rejects(store, None, req, env)
    ensures var r := Handle(store, None, req, env);
      !(r.0.Responded? && r.0.status == 403)
  {
  }

  /** A conversation is created only when no id was given; it is owned by the
      signed-in user (none for a guest), keyed by the user id or a guest id,
      and it holds the request's messages only. No stored conversation other
      than the target changes. */
  lemma ConversationCreatedOnlyWithoutId(store: Store, session: Option<Auth.Session>,
                                         req: ChatRequest, env: Env)
    ensures var r := Handle(store, session, req, env);
      && r.1.Keys <= store.Keys + {Target(req, env)}
      && (forall k :: k in store && k != Target(req, env) ==> r.1[k] == store[k])
    ensures var r := Handle(store, session, req, env);
      r.1.Keys != store.Keys ==>
        && !Supplied(req.conversationId)
        && r.1.Keys == store.Keys + {env.newId}
        && env.newId !in store
        && r.1[env.newId].userId == OwnerId(session)
        && r.1[env.newId].sessionId == SessionKey(session, env.createClock)
        && r.1[env.newId].messages[0] == Message(UserRole, req.message)
    ensures var r := Handle(store, session, req, env);
      session.None? && r.1.Keys != store.Keys ==> r.1[env.newId].userId == None
  {
  }

  /** An admitted request stores its user message at the end of the target
      conversation before the service is consulted, so the message stays
      whatever the service does; besides it, at most one assistant message
      is stored. */
  lemma UserMessagePersisted(store: Store, session: Option<Auth.Session>, req: ChatRequest, env: Env)
    requires Admitted(store, session, req, env)
    ensures var r := Handle(store, session, req, env);
      var id := Target(req, env);
      var before := Prior(store, req, env);
      && id in r.1
      && |before| < |r.1[id].messages| <= |before| + 2
      && r.1[id].messages[..|before| + 1] == before + [Message(UserRole, req.message)]
  {
  }

  /** The 200 answer is given exactly when the run completed with a text
      reply; the reply is then the last stored message, as an assistant
      message right after the user message, and the answer carries the
      stored text. Every other outcome adds no assistant message. */
  lemma AssistantReplyOnlyOnTextCompletion(store: Store, session: Option<Auth.Session>,
                                           req: ChatRequest, env: Env)
    requires Admitted(store, session, req, env)
    ensures var r := Handle(store, session, req, env);
      var id := Target(req, env);
      var asked := Prior(store, req, env) + [Message(UserRole, req.message)];
      && (r.0.Responded? && r.0.status == 200
          <==> exists text :: CompletedWithText(env.service, text))
      && (r.0.Responded? && r.0.status == 200 ==>
            r.0.json.Answer? && r.1[id].messages == asked + [Message(AssistantRole, r.0.json.response)]
            && CompletedWithText(env.service, r.0.json.response))
      && (!(r.0.Responded? && r.0.status == 200) ==> r.1[id].messages == asked)
  {
    var r := Handle(store, session, req, env);
    if exists text :: CompletedWithText(env.service, text) {
      var text :| CompletedWithText(env.service, text);
      assert Complete(env.service) == Replied(text);
    }
  }

  /** A run that settles on any status other than `completed` is answered
      with the 500 generation error, and one still waiting leaves the
      request unanswered; both keep the user message. */
  lemma OtherStatusesFail(store: Store, session: Option<Auth.Session>, req: ChatRequest, env: Env)
    requires Admitted(store, session, req, env)
    requires env.service.Responds?
    ensures var r := Handle(store, session, req, env);
      var p := Poll(env.service.statuses);
      var kept := Prior(store, req, env) + [Message(UserRole, req.message)];
      && (p.Settled? && env.service.statuses[p.at] != Completed ==>
            r.0 == Responded(500, Error(GenerationText)) && r.1[Target(req, env)].messages == kept)
      && (p.NeverSettles? ==> r.0 == StillPolling && r.1[Target(req, env)].messages == kept)
  {
  }

  /** An admitted request is answered 200 with a text reply, left waiting,
      or answered 500; the internal error exactly when the service throws,
      the generation error exactly when the run settled without text. No
      other status is ever given. */
  lemma AdmittedOutcomes(store: Store, session: Option<Auth.Session>, req: ChatRequest, env: Env)
    requires Admitted(store, session, req, env)
    ensures var r := Handle(store, session, req, env).0;
      r.Responded? ==> r.status == 200 || r.status == 500
    ensures var r := Handle(store, session, req, env).0;
      r == Internal <==> Throws(env.service)
    ensures var r := Handle(store, session, req, env).0;
      r == Responded(500, Error(GenerationText)) <==> SettledWithoutText(env.service)
    ensures var r := Handle(store, session, req, env).0;
      r == StillPolling <==> env.service.Responds? && Poll(env.service.statuses).NeverSettles?
    ensures var r := Handle(store, session, req, env).0;
      r.Responded? && r.status == 200 ==> r.json.Answer?
  {
  }

  /* ---------- invariants over the store ---------- */

  /** Every assistant message directly follows a user message. */
  predicate AssistantAfterUser(ms: seq<Message>)
  {
    forall i :: 0 <= i < |ms| && ms[i].role == AssistantRole ==> 0 < i && ms[i - 1].role == UserRole
  }

  predicate WellOrdered(store: Store)
  {
    forall id :: id in store ==> AssistantAfterUser(store[id].messages)
  }

  /** Guest conversations never hold more than the free questions. */
  predicate GuestsWithinQuota(store: Store)
  {
    forall id :: id in store && store[id].userId.None? ==> UserCount(store[id].messages) <= FreeQuestions
  }

  lemma AppendKeepsOrder(ms: seq<Message>, added: seq<Message>)
    requires AssistantAfterUser(ms)
    requires |added| > 0 && added[0].role == UserRole
    requires AssistantAfterUser(added)
    ensures AssistantAfterUser(ms + added)
  {
    var all := ms + added;
    forall i | 0 <= i < |all| && all[i].role == AssistantRole
      ensures 0 < i && all[i - 1].role == UserRole
    {
      if i >= |ms| {
        assert all[i] == added[i - |ms|];
        if i - |ms| > 0 {
          assert all[i - 1] == added[i - |ms| - 1];
        }
      }
    }
  }

  /** The messages an admitted request adds to its conversation. */
  function Added(req: ChatRequest, env: Env): seq<Message>
  {
    [Message(UserRole, req.message)]
      + (match Complete(env.service)
         case Replied(v) => [Message(AssistantRole, v)]
         case _ => [])
  }

  /** The whole effect of an admitted request on the store: the target
      conversation gains the added messages (created first, with the
      request's owner, when it is new) and nothing else changes. */
  lemma HandleEffect(store: Store, session: Option<Auth.Session>, req: ChatRequest, env: Env)
    requires Admitted(store, session, req, env)
    ensures var r := Handle(store, session, req, env).1;
      var id := Target(req, env);
      && r.Keys == store.Keys + {id}
      && (forall k :: k in store && k != id ==> r[k] == store[k])
      && r[id].messages == Prior(store, req, env) + Added(req, env)
      && r[id].userId == (if id in store then store[id].userId else OwnerId(session))
      && (id in store ==> r[id].sessionId == store[id].sessionId)
  {
  }

  /** Each request appends a user message, or a user message and its reply,
      so no conversation ever gets an assistant message without the user
      message before it. */
  lemma HandleKeepsOrder(store: Store, session: Option<Auth.Session>, req: ChatRequest, env: Env)
    requires WellOrdered(store)
    ensures WellOrdered(Handle(store, session, req, env).1)
  {
    if Admitted(store, session, req, env) {
      var r := Handle(store, session, req, env).1;
      var id := Target(req, env);
      HandleEffect(store, session, req, env);
      var added := Added(req, env);
      assert AssistantAfterUser(added);
      AppendKeepsOrder(Prior(store, req, env), added);
      forall k | k in r
        ensures AssistantAfterUser(r[k].messages)
      {
      }
    }
  }

  /** A request adds exactly one user message to the quota counter. */
  lemma AddedCountsOne(before: seq<Message>, req: ChatRequest, env: Env)
    ensures UserCount(before + Added(req, env)) == UserCount(before) + 1
  {
    var u := Message(UserRole, req.message);
    UserCountAppend(before, u);
    match Complete(env.service)
    case Replied(v) =>
      UserCountAppend(before + [u], Message(AssistantRole, v));
      assert before + Added(req, env) == before + [u] + [Message(AssistantRole, v)];
    case _ =>
      assert before + Added(req, env) == before + [u];
  }

  /** A guest request never takes a guest conversation past the free
      questions: the check refuses at two, and a new conversation starts at
      one. */
  lemma GuestHandleKeepsQuota(store: Store, req: ChatRequest, env: Env)
    requires GuestsWithinQuota(store)
    ensures GuestsWithinQuota(Handle(store, None, req, env).1)
  {
    if Admitted(store, None, req, env) {
      var r := Handle(store, None, req, env).1;
      var id := Target(req, env);
      var before := Prior(store, req, env);
      HandleEffect(store, None, req, env);
      AddedCountsOne(before, req, env);
      if id in store {
        assert LookupId(req, env) == id;
        assert !OverQuota(store, id);
      }
      assert UserCount(r[id].messages) <= FreeQuestions;
      forall k | k in r && r[k].userId.None?
        ensures UserCount(r[k].messages) <= FreeQuestions
      {
      }
    }
  }

  /** The guest scenario: a first question without id opens a conversation,
      a second question on it is admitted, and a third is refused with 403,
      the conversation keeping the two questions and their replies. */
  lemma ThirdGuestQuestionRefused(store: Store, q1: string, q2: string, q3: string,
                                  e1: Env, e2: Env, e3: Env)
    requires 1 <= |q1| <= MaxMessageLength && 1 <= |q2| <= MaxMessageLength
    requires GuestId(e1.lookupClock) !in store && e1.newId !in store && Truthy(e1.newId)
    requires Complete(e1.service).Replied? && Complete(e2.service).Replied?
    ensures
      var s1 := Handle(store, None, ChatRequest(q1, None), e1).1;
      var r2 := Handle(s1, None, ChatRequest(q2, Some(e1.newId)), e2);
      var r3 := Handle(r2.1, None, ChatRequest(q3, Some(e1.newId)), e3);
      && r2.0 == Responded(200, Answer(Complete(e2.service).text))
      && r3.0 == Responded(403, Error(QuotaText))
      && r3.1 == r2.1
      && r3.1[e1.newId].messages
         == [Message(UserRole, q1), Message(AssistantRole, Complete(e1.service).text),
             Message(UserRole, q2), Message(AssistantRole, Complete(e2.service).text)]
  {
    var id := e1.newId;
    var u1 := Message(UserRole, q1);
    var a1 := Message(AssistantRole, Complete(e1.service).text);
    var u2 := Message(UserRole, q2);
    var a2 := Message(AssistantRole, Complete(e2.service).text);
    var s1 := Handle(store, None, ChatRequest(q1, None), e1).1;
    assert s1[id].messages == [u1, a1];
    var s2 := Handle(s1, None, ChatRequest(q2, Some(id)), e2).1;
    assert UserCount([u1, a1]) == 1 by {
      UserCountAppend([], u1);
      UserCountAppend([u1], a1);
      assert [] + [u1] == [u1] && [u1] + [a1] == [u1, a1];
    }
    assert s2[id].messages == [u1, a1, u2, a2];
    assert [u1, a1, u2, a2][..3] == [u1, a1, u2];
    assert [u1, a1, u2][..2] == [u1, a1];
    assert UserCount(s2[id].messages) == 2;
  }

  /** The stored messages need not alternate user/assistant: a failed run
      keeps its user message, so the next question stands right after it. */
  lemma UserMessagesNeedNotAlternate()
    ensures
      var e1 := Env(0, 0, "c1", Unavailable);
      var e2 := Env(1, 1, "c2", Responds([Completed], Some(ThreadMessage([TextPart("r")]))));
      var s1 := Handle(map[], None, ChatRequest("q1", None), e1).1;
      var s2 := Handle(s1, None, ChatRequest("q2", Some("c1")), e2).1;
      s2["c1"].messages
        == [Message(UserRole, "q1"), Message(UserRole, "q2"), Message(AssistantRole, "r")]
  {
    var e1 := Env(0, 0, "c1", Unavailable);
    var s1 := Handle(map[], None, ChatRequest("q1", None), e1).1;
    assert GuestId(0) == "guest-0";
    assert s1["c1"].messages == [Message(UserRole, "q1")];
    assert UserCount(s1["c1"].messages) == 1 by {
      assert [Message(UserRole, "q1")][..0] == [];
    }
  }
}
