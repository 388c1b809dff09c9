/** The chat widget: the client side of the free-question gate.

    Its state is the list of shown messages, the input field, the `loading`
    flag, the question counter and the "sign in to continue" flag. A submit
    is ignored when the trimmed input is empty or a request is in flight; a
    guest with two questions asked only gets the sign-in prompt; otherwise
    the question and an empty reply bubble are shown, the endpoint is
    called, and the reply is revealed one character at a time. */
module ChatInterface {
  import opened Base

  const FreeQuestions := 2
  const Apology := "Désolé, une erreur est survenue. Veuillez réessayer."

  datatype Role = UserRole | AssistantRole

  datatype Message = Message(role: Role, content: string)

  datatype State = State(
    messages: seq<Message>,
    input: string,
    loading: bool,
    questionCount: int,
    showAuthRequired: bool)

  /** What the call to the chat endpoint comes to: a 2xx answer carrying a
      `response` text, anything that throws on the way (a non-2xx answer,
      a network failure, an answer without text), or no answer at all (the
      server keeps polling a run that never settles). */
  datatype Reply = Answered(response: string) | Failed | NoAnswer

  /** The state the widget mounts with. */
  function Initial(initialQuestionCount: int): State
  {
    State([], "", false, initialQuestionCount, false)
  }

  /** The early return: nothing typed, or a request still in flight. */
  predicate Ignored(s: State)
  {
    Trim(s.input) == [] || s.loading
  }

  /** The guest limit check. */
  predicate Blocked(s: State, signedIn: bool)
  {
    !signedIn && s.questionCount >= FreeQuestions
  }

  predicate Admits(s: State, signedIn: bool)
  {
    !Ignored(s) && !Blocked(s, signedIn)
  }

  /** The message list with its last entry replaced by an assistant message
      holding `text`. */
  function Frame(ms: seq<Message>, text: string): seq<Message>
    requires |ms| > 0
  {
    ms[|ms| - 1 := Message(AssistantRole, text)]
  }

  predicate IsPrefix(a: string, b: string)
  {
    |a| <= |b| && b[..|a|] == a
  }

  /** The synchronous part of an admitted submit: clear the input, show the
      question and an empty reply bubble, mark the request in flight. */
  function Start(s: State): State
  {
    s.(input := "",
       messages := s.messages + [Message(UserRole, Trim(s.input)), Message(AssistantRole, "")],
       loading := true)
  }

  /** The rest: reveal the reply and count the question, or show the
      apology; in both cases the request is no longer in flight. Without an
      answer the `await` never returns, so nothing after it happens. */
  function Finish(s: State, reply: Reply): State
    requires |s.messages| > 0
  {
    match reply
    case Answered(text) =>
      s.(messages := Frame(s.messages, text), questionCount := s.questionCount + 1, loading := false)
    case Failed =>
      s.(messages := Frame(s.messages, Apology), loading := false)
    case NoAnswer => s
  }

  /** `handleSubmit`, from the event to the end of its `finally`. */
  function HandleSubmit(s: State, signedIn: bool, reply: Reply): (r: State)
    ensures Ignored(s) ==> r == s
    ensures !Ignored(s) && Blocked(s, signedIn) ==> r == s.(showAuthRequired := true)
    ensures !Ignored(s) && !reply.NoAnswer? ==> !r.loading
    ensures Admits(s, signedIn) ==>
      && |r.messages| == |s.messages| + 2
      && r.messages[..|s.messages|] == s.messages
      && r.messages[|s.messages|] == Message(UserRole, Trim(s.input))
      && r.messages[|s.messages| + 1].role == AssistantRole
      && r.input == []
      && r.showAuthRequired == s.showAuthRequired
    ensures Admits(s, signedIn) && reply.Answered? ==>
      r.messages[|s.messages| + 1].content == reply.response
      && r.questionCount == s.questionCount + 1
    ensures Admits(s, signedIn) && reply.Failed? ==>
      r.messages[|s.messages| + 1].content == Apology
      && r.questionCount == s.questionCount
    ensures Admits(s, signedIn) && reply.NoAnswer? ==>
      r.messages[|s.messages| + 1].content == ""
      && r.questionCount == s.questionCount
      && r.loading
  {
    if Ignored(s) then s
    else if Blocked(s, signedIn) then s.(showAuthRequired := true)
    else Finish(Start(s), reply)
  }

  /** `typewriterEffect` with its callback: starting from the shown list,
      whose last entry is the empty reply bubble, each character of `text`
      produces one rendered frame. Every frame keeps the earlier messages and
      shows a prefix of `text` one character longer than the frame before;
      the final list shows `text` in full. */
  method Typewriter(shown: seq<Message>, text: string)
      returns (frames: seq<seq<Message>>, last: seq<Message>)
    requires |shown| > 0 && shown[|shown| - 1] == Message(AssistantRole, "")
    ensures |frames| == |text|
    ensures forall k :: 0 <= k < |frames| ==>
      && |frames[k]| == |shown|
      && frames[k][..|shown| - 1] == shown[..|shown| - 1]
      && frames[k][|shown| - 1].role == AssistantRole
      && IsPrefix(frames[k][|shown| - 1].content, text)
      && |frames[k][|shown| - 1].content| == k + 1
    ensures last == Frame(shown, text)
  {
    var current := "";
    var display := shown;
    frames := [];
    for i := 0 to |text|
      invariant current == text[..i]
      invariant display == Frame(shown, current)
      invariant |frames| == i
      invariant forall k :: 0 <= k < i ==> frames[k] == Frame(shown, text[..k + 1])
    {
      current := current + [text[i]];
      display := display[|display| - 1 := Message(AssistantRole, current)];
      frames := frames + [display];
    }
    last := display;
    assert text[..|text|] == text;
  }

  /** `handleSubmit` step by step, rendering the typewriter frames on the
      way; its final state is the one `HandleSubmit` describes. */
  method Submit(s: State, signedIn: bool, reply: Reply) returns (frames: seq<seq<Message>>, r: State)
    ensures r == HandleSubmit(s, signedIn, reply)
    ensures !Admits(s, signedIn) || !reply.Answered? ==> frames == []
    ensures Admits(s, signedIn) && reply.Answered? ==>
      |frames| == |reply.response|
      && forall k :: 0 <= k < |frames| ==>
           |frames[k]| == |s.messages| + 2
           && frames[k][..|s.messages| + 1] == r.messages[..|s.messages| + 1]
           && IsPrefix(frames[k][|s.messages| + 1].content, reply.response)
  {
    frames := [];
    if Ignored(s) {
      return [], s;
    }
    if Blocked(s, signedIn) {
      return [], s.(showAuthRequired := true);
    }
    var started := Start(s);
    match reply {
      case Answered(text) =>
        var last;
        frames, last := Typewriter(started.messages, text);
        r := started.(messages := last, questionCount := started.questionCount + 1, loading := false);
      case Failed =>
        r := started.(messages := Frame(started.messages, Apology), loading := false);
      case NoAnswer =>
        r := started;
    }
  }

  /* ---------- a guest session ---------- */

  /** What the user does: type into the field, or submit (the endpoint then
      answers with `reply`). */
  datatype Event = Typed(text: string) | Submitted(reply: Reply)

  /** One event. Once the sign-in prompt shows, the form is gone, and while
      a request is in flight the field and the button are disabled: no event
      reaches the widget. */
  function Step(s: State, signedIn: bool, e: Event): State
  {
    if s.showAuthRequired || s.loading then s
    else match e
      case Typed(text) => s.(input := text)
      case Submitted(reply) => HandleSubmit(s, signedIn, reply)
  }

  function Run(s: State, signedIn: bool, events: seq<Event>): State
    decreases |events|
  {
    if |events| == 0 then s else Run(Step(s, signedIn, events[0]), signedIn, events[1..])
  }

  /** A guest starting with at most two questions asked never gets past two,
      and the counter never goes down; the widget is left waiting only by a
      request that got no answer. */
  lemma {:induction false} GuestCountBounded(s: State, events: seq<Event>)
    requires 0 <= s.questionCount <= FreeQuestions
    ensures s.questionCount <= Run(s, false, events).questionCount <= FreeQuestions
    ensures !s.loading && (forall i :: 0 <= i < |events| ==> events[i] != Submitted(NoAnswer))
            ==> !Run(s, false, events).loading
    decreases |events|
  {
    if |events| > 0 {
      GuestCountBounded(Step(s, false, events[0]), events[1..]);
      assert forall i :: 0 <= i < |events[1..]| ==> events[1..][i] == events[i + 1];
    }
  }

  /** Once the sign-in prompt shows, the form is gone: nothing the user
      types or submits changes the widget any more. */
  lemma {:induction false} AuthPromptFreezes(s: State, signedIn: bool, events: seq<Event>)
    requires s.showAuthRequired
    ensures Run(s, signedIn, events) == s
    decreases |events|
  {
    if |events| > 0 {
      AuthPromptFreezes(s, signedIn, events[1..]);
    }
  }

  /** A request that gets no answer freezes the widget: whatever the user
      then does, nothing changes, so no further question is ever asked. */
  lemma {:induction false} UnansweredRequestFreezes(s: State, signedIn: bool, events: seq<Event>)
    requires Admits(s, signedIn)
    ensures var hung := HandleSubmit(s, signedIn, NoAnswer);
      hung.loading && Run(hung, signedIn, events) == hung
    decreases |events|
  {
    var hung := HandleSubmit(s, signedIn, NoAnswer);
    if |events| > 0 {
      assert Step(hung, signedIn, events[0]) == hung;
      UnansweredRequestFreezes(s, signedIn, events[1..]);
    }
  }

  /** "Questions gratuites restantes": shown to guests while the form is
      there, as two minus the counter. */
  function Remaining(s: State, signedIn: bool): Option<int>
  {
    if !signedIn && !s.showAuthRequired then Some(FreeQuestions - s.questionCount) else None
  }

  /** From the page's initial counter of zero, a guest is never shown a
      negative number of remaining questions. */
  lemma GuestRemainingNeverNegative(events: seq<Event>)
    ensures var s := Run(Initial(0), false, events);
      Remaining(s, false).Some? ==> 0 <= Remaining(s, false).value <= FreeQuestions
  {
    GuestCountBounded(Initial(0), events);
  }
}
