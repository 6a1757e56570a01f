/**
  The chat page's message log: seeding it when the page starts, and the
  transitions one sent message drives it through (the user message, the
  loading placeholder, and the products or error reply that replaces the
  placeholder). Network calls are events carrying their outcome; clock
  readings are event parameters.
 */
module ChatLog {
  import opened Wrappers
  import opened Seqs
  import opened Strings
  import opened RecommendApi

  datatype Role = User | Bot

  datatype Kind = TextKind | ProductsKind

  /** A chat message; `kind`, `products` and `summary` are set on product replies only. */
  datatype Message = Message(
    id: string,
    role: Role,
    timestamp: nat,
    content: Option<string>,
    isLoading: Option<bool>,
    kind: Option<Kind>,
    products: Option<seq<Product>>,
    summary: Option<string>)

  /** `msg.isLoading` is truthy. */
  predicate IsLoading(m: Message) { m.isLoading == Some(true) }

  function NotLoading(m: Message): bool { !IsLoading(m) }

  /** `prev.filter((msg) => !msg.isLoading)`. */
  function Settled(ms: seq<Message>): seq<Message>
  {
    Filter(ms, NotLoading)
  }

  predicate NoneLoading(ms: seq<Message>)
  {
    forall i :: 0 <= i < |ms| ==> !IsLoading(ms[i])
  }

  const WelcomeText := "\U{1F44B} Welcome to Retail Assistant! Ask me anything to get personalized recommendations."
  const ErrorText := "\U{274C} Error fetching recommendations."
  const ChatUserId := "user-1"
  const ChatTopK := 5

  function Welcome(now: nat): Message
  {
    Message("welcome-1", Bot, now, Some(WelcomeText), None, None, None, None)
  }

  /** The user's message, identified by the clock reading taken when it is sent. */
  function UserMessage(content: string, now: nat): Message
  {
    Message(NatToString(now), User, now, Some(content), None, None, None, None)
  }

  function Placeholder(now: nat): Message
  {
    Message(NatToString(now + 1), Bot, now, Some(""), Some(true), None, None, None)
  }

  function ProductsMessage(results: seq<Product>, now: nat): Message
  {
    Message(NatToString(now + 2), Bot, now, Some(""), None, Some(ProductsKind), Some(results), None)
  }

  function ErrorMessage(now: nat): Message
  {
    Message(NatToString(now + 3), Bot, now, Some(ErrorText), None, None, None, None)
  }

  /** The request a chat message sends: the content verbatim, user "user-1", top 5. */
  function ChatRequest(content: string): Payload
  {
    Payload(Some(ChatUserId), content, Some(ChatTopK))
  }

  /**
    Where the page is: starting up, idle, or waiting on one of the three
    awaited calls of a send (saving the user message, fetching
    recommendations, saving the bot message).
   */
  datatype Phase =
    | Starting
    | Idle
    | SavingUserMessage(content: string)
    | AwaitingRecommendations(request: Payload)
    | SavingBotMessage

  datatype ChatState = ChatState(
    messages: seq<Message>,
    isLoading: bool,
    isInitialLoading: bool,
    sessionId: Option<string>,
    phase: Phase)

  const Initial := ChatState([], false, true, None, Starting)

  /**
    How `initializeChat` ended: creating the session failed; the session was
    created (its `_id`, possibly missing) but loading the history failed; or
    both succeeded, the history possibly being `null`.
   */
  datatype InitOutcome =
    | SessionFailed
    | HistoryFailed(session: Option<string>)
    | HistoryLoaded(session: Option<string>, history: Option<seq<Message>>)

  datatype Event =
    | Initialized(outcome: InitOutcome, now: nat)
    | Submit(content: string, now: nat)
    | UserMessageSaved(ok: bool, now: nat)
    | RecommendationsArrived(reply: Reply, now: nat)
    | BotMessageSaved(ok: bool, now: nat)

  /** `sessionId` is truthy. */
  predicate HasSession(st: ChatState)
  {
    st.sessionId.Some? && st.sessionId.value != ""
  }

  /** The messages `initializeChat` leaves behind. */
  function SeededMessages(current: seq<Message>, o: InitOutcome, now: nat): seq<Message>
  {
    match o
    case HistoryLoaded(_, history) =>
      if history.None? || |history.value| == 0 then [Welcome(now)] else history.value
    case _ => current
  }

  /**
    The end of `initializeChat`: the start-up screen is dismissed whatever
    happened; a loaded history that is missing or empty becomes the welcome
    message and any other is taken verbatim; a failure leaves the log as it
    was; the session id is the created session's, kept only when creation
    failed.
   */
  function Initialize(st: ChatState, o: InitOutcome, now: nat): (r: ChatState)
    ensures !r.isInitialLoading && r.phase.Idle? && r.isLoading == st.isLoading
    ensures o.HistoryLoaded? && (o.history.None? || o.history.value == []) ==> r.messages == [Welcome(now)]
    ensures o.HistoryLoaded? && o.history.Some? && o.history.value != [] ==> r.messages == o.history.value
    ensures !o.HistoryLoaded? ==> r.messages == st.messages
    ensures o.SessionFailed? ==> r.sessionId == st.sessionId
    ensures !o.SessionFailed? ==> r.sessionId == o.session
  {
    var session := match o
      case SessionFailed => st.sessionId
      case HistoryFailed(s) => s
      case HistoryLoaded(s, _) => s;
    st.(messages := SeededMessages(st.messages, o, now), sessionId := session,
        isInitialLoading := false, phase := Idle)
  }

  /**
    One transition of the page. An event that cannot occur in the current
    phase (a reply to a call that is not pending, a second start-up, a send
    while one is in progress) leaves the state unchanged. Nothing happens
    before start-up ends, the session never changes after it, a send is
    taken up exactly when the page is idle with a session, and every
    transition keeps the invariant `Inv`.
   */
  function Step(st: ChatState, e: Event): (r: ChatState)
    ensures st.phase.Starting? && !e.Initialized? ==> r == st
    ensures !st.phase.Starting? ==>
              !r.phase.Starting? && r.sessionId == st.sessionId && r.isInitialLoading == st.isInitialLoading
    ensures e.Submit? ==> (r.messages != st.messages <==> st.phase.Idle? && HasSession(st))
    ensures Inv(st) ==> Inv(r)
  {
    match e
    case Initialized(o, now) =>
      if st.phase.Starting? then Initialize(st, o, now) else st
    case Submit(content, now) =>
      if !st.phase.Idle? || !HasSession(st) then st
      else st.(messages := st.messages + [UserMessage(content, now)],
               phase := SavingUserMessage(content))
    case UserMessageSaved(ok, now) =>
      if !st.phase.SavingUserMessage? then st
      else if !ok then st.(phase := Idle)
      else st.(messages := st.messages + [Placeholder(now)], isLoading := true,
               phase := AwaitingRecommendations(ChatRequest(st.phase.content)))
    case RecommendationsArrived(reply, now) =>
      if !st.phase.AwaitingRecommendations? then st
      else if reply.Answered? then
        st.(messages := Settled(st.messages) + [ProductsMessage(reply.results, now)],
            phase := SavingBotMessage)
      else
        st.(messages := Settled(st.messages) + [ErrorMessage(now)], isLoading := false,
            phase := Idle)
    case BotMessageSaved(ok, now) =>
      if !st.phase.SavingBotMessage? then st
      else if ok then st.(isLoading := false, phase := Idle)
      else st.(messages := Settled(st.messages) + [ErrorMessage(now)], isLoading := false,
               phase := Idle)
  }

  function Run(st: ChatState, es: seq<Event>): ChatState
    decreases |es|
  {
    if |es| == 0 then st else Run(Step(st, es[0]), es[1..])
  }

  /**
    Unfolding helpers for the scenario lemmas below: running two, three or
    four events is applying `Step` to each in turn. They state no property
    of the page of their own.
   */
  lemma RunTwo(st: ChatState, a: Event, b: Event)
    ensures Run(st, [a, b]) == Step(Step(st, a), b)
  {
    var s1 := Step(st, a);
    assert Run(st, [a, b]) == Run(s1, [a, b][1..]);
    assert [a, b][1..] == [b];
    assert Run(s1, [b]) == Run(Step(s1, b), [b][1..]);
    assert [b][1..] == [];
  }

  lemma RunThree(st: ChatState, a: Event, b: Event, c: Event)
    ensures Run(st, [a, b, c]) == Step(Step(Step(st, a), b), c)
  {
    assert [a, b, c][1..] == [b, c];
    RunTwo(Step(st, a), b, c);
  }

  lemma RunFour(st: ChatState, a: Event, b: Event, c: Event, d: Event)
    ensures Run(st, [a, b, c, d]) == Step(Step(Step(Step(st, a), b), c), d)
  {
    assert [a, b, c, d][1..] == [b, c, d];
    RunThree(Step(st, a), b, c, d);
  }

  // ---------------------------------------------------------------------------
  // Settled messages only ever grow
  // ---------------------------------------------------------------------------

  /** Helper for StepKeepsSettled: a reply filters a log that is already filtered. */
  lemma SettledIdempotent(ms: seq<Message>)
    ensures Settled(Settled(ms)) == Settled(ms)
  {
    FilterAllPass(Settled(ms), NotLoading);
  }

  /** Appending one message `m` to the log adds `m` to the settled messages unless it is loading. */
  lemma SettledSnoc(ms: seq<Message>, m: Message)
    ensures Settled(ms + [m]) == if IsLoading(m) then Settled(ms) else Settled(ms) + [m]
  {
    FilterConcat(ms, [m], NotLoading);
    assert Filter([m], NotLoading) == if NotLoading(m) then [m] else [];
  }

  /**
    Once the page has started, no transition removes or reorders a message
    that is not loading: the settled messages before a step are a prefix of
    those after it.
   */
  lemma StepKeepsSettled(st: ChatState, e: Event)
    requires !st.phase.Starting?
    ensures Settled(st.messages) <= Settled(Step(st, e).messages)
    ensures !Step(st, e).phase.Starting?
  {
    var ms := st.messages;
    match e
    case Initialized(_, _) =>
    case Submit(content, now) =>
      SettledSnoc(ms, UserMessage(content, now));
    case UserMessageSaved(_, now) =>
      SettledSnoc(ms, Placeholder(now));
    case RecommendationsArrived(reply, now) =>
      if st.phase.AwaitingRecommendations? {
        var m := if reply.Answered? then ProductsMessage(reply.results, now) else ErrorMessage(now);
        SettledSnoc(Settled(ms), m);
        SettledIdempotent(ms);
      }
    case BotMessageSaved(_, now) =>
      SettledSnoc(Settled(ms), ErrorMessage(now));
      SettledIdempotent(ms);
  }

  lemma {:induction false} RunKeepsSettled(st: ChatState, es: seq<Event>)
    requires !st.phase.Starting?
    ensures Settled(st.messages) <= Settled(Run(st, es).messages)
    decreases |es|
  {
    if |es| > 0 {
      StepKeepsSettled(st, es[0]);
      RunKeepsSettled(Step(st, es[0]), es[1..]);
    }
  }

  /**
    A message the user sends stays in the log through every later
    transition, whatever the network does.
   */
  lemma SentMessageSurvives(st: ChatState, content: string, now: nat, es: seq<Event>)
    requires st.phase.Idle? && HasSession(st)
    ensures UserMessage(content, now) in Run(Step(st, Submit(content, now)), es).messages
  {
    var u := UserMessage(content, now);
    var st' := Step(st, Submit(content, now));
    SettledSnoc(st.messages, u);
    RunKeepsSettled(st', es);
    var fin := Settled(Run(st', es).messages);
    assert fin[|Settled(st.messages)|] == u;
  }

  // ---------------------------------------------------------------------------
  // Invariant
  // ---------------------------------------------------------------------------

  /** The message a send appended first: from the user, with the sent content. */
  predicate SentBy(m: Message, content: string)
  {
    m.role == User && m.content == Some(content)
  }

  /**
    `isInitialLoading` holds exactly while starting; `isLoading` (which
    disables the input) holds exactly while recommendations are fetched or
    the reply is saved; a send in progress has a session; while saving the
    user message it is last, while fetching it is followed by the one
    placeholder; while the reply is saved no message is loading.
   */
  predicate Inv(st: ChatState)
  {
    var ms := st.messages;
    && (st.isInitialLoading <==> st.phase.Starting?)
    && (st.isLoading <==> (st.phase.AwaitingRecommendations? || st.phase.SavingBotMessage?))
    && (st.phase.Starting? ==> ms == [] && st.sessionId.None?)
    && (st.phase.SavingUserMessage? || st.phase.AwaitingRecommendations? || st.phase.SavingBotMessage?
        ==> HasSession(st))
    && (st.phase.SavingUserMessage? ==>
          |ms| > 0 && SentBy(ms[|ms| - 1], st.phase.content))
    && (st.phase.AwaitingRecommendations? ==>
          && |ms| > 1 && IsLoading(ms[|ms| - 1]) && ms[|ms| - 1].role == Bot
          && SentBy(ms[|ms| - 2], st.phase.request.query)
          && st.phase.request == ChatRequest(st.phase.request.query))
    && (st.phase.SavingBotMessage? ==> |ms| > 0 && NoneLoading(ms) && ms[|ms| - 1].kind == Some(ProductsKind))
  }

  /** The page starts out satisfying Inv. */
  lemma InitialInv()
    ensures Inv(Initial)
  {
  }

  lemma SettledNoneLoading(ms: seq<Message>)
    ensures NoneLoading(Settled(ms))
  {
  }

  lemma {:induction false} RunPreservesInv(st: ChatState, es: seq<Event>)
    requires Inv(st)
    ensures Inv(Run(st, es))
    decreases |es|
  {
    if |es| > 0 {
      RunPreservesInv(Step(st, es[0]), es[1..]);
    }
  }

  /** Every state the page reaches from its initial state satisfies Inv. */
  lemma ReachableInv(es: seq<Event>)
    ensures Inv(Run(Initial, es))
  {
    InitialInv();
    RunPreservesInv(Initial, es);
  }

  /**
    A step that ends a send (the recommendations failed, or the reply was
    saved or failed to save) leaves no loading message and clears
    `isLoading`, so the input is enabled again.
   */
  lemma ResolvedSendIsClear(st: ChatState, e: Event)
    requires Inv(st)
    requires st.phase.AwaitingRecommendations? || st.phase.SavingBotMessage?
    requires Step(st, e).phase.Idle?
    ensures NoneLoading(Step(st, e).messages) && !Step(st, e).isLoading
  {
    var ms := st.messages;
    SettledNoneLoading(ms);
    match e
    case RecommendationsArrived(_, now) =>
      SettledSnoc(Settled(ms), ErrorMessage(now));
    case BotMessageSaved(_, now) =>
      SettledSnoc(Settled(ms), ErrorMessage(now));
    case _ =>
  }

  // ---------------------------------------------------------------------------
  // Start-up and whole sends
  // ---------------------------------------------------------------------------

  /**
    Start-up: a missing or empty history leaves exactly the welcome message,
    any other history is taken verbatim, and a failure leaves the log empty;
    in every case the start-up screen is dismissed.
   */
  lemma StartUp(o: InitOutcome, now: nat)
    ensures var st := Run(Initial, [Initialized(o, now)]);
      && !st.isInitialLoading && st.phase.Idle? && !st.isLoading
      && (o.HistoryLoaded? && (o.history.None? || o.history.value == []) ==> st.messages == [Welcome(now)])
      && (o.HistoryLoaded? && o.history.Some? && o.history.value != [] ==> st.messages == o.history.value)
      && (!o.HistoryLoaded? ==> st.messages == [])
  {
  }

  /** Without a truthy session id, sending changes nothing. */
  lemma SendWithoutSession(st: ChatState, content: string, now: nat)
    requires !HasSession(st)
    ensures Step(st, Submit(content, now)) == st
  {
  }

  /**
    Once the user message is saved the log holds the user message followed
    by exactly one loading placeholder, `isLoading` is set and the request
    for the content is pending.
   */
  lemma SendShowsPlaceholder(st: ChatState, content: string, t1: nat, t2: nat)
    requires st.phase.Idle? && HasSession(st)
    ensures Run(st, [Submit(content, t1), UserMessageSaved(true, t2)])
         == st.(messages := st.messages + [UserMessage(content, t1), Placeholder(t2)],
                isLoading := true, phase := AwaitingRecommendations(ChatRequest(content)))
  {
    RunTwo(st, Submit(content, t1), UserMessageSaved(true, t2));
    assert st.messages + [UserMessage(content, t1)] + [Placeholder(t2)]
        == st.messages + [UserMessage(content, t1), Placeholder(t2)];
  }

  /** If saving the user message fails, the send stops: no placeholder, no request. */
  lemma SendAbortsWhenSaveFails(st: ChatState, content: string, t1: nat, t2: nat)
    requires st.phase.Idle? && HasSession(st)
    ensures Run(st, [Submit(content, t1), UserMessageSaved(false, t2)])
         == st.(messages := st.messages + [UserMessage(content, t1)])
  {
    RunTwo(st, Submit(content, t1), UserMessageSaved(false, t2));
  }

  /** After the placeholder is shown, the settled log is the old one with the user's message added. */
  lemma SettledAfterPlaceholder(st: ChatState, content: string, t1: nat, t2: nat)
    requires st.phase.Idle? && HasSession(st)
    ensures var s2 := Step(Step(st, Submit(content, t1)), UserMessageSaved(true, t2));
      && Settled(s2.messages) == Settled(st.messages) + [UserMessage(content, t1)]
      && s2.phase.AwaitingRecommendations? && s2.sessionId == st.sessionId
  {
    var u := UserMessage(content, t1);
    var s2 := Step(Step(st, Submit(content, t1)), UserMessageSaved(true, t2));
    assert s2.messages == st.messages + [u] + [Placeholder(t2)];
    SettledSnoc(st.messages + [u], Placeholder(t2));
    SettledSnoc(st.messages, u);
  }

  /**
    When the recommendations arrive, every loading message is removed, the
    others keep their order, and one products message carrying the results
    follows the user message; the reply is then being saved.
   */
  lemma SendShowsProducts(st: ChatState, content: string, t1: nat, t2: nat, t3: nat,
                          results: seq<Product>)
    requires st.phase.Idle? && HasSession(st)
    ensures var s3 := Run(st, [Submit(content, t1), UserMessageSaved(true, t2),
                               RecommendationsArrived(Answered(results), t3)]);
      && s3.messages == Settled(st.messages) + [UserMessage(content, t1), ProductsMessage(results, t3)]
      && s3.isLoading && s3.phase.SavingBotMessage? && s3.sessionId == st.sessionId
  {
    var c := RecommendationsArrived(Answered(results), t3);
    RunThree(st, Submit(content, t1), UserMessageSaved(true, t2), c);
    SettledAfterPlaceholder(st, content, t1, t2);
    var s2 := Step(Step(st, Submit(content, t1)), UserMessageSaved(true, t2));
    assert s2.isLoading;
    var s3 := Step(s2, c);
    assert s3.messages == Settled(s2.messages) + [ProductsMessage(results, t3)];
    assert s3.messages == Settled(st.messages) + [UserMessage(content, t1), ProductsMessage(results, t3)];
  }

  /** A send that succeeds ends idle with the products message last and the input enabled. */
  lemma SendSucceeds(st: ChatState, content: string, t1: nat, t2: nat, t3: nat, t4: nat,
                     results: seq<Product>)
    requires st.phase.Idle? && HasSession(st)
    ensures var fin := Run(st, [Submit(content, t1), UserMessageSaved(true, t2),
                                RecommendationsArrived(Answered(results), t3), BotMessageSaved(true, t4)]);
      && fin.messages == Settled(st.messages) + [UserMessage(content, t1), ProductsMessage(results, t3)]
      && !fin.isLoading && fin.phase.Idle? && fin.sessionId == st.sessionId
  {
    RunFour(st, Submit(content, t1), UserMessageSaved(true, t2),
            RecommendationsArrived(Answered(results), t3), BotMessageSaved(true, t4));
    RunThree(st, Submit(content, t1), UserMessageSaved(true, t2), RecommendationsArrived(Answered(results), t3));
    SendShowsProducts(st, content, t1, t2, t3, results);
  }

  /** A failed request: the loading messages are removed and the one error message follows the user message. */
  lemma SendFails(st: ChatState, content: string, t1: nat, t2: nat, t3: nat)
    requires st.phase.Idle? && HasSession(st)
    ensures var fin := Run(st, [Submit(content, t1), UserMessageSaved(true, t2),
                                RecommendationsArrived(Failed, t3)]);
      && fin.messages == Settled(st.messages) + [UserMessage(content, t1), ErrorMessage(t3)]
      && !fin.isLoading && fin.phase.Idle?
  {
    var c := RecommendationsArrived(Failed, t3);
    RunThree(st, Submit(content, t1), UserMessageSaved(true, t2), c);
    SettledAfterPlaceholder(st, content, t1, t2);
    var s2 := Step(Step(st, Submit(content, t1)), UserMessageSaved(true, t2));
    var s3 := Step(s2, c);
    assert s3.messages == Settled(s2.messages) + [ErrorMessage(t3)];
    assert s3.messages == Settled(st.messages) + [UserMessage(content, t1), ErrorMessage(t3)];
  }

  /**
    Saving the reply is inside the same `try` as the request: when it fails,
    the error message is appended after the products message already shown.
   */
  lemma SendReplyNotSaved(st: ChatState, content: string, t1: nat, t2: nat, t3: nat, t4: nat,
                          results: seq<Product>)
    requires st.phase.Idle? && HasSession(st)
    ensures var fin := Run(st, [Submit(content, t1), UserMessageSaved(true, t2),
                                RecommendationsArrived(Answered(results), t3), BotMessageSaved(false, t4)]);
      && fin.messages == Settled(st.messages)
                         + [UserMessage(content, t1), ProductsMessage(results, t3), ErrorMessage(t4)]
      && !fin.isLoading && fin.phase.Idle?
  {
    var u := UserMessage(content, t1);
    var p := ProductsMessage(results, t3);
    var before := Settled(st.messages);
    RunFour(st, Submit(content, t1), UserMessageSaved(true, t2),
            RecommendationsArrived(Answered(results), t3), BotMessageSaved(false, t4));
    RunThree(st, Submit(content, t1), UserMessageSaved(true, t2), RecommendationsArrived(Answered(results), t3));
    SendShowsProducts(st, content, t1, t2, t3, results);
    SettledKeepsSettled(st.messages, [u, p]);
    assert before + [u, p] + [ErrorMessage(t4)] == before + [u, p, ErrorMessage(t4)];
  }

  lemma {:induction false} RunConcat(st: ChatState, a: seq<Event>, b: seq<Event>)
    ensures Run(st, a + b) == Run(Run(st, a), b)
    decreases |a|
  {
    if |a| == 0 {
      assert a + b == b;
    } else {
      assert (a + b)[0] == a[0];
      assert (a + b)[1..] == a[1..] + b;
      RunConcat(Step(st, a[0]), a[1..], b);
    }
  }

  /** The four events of a send that succeeds. */
  function SuccessfulSend(content: string, t1: nat, t2: nat, t3: nat, t4: nat, results: seq<Product>): seq<Event>
  {
    [Submit(content, t1), UserMessageSaved(true, t2), RecommendationsArrived(Answered(results), t3),
     BotMessageSaved(true, t4)]
  }

  /**
    Two successful sends one after the other, starting from a log with no
    loading message, append exactly four messages in submission order: each
    user message followed by its products message.
   */
  lemma TwoSuccessfulSends(st: ChatState, c1: string, c2: string, r1: seq<Product>, r2: seq<Product>,
                           t1: nat, t2: nat, t3: nat, t4: nat, t5: nat, t6: nat, t7: nat, t8: nat)
    requires st.phase.Idle? && HasSession(st) && NoneLoading(st.messages)
    ensures Run(st, SuccessfulSend(c1, t1, t2, t3, t4, r1) + SuccessfulSend(c2, t5, t6, t7, t8, r2)).messages
         == st.messages + [UserMessage(c1, t1), ProductsMessage(r1, t3), UserMessage(c2, t5), ProductsMessage(r2, t7)]
  {
    var ms := st.messages;
    var first := [UserMessage(c1, t1), ProductsMessage(r1, t3)];
    var second := [UserMessage(c2, t5), ProductsMessage(r2, t7)];
    RunConcat(st, SuccessfulSend(c1, t1, t2, t3, t4, r1), SuccessfulSend(c2, t5, t6, t7, t8, r2));
    SendSucceeds(st, c1, t1, t2, t3, t4, r1);
    FilterAllPass(ms, NotLoading);
    var st1 := Run(st, SuccessfulSend(c1, t1, t2, t3, t4, r1));
    assert st1.messages == ms + first;
    SendSucceeds(st1, c2, t5, t6, t7, t8, r2);
    assert NoneLoading(ms + first);
    FilterAllPass(ms + first, NotLoading);
    assert ms + first + second == ms + [UserMessage(c1, t1), ProductsMessage(r1, t3), UserMessage(c2, t5), ProductsMessage(r2, t7)];
  }

  /** Appending messages that are not loading to settled ones leaves nothing to remove. */
  lemma SettledKeepsSettled(ms: seq<Message>, extra: seq<Message>)
    requires NoneLoading(extra)
    ensures Settled(Settled(ms) + extra) == Settled(ms) + extra
  {
    SettledNoneLoading(ms);
    FilterAllPass(Settled(ms) + extra, NotLoading);
  }
}
