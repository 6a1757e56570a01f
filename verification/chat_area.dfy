/**
  The chat area's projection of the message log to what it displays: a
  fallback welcome when the log is empty, otherwise one block per message,
  where a products message becomes its product cards followed by a summary
  bubble and any other message is shown as it is.
 */
module ChatArea {
  import opened Wrappers
  import opened RecommendApi
  import opened ChatLog

  const FallbackText := "\U{1F44B} Welcome to Retail Assistant! Ask me anything and I'll recommend the best products for you."
  const SummaryDefault := "Here are the best options I found based on your query!"

  /** What one message is displayed as. */
  datatype Block = Cards(cards: seq<Product>, summary: Message) | Bubble(message: Message)

  function Fallback(now: nat): Message
  {
    Message("welcome-1", Bot, now, Some(FallbackText), None, None, None, None)
  }

  predicate IsProducts(m: Message) { m.kind == Some(ProductsKind) }

  /**
    One message's block. A products message shows `products` (none when
    missing) and a bot summary whose id is the message id with "-summary"
    appended, whose timestamp is the message's, and whose text is `summary`
    when present and the default phrase otherwise.
   */
  function Project(m: Message): (b: Block)
    ensures IsProducts(m) <==> b.Cards?
    ensures !IsProducts(m) ==> b == Bubble(m)
    ensures IsProducts(m) ==>
              && b.cards == m.products.GetOr([])
              && b.summary.id == m.id + "-summary" && b.summary.role == Bot
              && b.summary.timestamp == m.timestamp
              && (m.summary.Some? ==> b.summary.content == m.summary)
              && (m.summary.None? ==> b.summary.content == Some(SummaryDefault))
  {
    if IsProducts(m) then
      Cards(m.products.GetOr([]),
            Message(m.id + "-summary", Bot, m.timestamp, Some(m.summary.GetOr(SummaryDefault)),
                    None, None, None, None))
    else Bubble(m)
  }

  function ProjectAll(ms: seq<Message>): (r: seq<Block>)
    ensures |r| == |ms|
    ensures forall i :: 0 <= i < |ms| ==> r[i] == Project(ms[i])
  {
    if |ms| == 0 then [] else [Project(ms[0])] + ProjectAll(ms[1..])
  }

  /**
    The whole area: exactly the fallback welcome for an empty log, otherwise
    one block per message in log order.
   */
  function Display(ms: seq<Message>, now: nat): (r: seq<Block>)
    ensures |ms| == 0 ==> r == [Bubble(Fallback(now))]
    ensures |ms| > 0 ==> |r| == |ms| && forall i :: 0 <= i < |ms| ==> r[i] == Project(ms[i])
  {
    if |ms| == 0 then [Bubble(Fallback(now))] else ProjectAll(ms)
  }

  /** Every product card shown, in display order. */
  function AllCards(bs: seq<Block>): seq<Product>
  {
    if |bs| == 0 then []
    else (if bs[0].Cards? then bs[0].cards else []) + AllCards(bs[1..])
  }

  /** Every product carried by a products message of the log, in log order. */
  function LoggedProducts(ms: seq<Message>): seq<Product>
  {
    if |ms| == 0 then []
    else (if IsProducts(ms[0]) then ms[0].products.GetOr([]) else []) + LoggedProducts(ms[1..])
  }

  /**
    The cards on screen are exactly the products of the log's products
    messages, in order: none is dropped, duplicated or reordered.
   */
  lemma {:induction false} CardsAreLoggedProducts(ms: seq<Message>, now: nat)
    ensures AllCards(Display(ms, now)) == LoggedProducts(ms)
  {
    if |ms| > 0 {
      ProjectAllCards(ms);
    }
  }

  lemma {:induction false} ProjectAllCards(ms: seq<Message>)
    ensures AllCards(ProjectAll(ms)) == LoggedProducts(ms)
    decreases |ms|
  {
    if |ms| > 0 {
      var bs := ProjectAll(ms);
      assert bs[1..] == ProjectAll(ms[1..]);
      ProjectAllCards(ms[1..]);
    }
  }

  /**
    Summary ids never collide with each other when message ids do not: the
    "-summary" suffix is added to distinct ids.
   */
  lemma SummaryIdsDistinct(m1: Message, m2: Message)
    requires IsProducts(m1) && IsProducts(m2) && m1.id != m2.id
    ensures Project(m1).summary.id != Project(m2).summary.id
  {
    var a := Project(m1).summary.id;
    var b := Project(m2).summary.id;
    if |m1.id| == |m2.id| {
      var i :| 0 <= i < |m1.id| && m1.id[i] != m2.id[i];
      assert a[i] != b[i];
    } else {
      assert |a| != |b|;
    }
  }

  /**
    After start-up the fallback welcome is shown exactly when start-up
    failed: a loaded history, even an empty one, leaves a message to show.
   */
  lemma FallbackOnlyAfterFailedStart(o: InitOutcome, now: nat, later: nat)
    ensures var ms := Run(Initial, [Initialized(o, now)]).messages;
      && (ms == [] <==> !o.HistoryLoaded?)
      && (ms == [] ==> Display(ms, later) == [Bubble(Fallback(later))])
  {
    StartUp(o, now);
  }

  /**
    After a successful send the area ends with the user's message and then
    the results as cards under the default summary, whose id is the products
    message's id with "-summary" appended.
   */
  lemma SuccessfulSendDisplayed(st: ChatState, content: string, t1: nat, t2: nat, t3: nat, t4: nat,
                                results: seq<Product>, later: nat)
    requires st.phase.Idle? && HasSession(st)
    ensures var ms := Run(st, [Submit(content, t1), UserMessageSaved(true, t2),
                               RecommendationsArrived(Answered(results), t3), BotMessageSaved(true, t4)]).messages;
      var d := Display(ms, later);
      && |d| >= 2
      && d[|d| - 2] == Bubble(UserMessage(content, t1))
      && d[|d| - 1].Cards? && d[|d| - 1].cards == results
      && d[|d| - 1].summary.content == Some(SummaryDefault)
      && d[|d| - 1].summary.id == ProductsMessage(results, t3).id + "-summary"
  {
    SendSucceeds(st, content, t1, t2, t3, t4, results);
  }

  /** After a failed request the area ends with the user's message and the error bubble. */
  lemma FailedSendDisplayed(st: ChatState, content: string, t1: nat, t2: nat, t3: nat, later: nat)
    requires st.phase.Idle? && HasSession(st)
    ensures var ms := Run(st, [Submit(content, t1), UserMessageSaved(true, t2),
                               RecommendationsArrived(Failed, t3)]).messages;
      var d := Display(ms, later);
      && |d| >= 2
      && d[|d| - 2] == Bubble(UserMessage(content, t1))
      && d[|d| - 1] == Bubble(ErrorMessage(t3))
  {
    SendFails(st, content, t1, t2, t3);
  }
}
