/** The bounded queue in front of each peer (crates/wx-agent/src/engine.rs:567-626, 3524-3556, 4422-4439). */
module SendQueues {
  import opened Wrappers

  const OUTBOUND_QUEUE_DEPTH := 256

  datatype InputEvent =
    | MoveTo(x: int, y: int)
    | MoveBy(dx: int, dy: int)
    | Scroll(dx: int, dy: int)
    | Button(code: nat, down: bool)
    | Key(code: nat, down: bool)
    | ReleaseControl

  datatype Outbound = Input(event: InputEvent) | Control(message: nat)
  {
    /** Only an absolute position may be lost: a later one supersedes it. */
    predicate IsSheddable() { Input? && event.MoveTo? }
  }

  datatype Queued = Sent | ShedMotion | Unresponsive | AlreadyClosed

  /** The queue, the message its writer has taken but not finished with, and what the session has accepted. */
  datatype Link = Link(queue: seq<Outbound>, open: bool, writing: Option<Outbound>, delivered: seq<Outbound>)
  {
    function InHand(): seq<Outbound> { if writing.Some? then [writing.value] else [] }

    function Accepted(): seq<Outbound> { delivered + InHand() + queue }
  }

  function Enqueue(link: Link, msg: Outbound): (Queued, Link) {
    if !link.open then (AlreadyClosed, link)
    else if |link.queue| < OUTBOUND_QUEUE_DEPTH then (Sent, link.(queue := link.queue + [msg]))
    else if msg.IsSheddable() then (ShedMotion, link)
    else (Unresponsive, link)
  }

  /** A peer's queue, offered to without ever blocking, and drained by one writer. */
  class PeerQueue {
    var queue: seq<Outbound>
    var open: bool
    var writing: Option<Outbound>
    ghost var delivered: seq<Outbound>

    ghost function View(): Link
      reads this
    {
      Link(queue, open, writing, delivered)
    }

    constructor ()
      ensures View() == Link([], true, None, [])
    {
      queue, open, writing, delivered := [], true, None, [];
    }

    method Offer(msg: Outbound) returns (r: Queued)
      modifies this
      ensures (r, View()) == Enqueue(old(View()), msg)
    {
      if !open {
        return AlreadyClosed;
      }
      if |queue| >= OUTBOUND_QUEUE_DEPTH {
        return if msg.IsSheddable() then ShedMotion else Unresponsive;
      }
      queue := queue + [msg];
      return Sent;
    }

    /** The writer takes the next message; its slot is free from here on. */
    method Take()
      requires Enabled(View(), Takes)
      modifies this
      ensures View() == Next(old(View()), Takes)
    {
      writing, queue := Some(queue[0]), queue[1..];
    }

    /** The session took it, or failed; after a failure the writer stops and the queue goes with it. */
    method Finish(ok: bool)
      requires Enabled(View(), Finishes(ok))
      modifies this
      ensures View() == Next(old(View()), Finishes(ok))
    {
      if ok {
        delivered := delivered + [writing.value];
      } else {
        queue, open := [], false;
      }
      writing := None;
    }
  }

  datatype Event = Offers(msg: Outbound) | Takes | Finishes(ok: bool)

  predicate Enabled(link: Link, e: Event) {
    match e
    case Offers(_) => true
    case Takes => link.open && link.writing.None? && link.queue != []
    case Finishes(_) => link.open && link.writing.Some?
  }

  function Next(link: Link, e: Event): Link
    requires Enabled(link, e)
  {
    match e
    case Offers(msg) => Enqueue(link, msg).1
    case Takes => link.(writing := Some(link.queue[0]), queue := link.queue[1..])
    case Finishes(ok) =>
      if ok then link.(writing := None, delivered := link.delivered + [link.writing.value])
      else link.(writing := None, queue := [], open := false)
  }

  // --- Runs ----------------------------------------------------------------

  /** A link with everything ever offered to it, and what became of each offer. */
  datatype History = History(link: Link, offers: seq<(Outbound, Queued)>)

  function Recorded(h: History, e: Event): History
    requires Enabled(h.link, e)
  {
    History(Next(h.link, e), if e.Offers? then h.offers + [(e.msg, Enqueue(h.link, e.msg).0)] else h.offers)
  }

  ghost predicate Run(h: History, events: seq<Event>, end: History)
    decreases events
  {
    if events == [] then h == end else Enabled(h.link, events[0]) && Run(Recorded(h, events[0]), events[1..], end)
  }

  const START := History(Link([], true, None, []), [])

  /** The offers answered `Sent`, in order. */
  function Taken(offers: seq<(Outbound, Queued)>): seq<Outbound> {
    if offers == [] then []
    else Taken(offers[..|offers| - 1]) + if offers[|offers| - 1].1.Sent? then [offers[|offers| - 1].0] else []
  }

  function Offered(offers: seq<(Outbound, Queued)>): seq<Outbound> {
    if offers == [] then [] else Offered(offers[..|offers| - 1]) + [offers[|offers| - 1].0]
  }

  /** Whether a message latches state: control messages, and all input but absolute positions. */
  predicate Latches(msg: Outbound) {
    match msg
    case Control(_) => true
    case Input(Key(_, _)) => true
    case Input(Button(_, _)) => true
    case Input(MoveBy(_, _)) => true
    case Input(Scroll(_, _)) => true
    case Input(ReleaseControl) => true
    case Input(MoveTo(_, _)) => false
  }

  /** Everything that latches state. */
  function Latching(msgs: seq<Outbound>): seq<Outbound> {
    if msgs == [] then []
    else Latching(msgs[..|msgs| - 1]) + if Latches(msgs[|msgs| - 1]) then [msgs[|msgs| - 1]] else []
  }

  /** Exactly what was taken on is delivered, in hand or queued, in the order offered; after a failure what
      was delivered is the front of it. Only positions are shed, and never more than the depth is held. */
  ghost predicate Faithful(h: History) {
    && |h.link.queue| <= OUTBOUND_QUEUE_DEPTH
    && (h.link.open ==> h.link.Accepted() == Taken(h.offers))
    && (!h.link.open ==> h.link.delivered <= Taken(h.offers))
    && forall o <- h.offers :: o.1.ShedMotion? ==> !Latches(o.0)
  }

  lemma StepFaithful(h: History, e: Event)
    requires Faithful(h) && Enabled(h.link, e)
    ensures Faithful(Recorded(h, e))
  {
    var next := Recorded(h, e);
    if e.Offers? {
      assert next.offers[..|next.offers| - 1] == h.offers;
      assert forall o <- next.offers :: o in h.offers || o == next.offers[|h.offers|];
    } else if e.Takes? {
      assert h.link.queue == [h.link.queue[0]] + h.link.queue[1..];
    }
  }

  lemma {:induction false} RunFaithful(h: History, events: seq<Event>, end: History)
    requires Faithful(h) && Run(h, events, end)
    ensures Faithful(end)
    decreases events
  {
    if events != [] {
      StepFaithful(h, events[0]);
      RunFaithful(Recorded(h, events[0]), events[1..], end);
    }
  }

  ghost predicate Unbroken(offers: seq<(Outbound, Queued)>) {
    forall o <- offers :: o.1.Sent? || o.1.ShedMotion?
  }

  lemma {:induction false} NothingLatchingIsShed(offers: seq<(Outbound, Queued)>)
    requires forall o <- offers :: o.1.ShedMotion? ==> !Latches(o.0)
    ensures |Latching(Taken(offers))| <= |Latching(Offered(offers))|
    ensures Unbroken(offers) ==> Latching(Taken(offers)) == Latching(Offered(offers))
    ensures (exists o <- offers :: Latches(o.0) && !o.1.Sent?) ==>
              |Latching(Taken(offers))| < |Latching(Offered(offers))|
  {
    if offers != [] {
      var n := |offers| - 1;
      var init, last := offers[..n], offers[n];
      assert forall o <- offers :: o in init || o == last;
      assert forall o <- init :: o in offers;
      NothingLatchingIsShed(init);
      assert Offered(offers)[..|Offered(offers)| - 1] == Offered(init);
      if last.1.Sent? {
        assert Taken(offers)[..|Taken(offers)| - 1] == Taken(init);
      } else {
        assert Taken(offers) == Taken(init);
      }
    }
  }

  /** Over any run of offers and drains: while the link is open and no offer was answered `Unresponsive` or
      `AlreadyClosed`, every message that latches state has been delivered, is in hand or is queued, in the
      order offered. The first latching message turned away breaks that for good. */
  lemma LatchingSurvivesExactlyUntilRefused(events: seq<Event>, end: History)
    requires Run(START, events, end) && end.link.open
    ensures |end.link.queue| <= OUTBOUND_QUEUE_DEPTH
    ensures Latching(end.link.Accepted()) == Latching(Offered(end.offers))
       <==> forall o <- end.offers :: !Latches(o.0) || o.1.Sent?
  {
    RunFaithful(START, events, end);
    NothingLatchingIsShed(end.offers);
    RunAnswers(START, events, end);
  }

  /** While open, an offer is turned away only for a full queue; closed is for good. */
  ghost predicate Answers(h: History) {
    h.link.open ==> forall o <- h.offers :: !o.1.AlreadyClosed? && (o.1.Unresponsive? ==> Latches(o.0))
  }

  lemma {:induction false} RunAnswers(h: History, events: seq<Event>, end: History)
    requires Answers(h) && Run(h, events, end)
    ensures Answers(end)
    decreases events
  {
    if events != [] {
      var next := Recorded(h, events[0]);
      if events[0].Offers? {
        assert forall o <- next.offers :: o in h.offers || o == next.offers[|h.offers|];
      }
      RunAnswers(next, events[1..], end);
    }
  }

  /** What an offer is answered with, by what it is and what it finds. */
  ghost predicate RightlyAnswered(link: Link, msg: Outbound, answer: Queued) {
    match answer
    case Sent => link.open && |link.queue| < 256
    case ShedMotion => link.open && |link.queue| == 256 && !Latches(msg)
    case Unresponsive => link.open && |link.queue| == 256 && Latches(msg)
    case AlreadyClosed => !link.open
  }

  /** Over any run: with room, whatever is offered is taken on. With 256 waiting, a position is dropped, never taken
      for a peer that has stopped answering, and anything that latches state is, never dropped. */
  lemma {:induction false} OfferIsRightlyAnswered(events: seq<Event>, end: History, msg: Outbound)
    requires Run(START, events, end)
    ensures RightlyAnswered(end.link, msg, Enqueue(end.link, msg).0)
    ensures Enqueue(end.link, msg).1.Accepted() == end.link.Accepted() + if Enqueue(end.link, msg).0.Sent? then [msg] else []
  {
    RunFaithful(START, events, end);
    var (answer, after) := Enqueue(end.link, msg);
    if answer.Sent? {
      assert after.Accepted() == end.link.Accepted() + [msg];
    } else {
      assert after.Accepted() == end.link.Accepted() + [];
    }
  }

  /** Over any run, every offer answered `ShedMotion` was an absolute position. */
  lemma OnlyPositionsAreShed(events: seq<Event>, end: History, k: nat)
    requires Run(START, events, end) && k < |end.offers| && end.offers[k].1.ShedMotion?
    ensures exists x: int, y: int :: end.offers[k].0 == Input(MoveTo(x, y))
  {
    RunFaithful(START, events, end);
    assert end.offers[k] in end.offers;
    var msg := end.offers[k].0;
    assert msg == Input(MoveTo(msg.event.x, msg.event.y));
  }

  /** Over any run, open or closed at its end, an absolute position was never answered `Unresponsive`. */
  lemma {:induction false} PositionsNeverClose(h: History, events: seq<Event>, end: History)
    requires (forall o <- h.offers :: o.1.Unresponsive? ==> Latches(o.0)) && Run(h, events, end)
    ensures forall o <- end.offers :: o.1.Unresponsive? ==> Latches(o.0)
    decreases events
  {
    if events != [] {
      var next := Recorded(h, events[0]);
      if events[0].Offers? {
        assert forall o <- next.offers :: o in h.offers || o == next.offers[|h.offers|];
      }
      PositionsNeverClose(next, events[1..], end);
    }
  }

  function Drained(queued: nat): seq<Event> {
    if queued == 0 then [] else [Takes, Finishes(true)] + Drained(queued - 1)
  }

  /** Whatever has come before, the next offer can be made, and a session that takes what it is given gets the whole
      queue, in order and nothing else. */
  lemma {:induction false} QueueDrains(h: History)
    requires h.link.open && h.link.writing.None?
    ensures forall msg: Outbound :: Enabled(h.link, Offers(msg))
    ensures var end := h.(link := Link([], true, None, h.link.delivered + h.link.queue));
            Run(h, Drained(|h.link.queue|), end)
    decreases |h.link.queue|
  {
    var link := h.link;
    if link.queue == [] {
      assert link.delivered + link.queue == link.delivered;
    } else {
      var events := Drained(|link.queue|);
      var taken := Recorded(h, Takes);
      var given := Recorded(taken, Finishes(true));
      QueueDrains(given);
      assert events[0] == Takes && events[1..][0] == Finishes(true) && events[1..][1..] == Drained(|link.queue| - 1);
      assert link.delivered + [link.queue[0]] + link.queue[1..] == link.delivered + link.queue;
    }
  }

  /** Once closed, every further offer is answered so, and the session is given nothing more. */
  lemma {:induction false} ClosedForGood(h: History, events: seq<Event>, end: History)
    requires !h.link.open && Run(h, events, end)
    ensures !end.link.open && end.link.delivered == h.link.delivered && |h.offers| <= |end.offers|
    ensures end.offers[..|h.offers|] == h.offers
    ensures forall k :: |h.offers| <= k < |end.offers| ==> end.offers[k].1 == AlreadyClosed
    decreases events
  {
    if events != [] {
      var next := Recorded(h, events[0]);
      ClosedForGood(next, events[1..], end);
      assert end.offers[|h.offers|..|next.offers|] == next.offers[|h.offers|..];
    }
  }

  /** Whatever happens to the session, what it was given is the front of what the queue took on. */
  lemma DeliveredInOrder(events: seq<Event>, end: History)
    requires Run(START, events, end)
    ensures end.link.delivered <= Taken(end.offers)
  {
    RunFaithful(START, events, end);
  }
}
