/** The pairing card the window shows (ui/src/agent.js:175-191, 262-376, 396-440). The activity log is not part
    of this model. */
module PairingCards {
  import opened Wrappers

  type Node = string

  datatype Direction = Incoming | Outgoing

  datatype Card = Card(direction: Direction, node: Node, name: string, pin: string, error: Option<string>,
                       seen: bool, finished: bool, accepted: bool)

  datatype Pending = Pending(node: Node, name: string, initiatedLocally: bool, pin: Option<string>)

  datatype Peer = Peer(node: Node, paired: bool)

  datatype Snapshot = Snapshot(pairings: seq<Pending>, peers: seq<Peer>)
  {
    predicate Lists(node: Node) { exists p <- pairings :: p.node == node }

    predicate Pairs(node: Node) { exists p <- peers :: p.node == node && p.paired }
  }

  const ENDED := "The pairing ended before it was confirmed."
  const REFUSED := "pairing was refused"

  predicate Live(card: Option<Card>) {
    card.Some? && !card.value.finished
  }

  /** A missing text and an empty one both give way to the fallback. */
  function OrElse(text: Option<string>, fallback: string): string {
    if text.Some? && text.value != "" then text.value else fallback
  }

  function Raised(next: Pending): Card {
    Card(if next.initiatedLocally then Outgoing else Incoming, next.node, next.name,
         if next.initiatedLocally then OrElse(next.pin, "") else "", None, true, false, false)
  }

  /** What a status snapshot does to the card. */
  function Adopted(card: Option<Card>, status: Snapshot): Option<Card> {
    if Live(card) then
      if status.Lists(card.value.node) then Some(card.value.(seen := true))
      else if !card.value.seen then card
      else
        var paired := status.Pairs(card.value.node);
        Some(card.value.(finished := true, accepted := paired, error := if paired then None else Some(ENDED)))
    else if status.pairings == [] then card
    else Some(Raised(status.pairings[0]))
  }

  function Requested(card: Option<Card>, node: Node, name: string): Option<Card> {
    if Live(card) then card else Some(Card(Incoming, node, name, "", None, false, false, false))
  }

  function Finished(card: Option<Card>, node: Node, accepted: bool, message: Option<string>): Option<Card> {
    if card.Some? && card.value.node == node then
      Some(card.value.(finished := true, accepted := accepted,
                       error := if accepted then None else Some(OrElse(message, REFUSED))))
    else card
  }

  datatype Event =
    | PairingRequested(node: Node, name: string)
    | PairingFinished(node: Node, accepted: bool, message: Option<string>)
    | StatusRead(status: Snapshot)

  function Applied(card: Option<Card>, e: Event): Option<Card> {
    match e
    case PairingRequested(node, name) => Requested(card, node, name)
    case PairingFinished(node, accepted, message) => Finished(card, node, accepted, message)
    case StatusRead(status) => Adopted(card, status)
  }

  class Store {
    var pairing: Option<Card>

    constructor ()
      ensures pairing == None
    {
      pairing := None;
    }

    method AdoptPendingPairing(status: Snapshot)
      modifies this`pairing
      ensures pairing == Applied(old(pairing), StatusRead(status))
    {
      if Live(pairing) {
        var card := pairing.value;
        if status.Lists(card.node) {
          if !card.seen {
            pairing := Some(card.(seen := true));
          }
          return;
        }
        if !card.seen {
          return;
        }
        var paired := status.Pairs(card.node);
        pairing := Some(card.(finished := true, accepted := paired, error := if paired then None else Some(ENDED)));
        return;
      }
      if status.pairings == [] {
        return;
      }
      pairing := Some(Raised(status.pairings[0]));
    }

    method OnPairingRequested(node: Node, name: string)
      modifies this`pairing
      ensures pairing == Applied(old(pairing), PairingRequested(node, name))
    {
      if !Live(pairing) {
        pairing := Some(Card(Incoming, node, name, "", None, false, false, false));
      }
    }

    method OnPairingFinished(node: Node, accepted: bool, message: Option<string>)
      modifies this`pairing
      ensures pairing == Applied(old(pairing), PairingFinished(node, accepted, message))
    {
      if pairing.Some? && pairing.value.node == node {
        pairing := Some(pairing.value.(finished := true, accepted := accepted,
                        error := if accepted then None else Some(OrElse(message, REFUSED))));
      }
    }

    /** The link is gone, and with it every event that could have ended the card. */
    method Disconnect()
      modifies this`pairing
      ensures pairing == None
    {
      pairing := None;
    }
  }

  // --- One event -----------------------------------------------------------

  /** What ends a live card: the agent's verdict on that node, or a snapshot without it once it has been seen. */
  predicate Ends(card: Card, e: Event) {
    match e
    case PairingRequested(_, _) => false
    case PairingFinished(node, _, _) => node == card.node
    case StatusRead(status) => card.seen && !status.Lists(card.node)
  }

  predicate SaysAccepted(card: Card, e: Event) {
    match e
    case PairingRequested(_, _) => false
    case PairingFinished(_, accepted, _) => accepted
    case StatusRead(status) => status.Pairs(card.node)
  }

  /** The same prompt, whether or not a snapshot has listed it meanwhile. */
  predicate SamePrompt(a: Card, b: Card) {
    a.(seen := false) == b.(seen := false)
  }

  /** A live card stops being live exactly when something ends it; it is then the receipt of that same card,
      accepted as that event says, with an error exactly when it was not. Anything else leaves the prompt. */
  lemma EndsExactly(card: Card, e: Event)
    requires !card.finished
    ensures var after := Applied(Some(card), e);
            && after.Some? && after.value.node == card.node && after.value.pin == card.pin
            && (after.value.finished <==> Ends(card, e))
            && (Ends(card, e) ==> after.value.accepted == SaysAccepted(card, e)
                                  && (after.value.error == None <==> SaysAccepted(card, e)))
            && (!Ends(card, e) ==> SamePrompt(after.value, card))
  {
  }

  // --- Runs ----------------------------------------------------------------

  function Run(card: Option<Card>, events: seq<Event>): Option<Card>
    decreases events
  {
    if events == [] then card else Run(Applied(card, events[0]), events[1..])
  }

  /** None of the events finishes that node, and no snapshot omits it after one has listed it. */
  ghost predicate Undisturbed(node: Node, seen: bool, events: seq<Event>)
    decreases events
  {
    events == [] ||
    var e := events[0];
    && !(e.PairingFinished? && e.node == node)
    && !(e.StatusRead? && seen && !e.status.Lists(node))
    && Undisturbed(node, seen || (e.StatusRead? && e.status.Lists(node)), events[1..])
  }

  predicate ListedIn(node: Node, events: seq<Event>) {
    exists e <- events :: e.StatusRead? && e.status.Lists(node)
  }

  /** Over any run of requests, verdicts and snapshots, a live card stands, prompt and typed code untouched, until
      its own node is finished or a snapshot drops it after listing it; no other machine's request replaces
      it. It counts as seen exactly when it was before or some snapshot listed it. */
  lemma {:induction false} LiveCardStands(card: Card, events: seq<Event>)
    requires !card.finished && Undisturbed(card.node, card.seen, events)
    ensures var after := Run(Some(card), events);
            after.Some? && SamePrompt(after.value, card)
            && after.value.seen == (card.seen || ListedIn(card.node, events))
    decreases events
  {
    if events != [] {
      EndsExactly(card, events[0]);
      LiveCardStands(Applied(Some(card), events[0]).value, events[1..]);
      assert forall e :: e in events <==> e == events[0] || e in events[1..];
    }
  }

  /** A card no snapshot has listed is never expired by snapshots, however many omit it. */
  lemma {:induction false} UnseenCardIsNotExpired(card: Card, events: seq<Event>)
    requires !card.finished && !card.seen && forall e <- events :: e.StatusRead? && !e.status.Lists(card.node)
    ensures Run(Some(card), events) == Some(card)
    decreases events
  {
    if events != [] {
      assert events[0] in events;
      UnseenCardIsNotExpired(card, events[1..]);
    }
  }

  predicate Heads(node: Node, status: Snapshot) {
    status.pairings != [] && status.pairings[0].node == node
  }

  lemma {:induction false} RunSplit(card: Option<Card>, a: seq<Event>, b: seq<Event>)
    ensures Run(card, a + b) == Run(Run(card, a), b)
    decreases a
  {
    if a == [] {
      assert a + b == b;
    } else {
      assert (a + b)[1..] == a[1..] + b;
      RunSplit(Applied(card, a[0]), a[1..], b);
    }
  }

  /** The machine whose prompt is up. */
  function Holder(card: Option<Card>): Option<Node> {
    if Live(card) then Some(card.value.node) else None
  }

  /** Whose prompt is up after requests and verdicts alone: whoever asks while none is, until their verdict. */
  function HolderAfter(holder: Option<Node>, events: seq<Event>): Option<Node>
    decreases events
  {
    if events == [] then holder
    else
      var e := events[0];
      HolderAfter(if e.PairingRequested? && holder == None then Some(e.node)
                  else if e.PairingFinished? && holder == Some(e.node) then None
                  else holder, events[1..])
  }

  lemma {:induction false} HolderTracksRun(card: Option<Card>, events: seq<Event>)
    requires forall e <- events :: !e.StatusRead?
    ensures Holder(Run(card, events)) == HolderAfter(Holder(card), events)
    decreases events
  {
    if events != [] {
      assert events[0] in events;
      HolderTracksRun(Applied(card, events[0]), events[1..]);
    }
  }

  /** After a snapshot a pairing heads its prompt is up exactly when no other machine's was before, whatever
      had happened until then. */
  lemma HeadTakesTheFreePrompt(card: Option<Card>, events: seq<Event>, b: Snapshot, node: Node)
    requires Heads(node, b)
    ensures Holder(Run(card, events + [StatusRead(b)])) == Some(node)
       <==> Holder(Run(card, events)) in {None, Some(node)}
  {
    RunSplit(card, events, [StatusRead(b)]);
    var before := Run(card, events);
    assert [StatusRead(b)][1..] == [];
    assert Run(before, [StatusRead(b)]) == Adopted(before, b);
    assert b.pairings[0] in b.pairings;
  }

  /** A pairing at the head of the list for two snapshots, with requests and verdicts between them, has its
      prompt up afterwards exactly when they leave it to that machine or to nobody. They start from that machine
      if nothing live was in its way at the first snapshot, from nobody if what was had been seen and is no
      longer listed, and from what was in its way otherwise. */
  lemma HeadIsRaisedWithinTwoSnapshots(card: Option<Card>, a: Snapshot, between: seq<Event>, b: Snapshot, node: Node)
    requires Heads(node, a) && Heads(node, b) && forall e <- between :: !e.StatusRead?
    ensures var start := if !Live(card) || card.value.node == node then Some(node)
                         else if card.value.seen && !a.Lists(card.value.node) then None
                         else Some(card.value.node);
            (Holder(Run(card, [StatusRead(a)] + between + [StatusRead(b)])) == Some(node) <==>
              HolderAfter(start, between) in {None, Some(node)})
  {
    var once := Adopted(card, a);
    assert a.pairings[0] in a.pairings;
    RunSplit(card, [StatusRead(a)], between);
    assert [StatusRead(a)][1..] == [];
    assert Run(card, [StatusRead(a)]) == once;
    HolderTracksRun(once, between);
    HeadTakesTheFreePrompt(card, [StatusRead(a)] + between, b, node);
  }

  lemma {:induction false} RequestsKeepTheHolder(holder: Option<Node>, events: seq<Event>)
    requires holder.Some? && forall e <- events :: e.PairingRequested?
    ensures HolderAfter(holder, events) == holder
    decreases events
  {
    if events != [] {
      assert events[0] in events;
      RequestsKeepTheHolder(holder, events[1..]);
    }
  }

  /** With requests alone between them, exactly when nothing live was in its way, or what was had been seen and is
      no longer listed and nobody else asked first. */
  lemma HeadIsRaisedAcrossRequests(card: Option<Card>, a: Snapshot, between: seq<Event>, b: Snapshot, node: Node)
    requires Heads(node, a) && Heads(node, b) && forall e <- between :: e.PairingRequested?
    ensures Holder(Run(card, [StatusRead(a)] + between + [StatusRead(b)])) == Some(node)
       <==> || !Live(card) || card.value.node == node
            || (card.value.seen && !a.Lists(card.value.node) && (between == [] || between[0].node == node))
  {
    HeadIsRaisedWithinTwoSnapshots(card, a, between, b, node);
    RequestsKeepTheHolder(Some(node), between);
    if Live(card) {
      RequestsKeepTheHolder(Some(card.value.node), between);
    }
    if between != [] {
      assert between[0] in between;
      RequestsKeepTheHolder(Some(between[0].node), between[1..]);
    }
  }

  // --- A card from beginning to end ----------------------------------------

  function Reads(statuses: seq<Snapshot>): seq<Event> {
    if statuses == [] then [] else [StatusRead(statuses[0])] + Reads(statuses[1..])
  }

  lemma {:induction false} ReadsAre(statuses: seq<Snapshot>, node: Node)
    requires forall s <- statuses :: !s.Lists(node)
    ensures forall e <- Reads(statuses) :: e.StatusRead? && !e.status.Lists(node)
  {
    if statuses != [] {
      assert statuses[0] in statuses;
      ReadsAre(statuses[1..], node);
    }
  }

  /** An incoming prompt for that machine, with nothing typed and nothing said yet. */
  predicate Prompts(card: Option<Card>, node: Node, name: string) {
    && Live(card) && card.value.direction == Incoming && card.value.node == node && card.value.name == name
    && card.value.pin == "" && card.value.error == None && !card.value.accepted
  }

  /** Where nothing live is up, a request raises its prompt, and status reads that do not list the machine yet,
      however many, leave it up. */
  lemma RequestedPromptStands(card: Option<Card>, node: Node, name: string, omitting: seq<Snapshot>)
    requires !Live(card) && forall s <- omitting :: !s.Lists(node)
    ensures Prompts(Run(card, [PairingRequested(node, name)] + Reads(omitting)), node, name)
    ensures !Run(card, [PairingRequested(node, name)] + Reads(omitting)).value.seen
  {
    var raised := Requested(card, node, name);
    assert ([PairingRequested(node, name)] + Reads(omitting))[1..] == Reads(omitting);
    ReadsAre(omitting, node);
    UnseenCardIsNotExpired(raised.value, Reads(omitting));
  }

  /** The first read that lists the machine leaves the prompt up, and the next one that does not ends it, as accepted
      exactly when the machine is paired by then. */
  lemma RequestedPromptEnds(card: Option<Card>, node: Node, name: string, omitting: seq<Snapshot>,
                            listing: Snapshot, after: Snapshot)
    requires !Live(card) && (forall s <- omitting :: !s.Lists(node)) && listing.Lists(node) && !after.Lists(node)
    ensures var before := [PairingRequested(node, name)] + Reads(omitting) + [StatusRead(listing)];
            && Prompts(Run(card, before), node, name)
            && var end := Run(card, before + [StatusRead(after)]);
            && end.Some? && end.value.finished && end.value.node == node && end.value.name == name
            && end.value.accepted == after.Pairs(node)
            && end.value.error == if after.Pairs(node) then None else Some("The pairing ended before it was confirmed.")
  {
    var first := [PairingRequested(node, name)] + Reads(omitting);
    RequestedPromptStands(card, node, name, omitting);
    RunSplit(card, first, [StatusRead(listing)]);
    RunSplit(card, first + [StatusRead(listing)], [StatusRead(after)]);
    assert [StatusRead(listing)][1..] == [] && [StatusRead(after)][1..] == [];
    var listed := Run(card, first + [StatusRead(listing)]);
    assert listed == Adopted(Run(card, first), listing);
  }

  /** A read raises the pairing it lists first: outgoing, with the code shown, exactly where this machine began it,
      and otherwise incoming with nothing typed. The next read that does not list the machine ends it. */
  lemma ListedPromptStandsAndEnds(card: Option<Card>, listing: Snapshot, after: Snapshot)
    requires !Live(card) && listing.pairings != [] && !after.Lists(listing.pairings[0].node)
    ensures var next, up := listing.pairings[0], Run(card, [StatusRead(listing)]);
            && Live(up) && up.value.node == next.node && up.value.name == next.name && up.value.error == None && !up.value.accepted
            && (up.value.direction == Outgoing <==> next.initiatedLocally)
            && up.value.pin == (if next.initiatedLocally && next.pin.Some? then next.pin.value else "")
            && var end := Run(card, [StatusRead(listing), StatusRead(after)]);
            && end.Some? && end.value.finished && end.value.pin == up.value.pin
            && end.value.accepted == after.Pairs(next.node)
            && end.value.error == if after.Pairs(next.node) then None else Some("The pairing ended before it was confirmed.")
  {
    var both := [StatusRead(listing), StatusRead(after)];
    assert both[1..] == [StatusRead(after)] && [StatusRead(listing)][1..] == [] && both[1..][1..] == [];
    assert listing.pairings[0] in listing.pairings;
    assert Run(card, both) == Run(Adopted(card, listing), both[1..]) == Adopted(Adopted(card, listing), after);
  }

  /** The agent's verdict ends the card of its machine, whether or not it had ended, and no other's. A refusal says
      why, or that it was refused where nothing or an empty text was given. */
  lemma VerdictIsTold(card: Card, node: Node, accepted: bool, message: Option<string>)
    ensures var after := Applied(Some(card), PairingFinished(node, accepted, message));
            && after.Some?
            && (node != card.node ==> after.value == card)
            && (node == card.node ==>
                  && after.value == card.(finished := true, accepted := accepted, error := after.value.error)
                  && after.value.error == if accepted then None
                                          else if message in {None, Some("")} then Some("pairing was refused") else message)
  {
  }
}
