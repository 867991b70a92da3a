/** Two machines agreeing on one layout (crates/wx-agent/src/engine.rs:2025-2039, 2265-2291). */
module LayoutSync {
  import opened Wrappers
  import opened GlobalLayouts
  import opened Autolayout
  import opened AcceptLayouts

  datatype Msg = Update(layout: Layout) | Request

  /** One end: its identity, its screens, the screens its handshake told the other of, which may be long out of
      date, the layout it holds, and whether it regards the other as ready. */
  datatype Side = Side(self: NodeId, screens: seq<Monitor>, told: seq<Monitor>, held: Layout, ready: bool)

  /** `out` carries what `me` has sent, `back` what `peer` has sent, each in order. */
  datatype State = State(me: Side, peer: Side, out: seq<Msg>, back: seq<Msg>)
  {
    function Flip(): State { State(peer, me, back, out) }
  }

  predicate Lacks(layout: Layout, who: Side) {
    NeedsPlacement(layout.placements, who.self, who.screens)
  }

  /** The layout with those screens of that machine in it. */
  function Housing(layout: Layout, node: NodeId, monitors: seq<Monitor>): Layout {
    if NeedsPlacement(layout.placements, node, monitors) then Applied(layout, node, monitors).0 else layout
  }

  function Housed(layout: Layout, who: Side): Layout {
    Housing(layout, who.self, who.screens)
  }

  /** With the screens that machine was last heard to have. */
  function Introduced(layout: Layout, who: Side): Layout {
    Housing(layout, who.self, who.told)
  }

  /** A session comes up: give the screens the peer told of a place, send the layout, and ask for the peer's. */
  function Greet(s: State): State {
    var held := Introduced(s.me.held, s.peer);
    s.(me := s.me.(held := held, ready := true), out := s.out + [Update(held), Request])
  }

  /** Handle the next message; one from a peer not yet trusted is ignored. */
  function Receive(s: State): State
    requires s.back != []
  {
    var rest := s.(back := s.back[1..]);
    if !s.me.ready then rest else
      match s.back[0]
      case Request => rest.(out := s.out + [Update(s.me.held)])
      case Update(layout) =>
        if !Accepts(s.me.held, layout) then rest else
          var adopted := Layout(InsertedAll([], layout.placements), layout.revision);
          var held := Housed(adopted, s.me);
          rest.(me := s.me.(held := held),
                out := s.out + if held.revision > layout.revision then [Update(held)] else [])
  }

  datatype Event = Greets(first: bool) | Receives(first: bool)

  predicate EnabledHere(s: State, greets: bool) {
    if greets then !s.me.ready else s.back != []
  }

  function NextHere(s: State, greets: bool): State
    requires EnabledHere(s, greets)
  {
    if greets then Greet(s) else Receive(s)
  }

  predicate Enabled(s: State, e: Event) {
    EnabledHere(if e.first then s else s.Flip(), e.Greets?)
  }

  function Next(s: State, e: Event): State
    requires Enabled(s, e)
  {
    if e.first then NextHere(s, e.Greets?) else NextHere(s.Flip(), e.Greets?).Flip()
  }

  // --- The engine's own layout ---------------------------------------------

  /** One machine's layout as the engine holds it: an object, replaced when a peer's is adopted. */
  class LayoutEngine {
    const local: NodeId
    const screens: seq<Monitor>
    var layout: GlobalLayout
    var outbox: seq<Msg>

    ghost predicate Valid()
      reads this, layout
    {
      layout.Valid()
    }

    /** This side of an exchange, having told the peer of those screens, with `back` still to be handled. */
    ghost function View(told: seq<Monitor>, peer: Side, ready: bool, back: seq<Msg>): State
      reads this, layout
      requires Valid()
    {
      State(Side(local, screens, told, layout.ToLayout(), ready), peer, outbox, back)
    }

    constructor (local: NodeId, screens: seq<Monitor>, layout: GlobalLayout)
      requires layout.Valid()
      ensures Valid() && this.local == local && this.screens == screens && this.layout == layout && outbox == []
    {
      this.local, this.screens, this.layout, outbox := local, screens, layout, [];
    }

    method OnPeerReady(ghost told: seq<Monitor>, peer: Side)
      requires Valid()
      modifies this, layout
      ensures Valid() && layout == old(layout)
      ensures View(told, peer, true, []) == Greet(old(View(told, peer, false, [])))
    {
      hide Applied, NeedsPlacement;
      if NeedsPlacement(layout.ToLayout().placements, peer.self, peer.told) {
        var _ := Apply(layout, peer.self, peer.told);
      }
      outbox := outbox + [Update(layout.ToLayout()), Request];
    }

    method OnLayoutUpdate(ghost told: seq<Monitor>, ghost peer: Side, incoming: Layout)
      requires Valid()
      modifies this
      ensures Valid() && (layout == old(layout) || fresh(layout))
      ensures View(told, peer, true, []) == Receive(old(View(told, peer, true, [Update(incoming)])))
    {
      hide Accepts, Applied, NeedsPlacement, InsertedAll;
      assert [Update(incoming)][1..] == [];
      if !Accepts(layout.ToLayout(), incoming) {
        return;
      }
      var adopted := new GlobalLayout.FromLayout(incoming);
      if NeedsPlacement(adopted.ToLayout().placements, local, screens) {
        var _ := Apply(adopted, local, screens);
      }
      layout := adopted;
      if adopted.revision > incoming.revision {
        outbox := outbox + [Update(layout.ToLayout())];
      }
    }

    method OnLayoutRequest(ghost told: seq<Monitor>, ghost peer: Side)
      requires Valid()
      modifies this`outbox
      ensures Valid() && View(told, peer, true, []) == Receive(old(View(told, peer, true, [Request])))
    {
      assert [Request][1..] == [];
      outbox := outbox + [Update(layout.ToLayout())];
    }
  }

  // --- The invariant -------------------------------------------------------

  /** The layout held has distinct ids and nothing sent outranks it; with `homes`, it and everything sent
      house the machine's own screens. */
  ghost predicate Sound(who: Side, sent: seq<Msg>, homes: bool) {
    && DistinctIds(who.held.placements)
    && (homes ==> !Lacks(who.held, who))
    && (!who.ready ==> sent == [])
    && forall m <- sent :: m.Update? ==>
         DistinctIds(m.layout.placements) && Covers(who.held, m.layout) && (homes ==> !Lacks(m.layout, who))
  }

  /** Once both are ready, what `who` holds has reached the peer, is on its way, or has been asked for. */
  ghost predicate Reaches(who: Side, peer: Side, sent: seq<Msg>, asked: seq<Msg>) {
    who.ready && peer.ready ==>
      || Covers(peer.held, who.held)
      || (exists m <- sent :: m.Update? && Covers(m.layout, who.held))
      || Request in asked
  }

  ghost predicate Inv(s: State, homes: bool) {
    && s.me.self != s.peer.self
    && Sound(s.me, s.out, homes) && Sound(s.peer, s.back, homes)
    && Reaches(s.me, s.peer, s.out, s.back) && Reaches(s.peer, s.me, s.back, s.out)
  }

  /** Any two machines meeting, whatever layouts they hold. */
  ghost predicate Meeting(s: State) {
    && s.me.self != s.peer.self
    && !s.me.ready && !s.peer.ready && s.out == [] && s.back == []
    && DistinctIds(s.me.held.placements) && DistinctIds(s.peer.held.placements)
  }

  /** Each holds a layout that houses its own screens. */
  predicate Homed(s: State) {
    !Lacks(s.me.held, s.me) && !Lacks(s.peer.held, s.peer)
  }

  // --- Housing a machine's screens -----------------------------------------

  /** Housing one machine's screens neither adds nor removes another's. */
  lemma HousingApart(layout: Layout, node: NodeId, monitors: seq<Monitor>, who: Side)
    requires who.self != node
    ensures Lacks(Housing(layout, node, monitors), who) <==> Lacks(layout, who)
  {
    var after := Housing(layout, node, monitors).placements;
    AppliedSplit(layout, node, monitors);
    OfMembers(layout.placements, node);
    OfMembers(after, node);
    hide Applied, NeedsPlacement;
    forall m <- who.screens
      ensures Places(after, MonitorRef(who.self, m.id)) <==> Places(layout.placements, MonitorRef(who.self, m.id))
    {
      SameElsewhere(after, layout.placements, node, MonitorRef(who.self, m.id));
    }
    LacksByPlaces(Housing(layout, node, monitors), layout, who);
  }

  lemma SameElsewhere(a: seq<Placement>, b: seq<Placement>, node: NodeId, ref: MonitorRef)
    requires Others(a, node) == Others(b, node) && ref.node != node
    ensures Places(a, ref) <==> Places(b, ref)
  {
    OfMembers(a, node);
    OfMembers(b, node);
    if Places(a, ref) {
      var p :| p in a && p.monitor == ref;
      assert p in Others(a, node);
    }
    if Places(b, ref) {
      var p :| p in b && p.monitor == ref;
      assert p in Others(b, node);
    }
  }

  lemma LacksByPlaces(a: Layout, b: Layout, who: Side)
    requires forall m <- who.screens ::
               Places(a.placements, MonitorRef(who.self, m.id)) <==> Places(b.placements, MonitorRef(who.self, m.id))
    ensures Lacks(a, who) <==> Lacks(b, who)
  {
  }

  /** Housing leaves nothing lacking, keeps ids distinct, and raises the revision exactly when it was needed. */
  lemma HousingHouses(layout: Layout, node: NodeId, monitors: seq<Monitor>)
    requires DistinctIds(layout.placements)
    ensures var after := Housing(layout, node, monitors);
            && DistinctIds(after.placements) && !NeedsPlacement(after.placements, node, monitors)
            && after.revision == layout.revision + (if NeedsPlacement(layout.placements, node, monitors) then 1 else 0)
            && Covers(after, layout)
  {
    NothingLeftToPlace(layout, node, monitors);
    AppliedDistinct(layout, node, monitors);
    CoversItself(layout);
  }

  lemma FromWire(layout: Layout)
    requires DistinctIds(layout.placements)
    ensures InsertedAll([], layout.placements) == layout.placements
  {
    assert [] + layout.placements == layout.placements;
    InsertedAllDistinct([], layout.placements);
  }

  // --- Every step keeps the invariant --------------------------------------

  lemma NothingSent(s: State, homes: bool)
    requires Inv(s, homes) && !s.me.ready
    ensures s.out == []
  {
  }

  lemma GreetKeeps(s: State, homes: bool)
    requires Inv(s, homes) && !s.me.ready
    ensures Inv(Greet(s), homes) && Covers(Greet(s).me.held, s.me.held)
  {
    hide Covers, Housing, NeedsPlacement;
    HousingHouses(s.me.held, s.peer.self, s.peer.told);
    GreetSound(s, homes);
    NothingSent(s, homes);
    hide Sound;
    var t := Greet(s);
    CoversItself(t.me.held);
    assert t.out == [Update(t.me.held), Request];
    assert Update(t.me.held) in t.out && Request in t.out;
  }

  lemma GreetSound(s: State, homes: bool)
    requires Inv(s, homes) && !s.me.ready
    ensures Sound(Greet(s).me, Greet(s).out, homes)
  {
    hide Covers, Reaches, Housing, NeedsPlacement, DistinctIds;
    var t := Greet(s);
    HousingHouses(s.me.held, s.peer.self, s.peer.told);
    HousingApart(s.me.held, s.peer.self, s.peer.told, s.me);
    CoversItself(t.me.held);
    assert t.out == [Update(t.me.held), Request];
  }

  lemma DropKeeps(s: State, homes: bool)
    requires Inv(s, homes) && s.back != [] && !s.me.ready
    ensures Inv(Receive(s), homes)
  {
  }

  lemma AnswerKeeps(s: State, homes: bool)
    requires Inv(s, homes) && s.back != [] && s.me.ready && s.back[0].Request?
    ensures Inv(Receive(s), homes)
  {
    var t := Receive(s);
    CoversItself(t.me.held);
    assert Update(t.me.held) in t.out;
    assert forall m <- s.out :: m in t.out;
    assert forall m <- s.back :: m.Update? ==> m in t.back;
  }

  lemma RefuseKeeps(s: State, homes: bool)
    requires Inv(s, homes) && s.back != [] && s.me.ready && s.back[0].Update? && !Accepts(s.me.held, s.back[0].layout)
    ensures Inv(Receive(s), homes)
  {
    var layout := s.back[0].layout;
    assert forall m <- s.back :: m == s.back[0] || m in s.back[1..];
    if Covers(layout, s.peer.held) {
      CoversTransitive(s.me.held, layout, s.peer.held);
    }
  }

  /** What taking a peer's layout leaves: the layout itself, or a higher one that is sent straight back. */
  lemma Taking(s: State, homes: bool)
    requires Inv(s, homes) && s.back != [] && s.me.ready && s.back[0].Update? && Accepts(s.me.held, s.back[0].layout)
    ensures var t, layout := Receive(s), s.back[0].layout;
            && t.me.held == Housed(layout, s.me)
            && DistinctIds(t.me.held.placements) && !Lacks(t.me.held, s.me)
            && (Lacks(t.me.held, s.peer) <==> Lacks(layout, s.peer))
            && Covers(t.me.held, layout) && Covers(t.me.held, s.me.held)
            && t.out == s.out + (if Lacks(layout, s.me) then [Update(t.me.held)] else [])
            && (!Lacks(layout, s.me) ==> t.me.held == layout)
  {
    var layout := s.back[0].layout;
    FromWire(layout);
    HousingHouses(layout, s.me.self, s.me.screens);
    HousingApart(layout, s.me.self, s.me.screens, s.peer);
    CoversAccepted(s.me.held, layout);
    CoversTransitive(Housed(layout, s.me), layout, s.me.held);
  }

  lemma StaysSound(before: Side, after: Side, sent: seq<Msg>, m: Msg, homes: bool)
    requires Sound(before, sent, homes) && m in sent && m.Update? && Covers(after.held, before.held)
    ensures Covers(after.held, m.layout)
  {
    CoversTransitive(after.held, before.held, m.layout);
  }

  lemma AcceptKeepsSound(s: State, homes: bool)
    requires Inv(s, homes) && s.back != [] && s.me.ready && s.back[0].Update? && Accepts(s.me.held, s.back[0].layout)
    ensures Sound(Receive(s).me, Receive(s).out, homes) && Sound(s.peer, Receive(s).back, homes)
  {
    var t := Receive(s);
    Taking(s, homes);
    CoversItself(t.me.held);
    forall m <- t.out | m.Update?
      ensures DistinctIds(m.layout.placements) && Covers(t.me.held, m.layout) && (homes ==> !Lacks(m.layout, t.me))
    {
      if m in s.out {
        StaysSound(s.me, t.me, s.out, m, homes);
      }
    }
  }

  lemma AcceptKeepsReaches(s: State, homes: bool)
    requires Inv(s, homes) && s.back != [] && s.me.ready && s.back[0].Update? && Accepts(s.me.held, s.back[0].layout)
    ensures Reaches(Receive(s).me, s.peer, Receive(s).out, Receive(s).back)
    ensures Reaches(s.peer, Receive(s).me, Receive(s).back, Receive(s).out)
  {
    var t, layout := Receive(s), s.back[0].layout;
    Taking(s, homes);
    CoversItself(t.me.held);
    if Lacks(layout, s.me) {
      assert t.out[|s.out|] == Update(t.me.held);
      assert Update(t.me.held) in t.out;
    }
    assert forall m <- s.out :: m in t.out;
    assert forall m <- s.back :: m == s.back[0] || m in t.back;
    if Covers(s.me.held, s.peer.held) {
      CoversTransitive(t.me.held, s.me.held, s.peer.held);
    }
    if Covers(layout, s.peer.held) {
      CoversTransitive(t.me.held, layout, s.peer.held);
    }
  }

  lemma ReceiveKeeps(s: State, homes: bool)
    requires Inv(s, homes) && s.back != []
    ensures Inv(Receive(s), homes) && Covers(Receive(s).me.held, s.me.held)
  {
    CoversItself(s.me.held);
    if !s.me.ready {
      DropKeeps(s, homes);
    } else if s.back[0].Request? {
      AnswerKeeps(s, homes);
    } else if Accepts(s.me.held, s.back[0].layout) {
      Taking(s, homes);
      AcceptKeepsSound(s, homes);
      AcceptKeepsReaches(s, homes);
    } else {
      RefuseKeeps(s, homes);
    }
  }

  /** Every step keeps the invariant, and neither machine's layout ever loses rank. */
  lemma InvKept(s: State, e: Event, homes: bool)
    requires Inv(s, homes) && Enabled(s, e)
    ensures Inv(Next(s, e), homes)
    ensures Covers(Next(s, e).me.held, s.me.held) && Covers(Next(s, e).peer.held, s.peer.held)
  {
    CoversItself(s.me.held);
    CoversItself(s.peer.held);
    var here := if e.first then s else s.Flip();
    if e.Greets? {
      GreetKeeps(here, homes);
    } else {
      ReceiveKeeps(here, homes);
    }
  }

  // --- Termination ---------------------------------------------------------

  /** How many of the two a layout can still lack. */
  function Lackable(homes: bool): nat { if homes then 1 else 2 }

  function Missing(layout: Layout, who: Side): nat { if Lacks(layout, who) then 1 else 0 }

  /** The work a message still causes: a layout that lacks the receiver's screens may come back with them in
      it, and then lacks one machine's fewer; a request brings one layout. */
  function Weight(receiver: Side, sender: Side, m: Msg, homes: bool): nat {
    match m
    case Request => 2 + Lackable(homes)
    case Update(layout) => 1 + Missing(layout, receiver) + Missing(layout, sender)
  }

  function Load(receiver: Side, sender: Side, sent: seq<Msg>, homes: bool): nat {
    if sent == [] then 0 else Weight(receiver, sender, sent[0], homes) + Load(receiver, sender, sent[1..], homes)
  }

  /** What a machine still to greet will send, and the step of sending it. */
  function Greeting(who: Side, other: Side, homes: bool): nat {
    if who.ready then 0
    else 1 + Weight(other, who, Update(Introduced(who.held, other)), homes) + Weight(other, who, Request, homes)
  }

  function Work(s: State, homes: bool): nat {
    Load(s.peer, s.me, s.out, homes) + Load(s.me, s.peer, s.back, homes)
    + Greeting(s.me, s.peer, homes) + Greeting(s.peer, s.me, homes)
  }

  lemma {:induction false} LoadConcat(receiver: Side, sender: Side, a: seq<Msg>, b: seq<Msg>, homes: bool)
    ensures Load(receiver, sender, a + b, homes) == Load(receiver, sender, a, homes) + Load(receiver, sender, b, homes)
  {
    hide Weight;
    if a == [] {
      assert a + b == b;
    } else {
      assert (a + b)[1..] == a[1..] + b;
      LoadConcat(receiver, sender, a[1..], b, homes);
    }
  }

  /** What a message weighs depends on who the two are, not on what they hold. */
  lemma {:induction false} LoadStable(a: Side, b: Side, c: Side, d: Side, sent: seq<Msg>, homes: bool)
    requires a.self == b.self && a.screens == b.screens && c.self == d.self && c.screens == d.screens
    ensures Load(a, c, sent, homes) == Load(b, d, sent, homes)
  {
    if sent != [] {
      LoadStable(a, b, c, d, sent[1..], homes);
    }
  }

  lemma LoadOne(receiver: Side, sender: Side, m: Msg, homes: bool)
    ensures Load(receiver, sender, [m], homes) == Weight(receiver, sender, m, homes)
  {
    assert [m][1..] == [];
  }

  lemma GreetingStable(a: Side, b: Side, c: Side, d: Side, homes: bool)
    requires a.self == b.self && a.screens == b.screens && c.self == d.self && c.screens == d.screens && c.told == d.told
    requires a.ready == b.ready && (!a.ready ==> a.held == b.held)
    ensures Greeting(a, c, homes) == Greeting(b, d, homes)
  {
    hide Housing;
  }

  lemma WorkByGreeting(s: State, homes: bool)
    requires Inv(s, homes) && !s.me.ready
    ensures Work(Greet(s), homes) < Work(s, homes)
  {
    hide Housing, Inv, Weight;
    var t := Greet(s);
    assert s.out == [] by {
      NothingSent(s, homes);
    }
    LoadConcat(s.peer, t.me, [Update(t.me.held)], [Request], homes);
    LoadOne(s.peer, t.me, Update(t.me.held), homes);
    LoadOne(s.peer, t.me, Request, homes);
    LoadStable(s.me, t.me, s.peer, s.peer, s.back, homes);
    LoadStable(s.peer, s.peer, s.me, t.me, t.out, homes);
    GreetingStable(s.peer, s.peer, s.me, t.me, homes);
    assert t.out == [Update(t.me.held)] + [Request];
  }

  lemma WeightOf(receiver: Side, sender: Side, layout: Layout, homes: bool)
    ensures Weight(receiver, sender, Update(layout), homes) == 1 + Missing(layout, receiver) + Missing(layout, sender)
    ensures Weight(receiver, sender, Request, homes) == 2 + Lackable(homes)
  {
  }

  /** What handling the next message adds to what is sent weighs less than the message did. */
  lemma AddedWeighsLess(s: State, homes: bool)
    requires Inv(s, homes) && s.back != []
    ensures var t := Receive(s);
            && |t.out| >= |s.out| && t.out == s.out + t.out[|s.out|..]
            && Load(s.peer, s.me, t.out[|s.out|..], homes) < Weight(s.me, s.peer, s.back[0], homes)
  {
    hide Reaches, Housing, NeedsPlacement;
    var t := Receive(s);
    var added := t.out[|s.out|..];
    WeightOf(s.me, s.peer, if s.back[0].Update? then s.back[0].layout else s.me.held, homes);
    if s.me.ready && s.back[0].Request? {
      assert added == [Update(s.me.held)];
      LoadOne(s.peer, s.me, Update(s.me.held), homes);
    } else if s.me.ready && s.back[0].Update? && Accepts(s.me.held, s.back[0].layout) {
      Taking(s, homes);
      var layout := s.back[0].layout;
      if Lacks(layout, s.me) {
        assert added == [Update(t.me.held)];
        LoadOne(s.peer, s.me, Update(t.me.held), homes);
      } else {
        assert added == [];
      }
    } else {
      assert added == [];
    }
  }

  lemma WorkByReceiving(s: State, homes: bool)
    requires Inv(s, homes) && s.back != []
    ensures Work(Receive(s), homes) < Work(s, homes)
  {
    var t := Receive(s);
    AddedWeighsLess(s, homes);
    LoadConcat(s.peer, s.me, s.out, t.out[|s.out|..], homes);
    LoadStable(s.peer, s.peer, s.me, t.me, t.out, homes);
    LoadStable(s.me, t.me, s.peer, s.peer, t.back, homes);
    GreetingStable(s.me, t.me, s.peer, s.peer, homes);
    GreetingStable(s.peer, s.peer, s.me, t.me, homes);
    assert t.back == s.back[1..];
    hide Receive, Weight, Inv, Greeting;
  }

  lemma WorkShrinks(s: State, e: Event, homes: bool)
    requires Inv(s, homes) && Enabled(s, e)
    ensures Work(Next(s, e), homes) < Work(s, homes)
  {
    hide Greet, Receive;
    var here := if e.first then s else s.Flip();
    if e.Greets? {
      WorkByGreeting(here, homes);
    } else {
      WorkByReceiving(here, homes);
    }
  }

  // --- Runs ----------------------------------------------------------------

  ghost predicate Run(s: State, events: seq<Event>, t: State)
    decreases events
  {
    if events == [] then s == t else Enabled(s, events[0]) && Run(Next(s, events[0]), events[1..], t)
  }

  /** Each has heard enough of the other's screens to leave none of them out of what it sends. */
  predicate Informed(s: State) {
    !Lacks(Introduced(s.me.held, s.peer), s.peer) && !Lacks(Introduced(s.peer.held, s.me), s.me)
  }

  /** It has where the handshakes told the truth. */
  lemma TruthInforms(s: State)
    requires Meeting(s) && s.me.told == s.me.screens && s.peer.told == s.peer.screens
    ensures Informed(s)
  {
    HousingHouses(s.me.held, s.peer.self, s.peer.told);
    HousingHouses(s.peer.held, s.me.self, s.me.told);
  }

  lemma MeetingIsSound(s: State)
    requires Meeting(s)
    ensures Inv(s, Homed(s))
    ensures Work(s, Homed(s)) <= (if Homed(s) then 10 else 14) + (if Informed(s) then 0 else 2)
  {
    HousingApart(s.me.held, s.peer.self, s.peer.told, s.me);
    HousingApart(s.peer.held, s.me.self, s.me.told, s.peer);
    hide Housing, NeedsPlacement;
  }

  lemma {:induction false} RunKeeps(s: State, events: seq<Event>, t: State, homes: bool)
    requires Inv(s, homes) && Run(s, events, t)
    ensures Inv(t, homes) && |events| + Work(t, homes) <= Work(s, homes)
    ensures Covers(t.me.held, s.me.held) && Covers(t.peer.held, s.peer.held)
    ensures t.me.(held := s.me.held, ready := s.me.ready) == s.me
    ensures t.peer.(held := s.peer.held, ready := s.peer.ready) == s.peer
    decreases events
  {
    hide Covers, Inv, Work;
    if events == [] {
      CoversItself(s.me.held);
      CoversItself(s.peer.held);
    } else {
      var next := Next(s, events[0]);
      InvKept(s, events[0], homes);
      WorkShrinks(s, events[0], homes);
      RunKeeps(next, events[1..], t, homes);
      CoversTransitive(t.me.held, next.me.held, s.me.held);
      CoversTransitive(t.peer.held, next.peer.held, s.peer.held);
    }
  }

  predicate Settled(s: State) {
    s.me.ready && s.peer.ready && s.out == [] && s.back == []
  }

  lemma SettledExactlyWhenNothingIsLeft(s: State)
    ensures Settled(s) <==> forall e: Event :: !Enabled(s, e)
  {
    if forall e: Event :: !Enabled(s, e) {
      assert !Enabled(s, Greets(true)) && !Enabled(s, Greets(false));
      assert !Enabled(s, Receives(true)) && !Enabled(s, Receives(false));
    }
  }

  /** The same revision and the same screens in the same places. */
  ghost predicate Agreed(s: State) {
    && s.me.held.revision == s.peer.held.revision
    && multiset(Spots(s.me.held.placements)) == multiset(Spots(s.peer.held.placements))
  }

  /** Every usable screen of both has its place, on both sides. */
  predicate AllHoused(s: State) {
    && !Lacks(s.me.held, s.me) && !Lacks(s.me.held, s.peer)
    && !Lacks(s.peer.held, s.me) && !Lacks(s.peer.held, s.peer)
  }

  lemma SamePlaces(a: Layout, b: Layout, who: Side)
    requires multiset(Spots(a.placements)) == multiset(Spots(b.placements)) && !Lacks(a, who)
    ensures !Lacks(b, who)
  {
    forall m <- who.screens | !m.bounds.IsEmpty()
      ensures Places(b.placements, MonitorRef(who.self, m.id))
    {
      assert Places(a.placements, MonitorRef(who.self, m.id));
      var p :| p in a.placements && p.monitor == MonitorRef(who.self, m.id);
      SpotMembers(a.placements, SpotOf(p));
      SpotMembers(b.placements, SpotOf(p));
      assert SpotOf(p) in multiset(Spots(a.placements));
      assert SpotOf(p) in multiset(Spots(b.placements));
    }
  }

  lemma SettledAgrees(s: State, homes: bool)
    requires Inv(s, homes) && Settled(s)
    ensures Agreed(s) && (homes ==> AllHoused(s))
  {
    assert Covers(s.peer.held, s.me.held) && Covers(s.me.held, s.peer.held);
    TiedExactlyWhenAgreed(s.me.held, s.peer.held);
    if homes {
      SamePlaces(s.me.held, s.peer.held, s.me);
      SamePlaces(s.peer.held, s.me.held, s.peer);
    }
  }

  /** Two machines with fixed screens, whatever layouts they come with, whatever each has been told of the
      other's screens and however their steps interleave: the exchange is over within sixteen steps, and when it
      is over they agree, at a rank no lower than either started with. It is over two steps sooner where both
      were well informed, and four sooner where each came with a layout housing its own screens, which then
      leaves every usable screen of both housed. */
  lemma TwoMachinesConverge(s: State, events: seq<Event>, t: State)
    requires Meeting(s) && Run(s, events, t)
    ensures |events| <= (if Homed(s) then 10 else 14) + (if Informed(s) then 0 else 2)
    ensures (forall e: Event :: !Enabled(t, e)) ==> Agreed(t) && (Homed(s) ==> AllHoused(t))
    ensures Covers(t.me.held, s.me.held) && Covers(t.peer.held, s.peer.held)
  {
    MeetingIsSound(s);
    RunKeeps(s, events, t, Homed(s));
    SettledExactlyWhenNothingIsLeft(t);
    if Settled(t) {
      SettledAgrees(t, Homed(s));
    }
  }
}
