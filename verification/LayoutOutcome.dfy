/** What two machines agree on is decided before the first message is sent
    (crates/wx-agent/src/engine.rs:2025-2039, 2265-2291). */
module LayoutOutcome {
  import opened Wrappers
  import opened GlobalLayouts
  import opened Autolayout
  import opened AcceptLayouts
  import opened LayoutSync

  /** What a machine sends first: its layout with the screens it was told of in it. */
  function Opening(who: Side, other: Side): Layout {
    Introduced(who.held, other)
  }

  /** Where the higher of two openings ends up: as it is if the machine that takes it finds its own screens in
      it, and otherwise with that machine's screens put in and, as it comes back, the sender's. */
  function Final(layout: Layout, taker: Side, sender: Side): Layout {
    if Lacks(layout, taker) then Housed(Housed(layout, taker), sender) else layout
  }

  // --- The layouts that can be met on the way ------------------------------

  /** `b`, sent by `peer`, stands above `a`; `b1` is `b` as `me` takes it, `b2` what comes of that. */
  ghost predicate Ladder(me: Side, peer: Side, a: Layout, b: Layout, b1: Layout, b2: Layout) {
    && me.self != peer.self && DistinctIds(a.placements) && DistinctIds(b.placements) && Accepts(a, b)
    && b1 == Housed(b, me) && b2 == Final(b, me, peer)
  }

  /** Each rung is the one below it or has a higher revision, and the machines' screens are in as far as they go. */
  lemma Rungs(me: Side, peer: Side, a: Layout, b: Layout, b1: Layout, b2: Layout)
    requires Ladder(me, peer, a, b, b1, b2)
    ensures DistinctIds(b1.placements) && DistinctIds(b2.placements)
    ensures a.revision <= b.revision <= b1.revision <= b2.revision
    ensures (b1 == b || b.revision < b1.revision) && (b2 == b1 || b1.revision < b2.revision)
    ensures !Lacks(b1, me) && !Lacks(b2, me) && (b2 != b ==> !Lacks(b2, peer) && b2 == Housed(b1, peer))
    ensures Lacks(b2, peer) <==> !Lacks(b, me) && Lacks(b, peer)
    ensures b2.revision == b.revision + if Lacks(b, me) then (if Lacks(b, peer) then 2 else 1) else 0
  {
    HousingHouses(b, me.self, me.screens);
    HousingHouses(b1, peer.self, peer.screens);
    HousingApart(b, me.self, me.screens, peer);
    HousingApart(b1, peer.self, peer.screens, me);
    hide Applied, NeedsPlacement, DistinctIds, Key;
  }

  /** Which of the layouts on the way gives way to which. */
  lemma Verdicts(me: Side, peer: Side, a: Layout, b: Layout, b1: Layout, b2: Layout)
    requires Ladder(me, peer, a, b, b1, b2)
    ensures Accepts(a, b1) && Accepts(a, b2) && !Accepts(b, a) && !Accepts(b2, a) && !Accepts(b1, b1) && !Accepts(b2, b2)
    ensures !Accepts(b, b) && !Accepts(b1, b) && !Accepts(b2, b) && !Accepts(b2, b1)
    ensures (Accepts(b, b1) <==> b1 != b) && (Accepts(b, b2) <==> b2 != b) && (Accepts(b1, b2) <==> b2 != b1)
  {
    hide Accepts, Housing, Final, DistinctIds, NeedsPlacement;
    Rungs(me, peer, a, b, b1, b2);
    AcceptAsymmetric(a, b);
    CoversItself(b);
    CoversItself(b1);
    CoversItself(b2);
    if b1 != b {
      HigherRevision(a, b1);
      HigherRevision(b, b1);
    }
    if b2 != b1 {
      HigherRevision(a, b2);
      HigherRevision(b, b2);
      HigherRevision(b1, b2);
    }
  }

  // --- Where the peer's opening is the higher ------------------------------

  ghost predicate Carries(sent: seq<Msg>, layouts: set<Layout>) {
    forall m <- sent :: m.Update? ==> m.layout in layouts
  }

  /** Everything held and everything on its way is one of the rungs, and the peer never goes back to `a`. */
  ghost predicate Climbs(s: State, a: Layout, b: Layout, b1: Layout, b2: Layout) {
    && Ladder(s.me, s.peer, a, b, b1, b2)
    && (if s.me.ready then s.me.held in {a, b1, b2} else Opening(s.me, s.peer) == a)
    && (if s.peer.ready then s.peer.held in {b, b2} else Opening(s.peer, s.me) == b)
    && Carries(s.out, {a, b1, b2}) && Carries(s.back, {b, b2})
  }

  lemma CarriesMore(sent: seq<Msg>, added: seq<Msg>, layouts: set<Layout>)
    requires Carries(sent, layouts) && Carries(added, layouts)
    ensures Carries(sent + added, layouts)
  {
  }

  lemma CarriesRest(sent: seq<Msg>, layouts: set<Layout>)
    requires Carries(sent, layouts) && sent != []
    ensures Carries(sent[1..], layouts) && (sent[0].Update? ==> sent[0].layout in layouts)
  {
    assert sent[0] in sent;
  }

  /** What handling a layout comes to, its placements naming every monitor once. */
  lemma Handled(s: State)
    requires s.me.ready && s.back != [] && s.back[0].Update? && DistinctIds(s.back[0].layout.placements)
    ensures var layout := s.back[0].layout;
            var held := Housed(layout, s.me);
            Receive(s) == if Accepts(s.me.held, layout)
                          then s.(me := s.me.(held := held), back := s.back[1..],
                                  out := s.out + if Lacks(layout, s.me) then [Update(held)] else [])
                          else s.(back := s.back[1..])
  {
    FromWire(s.back[0].layout);
    HousingHouses(s.back[0].layout, s.me.self, s.me.screens);
    hide Applied, NeedsPlacement, Accepts, InsertedAll;
  }

  lemma MeClimbs(s: State, greets: bool, a: Layout, b: Layout, b1: Layout, b2: Layout)
    requires Climbs(s, a, b, b1, b2) && EnabledHere(s, greets)
    ensures Climbs(NextHere(s, greets), a, b, b1, b2)
  {
    hide Accepts, Housing, NeedsPlacement, DistinctIds, Carries;
    Rungs(s.me, s.peer, a, b, b1, b2);
    Verdicts(s.me, s.peer, a, b, b1, b2);
    var t := NextHere(s, greets);
    if greets {
      Sending(s, t, [Update(a), Request], {a, b1, b2});
    } else {
      CarriesRest(s.back, {b, b2});
      if s.me.ready && s.back[0].Request? {
        Sending(s, t, [Update(s.me.held)], {a, b1, b2});
      } else if s.me.ready {
        Handled(s);
        HousedAlready(b2, s.me);
        if t.out != s.out {
          Sending(s, t, [Update(t.me.held)], {a, b1, b2});
        }
      }
    }
  }

  lemma HousedAlready(layout: Layout, who: Side)
    requires !Lacks(layout, who)
    ensures Housed(layout, who) == layout
  {
  }

  lemma Sending(s: State, t: State, added: seq<Msg>, layouts: set<Layout>)
    requires Carries(s.out, layouts) && t.out == s.out + added
    requires forall m <- added :: m.Update? ==> m.layout in layouts
    ensures Carries(t.out, layouts)
  {
  }

  lemma PeerClimbs(s: State, greets: bool, a: Layout, b: Layout, b1: Layout, b2: Layout)
    requires Climbs(s, a, b, b1, b2) && EnabledHere(s.Flip(), greets)
    ensures Climbs(NextHere(s.Flip(), greets).Flip(), a, b, b1, b2)
  {
    hide Accepts, Housing, NeedsPlacement, DistinctIds, Carries;
    Rungs(s.me, s.peer, a, b, b1, b2);
    Verdicts(s.me, s.peer, a, b, b1, b2);
    var here := s.Flip();
    var t := NextHere(here, greets);
    if greets {
      Sending(here, t, [Update(b), Request], {b, b2});
    } else {
      CarriesRest(s.out, {a, b1, b2});
      if s.peer.ready && s.out[0].Request? {
        Sending(here, t, [Update(s.peer.held)], {b, b2});
      } else if s.peer.ready {
        Handled(here);
        if b2 != b {
          HousedAlready(b2, s.peer);
        }
        if t.out != here.out {
          Sending(here, t, [Update(t.me.held)], {b, b2});
        }
      }
    }
  }

  lemma {:induction false} RunClimbs(s: State, events: seq<Event>, t: State, a: Layout, b: Layout, b1: Layout, b2: Layout)
    requires Climbs(s, a, b, b1, b2) && Run(s, events, t)
    ensures Climbs(t, a, b, b1, b2)
    decreases events
  {
    hide Climbs, NextHere;
    if events != [] {
      var e := events[0];
      if e.first {
        MeClimbs(s, e.Greets?, a, b, b1, b2);
      } else {
        PeerClimbs(s, e.Greets?, a, b, b1, b2);
      }
      RunClimbs(Next(s, e), events[1..], t, a, b, b1, b2);
    }
  }

  /** Machines that agree and hold rungs hold the same one: the top. */
  lemma TopRung(s: State, a: Layout, b: Layout, b1: Layout, b2: Layout)
    requires Climbs(s, a, b, b1, b2) && s.me.ready && s.peer.ready
    requires Covers(s.me.held, s.peer.held) && Covers(s.peer.held, s.me.held)
    ensures s.me.held == b2 && s.peer.held == b2
  {
    Verdicts(s.me, s.peer, a, b, b1, b2);
    Rungs(s.me, s.peer, a, b, b1, b2);
    hide Accepts, Housing, Final, NeedsPlacement, DistinctIds, Carries;
  }

  // --- Where neither opening is the higher ---------------------------------

  /** Nobody takes anything. */
  ghost predicate Stays(s: State, a: Layout, b: Layout) {
    && DistinctIds(a.placements) && DistinctIds(b.placements) && !Accepts(a, b) && !Accepts(b, a)
    && (if s.me.ready then s.me.held == a else Opening(s.me, s.peer) == a)
    && (if s.peer.ready then s.peer.held == b else Opening(s.peer, s.me) == b)
    && Carries(s.out, {a}) && Carries(s.back, {b})
  }

  lemma MeStays(s: State, greets: bool, a: Layout, b: Layout)
    requires Stays(s, a, b) && EnabledHere(s, greets)
    ensures Stays(NextHere(s, greets), a, b)
  {
    hide Accepts, Housing, NeedsPlacement, DistinctIds, Carries;
    var t := NextHere(s, greets);
    if greets {
      Sending(s, t, [Update(a), Request], {a});
    } else {
      CarriesRest(s.back, {b});
      if s.me.ready && s.back[0].Request? {
        Sending(s, t, [Update(a)], {a});
      } else if s.me.ready {
        Handled(s);
      }
    }
  }

  lemma {:induction false} RunStays(s: State, events: seq<Event>, t: State, a: Layout, b: Layout)
    requires Stays(s, a, b) && Run(s, events, t)
    ensures Stays(t, a, b)
    decreases events
  {
    hide NextHere, Accepts, Carries, Housing;
    if events != [] {
      var e := events[0];
      if e.first {
        MeStays(s, e.Greets?, a, b);
      } else {
        MeStays(s.Flip(), e.Greets?, b, a);
      }
      RunStays(Next(s, e), events[1..], t, a, b);
    }
  }

  // --- Seen from the other side --------------------------------------------

  function FlipEvents(events: seq<Event>): seq<Event> {
    if events == [] then [] else [events[0].(first := !events[0].first)] + FlipEvents(events[1..])
  }

  lemma {:induction false} RunFlips(s: State, events: seq<Event>, t: State)
    requires Run(s, events, t)
    ensures Run(s.Flip(), FlipEvents(events), t.Flip())
    decreases events
  {
    hide NextHere, EnabledHere;
    if events != [] {
      assert s.Flip().Flip() == s;
      RunFlips(Next(s, events[0]), events[1..], t);
      assert FlipEvents(events)[1..] == FlipEvents(events[1..]);
    }
  }

  // --- The outcome ---------------------------------------------------------

  lemma HigherStands(s: State, events: seq<Event>, t: State)
    requires Meeting(s) && Run(s, events, t) && Settled(t)
    requires Accepts(Opening(s.me, s.peer), Opening(s.peer, s.me))
    ensures t.me.held == t.peer.held == Final(Opening(s.peer, s.me), s.me, s.peer)
  {
    var a, b := Opening(s.me, s.peer), Opening(s.peer, s.me);
    HousingHouses(s.me.held, s.peer.self, s.peer.told);
    HousingHouses(s.peer.held, s.me.self, s.me.told);
    assert Ladder(s.me, s.peer, a, b, Housed(b, s.me), Final(b, s.me, s.peer));
    MeetingIsSound(s);
    RunKeeps(s, events, t, Homed(s));
    RunClimbs(s, events, t, a, b, Housed(b, s.me), Final(b, s.me, s.peer));
    SettledCovers(t, Homed(s));
    TopRung(t, a, b, Housed(b, s.me), Final(b, s.me, s.peer));
  }

  lemma SettledCovers(s: State, homes: bool)
    requires Inv(s, homes) && Settled(s)
    ensures Covers(s.me.held, s.peer.held) && Covers(s.peer.held, s.me.held)
  {
    hide Covers, Sound;
  }

  /** However the steps interleave, what the exchange ends in is decided by what each machine would send first:
      the higher of the two, with what it lacks put in, on both sides; or, where neither is higher, each its own. */
  lemma OutcomeIsDecided(s: State, events: seq<Event>, t: State)
    requires Meeting(s) && Run(s, events, t) && Settled(t)
    ensures var a, b := Opening(s.me, s.peer), Opening(s.peer, s.me);
            if Accepts(a, b) then t.me.held == t.peer.held == Final(b, s.me, s.peer)
            else if Accepts(b, a) then t.me.held == t.peer.held == Final(a, s.peer, s.me)
            else t.me.held == a && t.peer.held == b
  {
    var a, b := Opening(s.me, s.peer), Opening(s.peer, s.me);
    if Accepts(a, b) {
      HigherStands(s, events, t);
    } else if Accepts(b, a) {
      RunFlips(s, events, t);
      HigherStands(s.Flip(), FlipEvents(events), t.Flip());
    } else {
      HousingHouses(s.me.held, s.peer.self, s.peer.told);
      HousingHouses(s.peer.held, s.me.self, s.me.told);
      RunStays(s, events, t, a, b);
    }
  }

  // --- Whose screens are in it ---------------------------------------------

  /** Known before the exchange: the higher opening lacks nothing of its sender's, or lacks something of the
      other's and so comes back; where neither is higher, it lacks nothing at all. */
  predicate Houses(s: State) {
    var a, b := Opening(s.me, s.peer), Opening(s.peer, s.me);
    if Accepts(a, b) then !Lacks(s.peer.held, s.peer) || Lacks(b, s.me)
    else if Accepts(b, a) then !Lacks(s.me.held, s.me) || Lacks(a, s.peer)
    else !Lacks(s.me.held, s.me) && !Lacks(a, s.peer)
  }

  lemma HigherHouses(me: Side, peer: Side, a: Layout, b: Layout)
    requires me.self != peer.self && DistinctIds(a.placements) && DistinctIds(b.placements) && Accepts(a, b)
    ensures !Lacks(Final(b, me, peer), me)
    ensures Lacks(Final(b, me, peer), peer) <==> !Lacks(b, me) && Lacks(b, peer)
    ensures Final(b, me, peer).revision == b.revision + if Lacks(b, me) then (if Lacks(b, peer) then 2 else 1) else 0
  {
    Rungs(me, peer, a, b, Housed(b, me), Final(b, me, peer));
  }

  /** Every usable screen of both machines ends up housed on both exactly when `Houses` held at the start. */
  lemma AllHousedExactly(s: State, events: seq<Event>, t: State)
    requires Meeting(s) && Run(s, events, t) && Settled(t)
    ensures AllHoused(t) <==> Houses(s)
  {
    var a, b := Opening(s.me, s.peer), Opening(s.peer, s.me);
    OutcomeIsDecided(s, events, t);
    MeetingIsSound(s);
    RunKeeps(s, events, t, Homed(s));
    HousingHouses(s.me.held, s.peer.self, s.peer.told);
    HousingHouses(s.peer.held, s.me.self, s.me.told);
    HousingApart(s.me.held, s.peer.self, s.peer.told, s.me);
    HousingApart(s.peer.held, s.me.self, s.me.told, s.peer);
    SameScreens(s, t);
    hide Housing, Final, Run, Accepts, NeedsPlacement, DistinctIds, Inv;
    if Accepts(a, b) {
      HigherHouses(s.me, s.peer, a, b);
    } else if Accepts(b, a) {
      HigherHouses(s.peer, s.me, b, a);
    } else {
      TiedLacks(a, b, s.me);
      TiedLacks(a, b, s.peer);
    }
  }

  lemma SameScreens(s: State, t: State)
    requires t.me.(held := s.me.held, ready := s.me.ready) == s.me
    requires t.peer.(held := s.peer.held, ready := s.peer.ready) == s.peer
    ensures forall layout: Layout ::
              (Lacks(layout, t.me) <==> Lacks(layout, s.me)) && (Lacks(layout, t.peer) <==> Lacks(layout, s.peer))
  {
    hide NeedsPlacement;
  }

  lemma TiedLacks(a: Layout, b: Layout, who: Side)
    requires !Accepts(a, b) && !Accepts(b, a)
    ensures Lacks(a, who) <==> Lacks(b, who)
  {
    TiedExactlyWhenAgreed(a, b);
    if !Lacks(a, who) {
      SamePlaces(a, b, who);
    }
    if !Lacks(b, who) {
      SamePlaces(b, a, who);
    }
  }

  /** Where the handshakes told the truth, exactly when the machine whose opening is the higher came with its own
      screens housed. */
  lemma AllHousedExactlyWhenTold(s: State, events: seq<Event>, t: State)
    requires Meeting(s) && Run(s, events, t) && Settled(t)
    requires s.me.told == s.me.screens && s.peer.told == s.peer.screens
    ensures AllHoused(t) <==>
              if Accepts(Opening(s.me, s.peer), Opening(s.peer, s.me)) then !Lacks(s.peer.held, s.peer)
              else if Accepts(Opening(s.peer, s.me), Opening(s.me, s.peer)) then !Lacks(s.me.held, s.me)
              else true
  {
    AllHousedExactly(s, events, t);
    TruthInforms(s);
    HousingApart(s.me.held, s.peer.self, s.peer.told, s.me);
    var a, b := Opening(s.me, s.peer), Opening(s.peer, s.me);
    hide Housing, Run, NeedsPlacement, AllHoused;
    if !Accepts(a, b) && !Accepts(b, a) {
      TiedLacks(a, b, s.me);
    }
  }

  // --- How much is in it ---------------------------------------------------

  /** Where both would send the same revision first, and each has what the other finds of its own screens in it, both
      end up with as many placements as the fuller of the two, and with a fuller one exactly that. */
  lemma NothingPlacedIsLost(s: State, events: seq<Event>, t: State)
    requires Meeting(s) && Run(s, events, t) && Settled(t) && Informed(s)
    requires Opening(s.me, s.peer).revision == Opening(s.peer, s.me).revision
    ensures var a, b := Opening(s.me, s.peer), Opening(s.peer, s.me);
            var most := if |a.placements| < |b.placements| then |b.placements| else |a.placements|;
            && |t.me.held.placements| == |t.peer.held.placements| == most
            && (|a.placements| < |b.placements| ==> t.me.held == t.peer.held == b)
            && (|b.placements| < |a.placements| ==> t.me.held == t.peer.held == a)
  {
    hide Run, Housing, Key, Settled;
    var a, b := Opening(s.me, s.peer), Opening(s.peer, s.me);
    OutcomeIsDecided(s, events, t);
    if !Accepts(a, b) && !Accepts(b, a) {
      TiedExactlyWhenAgreed(a, b);
      SameCount(a, b);
    }
  }

  lemma SameCount(a: Layout, b: Layout)
    requires multiset(Spots(a.placements)) == multiset(Spots(b.placements))
    ensures |a.placements| == |b.placements|
  {
    CountSpots(a.placements);
    CountSpots(b.placements);
    assert |multiset(Spots(a.placements))| == |multiset(Spots(b.placements))|;
  }

  /** Where the revisions differ, and the sender of the higher has what the other finds of its own screens in it, that
      is what both end up with, however little it places. */
  lemma HigherRevisionPrevails(s: State, events: seq<Event>, t: State)
    requires Meeting(s) && Run(s, events, t) && Settled(t)
    requires Opening(s.me, s.peer).revision < Opening(s.peer, s.me).revision && !Lacks(Opening(s.peer, s.me), s.me)
    ensures t.me.held == t.peer.held == Opening(s.peer, s.me)
  {
    hide Run, Housing, Key, Settled;
    HigherRevision(Opening(s.me, s.peer), Opening(s.peer, s.me));
    OutcomeIsDecided(s, events, t);
  }

  // --- Two outcomes --------------------------------------------------------

  /** Every exchange can be taken to its end. */
  lemma {:induction false} SomeRunSettles(s: State, homes: bool) returns (events: seq<Event>, t: State)
    requires Inv(s, homes)
    ensures Run(s, events, t) && Settled(t)
    decreases Work(s, homes)
  {
    hide Inv, Work, Next;
    if Settled(s) {
      events, t := [], s;
    } else {
      SettledExactlyWhenNothingIsLeft(s);
      var e: Event :| Enabled(s, e);
      InvKept(s, e, homes);
      WorkShrinks(s, e, homes);
      var rest;
      rest, t := SomeRunSettles(Next(s, e), homes);
      events := [e] + rest;
    }
  }

  /** The first machine came without its screen in its layout, and at the higher revision. */
  function Evicted(a: NodeId, b: NodeId, m: Monitor): State {
    State(Side(a, [m], [m], Layout([], 5), false), Side(b, [], [], Layout([], 0), false), [], [])
  }

  /** Then the two settle on a layout without that screen: the second machine finds none of its own missing from
      it and sends nothing back, and the first never adopts one. */
  lemma EvictedScreenStaysOut(a: NodeId, b: NodeId, m: Monitor) returns (events: seq<Event>, t: State)
    requires a != b && !m.bounds.IsEmpty()
    ensures Meeting(Evicted(a, b, m)) && Run(Evicted(a, b, m), events, t) && Settled(t)
    ensures t.me.held == t.peer.held == Layout([], 5) && Lacks(t.me.held, t.me)
  {
    var s := Evicted(a, b, m);
    MeetingIsSound(s);
    events, t := SomeRunSettles(s, Homed(s));
    RunKeeps(s, events, t, Homed(s));
    OutcomeIsDecided(s, events, t);
    HousingHouses(s.peer.held, a, [m]);
    assert !Places([], MonitorRef(a, m.id));
    hide Run, Applied, Inv;
  }

  /** The second machine has a screen its handshake did not mention, and the first the higher revision. */
  function Plugged(a: NodeId, b: NodeId, m: Monitor): State {
    State(Side(a, [], [], Layout([], 5), false), Side(b, [m], [], Layout([], 0), false), [], [])
  }

  /** Then taking the first one's layout raises its revision, and what is sent back is what both settle on. */
  lemma UnmentionedScreenBumps(a: NodeId, b: NodeId, m: Monitor) returns (events: seq<Event>, t: State)
    requires a != b && !m.bounds.IsEmpty()
    ensures Meeting(Plugged(a, b, m)) && Run(Plugged(a, b, m), events, t) && Settled(t)
    ensures t.me.held == t.peer.held && t.me.held.revision == 6 && AllHoused(t)
  {
    var s := Plugged(a, b, m);
    MeetingIsSound(s);
    events, t := SomeRunSettles(s, Homed(s));
    RunKeeps(s, events, t, Homed(s));
    OutcomeIsDecided(s, events, t);
    AllHousedExactly(s, events, t);
    assert !Places([], MonitorRef(b, m.id)) && Lacks(s.me.held, s.peer);
    HigherHouses(s.peer, s.me, s.peer.held, s.me.held);
    hide Run, Applied, Inv;
  }
}
