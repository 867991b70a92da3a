/** Noticing that the machine holding the cursor has died
    (crates/wx-agent/src/engine.rs:85-119, 1009-1018, 1905-1922, 2107-2109, 2682-2733;
    crates/wx-agent/src/state.rs:587-659). Times are milliseconds. */
module Liveness {
  import opened Wrappers

  type Node = nat

  const CURSOR_PROBE: nat := 500
  const CURSOR_LIVENESS: nat := 2000

  /** What the engine keeps: who holds the cursor, and when each peer was last heard from. */
  datatype Watch = Watch(local: Node, owner: Node, heard: map<Node, nat>)

  datatype Verdict = Idle | Pinged | WrittenOff

  /** Which machines have a usable screen in the layout, and which peers are reachable. */
  datatype World = World(screens: set<Node>, reachable: set<Node>)

  /** Where a cursor stranded on a lost machine may be put: this machine if it has a screen, else a reachable
      one that has, else nowhere. Among several the nearest screen wins; which that is plays no part here. */
  predicate Rescues(world: World, local: Node, lost: Node, to: Option<Node>) {
    if local in world.screens then to == Some(local)
    else if exists n <- world.screens :: n != lost && n in world.reachable then
      to.Some? && to.value in world.screens && to.value != lost && to.value in world.reachable
    else to.None?
  }

  function Heard(w: Watch, node: Node, now: nat): Watch {
    w.(heard := w.heard[node := now])
  }

  /** The cursor is on that machine now. Taking the cursor starts its clock afresh. */
  function Crossed(w: Watch, to: Node, now: nat): Watch {
    if to == w.owner then w
    else w.(owner := to, heard := if to == w.local then w.heard else w.heard[to := now])
  }

  /** A session has ended; a cursor it held is rescued if there is anywhere to put it. */
  function Left(w: Watch, node: Node, to: Option<Node>, now: nat): Watch {
    var gone := w.(heard := w.heard - {node});
    if w.owner == node && to.Some? then Crossed(gone, to.value, now) else gone
  }

  predicate Silent(w: Watch, now: nat) {
    w.owner !in w.heard || now > w.heard[w.owner] + CURSOR_LIVENESS
  }

  function Probed(w: Watch, to: Option<Node>, now: nat): (Verdict, Watch) {
    if w.owner == w.local then (Idle, w)
    else if Silent(w, now) then (WrittenOff, Left(w, w.owner, to, now))
    else (Pinged, w)
  }

  class CursorWatch {
    const local: Node
    var owner: Node
    var heard: map<Node, nat>

    function View(): Watch
      reads this
    {
      Watch(local, owner, heard)
    }

    constructor (local: Node)
      ensures View() == Watch(local, local, map[])
    {
      this.local, owner, heard := local, local, map[];
    }

    method OnPeerEvent(node: Node, now: nat)
      modifies this`heard
      ensures View() == Heard(old(View()), node, now)
    {
      heard := heard[node := now];
    }

    method SyncCursor(at: Node, now: nat)
      modifies this
      ensures View() == Crossed(old(View()), at, now)
    {
      if at != owner {
        owner := at;
        if owner != local {
          heard := heard[owner := now];
        }
      }
    }

    /** `to` is where the layout and the reachable peers allow a stranded cursor to be put. */
    method ProbeCursorOwner(to: Option<Node>, now: nat) returns (verdict: Verdict)
      requires to.Some? ==> to.value != owner
      modifies this
      ensures (verdict, View()) == Probed(old(View()), to, now)
    {
      if owner == local {
        return Idle;
      }
      if owner !in heard || now > heard[owner] + CURSOR_LIVENESS {
        var dead := owner;
        assert to.Some? ==> heard[to.value := now] - {dead} == (heard - {dead})[to.value := now];
        if to.Some? {
          SyncCursor(to.value, now);
        }
        heard := heard - {dead};
        return WrittenOff;
      }
      return Pinged;
    }
  }

  // --- Timed runs ----------------------------------------------------------

  /** The engine in time: when it last probed, when the owner was first pinged since it last spoke, and
      whether the cursor was left on a lost machine because there was nowhere to put it. */
  datatype State = State(w: Watch, now: nat, lastProbe: nat, pinged: Option<nat>, stranded: bool)

  datatype Event =
    | Waits(until: nat)
    | Hears(node: Node)
    | Crosses(to: Node)
    | Leaves(node: Node, world: World, rescue: Option<Node>)
    | Probes(world: World, rescue: Option<Node>)

  /** Time does not pass a probe that is due, and, when a reply is promised, nor an answer that is due. */
  datatype Promise = Promise(gap: nat, reply: Option<nat>)

  predicate Enabled(s: State, e: Event, promise: Promise) {
    match e
    case Waits(until) =>
      && s.now <= until <= s.lastProbe + promise.gap
      && (promise.reply.Some? && s.pinged.Some? ==> until <= s.pinged.value + promise.reply.value)
    case Leaves(node, world, rescue) => node != s.w.local && Rescues(world, s.w.local, node, rescue)
    case Probes(world, rescue) => s.w.owner != s.w.local ==> Rescues(world, s.w.local, s.w.owner, rescue)
    case _ => true
  }

  function Next(s: State, e: Event): State {
    match e
    case Waits(until) => s.(now := until)
    case Hears(node) =>
      if node == s.w.owner then s.(w := Heard(s.w, node, s.now), pinged := None, stranded := false)
      else s.(w := Heard(s.w, node, s.now))
    case Crosses(to) =>
      if to == s.w.owner then s else s.(w := Crossed(s.w, to, s.now), pinged := None, stranded := false)
    case Leaves(node, _, rescue) =>
      if node == s.w.owner then s.(w := Left(s.w, node, rescue, s.now), pinged := None, stranded := rescue.None?)
      else s.(w := Left(s.w, node, rescue, s.now))
    case Probes(_, rescue) =>
      var (verdict, w) := Probed(s.w, rescue, s.now);
      s.(w := w, lastProbe := s.now,
         pinged := if !verdict.Pinged? then None else if s.pinged.None? then Some(s.now) else s.pinged,
         stranded := if verdict.WrittenOff? then rescue.None? else s.stranded)
  }

  ghost predicate Run(s: State, events: seq<Event>, t: State, promise: Promise)
    decreases events
  {
    if events == [] then s == t
    else Enabled(s, events[0], promise) && Run(Next(s, events[0]), events[1..], t, promise)
  }

  predicate Start(s: State) {
    s.w.owner == s.w.local && s.lastProbe == s.now && s.pinged == None && !s.stranded
  }

  /** Whoever else holds the cursor has a record exactly when it is not stranded there, and no probe has yet
      found that record too old. */
  ghost predicate Watched(s: State, gap: nat) {
    && s.lastProbe <= s.now <= s.lastProbe + gap
    && (s.stranded ==> s.w.owner != s.w.local)
    && (s.w.owner != s.w.local ==>
          && (s.stranded <==> s.w.owner !in s.w.heard)
          && (!s.stranded ==> s.w.heard[s.w.owner] <= s.now && s.lastProbe <= s.w.heard[s.w.owner] + CURSOR_LIVENESS))
  }

  /** With answers promised: either no probe has passed since the owner spoke, or it was pinged within a gap
      of speaking and the answer is not yet overdue. */
  ghost predicate Answering(s: State, gap: nat, reply: nat) {
    s.w.owner != s.w.local && s.w.owner in s.w.heard ==>
      match s.pinged
      case None => s.lastProbe <= s.w.heard[s.w.owner]
      case Some(p) => p <= s.w.heard[s.w.owner] + gap && s.now <= p + reply
  }

  lemma WatchedKept(s: State, e: Event, promise: Promise)
    requires Watched(s, promise.gap) && Enabled(s, e, promise)
    ensures Watched(Next(s, e), promise.gap)
  {
  }

  lemma AnsweringKept(s: State, e: Event, promise: Promise)
    requires promise.reply.Some? && promise.gap + promise.reply.value <= CURSOR_LIVENESS
    requires Watched(s, promise.gap) && Answering(s, promise.gap, promise.reply.value) && Enabled(s, e, promise)
    ensures Answering(Next(s, e), promise.gap, promise.reply.value)
    ensures s.w.owner in s.w.heard && s.w.owner != s.w.local ==> !Silent(s.w, s.now)
  {
  }

  lemma {:induction false} RunWatched(s: State, events: seq<Event>, t: State, promise: Promise)
    requires Watched(s, promise.gap) && Run(s, events, t, promise)
    ensures Watched(t, promise.gap)
    decreases events
  {
    if events != [] {
      WatchedKept(s, events[0], promise);
      RunWatched(Next(s, events[0]), events[1..], t, promise);
    }
  }

  lemma {:induction false} RunAnswering(s: State, events: seq<Event>, t: State, promise: Promise)
    requires promise.reply.Some? && promise.gap + promise.reply.value <= CURSOR_LIVENESS
    requires Watched(s, promise.gap) && Answering(s, promise.gap, promise.reply.value) && Run(s, events, t, promise)
    ensures Watched(t, promise.gap) && Answering(t, promise.gap, promise.reply.value)
    decreases events
  {
    if events != [] {
      WatchedKept(s, events[0], promise);
      AnsweringKept(s, events[0], promise);
      RunAnswering(Next(s, events[0]), events[1..], t, promise);
    }
  }

  /** A silent owner is written off in time: a machine holding the cursor has been heard from, or took it,
      within the liveness limit and one probe gap, exactly when the cursor was not left there for want of
      any screen to put it on. A machine left holding it that way has no record at all. */
  lemma SilentOwnerIsWrittenOff(s: State, events: seq<Event>, t: State)
    requires Start(s) && Run(s, events, t, Promise(CURSOR_PROBE, None)) && t.w.owner != t.w.local
    ensures !t.stranded <==>
              t.w.owner in t.w.heard && t.now <= t.w.heard[t.w.owner] + 2500
    ensures t.stranded ==> t.w.owner !in t.w.heard
  {
    RunWatched(s, events, t, Promise(CURSOR_PROBE, None));
  }

  /** The cursor comes to be stranded exactly in a step that loses its owner with nowhere to put it. */
  lemma StrandedExactlyWhenNowhere(s: State, e: Event, promise: Promise)
    requires Enabled(s, e, promise) && Watched(s, promise.gap) && !s.stranded
    ensures Next(s, e).stranded <==>
              match e
              case Leaves(node, world, _) =>
                node == s.w.owner && s.w.local !in world.screens
                && forall n <- world.screens :: n == node || n !in world.reachable
              case Probes(world, _) =>
                s.w.owner != s.w.local && Silent(s.w, s.now) && s.w.local !in world.screens
                && forall n <- world.screens :: n == s.w.owner || n !in world.reachable
              case _ => false
  {
  }

  /** A machine with a screen of its own never loses the cursor to a dead peer. */
  lemma {:induction false} OwnScreenIsEnough(s: State, events: seq<Event>, t: State, promise: Promise)
    requires Watched(s, promise.gap) && !s.stranded && Run(s, events, t, promise)
    requires forall e <- events :: e.Leaves? || e.Probes? ==> s.w.local in e.world.screens
    ensures !t.stranded && t.w.local == s.w.local
    decreases events
  {
    if events != [] {
      assert events[0] in events && forall e <- events[1..] :: e in events;
      WatchedKept(s, events[0], promise);
      StrandedExactlyWhenNowhere(s, events[0], promise);
      OwnScreenIsEnough(Next(s, events[0]), events[1..], t, promise);
    }
  }

  /** Probes at most `gap` apart and answers within `reply` of a ping: no run ever finds an owner it has a
      record of silent. */
  ghost predicate Safe(gap: nat, reply: nat) {
    forall s: State, events: seq<Event>, t: State ::
      Start(s) && Run(s, events, t, Promise(gap, Some(reply))) && t.w.owner != t.w.local && t.w.owner in t.w.heard ==>
        !Silent(t.w, t.now)
  }

  lemma SafeWithinTheLimit(gap: nat, reply: nat)
    requires gap + reply <= CURSOR_LIVENESS
    ensures Safe(gap, reply)
  {
    var promise := Promise(gap, Some(reply));
    forall s: State, events: seq<Event>, t: State |
      Start(s) && Run(s, events, t, promise) && t.w.owner != t.w.local && t.w.owner in t.w.heard
      ensures !Silent(t.w, t.now)
    {
      RunAnswering(s, events, t, promise);
      AnsweringKept(t, Waits(t.now), Promise(gap, Some(reply)));
    }
  }

  /** An owner that took the cursor at time zero and has been silent since, probed without pause. */
  lemma {:induction false} Dawdles(s: State, gap: nat, reply: nat) returns (events: seq<Event>, t: State)
    requires 0 < gap <= CURSOR_LIVENESS < gap + reply
    requires s.w.owner != s.w.local && s.w.owner in s.w.heard && s.w.heard[s.w.owner] == 0
    requires s.lastProbe == s.now <= CURSOR_LIVENESS
    requires if s.now == 0 then s.pinged == None else s.pinged == Some(gap)
    ensures Run(s, events, t, Promise(gap, Some(reply)))
    ensures t.w == s.w && Silent(t.w, t.now)
    decreases CURSOR_LIVENESS - s.now
  {
    if s.now + gap > CURSOR_LIVENESS && s.pinged.Some? {
      events, t := [Waits(CURSOR_LIVENESS + 1)], s.(now := CURSOR_LIVENESS + 1);
      assert Run(t, [], t, Promise(gap, Some(reply)));
      assert events[1..] == [];
    } else {
      var probe := Probes(World({}, {}), None);
      var waited := s.(now := s.now + gap);
      var probed := Next(waited, probe);
      var rest, end := Dawdles(probed, gap, reply);
      events, t := [Waits(s.now + gap)] + ([probe] + rest), end;
      assert events[1..] == [probe] + rest && ([probe] + rest)[1..] == rest;
      assert Run(waited, [probe] + rest, t, Promise(gap, Some(reply)));
    }
  }

  lemma {:induction false} RunAppends(s: State, events: seq<Event>, t: State, e: Event, gap: nat, reply: nat)
    requires Run(s, events, t, Promise(gap, Some(reply))) && Enabled(t, e, Promise(gap, None))
    ensures Run(s, events + [e], Next(t, e), Promise(gap, None))
    decreases events
  {
    if events == [] {
      assert [] + [e] == [e] && [e][1..] == [];
      assert Run(Next(t, e), [], Next(t, e), Promise(gap, None));
    } else {
      assert (events + [e])[1..] == events[1..] + [e];
      RunAppends(Next(s, events[0]), events[1..], t, e, gap, reply);
    }
  }

  /** A machine without a screen, whose one peer takes the cursor and dies, is left with the cursor there. */
  lemma HeadlessMachineIsStranded(gap: nat) returns (events: seq<Event>, t: State)
    requires 0 < gap <= CURSOR_LIVENESS
    ensures Run(State(Watch(0, 0, map[]), 0, 0, None, false), events, t, Promise(gap, None))
    ensures t.w.owner == 1 && t.stranded && 1 !in t.w.heard
  {
    var s := State(Watch(0, 0, map[]), 0, 0, None, false);
    var silent, end := Dawdles(Next(s, Crosses(1)), gap, CURSOR_LIVENESS);
    assert ([Crosses(1)] + silent)[1..] == silent;
    assert Run(s, [Crosses(1)] + silent, end, Promise(gap, Some(CURSOR_LIVENESS)));
    var last := Probes(World({1}, {}), None);
    RunAppends(s, [Crosses(1)] + silent, end, last, gap, CURSOR_LIVENESS);
    events, t := [Crosses(1)] + silent + [last], Next(end, last);
  }

  /** An owner with a session that answers every ping in time is never written off, however long it had been
      idle before it took the cursor, exactly when the promised reply time and the probe gap fit the limit. */
  lemma SafeExactlyWithinTheLimit(gap: nat, reply: nat)
    requires 0 < gap <= CURSOR_LIVENESS
    ensures Safe(gap, reply) <==> gap + reply <= CURSOR_LIVENESS
  {
    if gap + reply <= CURSOR_LIVENESS {
      SafeWithinTheLimit(gap, reply);
    } else {
      var s := State(Watch(0, 0, map[]), 0, 0, None, false);
      var crossed := Next(s, Crosses(1));
      var events, t := Dawdles(crossed, gap, reply);
      assert ([Crosses(1)] + events)[1..] == events;
      assert Run(s, [Crosses(1)] + events, t, Promise(gap, Some(reply)));
    }
  }

  /** The figures in use: 1500 ms to answer. */
  lemma AnsweringOwnerIsKept(s: State, events: seq<Event>, t: State)
    requires Start(s) && Run(s, events, t, Promise(CURSOR_PROBE, Some(CURSOR_LIVENESS - CURSOR_PROBE)))
    requires t.w.owner in t.w.heard
    ensures forall to :: !Probed(t.w, to, t.now).0.WrittenOff?
  {
    SafeWithinTheLimit(CURSOR_PROBE, CURSOR_LIVENESS - CURSOR_PROBE);
  }

  // --- Where the cursor goes -----------------------------------------------

  /** There is always an answer to where a stranded cursor may be put, and never one that is lost itself, that has no
      screen, or, but for this machine, that cannot be reached. */
  lemma RescueIsUsable(world: World, local: Node, lost: Node) returns (to: Option<Node>)
    requires lost != local
    ensures Rescues(world, local, lost, to)
    ensures forall other: Option<Node> :: Rescues(world, local, lost, other) && other.Some? ==>
              && other.value in world.screens && other.value != lost
              && (other.value == local || (local !in world.screens && other.value in world.reachable))
  {
    if local in world.screens {
      to := Some(local);
    } else if n :| n in world.screens && n != lost && n in world.reachable {
      to := Some(n);
    } else {
      to := None;
    }
  }

  /** A probe that writes its owner off puts the cursor there, and forgets when the lost machine was last heard; a
      machine that leaves is forgotten whether or not it held the cursor. */
  lemma LosingMoves(s: State, e: Event, promise: Promise)
    requires Enabled(s, e, promise)
    requires match e
             case Leaves(_, _, _) => true
             case Probes(_, _) => s.w.owner != s.w.local && Silent(s.w, s.now)
             case _ => false
    ensures var t, lost := Next(s, e), if e.Leaves? then e.node else s.w.owner;
            && (lost == s.w.owner && e.rescue.Some? ==> t.w.owner == e.rescue.value)
            && (lost != s.w.owner || e.rescue.None? ==> t.w.owner == s.w.owner)
            && lost !in t.w.heard
            && forall n :: n != lost && n in s.w.heard ==> n in t.w.heard
  {
  }
}
