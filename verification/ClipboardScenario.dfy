/** One transfer from start to finish: the states the theorems speak of do arise. */
module ClipboardScenario {
  import opened Wrappers
  import opened Fnv
  import opened Fingerprints
  import opened ClipboardSyncs
  import opened ClipboardMachines
  import opened ClipboardInvariants
  import opened ClipboardSteps
  import opened ClipboardTheorems
  import opened ClipboardFaults

  const TEXT: set<Capability> := {ClipboardText}

  /** Where the events lead, when each of them can happen. */
  function Reached(m: Machine, es: seq<Event>): Option<Machine>
    decreases es
  {
    if es == [] then Some(m)
    else if !Enabled(m, es[0]) then None
    else Reached(Next(m, es[0]).0, es[1..])
  }

  lemma {:induction false} ReachedConcat(m: Machine, a: seq<Event>, b: seq<Event>)
    requires Reached(m, a).Some?
    ensures Reached(m, a + b) == Reached(Reached(m, a).value, b)
    decreases a
  {
    if a == [] {
      assert a + b == b;
    } else {
      assert (a + b)[1..] == a[1..] + b;
      ReachedConcat(Next(m, a[0]).0, a[1..], b);
    }
  }

  lemma Reached4(m: Machine, a: Event, b: Event, c: Event, d: Event)
    requires Enabled(m, a)
    requires var m1 := Next(m, a).0; Enabled(m1, b)
    requires var m2 := Next(Next(m, a).0, b).0; Enabled(m2, c)
    requires var m3 := Next(Next(Next(m, a).0, b).0, c).0; Enabled(m3, d)
    ensures Reached(m, [a, b, c, d]) == Some(Next(Next(Next(Next(m, a).0, b).0, c).0, d).0)
  {
    hide Enabled, Next;
    var m1 := Next(m, a).0;
    var m2 := Next(m1, b).0;
    var m3 := Next(m2, c).0;
    assert [a, b, c, d][1..] == [b, c, d] && [b, c, d][1..] == [c, d] && [c, d][1..] == [d] && [d][1..] == [];
    assert Reached(m3, [d]) == Some(Next(m3, d).0);
    assert Reached(m2, [c, d]) == Reached(m3, [d]);
    assert Reached(m1, [b, c, d]) == Reached(m2, [c, d]);
  }

  // --- The stages ----------------------------------------------------------

  function Fresh(id: PeerId): Machine {
    Started(id, TEXT, 1, [], map[])
  }

  function LookedAround(id: PeerId): Machine {
    Fresh(id).(sync := Sync(Some(Snapshot(1, [])), None, map[]))
  }

  const LOOK := [PollTick(false), SampleSerial(true), ListFormats(true), Apply([])]

  lemma FirstLook(id: PeerId)
    ensures Reached(Fresh(id), LOOK) == Some(LookedAround(id))
  {
    var m0 := Fresh(id);
    var m1 := Next(m0, PollTick(false)).0;
    assert m1 == m0.(jobs := [Poll(None, None)], traffic := Traffic(true, 0, false));
    var m2 := Next(m1, SampleSerial(true)).0;
    assert m2 == m0.(worker := Sampled(None, 1), traffic := Traffic(true, 0, false));
    var m3 := Next(m2, ListFormats(true)).0;
    assert m3 == m0.(reports := [Polled(1, [], None, Seen(m2, None, true))], traffic := Traffic(true, 0, false));
    assert Syncable([]) == [];
    assert Next(m3, Apply([])).0 == LookedAround(id);
    Reached4(m0, LOOK[0], LOOK[1], LOOK[2], LOOK[3]);
  }

  function LinkTo(peer: PeerId): Link {
    Link(peer, true, TEXT, true)
  }

  /** A peer offers text, is asked for it, sends it, and the worker writes it. */
  function Transfer(peer: PeerId, payload: Bytes): seq<Event> {
    [Receive(LinkTo(peer), ClipboardOffer([Utf8Text], 7)), Receive(LinkTo(peer), ClipboardData(Utf8Text, 7, payload)),
     Unpack(Some(payload)), WriteOut(true, 2, [Utf8Text], map[Utf8Text := payload])]
  }

  function Delivered(id: PeerId, peer: PeerId, payload: Bytes): Machine {
    Machine(id, TEXT, Sync(Some(Snapshot(1, [])), None, map[]), Traffic(false, 1, false), [],
            Written(peer, Utf8Text, payload), [Done.Writing(Utf8Text, Fingerprint(payload))],
            Os(2, [Utf8Text], map[Utf8Text := payload], Peer(Utf8Text, payload), {1}, true),
            Ledger(0, 0, map[peer := 1], map[peer := 1], [], 0))
  }

  function Asked(id: PeerId, peer: PeerId): Machine {
    var m := LookedAround(id);
    m.(sync := m.sync.(asked := map[peer := (7, Utf8Text)]), ledger := m.ledger.(asks := map[peer := 1]))
  }

  lemma TextIsChosen()
    ensures Choose([Utf8Text], TEXT, TEXT) == Some(Utf8Text)
  {
  }

  lemma TextIsAskedFor(sync: Sync, peer: PeerId)
    requires sync.asked == map[]
    ensures sync.Asking(peer, 7, Utf8Text) == (sync.(asked := map[peer := (7, Utf8Text)]), true)
  {
    assert sync.asked[peer := (7, Utf8Text)] == map[peer := (7, Utf8Text)];
  }

  lemma OfferIsAskedFor(id: PeerId, peer: PeerId, payload: Bytes)
    ensures Next(LookedAround(id), Transfer(peer, payload)[0]).0 == Asked(id, peer)
  {
    TextIsChosen();
    TextIsAskedFor(LookedAround(id).sync, peer);
    assert Bumped(map[], peer) == map[peer := 1];
    hide Choose, Usable, Bumped;
    assert OnOffer(LookedAround(id), LinkTo(peer), [Utf8Text], 7).0 == Asked(id, peer);
  }

  function Queued(id: PeerId, peer: PeerId, payload: Bytes): Machine {
    LookedAround(id).(jobs := [Accept(peer, Utf8Text, payload)], traffic := Traffic(false, 1, false),
                      ledger := Ledger(0, 0, map[peer := 1], map[peer := 1], [], 0))
  }

  lemma DataIsQueued(id: PeerId, peer: PeerId, payload: Bytes)
    ensures Next(Asked(id, peer), Transfer(peer, payload)[1]).0 == Queued(id, peer, payload)
  {
    assert Asked(id, peer).sync.asked - {peer} == map[];
    assert Bumped(map[], peer) == map[peer := 1];
  }

  function Unpacked(id: PeerId, peer: PeerId, payload: Bytes): Machine {
    Queued(id, peer, payload).(jobs := [], worker := Ready(peer, Utf8Text, payload),
                               reports := [Done.Writing(Utf8Text, Fingerprint(payload))])
  }

  lemma PayloadIsUnpacked(id: PeerId, peer: PeerId, payload: Bytes)
    ensures Enabled(Queued(id, peer, payload), Unpack(Some(payload)))
    ensures Next(Queued(id, peer, payload), Unpack(Some(payload))).0 == Unpacked(id, peer, payload)
  {
    hide Fingerprint;
    assert Queued(id, peer, payload).jobs[1..] == [];
  }

  lemma PayloadIsWritten(id: PeerId, peer: PeerId, payload: Bytes)
    ensures Enabled(Unpacked(id, peer, payload), Transfer(peer, payload)[3])
    ensures Next(Unpacked(id, peer, payload), Transfer(peer, payload)[3]).0 == Delivered(id, peer, payload)
  {
    hide Fingerprint;
  }

  lemma PayloadArrives(id: PeerId, peer: PeerId, payload: Bytes)
    ensures Reached(LookedAround(id), Transfer(peer, payload)) == Some(Delivered(id, peer, payload))
  {
    OfferIsAskedFor(id, peer, payload);
    DataIsQueued(id, peer, payload);
    PayloadIsUnpacked(id, peer, payload);
    PayloadIsWritten(id, peer, payload);
    var es := Transfer(peer, payload);
    assert Enabled(LookedAround(id), es[0]) && Enabled(Asked(id, peer), es[1]);
    hide Reached, Enabled, Next, LookedAround, Asked, Queued, Unpacked, Delivered;
    Reached4(LookedAround(id), es[0], es[1], es[2], es[3]);
  }

  const REPORT := [ReportWrite(true), Apply([]), Apply([]), SerialMoved(3)]

  /** The write is reported, and the serial moves once more for the same payload. */
  function Guarded(id: PeerId, peer: PeerId, payload: Bytes): Machine {
    var m := Delivered(id, peer, payload);
    m.(sync := m.sync.(writeBack := Some(WriteBack(2, Utf8Text, Fingerprint(payload)))), traffic := Traffic(false, 0, false),
       worker := Idle, reports := [], os := m.os.(serial := 3))
  }

  lemma GuardIsArmed(id: PeerId, peer: PeerId, payload: Bytes)
    ensures Reached(Delivered(id, peer, payload), REPORT) == Some(Guarded(id, peer, payload))
  {
    hide Fingerprint;
    var m0 := Delivered(id, peer, payload);
    var mark := Fingerprint(payload);
    var m1 := Next(m0, REPORT[0]).0;
    assert m1.reports == [Done.Writing(Utf8Text, mark), Done.Wrote(peer, Utf8Text, Some(2))];
    var m2 := Next(m1, REPORT[1]).0;
    assert m2.reports == [Done.Wrote(peer, Utf8Text, Some(2))];
    assert m2.sync == m0.sync.(writeBack := Some(WriteBack(1, Utf8Text, mark)));
    var m3 := Next(m2, REPORT[2]).0;
    assert m3.reports == [] && m3.traffic == Traffic(false, 0, false);
    assert Next(m3, REPORT[3]).0 == Guarded(id, peer, payload);
    Reached4(m0, REPORT[0], REPORT[1], REPORT[2], REPORT[3]);
  }

  const RESAMPLE := [PollTick(false), SampleSerial(true), ListFormats(true), ReadBack(true)]

  lemma ReadsBackAsItsOwn(id: PeerId, peer: PeerId, payload: Bytes)
    ensures Reached(Guarded(id, peer, payload), RESAMPLE).Some?
    ensures var m := Reached(Guarded(id, peer, payload), RESAMPLE).value;
            m.reports != [] && SawProtected(m.reports[0]) && m.sync.seen.Some? && Verdict(m) == Echo
  {
    hide Fingerprint;
    var m0 := Guarded(id, peer, payload);
    var m1 := Next(m0, RESAMPLE[0]).0;
    assert m1.jobs == [Poll(Some(1), Some((Utf8Text, 2)))];
    var m2 := Next(m1, RESAMPLE[1]).0;
    assert m2.worker == Sampled(Some((Utf8Text, 2)), 3);
    var m3 := Next(m2, RESAMPLE[2]).0;
    assert m3.worker == Listed((Utf8Text, 2), 3, [Utf8Text]);
    var m4 := Next(m3, RESAMPLE[3]).0;
    assert m4.reports == [Polled(3, [Utf8Text], Some(Fingerprint(payload)), Seen(m4, Some((Utf8Text, 2)), true))];
    assert Utf8Text in SYNCED && Utf8Text in [Utf8Text];
    Reached4(m0, RESAMPLE[0], RESAMPLE[1], RESAMPLE[2], RESAMPLE[3]);
  }

  /** From a fresh start, for any payload: offered, asked for, sent, unpacked and written; the serial then moves
      again, the clipboard is read back, and the verdict is an echo. */
  lemma TransferThenEcho(id: PeerId, peer: PeerId, payload: Bytes)
    ensures var es := LOOK + (Transfer(peer, payload) + (REPORT + RESAMPLE));
            Reached(Fresh(id), es).Some?
            && var m := Reached(Fresh(id), es).value;
               m.reports != [] && SawProtected(m.reports[0]) && m.sync.seen.Some? && Verdict(m) == Echo
  {
    hide Enabled, Next, Fingerprint, Verdict;
    FirstLook(id);
    ReachedConcat(Fresh(id), LOOK, Transfer(peer, payload) + (REPORT + RESAMPLE));
    PayloadArrives(id, peer, payload);
    ReachedConcat(LookedAround(id), Transfer(peer, payload), REPORT + RESAMPLE);
    GuardIsArmed(id, peer, payload);
    ReachedConcat(Delivered(id, peer, payload), REPORT, RESAMPLE);
    ReadsBackAsItsOwn(id, peer, payload);
  }

  // --- One copy announced twice --------------------------------------------

  lemma Reached2(m: Machine, a: Event, b: Event)
    requires Enabled(m, a) && Enabled(Next(m, a).0, b)
    ensures Reached(m, [a, b]) == Some(Next(Next(m, a).0, b).0)
  {
    hide Enabled, Next;
    assert [a, b][1..] == [b] && [b][1..] == [];
    assert Reached(Next(m, a).0, [b]) == Some(Next(Next(m, a).0, b).0);
  }

  function Interrupted(copy: Bytes): seq<Event> {
    [PollTick(false), SampleSerial(true), Copied(4, [Utf8Text], map[Utf8Text := copy]), ListFormats(true)]
  }

  function CopiedOver(copy: Bytes): Os {
    Os(4, [Utf8Text], map[Utf8Text := copy], User, {1, 4}, true)
  }

  /** A copy lands after the serial was read and before the formats were. */
  function CaughtMidSample(id: PeerId, peer: PeerId, payload: Bytes, copy: Bytes): Machine {
    Guarded(id, peer, payload).(os := CopiedOver(copy), traffic := Traffic(true, 0, false),
                                worker := Listed((Utf8Text, 2), 3, [Utf8Text]))
  }

  lemma CopyLandsMidSample(id: PeerId, peer: PeerId, payload: Bytes, copy: Bytes)
    ensures Reached(Guarded(id, peer, payload), Interrupted(copy)) == Some(CaughtMidSample(id, peer, payload, copy))
  {
    hide Fingerprint;
    var es := Interrupted(copy);
    var m0 := Guarded(id, peer, payload);
    var m1 := Next(m0, es[0]).0;
    assert m1.jobs == [Poll(Some(1), Some((Utf8Text, 2)))];
    var m2 := Next(m1, es[1]).0;
    assert m2.worker == Sampled(Some((Utf8Text, 2)), 3);
    var m3 := Next(m2, es[2]).0;
    assert m3.os == CopiedOver(copy);
    assert Next(m3, es[3]).0 == CaughtMidSample(id, peer, payload, copy);
    Reached4(m0, es[0], es[1], es[2], es[3]);
  }

  const FIRST := [ReadBack(true), Apply([])]

  function OfferedOnce(id: PeerId, peer: PeerId, payload: Bytes, copy: Bytes): Machine {
    var m := CaughtMidSample(id, peer, payload, copy);
    m.(sync := Sync(Some(Snapshot(3, [Utf8Text])), None, map[]), traffic := Traffic(false, 0, false), worker := Idle,
       ledger := m.ledger.(offers := [Offered(3, 4, User)]))
  }

  lemma TextIsSyncable()
    ensures Syncable([Utf8Text]) == [Utf8Text]
  {
  }

  lemma FirstOffer(id: PeerId, peer: PeerId, payload: Bytes, copy: Bytes)
    requires Fingerprint(copy) != Fingerprint(payload)
    ensures Reached(CaughtMidSample(id, peer, payload, copy), FIRST) == Some(OfferedOnce(id, peer, payload, copy))
  {
    hide Fingerprint, Syncable;
    TextIsSyncable();
    var m0 := CaughtMidSample(id, peer, payload, copy);
    var m1 := Next(m0, FIRST[0]).0;
    assert m1.reports == [Polled(3, [Utf8Text], Some(Fingerprint(copy)), Seen(m0, Some((Utf8Text, 2)), true))];
    assert Next(m1, FIRST[1]).0 == OfferedOnce(id, peer, payload, copy);
    Reached2(m0, FIRST[0], FIRST[1]);
  }

  lemma SecondOffer(id: PeerId, peer: PeerId, payload: Bytes, copy: Bytes)
    ensures Reached(OfferedOnce(id, peer, payload, copy), LOOK).Some?
    ensures var m := Reached(OfferedOnce(id, peer, payload, copy), LOOK).value;
            m.ledger.offers == [Offered(3, 4, User), Offered(4, 4, User)] && m.os == CopiedOver(copy) && m.ledger.faults == 0
  {
    hide Fingerprint, Syncable;
    TextIsSyncable();
    var m0 := OfferedOnce(id, peer, payload, copy);
    var m1 := Next(m0, LOOK[0]).0;
    assert m1.jobs == [Poll(Some(3), None)];
    var m2 := Next(m1, LOOK[1]).0;
    assert m2.worker == Sampled(None, 4);
    var m3 := Next(m2, LOOK[2]).0;
    assert m3.reports == [Polled(4, [Utf8Text], None, Seen(m2, None, true))];
    var m4 := Next(m3, LOOK[3]).0;
    assert m4.ledger.offers == [Offered(3, 4, User), Offered(4, 4, User)];
    Reached4(m0, LOOK[0], LOOK[1], LOOK[2], LOOK[3]);
  }

  /** The bound of two offers for one copy is met: a copy that lands while the clipboard is being sampled is
      announced under the serial read before it, and again under its own. */
  lemma OneCopyAnnouncedTwice(id: PeerId, peer: PeerId, payload: Bytes, copy: Bytes)
    requires Fingerprint(copy) != Fingerprint(payload)
    ensures var es := Interrupted(copy) + (FIRST + LOOK);
            Reached(Guarded(id, peer, payload), es).Some?
            && var m := Reached(Guarded(id, peer, payload), es).value;
               m.ledger.offers == [Offered(3, 4, User), Offered(4, 4, User)] && m.os.userSerials == {1, 4}
               && m.ledger.faults == 0
  {
    hide Enabled, Next, Fingerprint;
    CopyLandsMidSample(id, peer, payload, copy);
    ReachedConcat(Guarded(id, peer, payload), Interrupted(copy), FIRST + LOOK);
    FirstOffer(id, peer, payload, copy);
    ReachedConcat(CaughtMidSample(id, peer, payload, copy), FIRST, LOOK);
    SecondOffer(id, peer, payload, copy);
  }

  // --- A failed read-back --------------------------------------------------

  function Resampled(id: PeerId, peer: PeerId, payload: Bytes): Machine {
    Guarded(id, peer, payload).(traffic := Traffic(true, 0, false), worker := Listed((Utf8Text, 2), 3, [Utf8Text]))
  }

  const RELIST := [PollTick(false), SampleSerial(true), ListFormats(true)]

  lemma ReadingBackIsReached(id: PeerId, peer: PeerId, payload: Bytes)
    ensures Reached(Guarded(id, peer, payload), RELIST) == Some(Resampled(id, peer, payload))
  {
    hide Fingerprint;
    var m0 := Guarded(id, peer, payload);
    var m1 := Next(m0, RELIST[0]).0;
    assert m1.jobs == [Poll(Some(1), Some((Utf8Text, 2)))];
    var m2 := Next(m1, RELIST[1]).0;
    assert m2.worker == Sampled(Some((Utf8Text, 2)), 3);
    var m3 := Next(m2, RELIST[2]).0;
    assert m3 == Resampled(id, peer, payload);
    Reached2(m0, RELIST[0], RELIST[1]);
    ReachedConcat(m0, [RELIST[0], RELIST[1]], [RELIST[2]]);
    assert [RELIST[2]][1..] == [] && RELIST == [RELIST[0], RELIST[1]] + [RELIST[2]];
  }

  lemma {:induction false} ReachedKeeps(m: Machine, es: seq<Event>)
    requires Inv(m) && Reached(m, es).Some?
    ensures Inv(Reached(m, es).value)
    decreases es
  {
    hide Inv, Next, Enabled;
    if es != [] {
      InvKept(m, es[0]);
      ReachedKeeps(Next(m, es[0]).0, es[1..]);
    }
  }

  /** From a fresh start, a peer's payload comes to be read back; where the read fails it is announced to
      everybody as this machine's own, and where it succeeds it is not. */
  lemma FailedReadBackHappens(id: PeerId, peer: PeerId, payload: Bytes, readable: bool)
    ensures var es := LOOK + (Transfer(peer, payload) + (REPORT + RELIST));
            && Reached(Fresh(id), es) == Some(Resampled(id, peer, payload))
            && (var n := AfterReadBack(Resampled(id, peer, payload), readable);
                n.reports != [] && n.reports[0].Polled? && n.reports[0].how.origin == Peer(Utf8Text, payload)
                && (Verdict(n).Offer? <==> !readable))
  {
    hide Enabled, Next, Fingerprint, Inv, AfterReadBack, Verdict;
    var es := LOOK + (Transfer(peer, payload) + (REPORT + RELIST));
    FirstLook(id);
    ReachedConcat(Fresh(id), LOOK, Transfer(peer, payload) + (REPORT + RELIST));
    PayloadArrives(id, peer, payload);
    ReachedConcat(LookedAround(id), Transfer(peer, payload), REPORT + RELIST);
    GuardIsArmed(id, peer, payload);
    ReachedConcat(Delivered(id, peer, payload), REPORT, RELIST);
    ReadingBackIsReached(id, peer, payload);
    InvAtStart(id, TEXT, 1, [], map[]);
    ReachedKeeps(Fresh(id), es);
    FailedReadBackOffersBack(Resampled(id, peer, payload), readable);
    ReadBackReports(Resampled(id, peer, payload), readable);
  }

  lemma ReadBackReports(m: Machine, readable: bool)
    requires m.worker.Listed? && m.reports == []
    ensures var n := AfterReadBack(m, readable);
            n.reports != [] && n.reports[0].Polled? && Verdict(n) == Judged(m.sync, n.reports[0]).1
  {
  }
}
