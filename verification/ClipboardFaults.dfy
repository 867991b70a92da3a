/** How failing to list, read back or write makes a machine lose hold of what a peer sent it
    (crates/wx-agent/src/clipboard.rs:287-327, 388-411, crates/wx-agent/src/engine.rs:4699-4727). */
module ClipboardFaults {
  import opened Wrappers
  import opened Sums
  import opened Fnv
  import opened Fingerprints
  import opened ClipboardSyncs
  import opened ClipboardMachines
  import opened ClipboardInvariants
  import opened ClipboardSteps
  import opened ClipboardTheorems

  /** What the loop makes of a poll's report. */
  function Judged(sync: Sync, d: Done): (Sync, LocalChange)
    requires d.Polled?
  {
    sync.Observed(d.serial, d.formats, d.digest)
  }

  // --- A failed read-back --------------------------------------------------

  /** With a serial that had moved, a payload of a peer's on the clipboard is announced back exactly when
      reading it back fails: the failure drops the guard. */
  lemma FailedReadBackOffersBack(m: Machine, readable: bool)
    requires Inv(m) && m.worker.Listed? && Protected(m.os) && m.sync.seen.Some?
    ensures var n := AfterReadBack(m, readable);
            && |n.reports| == |m.reports| + 1 && n.sync == m.sync
            && var d := n.reports[|m.reports|];
            && d.Polled? && d.how.origin == m.os.origin
            && (Judged(m.sync, d).1.Offer? <==> !readable)
            && (Judged(m.sync, d).0.writeBack.None? <==> !readable)
  {
    hide GuardSerialSound, Accounts, OffersSound, Counted, Ordered, GuardStands, Rearmed, Fingerprint;
    GuardWhileSampling(m);
    var formats := Syncable(m.worker.formats);
    assert m.worker.guard.0 in formats;
  }

  function Applies(es: seq<Event>): nat {
    if es == [] then 0 else (if es[0].Apply? then 1 else 0) + Applies(es[1..])
  }

  /** What a poll will be judged against does not move while its report waits behind others. */
  lemma PollStepWaits(m: Machine, e: Event, p: nat)
    requires Inv(m) && Enabled(m, e) && p < |m.reports| && m.reports[p].Polled? && (e.Apply? ==> p > 0)
    ensures var n, q := Next(m, e).0, if e.Apply? then p - 1 else p;
            && q < |n.reports| && n.reports[q] == m.reports[p]
            && n.sync.seen == m.sync.seen && n.sync.writeBack == m.sync.writeBack
  {
    hide Guard, Sighted, Accounts, OffersSound, Snapshots, Counted, Ordered, OfferClipboard, Choose, Fingerprint, Bumped;
    if e.Apply? {
      NothingToJudge(m, p);
    }
  }

  lemma NothingToJudge(m: Machine, p: nat)
    requires Flow(m) && 0 < p < |m.reports| && m.reports[p].Polled?
    ensures m.reports[0].Served?
  {
    SumMember(PollReports, m.reports[1..], p - 1);
    assert m.reports[1..][p - 1] == m.reports[p];
    assert m.reports[0] in m.reports;
  }

  lemma {:induction false} PollWaits(ms: seq<Machine>, es: seq<Event>, p: nat)
    requires Run(ms, es) && Inv(ms[0]) && p < |ms[0].reports| && ms[0].reports[p].Polled? && Applies(es) <= p
    ensures var n := ms[|es|];
            && p - Applies(es) < |n.reports| && n.reports[p - Applies(es)] == ms[0].reports[p]
            && n.sync.seen == ms[0].sync.seen && n.sync.writeBack == ms[0].sync.writeBack
    decreases es
  {
    hide Inv, Enabled, Next;
    if es != [] {
      InvKept(ms[0], es[0]);
      PollStepWaits(ms[0], es[0], p);
      assert forall i :: 0 <= i < |es[1..]| ==> ms[1..][i] == ms[i + 1] && es[1..][i] == es[i + 1];
      PollWaits(ms[1..], es[1..], if es[0].Apply? then p - 1 else p);
    }
  }

  /** Whatever happens meanwhile, when that poll's turn comes the payload is announced back exactly when the
      read-back had failed. */
  lemma FailedReadBackIsAnnounced(m: Machine, readable: bool, ms: seq<Machine>, es: seq<Event>)
    requires Inv(m) && m.worker.Listed? && Protected(m.os) && m.sync.seen.Some?
    requires Run(ms, es) && ms[0] == AfterReadBack(m, readable) && Applies(es) == |m.reports|
    ensures var n := ms[|es|];
            n.reports != [] && n.reports[0].Polled? && (Verdict(n).Offer? <==> !readable)
  {
    hide Inv, AfterReadBack, Next, Enabled, Applies, Protected, Judged;
    FailedReadBackOffersBack(m, readable);
    InvKept(m, ReadBack(readable)) by {
      ReadBackIsNext(m, readable);
    }
    ReadBackIsNext(m, readable);
    PollWaits(ms, es, |m.reports|);
    var n := ms[|es|];
    SameVerdict(m.sync, n.sync, n.reports[0]);
    assert Verdict(n) == Judged(n.sync, n.reports[0]).1 by {
      VerdictIsJudged(n);
    }
  }

  lemma ReadBackIsNext(m: Machine, readable: bool)
    requires m.worker.Listed?
    ensures Enabled(m, ReadBack(readable)) && Next(m, ReadBack(readable)).0 == AfterReadBack(m, readable)
  {
  }

  lemma VerdictIsJudged(m: Machine)
    requires m.reports != [] && m.reports[0].Polled?
    ensures Verdict(m) == Judged(m.sync, m.reports[0]).1
  {
  }

  lemma SameVerdict(a: Sync, b: Sync, d: Done)
    requires d.Polled? && a.seen == b.seen && a.writeBack == b.writeBack
    ensures Judged(a, d).1 == Judged(b, d).1
  {
    hide Syncable;
  }

  // --- A failed listing ----------------------------------------------------

  /** A listing that fails drops the guard of a peer's payload exactly when the serial had moved past the one its
      write produced; nothing is announced yet. */
  lemma FailedListingDropsTheGuard(m: Machine)
    requires Inv(m) && m.worker.Sampled? && Protected(m.os) && m.sync.seen.Some?
    ensures var n := AfterListing(m, false);
            && |n.reports| == |m.reports| + 1 && n.sync == m.sync && n.os.origin == m.os.origin
            && m.sync.writeBack.Some?
            && var d := n.reports[|m.reports|];
            && d.Polled? && d.how.origin == m.os.origin && !Judged(m.sync, d).1.Offer?
            && (Judged(m.sync, d).0.writeBack.None? <==> m.worker.serial != m.sync.writeBack.value.serial)
  {
    hide GuardSerialSound, Accounts, OffersSound, Counted, Rearmed, Fingerprint;
    StandingUnchanged(MarkOf(m.sync.writeBack), m.reports);
  }

  // --- A failed write ------------------------------------------------------

  /** A write that fails leaves on the clipboard what was there, and drops the guard, whoever's content that is. */
  lemma FailedWriteDropsTheGuard(m: Machine, serial: nat, formats: seq<Format>, data: map<Format, Bytes>, sync: Sync,
                                 traffic: Traffic)
    requires m.worker.Ready?
    ensures var n := AfterWrite(m, false, serial, formats, data);
            && |n.reports| == |m.reports| + 1 && n.os == m.os.(intact := n.os.intact)
            && SettledReport(sync, traffic, n.reports[|m.reports|]).0 == sync.(writeBack := None)
  {
  }

  /** Content held without a guard is announced at the next move of the serial, whoever's it is and whatever can
      be read of it. */
  lemma UnguardedIsOffered(sync: Sync, d: Done)
    requires d.Polled? && sync.seen.Some? && sync.writeBack.None?
    ensures Judged(sync, d).1.Offer? <==> d.serial != sync.seen.value.serial && exists f <- SYNCED :: f in d.formats
  {
    OfferedExactlyWhenNew(sync, d.serial, d.formats, d.digest);
  }
}
