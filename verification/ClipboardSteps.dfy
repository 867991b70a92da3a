/** Every step of the clipboard machine keeps the invariant. */
module ClipboardSteps {
  import opened Wrappers
  import opened Sums
  import opened Fnv
  import opened Fingerprints
  import opened ClipboardSyncs
  import opened ClipboardMachines
  import opened ClipboardInvariants

  // --- The OS --------------------------------------------------------------

  /** Nothing the loop or the worker keeps depends on the OS clipboard. */
  lemma FlowByOs(m: Machine, os: Os)
    requires Flow(m) && Accounts(m)
    ensures Flow(m.(os := os)) && Accounts(m.(os := os))
  {
  }

  /** A person's content replaces what was there, or the serial moves. */
  predicate Advanced(before: Os, after: Os) {
    && before.serial < after.serial && before.userSerials <= after.userSerials
    && after.userSerials <= before.userSerials + {after.serial}
    && (after.origin.User? ==> after.serial in after.userSerials && (before.intact ==> after.intact))
    && (after.origin.Peer? ==> after == before.(serial := after.serial))
  }

  lemma GuardByOs(m: Machine, os: Os)
    requires Flow(m) && Guard(m) && Advanced(m.os, os) && (os.origin.User? ==> m.os.origin.User? || !m.worker.Written?)
    ensures Guard(m.(os := os))
  {
    hide Flow;
  }

  lemma SightedByOs(m: Machine, os: Os)
    requires OsSound(m) && Sighted(m) && Advanced(m.os, os)
    ensures Sighted(m.(os := os))
  {
  }

  lemma OffersByOs(m: Machine, os: Os)
    requires OffersSound(m) && Advanced(m.os, os)
    ensures OffersSound(m.(os := os))
  {
  }

  lemma KeptByOs(m: Machine, os: Os)
    requires Inv(m) && Advanced(m.os, os) && (os.origin.User? ==> m.os.origin.User? || !m.worker.Written?)
    ensures Inv(m.(os := os))
  {
    hide Flow, GuardStands, Rearmed, Sighted, Accounts, OffersSound, Advanced;
    FlowByOs(m, os);
    GuardByOs(m, os);
    SightedByOs(m, os);
    OffersByOs(m, os);
  }

  lemma KeptByCopy(m: Machine, serial: nat, formats: seq<Format>, data: map<Format, Bytes>)
    requires Inv(m) && Enabled(m, Copied(serial, formats, data))
    ensures Inv(Next(m, Copied(serial, formats, data)).0)
  {
    KeptByOs(m, Os(serial, formats, data, User, m.os.userSerials + {serial}, true));
  }

  lemma KeptByMove(m: Machine, serial: nat)
    requires Inv(m) && m.os.serial < serial
    ensures Inv(m.(os := Moved(m.os, serial)))
  {
    KeptByOs(m, Moved(m.os, serial));
  }

  // --- The worker ----------------------------------------------------------

  lemma SightingByListing(m: Machine, readable: bool)
    requires Inv(m) && m.worker.Sampled? && AfterListing(m, readable).worker.Idle?
    ensures var n := AfterListing(m, readable); SightingSound(n, n.reports[|m.reports|])
  {
    StandingUnchanged(MarkOf(m.sync.writeBack), m.reports);
  }

  lemma SightingByReadBack(m: Machine, readable: bool)
    requires Inv(m) && m.worker.Listed?
    ensures var n := AfterReadBack(m, readable); SightingSound(n, n.reports[|m.reports|])
  {
    StandingUnchanged(MarkOf(m.sync.writeBack), m.reports);
  }

  lemma {:induction false} StandingUnchanged(mark: Mark, reports: seq<Done>)
    requires forall d <- reports :: !WriteDone(d)
    ensures Standing(mark, reports) == mark
  {
    if reports != [] {
      assert reports[0] in reports && forall d <- reports[1..] :: d in reports;
      StandingUnchanged(mark, reports[1..]);
    }
  }

  lemma GuardBySample(m: Machine, readable: bool)
    requires Inv(m) && Enabled(m, SampleSerial(readable))
    ensures Guard(StartSample(m, readable))
  {
    var n := StartSample(m, readable);
    if n.reports != m.reports {
      StandingAppend(MarkOf(m.sync.writeBack), m.reports, n.reports[|m.reports|]);
    }
  }

  lemma SightedBySample(m: Machine, readable: bool)
    requires Inv(m) && Enabled(m, SampleSerial(readable))
    ensures Sighted(StartSample(m, readable))
  {
  }

  lemma AccountsBySample(m: Machine, readable: bool)
    requires Inv(m) && Enabled(m, SampleSerial(readable))
    ensures Accounts(StartSample(m, readable)) && OffersSound(StartSample(m, readable))
  {
    hide Flow, Guard, Sighted, Tally, ServeSound;
    var n := StartSample(m, readable);
    if n.reports != m.reports {
      AppendedReport(m.reports, n.reports[|m.reports|]);
    }
  }

  lemma KeptBySample(m: Machine, readable: bool)
    requires Inv(m) && Enabled(m, SampleSerial(readable))
    ensures Inv(StartSample(m, readable))
  {
    hide Guard, Sighted, Accounts, OffersSound, Counted;
    CountedBySample(m, readable);
    GuardBySample(m, readable);
    SightedBySample(m, readable);
    AccountsBySample(m, readable);
  }

  lemma GuardByListing(m: Machine, readable: bool)
    requires Inv(m) && m.worker.Sampled?
    ensures Guard(AfterListing(m, readable))
  {
    var n := AfterListing(m, readable);
    if n.reports != m.reports {
      StandingAppend(MarkOf(m.sync.writeBack), m.reports, n.reports[|m.reports|]);
    }
  }

  lemma SightedByListing(m: Machine, readable: bool)
    requires Inv(m) && m.worker.Sampled?
    ensures Sighted(AfterListing(m, readable))
  {
    hide Flow, Guard, Accounts, OffersSound;
    var n := AfterListing(m, readable);
    if n.worker.Idle? {
      SightingByListing(m, readable);
    }
  }

  lemma AccountsByListing(m: Machine, readable: bool)
    requires Inv(m) && m.worker.Sampled?
    ensures Accounts(AfterListing(m, readable)) && OffersSound(AfterListing(m, readable))
  {
    hide Flow, GuardStands, Rearmed;
    var n := AfterListing(m, readable);
    if n.reports != m.reports {
      AppendedReport(m.reports, n.reports[|m.reports|]);
    }
  }

  lemma FlowByListing(m: Machine, readable: bool)
    requires Inv(m) && m.worker.Sampled?
    ensures Flow(AfterListing(m, readable))
  {
    hide Guard, Sighted, Accounts, OffersSound, Counted;
    CountedByListing(m, readable);
    OrderedByListing(m, readable);
    hide Ordered;
  }

  lemma OrderedByListing(m: Machine, readable: bool)
    requires Ordered(m) && m.worker.Sampled?
    ensures Ordered(AfterListing(m, readable))
  {
    var n := AfterListing(m, readable);
    assert forall d <- n.reports :: d in m.reports || d.Polled?;
  }

  lemma KeptByListing(m: Machine, readable: bool)
    requires Inv(m) && m.worker.Sampled?
    ensures Inv(AfterListing(m, readable))
  {
    FlowByListing(m, readable);
    GuardByListing(m, readable);
    SightedByListing(m, readable);
    AccountsByListing(m, readable);
  }

  lemma GuardByReadBack(m: Machine, readable: bool)
    requires Inv(m) && m.worker.Listed?
    ensures Guard(AfterReadBack(m, readable))
  {
    var n := AfterReadBack(m, readable);
    if n.reports != m.reports {
      StandingAppend(MarkOf(m.sync.writeBack), m.reports, n.reports[|m.reports|]);
    }
  }

  lemma SightedByReadBack(m: Machine, readable: bool)
    requires Inv(m) && m.worker.Listed?
    ensures Sighted(AfterReadBack(m, readable))
  {
    hide Flow, GuardStands, Rearmed, Accounts, OffersSound, Fingerprint, IsWriteBack, Syncable, ReadBackOf;
    SightingByReadBack(m, readable);
  }

  lemma AccountsByReadBack(m: Machine, readable: bool)
    requires Inv(m) && m.worker.Listed?
    ensures Accounts(AfterReadBack(m, readable)) && OffersSound(AfterReadBack(m, readable))
  {
    hide Flow, Guard, Sighted;
    var n := AfterReadBack(m, readable);
    if n.reports != m.reports {
      AppendedReport(m.reports, n.reports[|m.reports|]);
    }
  }

  lemma KeptByReadBack(m: Machine, readable: bool)
    requires Inv(m) && m.worker.Listed?
    ensures Inv(AfterReadBack(m, readable))
  {
    hide Guard, Sighted, Accounts, OffersSound, Counted;
    CountedByReadBack(m, readable);
    GuardByReadBack(m, readable);
    SightedByReadBack(m, readable);
    AccountsByReadBack(m, readable);
  }

  lemma GuardByServe(m: Machine, readable: bool)
    requires Inv(m) && Enabled(m, ReadForPeer(readable))
    ensures Guard(ServeFromClipboard(m, readable))
  {
    var n := ServeFromClipboard(m, readable);
    if n.reports != m.reports {
      StandingAppend(MarkOf(m.sync.writeBack), m.reports, n.reports[|m.reports|]);
    }
  }

  lemma SightedByServe(m: Machine, readable: bool)
    requires Inv(m) && Enabled(m, ReadForPeer(readable))
    ensures Sighted(ServeFromClipboard(m, readable))
  {
  }

  lemma AccountsByServe(m: Machine, readable: bool)
    requires Inv(m) && Enabled(m, ReadForPeer(readable))
    ensures Accounts(ServeFromClipboard(m, readable)) && OffersSound(ServeFromClipboard(m, readable))
  {
    hide Flow, Guard, Sighted;
    var n := ServeFromClipboard(m, readable);
    if n.reports != m.reports {
      AppendedReport(m.reports, n.reports[|m.reports|]);
    }
  }

  lemma KeptByServe(m: Machine, readable: bool)
    requires Inv(m) && Enabled(m, ReadForPeer(readable))
    ensures Inv(ServeFromClipboard(m, readable))
  {
    hide Guard, Sighted, Accounts, OffersSound, Counted;
    CountedByServe(m, readable);
    GuardByServe(m, readable);
    SightedByServe(m, readable);
    AccountsByServe(m, readable);
  }

  lemma GuardByUnpack(m: Machine, payload: Option<Bytes>)
    requires Inv(m) && Enabled(m, Unpack(payload))
    ensures Guard(StartWrite(m, payload))
  {
    var n := StartWrite(m, payload);
    if n.reports != m.reports {
      StandingAppend(MarkOf(m.sync.writeBack), m.reports, n.reports[|m.reports|]);
    }
  }

  lemma SightedByUnpack(m: Machine, payload: Option<Bytes>)
    requires Inv(m) && Enabled(m, Unpack(payload))
    ensures Sighted(StartWrite(m, payload))
  {
  }

  lemma AccountsByUnpack(m: Machine, payload: Option<Bytes>)
    requires Inv(m) && Enabled(m, Unpack(payload))
    ensures Accounts(StartWrite(m, payload)) && OffersSound(StartWrite(m, payload))
  {
    hide Flow, Guard, Sighted;
    var n := StartWrite(m, payload);
    if n.reports != m.reports {
      AppendedReport(m.reports, n.reports[|m.reports|]);
    }
  }

  lemma KeptByUnpack(m: Machine, payload: Option<Bytes>)
    requires Inv(m) && Enabled(m, Unpack(payload))
    ensures Inv(StartWrite(m, payload))
  {
    hide Guard, Sighted, Accounts, OffersSound, Counted;
    CountedByUnpack(m, payload);
    GuardByUnpack(m, payload);
    SightedByUnpack(m, payload);
    AccountsByUnpack(m, payload);
  }

  lemma GuardByWrite(m: Machine, ok: bool, serial: nat, formats: seq<Format>, data: map<Format, Bytes>)
    requires Inv(m) && Enabled(m, WriteOut(ok, serial, formats, data))
    ensures Guard(AfterWrite(m, ok, serial, formats, data))
  {
    var n := AfterWrite(m, ok, serial, formats, data);
    if n.reports != m.reports {
      StandingAppend(MarkOf(m.sync.writeBack), m.reports, n.reports[|m.reports|]);
    }
  }

  lemma SightedByWrite(m: Machine, ok: bool, serial: nat, formats: seq<Format>, data: map<Format, Bytes>)
    requires Inv(m) && Enabled(m, WriteOut(ok, serial, formats, data))
    ensures Sighted(AfterWrite(m, ok, serial, formats, data))
  {
    hide Flow, GuardStands, Rearmed, Accounts, OffersSound, IsWriteBack, ReadBackOf, Fingerprint;
  }

  lemma AccountsByWrite(m: Machine, ok: bool, serial: nat, formats: seq<Format>, data: map<Format, Bytes>)
    requires Inv(m) && Enabled(m, WriteOut(ok, serial, formats, data))
    ensures Accounts(AfterWrite(m, ok, serial, formats, data)) && OffersSound(AfterWrite(m, ok, serial, formats, data))
  {
    hide Flow, GuardStands, Rearmed, Sighted;
    var n := AfterWrite(m, ok, serial, formats, data);
    if n.reports != m.reports {
      AppendedReport(m.reports, n.reports[|m.reports|]);
    }
  }

  lemma KeptByWrite(m: Machine, ok: bool, serial: nat, formats: seq<Format>, data: map<Format, Bytes>)
    requires Inv(m) && Enabled(m, WriteOut(ok, serial, formats, data))
    ensures Inv(AfterWrite(m, ok, serial, formats, data))
  {
    hide Guard, Sighted, Accounts, OffersSound, Counted;
    CountedByWrite(m, ok, serial, formats, data);
    GuardByWrite(m, ok, serial, formats, data);
    SightedByWrite(m, ok, serial, formats, data);
    AccountsByWrite(m, ok, serial, formats, data);
  }

  lemma GuardByReportWrite(m: Machine, known: bool)
    requires Inv(m) && m.worker.Written?
    ensures Guard(ReportWritten(m, known))
  {
    var n := ReportWritten(m, known);
    if n.reports != m.reports {
      StandingAppend(MarkOf(m.sync.writeBack), m.reports, n.reports[|m.reports|]);
    }
  }

  lemma SightedByReportWrite(m: Machine, known: bool)
    requires Inv(m) && m.worker.Written?
    ensures Sighted(ReportWritten(m, known))
  {
  }

  lemma AccountsByReportWrite(m: Machine, known: bool)
    requires Inv(m) && m.worker.Written?
    ensures Accounts(ReportWritten(m, known)) && OffersSound(ReportWritten(m, known))
  {
    hide Flow, Guard, Sighted;
    var n := ReportWritten(m, known);
    if n.reports != m.reports {
      AppendedReport(m.reports, n.reports[|m.reports|]);
    }
  }

  lemma KeptByReportWrite(m: Machine, known: bool)
    requires Inv(m) && m.worker.Written?
    ensures Inv(ReportWritten(m, known))
  {
    hide Guard, Sighted, Accounts, OffersSound, Counted;
    CountedByReportWrite(m, known);
    GuardByReportWrite(m, known);
    SightedByReportWrite(m, known);
    AccountsByReportWrite(m, known);
  }

  // --- The loop applies a report -------------------------------------------

  lemma {:induction false} NoneCounted<T>(weigh: T -> nat, s: seq<T>)
    requires Sum(weigh, s) == 0
    ensures forall x <- s :: weigh(x) == 0
  {
    forall x <- s
      ensures weigh(x) == 0
    {
      var i :| 0 <= i < |s| && s[i] == x;
      SumMember(weigh, s, i);
    }
  }

  predicate NoPolls(m: Machine) {
    && !Sampling(m.worker) && (forall j <- m.jobs :: !j.Poll?)
    && forall i :: 1 <= i < |m.reports| ==> !m.reports[i].Polled?
  }

  /** When a poll reports, it was the only one outstanding. */
  lemma OnlyPoll(m: Machine)
    requires Counted(m) && m.reports != [] && m.reports[0].Polled?
    ensures NoPolls(m)
  {
    NoneCounted(PollJobs, m.jobs);
    NoneCounted(PollReports, m.reports[1..]);
    forall i | 1 <= i < |m.reports|
      ensures !m.reports[i].Polled?
    {
      assert PollReports(m.reports[1..][i - 1]) == 0;
    }
  }

  /** While anything about a write is waiting for the loop, no poll is outstanding behind it. */
  lemma NoPollBehindWrite(m: Machine)
    requires Ordered(m) && m.reports != [] && WriteDone(m.reports[0])
    ensures NoPolls(m)
  {
    assert m.reports[0] in m.reports;
  }

  lemma FlowByNothingNew(m: Machine, links: seq<Link>)
    requires Flow(m) && m.reports != [] && m.reports[0].NothingNew?
    ensures Flow(ApplyReport(m, links).0)
  {
    CountedByApply(m, links);
  }

  lemma GuardByNothingNew(m: Machine, links: seq<Link>)
    requires Guard(m) && Sighted(m) && m.reports != [] && m.reports[0].NothingNew?
    ensures Guard(ApplyReport(m, links).0) && Sighted(ApplyReport(m, links).0)
  {
  }

  lemma AccountsByNothingNew(m: Machine, links: seq<Link>)
    requires Accounts(m) && OffersSound(m) && m.reports != [] && m.reports[0].NothingNew?
    ensures Accounts(ApplyReport(m, links).0) && OffersSound(ApplyReport(m, links).0)
  {
  }

  lemma KeptByNothingNew(m: Machine, links: seq<Link>)
    requires Inv(m) && m.reports != [] && m.reports[0].NothingNew?
    ensures Inv(ApplyReport(m, links).0)
  {
    hide Flow, Guard, Sighted, Accounts, OffersSound, ApplyReport;
    FlowByNothingNew(m, links);
    GuardByNothingNew(m, links);
    AccountsByNothingNew(m, links);
  }

  lemma FlowByWriteReport(m: Machine, links: seq<Link>)
    requires Inv(m) && m.reports != [] && WriteDone(m.reports[0])
    ensures Flow(ApplyReport(m, links).0)
  {
    NoPollBehindWrite(m);
    CountedByApply(m, links);
  }

  lemma GuardByWriteReport(m: Machine, links: seq<Link>)
    requires Inv(m) && m.reports != [] && WriteDone(m.reports[0])
    ensures var n := ApplyReport(m, links).0; Guard(n) && Sighted(n)
  {
    NoPollBehindWrite(m);
  }

  lemma AccountsByWriteReport(m: Machine, links: seq<Link>)
    requires Inv(m) && m.reports != [] && WriteDone(m.reports[0])
    ensures var n := ApplyReport(m, links).0; Accounts(n) && OffersSound(n)
  {
    hide Flow, Guard, Sighted, Charged, OfferClipboard;
  }

  lemma FlowByPolled(m: Machine, links: seq<Link>)
    requires Inv(m) && m.reports != [] && m.reports[0].Polled?
    ensures Flow(ApplyReport(m, links).0)
  {
    hide Guard, Sighted, Accounts, OffersSound, OfferClipboard;
    OnlyPoll(m);
    CountedByApply(m, links);
  }

  lemma StandsByPolled(m: Machine, links: seq<Link>)
    requires Inv(m) && m.reports != [] && m.reports[0].Polled?
    ensures GuardStands(ApplyReport(m, links).0)
  {
    hide Flow, Accounts, OffersSound, OfferClipboard, SamplingSound, GuardSerialSound;
    var d, rest := m.reports[0], m.reports[1..];
    assert d in m.reports;
    var sync := m.sync.Observed(d.serial, d.formats, d.digest).0;
    if SawProtected(d) {
      assert sync.writeBack == m.sync.writeBack;
    } else if m.worker.Ready? || Protected(m.os) {
      var w :| w in m.reports && w.Writing?;
      assert w in rest;
      StandingForgets(MarkOf(m.sync.writeBack), MarkOf(sync.writeBack), rest);
    }
  }

  lemma GuardByPolled(m: Machine, links: seq<Link>)
    requires Inv(m) && m.reports != [] && m.reports[0].Polled?
    ensures Guard(ApplyReport(m, links).0)
  {
    OnlyPoll(m);
    StandsByPolled(m, links);
    RearmedByPolled(m, links);
  }

  lemma RearmedByPolled(m: Machine, links: seq<Link>)
    requires OsSound(m) && NoPolls(m) && m.reports != [] && m.reports[0].Polled?
    ensures Rearmed(ApplyReport(m, links).0) && OsSound(ApplyReport(m, links).0)
  {
  }

  lemma SightedByPolled(m: Machine, links: seq<Link>)
    requires Inv(m) && m.reports != [] && m.reports[0].Polled?
    ensures Sighted(ApplyReport(m, links).0)
  {
    hide Counted, Ordered, Accounts, GuardStands, Rearmed;
    OnlyPoll(m);
    GuardSerialByPolled(m, links);
    hide GuardSerialSound, OffersSound, Inv, SightingSound;
  }

  lemma GuardSerialByPolled(m: Machine, links: seq<Link>)
    requires GuardSerialSound(m) && m.reports != [] && m.reports[0].Polled? && SightingSound(m, m.reports[0])
    ensures GuardSerialSound(ApplyReport(m, links).0)
  {
    hide OfferClipboard, Syncable, IsWriteBack, ReadBackOf;
    assert forall d <- m.reports[1..] :: d in m.reports;
  }

  lemma AccountsByPolled(m: Machine, links: seq<Link>)
    requires Inv(m) && m.reports != [] && m.reports[0].Polled?
    ensures Accounts(ApplyReport(m, links).0)
  {
    hide Flow, Guard, OffersSound, OfferClipboard, Send, Syncable, SawProtected, IsWriteBack, Fingerprint, ReadBackOf;
  }

  /** A poll that found a peer's payload intact on the clipboard never ends in an offer. */
  lemma ProtectedIsNotOffered(m: Machine, d: Done)
    requires d.Polled? && SightingSound(m, d) && SawProtected(d)
    ensures !m.sync.Observed(d.serial, d.formats, d.digest).1.Offer?
  {
  }

  /** What applying a poll's report leaves of what is counted and offered. */
  lemma LedgerByPolled(m: Machine, links: seq<Link>)
    requires m.reports != [] && m.reports[0].Polled?
    ensures var n, d := ApplyReport(m, links).0, m.reports[0];
            var (sync, change) := m.sync.Observed(d.serial, d.formats, d.digest);
            && n.os == m.os && n.reports == m.reports[1..] && n.sync == sync && n.ledger.faults == m.ledger.faults
            && n.ledger.offers
               == m.ledger.offers + (if change.Offer? then [Offered(d.serial, d.how.at, d.how.origin)] else [])
            && (n.sync.Serial() == Some(d.serial) || n.sync == m.sync)
  {
    hide OfferClipboard;
  }

  /** A poll's report keeps the offers in order and charged, whatever else it changes. */
  lemma OffersAfterPoll(m: Machine, n: Machine, d: Done, offered: bool)
    requires OffersSound(m) && m.reports != [] && m.reports[0] == d && d.Polled?
    requires n.os == m.os && n.reports == m.reports[1..] && n.ledger.faults == m.ledger.faults
    requires n.sync.Serial() == Some(d.serial) && NewTo(m.sync, d.serial) && d.serial <= d.how.at <= m.os.serial
    requires After(m.ledger.offers, d.serial) && (d.how.origin.User? ==> d.how.at in m.os.userSerials)
    requires SawProtected(d) ==> !offered
    requires n.ledger.offers == m.ledger.offers + if offered then [Offered(d.serial, d.how.at, d.how.origin)] else []
    ensures OffersSound(n)
  {
    assert d in m.reports && forall r <- n.reports :: r in m.reports;
    if offered {
      ChargedAppend(m.ledger.offers, Offered(d.serial, d.how.at, d.how.origin), m.os.userSerials);
    } else {
      assert n.ledger.offers == m.ledger.offers;
    }
  }

  lemma OffersByPolled(m: Machine, links: seq<Link>)
    requires m.reports != [] && m.reports[0].Polled? && SightingSound(m, m.reports[0]) && OffersSound(m)
    ensures OffersSound(ApplyReport(m, links).0)
  {
    hide ApplyReport, OffersSound;
    var d := m.reports[0];
    var (sync, change) := m.sync.Observed(d.serial, d.formats, d.digest);
    LedgerByPolled(m, links);
    if SawProtected(d) {
      ProtectedIsNotOffered(m, d);
    }
    OffersAfterPoll(m, ApplyReport(m, links).0, d, change.Offer?);
  }

  lemma ChargedAppend(offers: seq<Offered>, o: Offered, userSerials: set<nat>)
    requires Charged(offers, userSerials)
    requires o.start <= o.at && (o.origin.User? ==> o.at in userSerials)
    requires offers != [] ==> offers[|offers| - 1].start < o.start && offers[|offers| - 1].at <= o.start
    ensures Charged(offers + [o], userSerials)
  {
    var last := |offers| - 1;
    forall i | 0 <= i < |offers|
      ensures offers[i].start < o.start && offers[i].at <= o.start
    {
      assert offers[i] == offers[last] || (offers[i].at <= offers[last].start && offers[i].start < offers[last].start);
    }
  }

  lemma FlowByServed(m: Machine, links: seq<Link>)
    requires Inv(m) && m.reports != [] && m.reports[0].Served?
    ensures Flow(ApplyReport(m, links).0)
  {
    CountedByApply(m, links);
  }

  lemma GuardByServed(m: Machine, links: seq<Link>)
    requires Inv(m) && m.reports != [] && m.reports[0].Served?
    ensures Guard(ApplyReport(m, links).0) && Sighted(ApplyReport(m, links).0)
  {
    hide Flow, Accounts, OffersSound;
  }

  lemma AccountsByServed(m: Machine, links: seq<Link>)
    requires Inv(m) && m.reports != [] && m.reports[0].Served?
    ensures Accounts(ApplyReport(m, links).0)
  {
  }

  lemma OffersByServed(m: Machine, links: seq<Link>)
    requires Inv(m) && m.reports != [] && m.reports[0].Served?
    ensures OffersSound(ApplyReport(m, links).0)
  {
  }

  lemma KeptByApply(m: Machine, links: seq<Link>)
    requires Inv(m) && m.reports != []
    ensures Inv(ApplyReport(m, links).0)
  {
    var d := m.reports[0];
    assert d in m.reports;
    if d.NothingNew? {
      KeptByNothingNew(m, links);
    } else if d.Polled? {
      FlowByPolled(m, links);
      GuardByPolled(m, links);
      SightedByPolled(m, links);
      AccountsByPolled(m, links);
      OffersByPolled(m, links);
    } else if d.Served? {
      FlowByServed(m, links);
      GuardByServed(m, links);
      AccountsByServed(m, links);
      OffersByServed(m, links);
    } else {
      FlowByWriteReport(m, links);
      GuardByWriteReport(m, links);
      AccountsByWriteReport(m, links);
    }
  }

  // --- The loop hands a job to the worker, or hears from a peer ------------

  /** What a handler checks before it dispatches. */
  predicate Dispatchable(m: Machine, job: Job) {
    match job
    case Poll(seen, armed) => m.traffic.MayPoll() && seen == m.sync.Serial() && armed == m.sync.Armed()
    case Serve(_, _, _) => true
    case Accept(_, format, _) => format in SYNCED
  }

  /** With no write outstanding, nothing about a write is on its way to the loop. */
  lemma NoWritesOut(m: Machine)
    requires Flow(m) && m.traffic.writes == 0
    ensures !Busy(m.worker) && (forall j <- m.jobs :: !j.Accept?) && forall d <- m.reports :: !WriteDone(d)
  {
    NoneCounted(WriteJobs, m.jobs);
    NoneCounted(WriteReports, m.reports);
    forall d <- m.reports
      ensures !WriteDone(d)
    {
      var i :| 0 <= i < |m.reports| && m.reports[i] == d;
      assert WriteReports(d) == 0;
      if i + 1 < |m.reports| {
        var next := m.reports[i + 1];
        assert next in m.reports && WriteReports(next) == 0;
      }
    }
  }

  lemma FlowByDispatch(m: Machine, job: Job)
    requires Flow(m) && Dispatchable(m, job)
    ensures Flow(Dispatch(m, job).0)
  {
    CountedByDispatch(m, job);
    if job.Poll? {
      NoWritesOut(m);
    }
  }

  lemma GuardByDispatch(m: Machine, job: Job)
    requires Inv(m) && Dispatchable(m, job)
    ensures Guard(Dispatch(m, job).0) && Sighted(Dispatch(m, job).0) && OffersSound(Dispatch(m, job).0)
  {
    hide Standing, MarkOf, Fingerprint, SawProtected;
  }

  lemma AccountsByDispatch(m: Machine, job: Job)
    requires Accounts(m) && !job.Serve?
    ensures Accounts(Dispatch(m, job).0)
  {
    SumAppend(ServeJobs, m.jobs, job);
  }

  lemma KeptByPoll(m: Machine, alone: bool)
    requires Inv(m)
    ensures Inv(PollClipboard(m, alone))
  {
    if !alone && m.traffic.MayPoll() {
      var job := Poll(m.sync.Serial(), m.sync.Armed());
      FlowByDispatch(m, job);
      GuardByDispatch(m, job);
      AccountsByDispatch(m, job);
    }
  }

  /** Nothing but `asked` and the ledger's counts differ. */
  predicate OnlyAsked(m: Machine, n: Machine) {
    n == m.(sync := m.sync.(asked := n.sync.asked), ledger := n.ledger)
    && n.ledger.offers == m.ledger.offers && n.ledger.faults == m.ledger.faults
  }

  lemma FlowByAsking(m: Machine, n: Machine)
    requires Flow(m) && OnlyAsked(m, n)
    ensures Flow(n)
  {
    assert n.sync.Armed() == m.sync.Armed() && n.sync.Serial() == m.sync.Serial();
  }

  lemma KeptByAsking(m: Machine, n: Machine)
    requires Flow(m) && Guard(m) && Sighted(m) && OffersSound(m) && OnlyAsked(m, n) && Accounts(n)
    ensures Inv(n)
  {
    hide Standing, MarkOf, Sum, Charged, Flow;
    FlowByAsking(m, n);
    assert n.sync.Armed() == m.sync.Armed() && n.sync.Serial() == m.sync.Serial();
  }

  /** Asking owes the peer asked one more acceptance, and no other peer any. */
  lemma OwedByOffer(m: Machine, link: Link, formats: seq<Format>, serial: nat, node: PeerId)
    ensures var n := OnOffer(m, link, formats, serial).0;
            && n.ledger.accepts == m.ledger.accepts
            && Tally(n.ledger.asks, node) - (if node in n.sync.asked then 1 else 0)
               >= Tally(m.ledger.asks, node) - (if node in m.sync.asked then 1 else 0)
  {
    hide Choose, Send;
    var n := OnOffer(m, link, formats, serial).0;
    assert node != link.node ==> (node in n.sync.asked <==> node in m.sync.asked);
    assert node != link.node ==> Tally(n.ledger.asks, node) == Tally(m.ledger.asks, node);
  }

  lemma NothingElseByOffer(m: Machine, link: Link, formats: seq<Format>, serial: nat)
    ensures var n := OnOffer(m, link, formats, serial).0;
            && n.jobs == m.jobs && n.reports == m.reports && n.sync.seen == m.sync.seen
            && n.worker == m.worker && n.traffic == m.traffic
            && n.ledger.requests == m.ledger.requests && n.ledger.answers == m.ledger.answers
  {
    hide Choose, Bumped;
  }

  lemma AccountsByOffer(m: Machine, link: Link, formats: seq<Format>, serial: nat)
    requires Accounts(m)
    ensures Accounts(OnOffer(m, link, formats, serial).0)
  {
    hide OnOffer, Tally, Sum;
    var n := OnOffer(m, link, formats, serial).0;
    NothingElseByOffer(m, link, formats, serial);
    forall node
      ensures Tally(n.ledger.accepts, node) + (if node in n.sync.asked then 1 else 0) <= Tally(n.ledger.asks, node)
    {
      OwedByOffer(m, link, formats, serial, node);
    }
  }

  lemma KeptByOffer(m: Machine, link: Link, formats: seq<Format>, serial: nat)
    requires Inv(m)
    ensures Inv(OnOffer(m, link, formats, serial).0)
  {
    AccountsByOffer(m, link, formats, serial);
    KeptByAsking(m, OnOffer(m, link, formats, serial).0);
  }

  lemma AccountsByRequest(m: Machine, link: Link, format: Format, serial: nat)
    requires Accounts(m)
    ensures Accounts(OnMessage(m, link, ClipboardRequest(format, serial)).0)
  {
    hide Tally, Send, Sum;
    var job := Serve(link.node, format, serial);
    var n := OnMessage(m, link, ClipboardRequest(format, serial)).0;
    SumAppend(ServeJobs, m.jobs, job);
    assert n.sync == m.sync && n.reports == m.reports && n.ledger.accepts == m.ledger.accepts && n.ledger.asks == m.ledger.asks;
    assert n.jobs == m.jobs || (n.jobs == m.jobs + [job] && ServeSound(m.sync, format, serial));
    assert n.ledger.requests - n.ledger.answers - (m.ledger.requests - m.ledger.answers) == |n.jobs| - |m.jobs|;
    hide OnMessage, Dispatch;
  }

  lemma KeptByRequest(m: Machine, link: Link, format: Format, serial: nat)
    requires Inv(m)
    ensures Inv(OnMessage(m, link, ClipboardRequest(format, serial)).0)
  {
    assert !m.worker.Gone?;
    hide Guard, Sighted, Accounts, OffersSound, Counted, Ordered, Snapshots;
    var job := Serve(link.node, format, serial);
    var n := OnMessage(m, link, ClipboardRequest(format, serial)).0;
    AccountsByRequest(m, link, format, serial);
    if n.jobs == m.jobs {
      KeptByAsking(m, n);
    } else {
      FlowByDispatch(m, job);
      GuardByDispatch(m, job);
      KeptByAsking(Dispatch(m, job).0, n);
    }
  }

  lemma AccountsBySettling(m: Machine, node: PeerId)
    requires Accounts(m)
    ensures Accounts(m.(sync := m.sync.Settled(node)))
  {
  }

  lemma AccountsByData(m: Machine, link: Link, format: Format, serial: nat, data: Bytes)
    requires Accounts(m)
    ensures Accounts(OnData(m, link, format, serial, data))
  {
    AccountsBySettling(m, link.node);
    SumAppend(ServeJobs, m.jobs, Accept(link.node, format, data));
  }

  lemma KeptByData(m: Machine, link: Link, format: Format, serial: nat, data: Bytes)
    requires Inv(m)
    ensures Inv(OnData(m, link, format, serial, data))
  {
    var job := Accept(link.node, format, data);
    var n := OnData(m, link, format, serial, data);
    AccountsByData(m, link, format, serial, data);
    if n.jobs == m.jobs {
      KeptByAsking(m, n);
    } else {
      FlowByDispatch(m, job);
      GuardByDispatch(m, job);
      KeptByAsking(Dispatch(m, job).0, n);
    }
  }

  lemma KeptByMessage(m: Machine, link: Link, msg: Msg)
    requires Inv(m)
    ensures Inv(OnMessage(m, link, msg).0)
  {
    match msg {
      case ClipboardOffer(formats, serial) => KeptByOffer(m, link, formats, serial);
      case ClipboardRequest(format, serial) => KeptByRequest(m, link, format, serial);
      case ClipboardData(format, serial, data) => KeptByData(m, link, format, serial, data);
      case ClipboardStale(_) =>
        AccountsBySettling(m, link.node);
        KeptByAsking(m, m.(sync := m.sync.Settled(link.node)));
    }
  }

  lemma KeptByWorker(m: Machine, e: Event)
    requires Inv(m) && Enabled(m, e) && WorkerEvent(e)
    ensures Inv(Next(m, e).0)
  {
    match e {
      case SampleSerial(readable) => KeptBySample(m, readable);
      case ListFormats(readable) => KeptByListing(m, readable);
      case ReadBack(readable) => KeptByReadBack(m, readable);
      case ReadForPeer(readable) => KeptByServe(m, readable);
      case Unpack(payload) => KeptByUnpack(m, payload);
      case WriteOut(ok, serial, formats, data) => KeptByWrite(m, ok, serial, formats, data);
      case ReportWrite(known) => KeptByReportWrite(m, known);
    }
  }

  /** Every step, by the loop, the worker, the OS or a peer, keeps the invariant. */
  lemma InvKept(m: Machine, e: Event)
    requires Inv(m) && Enabled(m, e)
    ensures Inv(Next(m, e).0)
  {
    match e {
      case Copied(serial, formats, data) => KeptByCopy(m, serial, formats, data);
      case SerialMoved(serial) => KeptByMove(m, serial);
      case PollTick(alone) => KeptByPoll(m, alone);
      case Apply(links) => KeptByApply(m, links);
      case Receive(link, msg) => KeptByMessage(m, link, msg);
      case _ => KeptByWorker(m, e);
    }
  }

  /** A freshly started agent, whatever its clipboard already holds. */
  function Started(id: PeerId, caps: set<Capability>, serial: nat, formats: seq<Format>, data: map<Format, Bytes>): Machine {
    Machine(id, caps, Sync(None, None, map[]), Traffic(false, 0, false), [], Idle, [],
            Os(serial, formats, data, User, {serial}, true), Ledger(0, 0, map[], map[], [], 0))
  }

  lemma InvAtStart(id: PeerId, caps: set<Capability>, serial: nat, formats: seq<Format>, data: map<Format, Bytes>)
    ensures Inv(Started(id, caps, serial, formats, data))
  {
  }
}
