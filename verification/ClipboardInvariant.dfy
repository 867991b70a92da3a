/** What every step of the clipboard machine keeps, whatever the interleaving of loop, worker and OS. */
module ClipboardInvariants {
  import opened Wrappers
  import opened Sums
  import opened Fnv
  import opened Fingerprints
  import opened ClipboardSyncs
  import opened ClipboardMachines

  // --- Counting ------------------------------------------------------------

  function PollJobs(j: Job): nat { if j.Poll? then 1 else 0 }
  function WriteJobs(j: Job): nat { if j.Accept? then 1 else 0 }
  function ServeJobs(j: Job): nat { if j.Serve? then 1 else 0 }
  function PollReports(d: Done): nat { if d.NothingNew? || d.Polled? then 1 else 0 }
  function WriteReports(d: Done): nat { if d.Wrote? || d.NotWritten? then 1 else 0 }
  function ServeReports(d: Done): nat { if d.Served? then 1 else 0 }

  predicate Sampling(w: Worker) { w.Sampled? || w.Listed? }
  predicate Busy(w: Worker) { w.Ready? || w.Written? }

  function PollsOut(m: Machine): nat {
    Sum(PollJobs, m.jobs) + (if Sampling(m.worker) then 1 else 0) + Sum(PollReports, m.reports)
  }

  function WritesOut(m: Machine): nat {
    Sum(WriteJobs, m.jobs) + (if Busy(m.worker) then 1 else 0) + Sum(WriteReports, m.reports)
  }

  function ServesOut(m: Machine): nat {
    Sum(ServeJobs, m.jobs) + Sum(ServeReports, m.reports)
  }

  /** The worker is there, and `polling` and `writes` count exactly the polls and writes that have not reported. */
  ghost predicate Counted(m: Machine) {
    && !m.worker.Gone? && !m.traffic.lost && (forall d <- m.reports :: !d.WorkerGone?)
    && PollsOut(m) == (if m.traffic.polling then 1 else 0)
    && WritesOut(m) == m.traffic.writes
  }

  lemma CountedByDispatch(m: Machine, job: Job)
    requires Counted(m) && (job.Poll? ==> m.traffic.MayPoll())
    ensures Counted(Dispatch(m, job).0)
  {
    SumAppend(PollJobs, m.jobs, job);
    SumAppend(WriteJobs, m.jobs, job);
  }

  lemma AppendedReport(reports: seq<Done>, done: Done)
    ensures Sum(PollReports, reports + [done]) == Sum(PollReports, reports) + PollReports(done)
    ensures Sum(WriteReports, reports + [done]) == Sum(WriteReports, reports) + WriteReports(done)
    ensures Sum(ServeReports, reports + [done]) == Sum(ServeReports, reports) + ServeReports(done)
  {
    SumAppend(PollReports, reports, done);
    SumAppend(WriteReports, reports, done);
    SumAppend(ServeReports, reports, done);
  }

  predicate WorkerEvent(e: Event) {
    e.SampleSerial? || e.ListFormats? || e.ReadBack? || e.ReadForPeer? || e.Unpack? || e.WriteOut? || e.ReportWrite?
  }

  lemma CountedBySample(m: Machine, readable: bool)
    requires Counted(m) && Enabled(m, SampleSerial(readable))
    ensures Counted(StartSample(m, readable))
  {
    AppendedReport(m.reports, NothingNew);
  }

  lemma CountedByListing(m: Machine, readable: bool)
    requires Counted(m) && m.worker.Sampled?
    ensures Counted(AfterListing(m, readable))
  {
    var n := AfterListing(m, readable);
    if n.worker.Idle? {
      AppendedReport(m.reports, n.reports[|m.reports|]);
    }
  }

  lemma CountedByReadBack(m: Machine, readable: bool)
    requires Counted(m) && m.worker.Listed?
    ensures Counted(AfterReadBack(m, readable))
  {
    var n := AfterReadBack(m, readable);
    AppendedReport(m.reports, n.reports[|m.reports|]);
  }

  lemma CountedByServe(m: Machine, readable: bool)
    requires Counted(m) && Enabled(m, ReadForPeer(readable))
    ensures Counted(ServeFromClipboard(m, readable))
  {
    var n := ServeFromClipboard(m, readable);
    AppendedReport(m.reports, n.reports[|m.reports|]);
  }

  lemma CountedByUnpack(m: Machine, payload: Option<Bytes>)
    requires Counted(m) && Enabled(m, Unpack(payload))
    ensures Counted(StartWrite(m, payload))
  {
    var n := StartWrite(m, payload);
    AppendedReport(m.reports, n.reports[|m.reports|]);
  }

  lemma CountedByWrite(m: Machine, ok: bool, serial: nat, formats: seq<Format>, data: map<Format, Bytes>)
    requires Counted(m) && m.worker.Ready?
    ensures Counted(AfterWrite(m, ok, serial, formats, data))
  {
    if !ok {
      AppendedReport(m.reports, NotWritten(true));
    }
  }

  lemma CountedByReportWrite(m: Machine, known: bool)
    requires Counted(m) && m.worker.Written?
    ensures Counted(ReportWritten(m, known))
  {
    var n := ReportWritten(m, known);
    AppendedReport(m.reports, n.reports[|m.reports|]);
  }

  lemma CountedByApply(m: Machine, links: seq<Link>)
    requires Counted(m) && m.reports != []
    ensures Counted(ApplyReport(m, links).0)
  {
    assert m.reports[0] in m.reports;
    assert forall d <- m.reports[1..] :: d in m.reports;
  }

  // --- Order: no write report ever runs ahead of a poll --------------------

  predicate WriteDone(d: Done) { d.Writing? || d.Wrote? || d.NotWritten? }

  predicate WriteClosed(d: Done) { d.Wrote? || d.NotWritten? }

  /** A poll is with the worker only while nothing about a write can reach the loop before it reports. */
  ghost predicate Ordered(m: Machine) {
    && (forall i, j :: 0 <= i < j < |m.jobs| && m.jobs[i].Accept? ==> !m.jobs[j].Poll?)
    && (forall i, j :: 0 <= i < j < |m.reports| && WriteDone(m.reports[i]) ==> !m.reports[j].Polled?)
    && ((exists d <- m.reports :: WriteDone(d)) ==> !Sampling(m.worker) && forall j <- m.jobs :: !j.Poll?)
    && (Busy(m.worker) ==> forall j <- m.jobs :: !j.Poll?)
    && (forall i, j :: 0 <= i < j < |m.reports| && j == i + 1 && m.reports[i].Writing? ==> WriteClosed(m.reports[j]))
    && (m.reports != [] && m.reports[|m.reports| - 1].Writing? ==> Busy(m.worker))
  }

  /** The write-back guard every outstanding poll carries is the guard the loop holds. */
  ghost predicate Snapshots(m: Machine) {
    && (forall j <- m.jobs :: j.Poll? ==> j.armed == m.sync.Armed() && j.seen == m.sync.Serial())
    && (m.worker.Sampled? ==> m.worker.armed == m.sync.Armed())
    && (m.worker.Listed? ==> m.sync.Armed() == Some(m.worker.guard))
    && (forall d <- m.reports :: d.Polled? ==> d.how.armed == m.sync.Armed())
  }

  // --- The guard stands for what is on the clipboard -----------------------

  type Mark = Option<(Format, nat)>

  function MarkOf(write: Option<WriteBack>): Mark {
    if write.Some? then Some((write.value.format, write.value.digest)) else None
  }

  function Marked(mark: Mark, done: Done): Mark {
    match done
    case Writing(format, digest) => Some((format, digest))
    case NotWritten(armed) => if armed then None else mark
    case _ => mark
  }

  /** The guard once every report about writes has been applied. */
  function Standing(mark: Mark, reports: seq<Done>): Mark
    decreases reports
  {
    if reports == [] then mark else Standing(Marked(mark, reports[0]), reports[1..])
  }

  lemma {:induction false} StandingAppend(mark: Mark, reports: seq<Done>, done: Done)
    ensures Standing(mark, reports + [done]) == Marked(Standing(mark, reports), done)
    decreases reports
  {
    if reports == [] {
      assert [done][1..] == [];
    } else {
      assert (reports + [done])[1..] == reports[1..] + [done];
      StandingAppend(Marked(mark, reports[0]), reports[1..], done);
    }
  }

  lemma {:induction false} StandingForgets(a: Mark, b: Mark, reports: seq<Done>)
    requires exists d <- reports :: d.Writing?
    ensures Standing(a, reports) == Standing(b, reports)
    decreases reports
  {
    if !reports[0].Writing? {
      var d :| d in reports && d.Writing?;
      assert d in reports[1..];
      if Marked(a, reports[0]) != Marked(b, reports[0]) {
        StandingForgets(Marked(a, reports[0]), Marked(b, reports[0]), reports[1..]);
      }
    }
  }

  function MarkFor(format: Format, payload: Bytes): Mark {
    Some((format, Fingerprint(payload)))
  }

  predicate Protected(os: Os) {
    os.origin.Peer? && os.intact
  }

  /** Once everything reported has been applied, the guard names the payload being written, or the peer's
      payload the clipboard holds. */
  ghost predicate GuardStands(m: Machine) {
    var mark := Standing(MarkOf(m.sync.writeBack), m.reports);
    if m.worker.Ready? then mark == MarkFor(m.worker.format, m.worker.payload)
    else Protected(m.os) ==> mark == MarkFor(m.os.origin.format, m.os.origin.payload)
  }

  predicate SawProtected(d: Done) {
    d.Polled? && d.how.origin.Peer? && d.how.intact
  }

  /** A poll that sampled before the current payload was written has that write's guard queued behind it. */
  ghost predicate Rearmed(m: Machine) {
    forall d <- m.reports :: d.Polled? ==>
      && (Busy(m.worker) ==> exists w <- m.reports :: w.Writing?)
      && (Protected(m.os) && !SawProtected(d) ==> exists w <- m.reports :: w.Writing?)
  }

  /** What the OS clipboard and the worker can hold. */
  ghost predicate OsSound(m: Machine) {
    && (forall s <- m.os.userSerials :: s <= m.os.serial)
    && (m.os.origin.User? ==> m.os.serial in m.os.userSerials)
    && (m.os.origin.Peer? ==>
          && m.os.serial !in m.os.userSerials
          && m.os.origin.format in SYNCED && m.os.origin.format in m.os.formats
          && m.os.origin.format in m.os.data && m.os.data[m.os.origin.format] == m.os.origin.payload)
    && (Busy(m.worker) ==> m.worker.format in SYNCED)
    && (m.worker.Written? ==> Protected(m.os) && m.os.origin == Peer(m.worker.format, m.worker.payload))
    && (forall j <- m.jobs :: j.Accept? ==> j.format in SYNCED)
  }

  // --- What a poll saw -----------------------------------------------------

  predicate After(last: seq<Offered>, serial: nat) {
    last != [] ==> last[|last| - 1].at <= serial
  }

  predicate NewTo(sync: Sync, serial: nat) {
    sync.seen.Some? ==> sync.seen.value.serial < serial
  }

  /** A poll under way: its serial is one the loop has not accounted for. */
  ghost predicate SamplingSound(m: Machine) {
    && (Sampling(m.worker) ==>
          NewTo(m.sync, m.worker.serial) && m.worker.serial <= m.os.serial && After(m.ledger.offers, m.worker.serial))
    && (m.worker.Listed? ==>
          && m.worker.guard.1 != m.worker.serial && m.worker.guard.0 in m.worker.formats
          && (m.os.serial == m.worker.serial ==> m.worker.formats == m.os.formats))
  }

  /** Nothing failed and the serial did not move while the clipboard was sampled. */
  predicate CleanSample(d: Done) {
    d.Polled? && d.how.clean && d.how.at == d.serial
  }

  /** What reading the armed format back would have answered. */
  function ReadBackOf(d: Done): Option<nat>
    requires d.Polled?
  {
    var how := d.how;
    if how.armed.Some? && how.armed.value.1 != d.serial && how.armed.value.0 in how.formats && how.armed.value.0 in how.data
    then Some(Fingerprint(how.data[how.armed.value.0])) else None
  }

  ghost predicate SightingSound(m: Machine, d: Done)
    requires d.Polled?
  {
    && NewTo(m.sync, d.serial) && d.serial <= d.how.at <= m.os.serial && After(m.ledger.offers, d.serial)
    && (d.how.origin.User? ==> d.how.at in m.os.userSerials)
    && (SawProtected(d) ==>
          m.sync.writeBack.Some? && IsWriteBack(m.sync.writeBack.value, d.serial, Syncable(d.formats), d.digest))
    && (CleanSample(d) ==> d.formats == d.how.formats && d.digest == ReadBackOf(d))
  }

  /** The serial the guard names is never one a person's copy produced and the loop has yet to see. */
  ghost predicate GuardSerialSound(m: Machine) {
    && (m.sync.seen.Some? ==> m.sync.seen.value.serial <= m.os.serial)
    && (m.sync.writeBack.Some? ==>
          var serial := m.sync.writeBack.value.serial;
          && serial <= m.os.serial
          && (serial !in m.os.userSerials || serial == 0 || (m.sync.seen.Some? && serial <= m.sync.seen.value.serial)))
    && (forall d <- m.reports :: d.Wrote? && d.produced.Some? ==>
          d.produced.value <= m.os.serial && d.produced.value !in m.os.userSerials)
  }

  ghost predicate Sighted(m: Machine) {
    SamplingSound(m) && GuardSerialSound(m) && forall d <- m.reports :: d.Polled? ==> SightingSound(m, d)
  }

  // --- Accounts ------------------------------------------------------------

  /** A request in hand names the content last seen, in a format it had, or content already superseded. */
  predicate ServeSound(sync: Sync, format: Format, serial: nat) {
    && sync.seen.Some? && serial <= sync.seen.value.serial
    && (serial == sync.seen.value.serial ==> format in sync.seen.value.formats)
  }

  ghost predicate Accounts(m: Machine) {
    && m.ledger.requests == m.ledger.answers + ServesOut(m)
    && (forall j <- m.jobs :: j.Serve? ==> ServeSound(m.sync, j.format, j.serial))
    && (forall d <- m.reports :: d.Served? ==> ServeSound(m.sync, d.format, d.serial))
    && (forall node :: Tally(m.ledger.accepts, node) + (if node in m.sync.asked then 1 else 0)
                       <= Tally(m.ledger.asks, node))
  }

  /** Offers in order, each charged to the serial its sampling ended on. */
  ghost predicate Charged(offers: seq<Offered>, userSerials: set<nat>) {
    && (forall i :: 0 <= i < |offers| ==> offers[i].start <= offers[i].at)
    && (forall i :: 0 <= i < |offers| && offers[i].origin.User? ==> offers[i].at in userSerials)
    && (forall i, j :: 0 <= i < j < |offers| ==> offers[i].start < offers[j].start && offers[i].at <= offers[j].start)
  }

  ghost predicate OffersSound(m: Machine) {
    && Charged(m.ledger.offers, m.os.userSerials)
    && After(m.ledger.offers, m.os.serial)
    && (m.ledger.offers != [] ==>
          m.sync.seen.Some? && m.ledger.offers[|m.ledger.offers| - 1].start <= m.sync.seen.value.serial)
    && (m.ledger.faults == 0 ==>
          && m.os.intact && (forall d <- m.reports :: d.Polled? ==> d.how.intact)
          && forall o <- m.ledger.offers :: o.origin.User?)
  }

  /** The queues: counted, in order, and carrying current snapshots. */
  ghost predicate Flow(m: Machine) {
    Counted(m) && Ordered(m) && Snapshots(m)
  }

  /** The guard and the clipboard it stands for. */
  ghost predicate Guard(m: Machine) {
    GuardStands(m) && Rearmed(m) && OsSound(m)
  }

  ghost predicate Inv(m: Machine) {
    Flow(m) && Guard(m) && Sighted(m) && Accounts(m) && OffersSound(m)
  }
}
