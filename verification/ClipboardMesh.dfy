/** Any number of machines exchanging offers, requests, content and refusals: no ping-pong, and silence
    once nobody copies anything. Messages in flight may be reordered and lost. */
module ClipboardMesh {
  import opened Wrappers
  import opened Sums
  import opened Fnv
  import opened Fingerprints
  import opened ClipboardSyncs
  import opened ClipboardMachines
  import opened ClipboardInvariants
  import opened ClipboardSteps
  import opened ClipboardTheorems

  // --- Outstanding work ----------------------------------------------------

  function MsgWork(e: Envelope): nat {
    match e.msg
    case ClipboardOffer(_, _) => 10
    case ClipboardRequest(_, _) => 9
    case ClipboardData(_, _, _) => 6
    case ClipboardStale(_) => 1
  }

  function JobWork(j: Job): nat {
    match j
    case Poll(_, _) => 0
    case Serve(_, _, _) => 8
    case Accept(_, _, _) => 5
  }

  function ReportWork(d: Done): nat {
    match d
    case Served(_, _, _, _) => 7
    case Writing(_, _) => 1
    case Wrote(_, _, _) => 1
    case NotWritten(_) => 1
    case _ => 0
  }

  function WorkerWork(w: Worker): nat {
    if w.Ready? then 3 else if w.Written? then 2 else 0
  }

  /** A report that may end in an offer. */
  function UserPolls(d: Done): nat { if d.Polled? && d.how.origin.User? then 1 else 0 }

  function PolledSerial(reports: seq<Done>): Option<nat>
    decreases reports
  {
    if reports == [] then None
    else if reports[0].Polled? then Some(reports[0].serial)
    else PolledSerial(reports[1..])
  }

  /** The serial the loop will have seen once the poll under way has reported. */
  function Upcoming(m: Machine): Option<nat> {
    if Sampling(m.worker) then Some(m.worker.serial)
    else if PolledSerial(m.reports).Some? then PolledSerial(m.reports)
    else m.sync.Serial()
  }

  /** Offers this machine can still come to make without anyone copying anything. */
  function OffersDue(m: Machine): nat {
    Sum(UserPolls, m.reports)
    + (if Sampling(m.worker) && m.os.origin.User? then 1 else 0)
    + (if m.os.origin.User? && Upcoming(m) != Some(m.os.serial) then 1 else 0)
  }

  /** What `due` offers to at most `peers` machines each are worth. */
  function Owed(due: nat, peers: nat): nat {
    if due == 0 then 0 else 10 * peers + 1 + Owed(due - 1, peers)
  }

  function Work(m: Machine, peers: nat): nat {
    Owed(OffersDue(m), peers) + Sum(JobWork, m.jobs) + Sum(ReportWork, m.reports) + WorkerWork(m.worker)
  }

  /** Nobody copies anything and nothing fails. A clipboard holding a peer's payload may move its serial
      as often as it likes. */
  predicate Quiet(m: Machine, e: Event)
    requires Enabled(m, e)
  {
    && !e.Copied? && (e.SerialMoved? ==> m.os.origin.Peer?)
    && Next(m, e).0.ledger.faults == m.ledger.faults
  }

  /** Steps that do some of the outstanding work, as opposed to polling and finding nothing. */
  predicate Working(m: Machine, e: Event) {
    || e.Receive? || e.ReadForPeer? || e.Unpack? || e.WriteOut? || e.ReportWrite?
    || (e.Apply? && m.reports != [] && (ReportWork(m.reports[0]) > 0 || UserPolls(m.reports[0]) > 0))
  }

  function Brought(m: Machine, e: Event): nat {
    if e.Receive? then MsgWork(Envelope(e.link.node, m.id, e.msg)) else 0
  }

  lemma OffersCost(m: Machine, links: seq<Link>, serial: nat, formats: seq<Format>)
    ensures Sum(MsgWork, OfferClipboard(m, links, serial, formats)) <= 10 * |links|
  {
    if links != [] {
      OffersCost(m, links[1..], serial, formats);
      var offered := BothSupport(m.caps, links[0].caps, formats);
      SumConcat(MsgWork, Send(m, links[0], ClipboardOffer(offered, serial)),
                OfferClipboard(m, links[1..], serial, formats));
    }
  }

  lemma {:induction false} PolledSerialAppend(reports: seq<Done>, d: Done)
    requires PolledSerial(reports).None?
    ensures PolledSerial(reports + [d]) == if d.Polled? then Some(d.serial) else None
  {
    if reports != [] {
      assert (reports + [d])[1..] == reports[1..] + [d];
      PolledSerialAppend(reports[1..], d);
    }
  }

  lemma {:induction false} PolledSerialStays(reports: seq<Done>, d: Done)
    requires !d.Polled?
    ensures PolledSerial(reports + [d]) == PolledSerial(reports)
  {
    if reports != [] {
      assert (reports + [d])[1..] == reports[1..] + [d];
      PolledSerialStays(reports[1..], d);
    } else {
      assert [d][1..] == [];
    }
  }

  lemma {:induction false} NoPolledSerial(reports: seq<Done>)
    requires forall d <- reports :: !d.Polled?
    ensures PolledSerial(reports).None?
  {
    if reports != [] {
      assert reports[0] in reports && forall d <- reports[1..] :: d in reports;
      NoPolledSerial(reports[1..]);
    }
  }

  lemma OwedMonotone(a: nat, b: nat, peers: nat)
    requires a <= b
    ensures Owed(a, peers) <= Owed(b, peers)
  {
  }

  lemma WorkBySample(m: Machine, readable: bool, peers: nat)
    requires Inv(m) && Enabled(m, SampleSerial(readable))
    ensures Work(StartSample(m, readable), peers) <= Work(m, peers)
  {
    NonePending(m);
    PolledSerialAppend(m.reports, NothingNew);
    AppendedWork(m.reports, NothingNew);
  }

  /** While a poll job waits or a poll is being sampled, no poll report is on its way. */
  lemma NonePending(m: Machine)
    requires Counted(m) && (Sampling(m.worker) || (m.jobs != [] && m.jobs[0].Poll?))
    ensures PolledSerial(m.reports).None? && Sum(UserPolls, m.reports) == 0
    ensures m.jobs != [] && m.jobs[0].Poll? ==> !Sampling(m.worker)
  {
    NoneCounted(PollReports, m.reports);
    NoPolledSerial(m.reports);
    NoUserPolls(m.reports);
  }

  lemma {:induction false} NoUserPolls(reports: seq<Done>)
    requires forall d <- reports :: PollReports(d) == 0
    ensures Sum(UserPolls, reports) == 0
  {
    if reports != [] {
      assert reports[0] in reports && forall d <- reports[1..] :: d in reports;
      NoUserPolls(reports[1..]);
    }
  }

  lemma AppendedWork(reports: seq<Done>, d: Done)
    ensures Sum(ReportWork, reports + [d]) == Sum(ReportWork, reports) + ReportWork(d)
    ensures Sum(UserPolls, reports + [d]) == Sum(UserPolls, reports) + UserPolls(d)
  {
    SumAppend(ReportWork, reports, d);
    SumAppend(UserPolls, reports, d);
  }

  lemma WorkByListing(m: Machine, readable: bool, peers: nat)
    requires Inv(m) && m.worker.Sampled?
    ensures Work(AfterListing(m, readable), peers) <= Work(m, peers)
  {
    NonePending(m);
    var n := AfterListing(m, readable);
    if n.worker.Idle? {
      PolledSerialAppend(m.reports, n.reports[|m.reports|]);
      AppendedWork(m.reports, n.reports[|m.reports|]);
    }
  }

  lemma WorkByReadBack(m: Machine, readable: bool, peers: nat)
    requires Inv(m) && m.worker.Listed?
    ensures Work(AfterReadBack(m, readable), peers) <= Work(m, peers)
  {
    NonePending(m);
    var n := AfterReadBack(m, readable);
    PolledSerialAppend(m.reports, n.reports[|m.reports|]);
    AppendedWork(m.reports, n.reports[|m.reports|]);
  }

  lemma WorkByServe(m: Machine, readable: bool, peers: nat)
    requires Enabled(m, ReadForPeer(readable))
    ensures Work(ServeFromClipboard(m, readable), peers) < Work(m, peers)
  {
    var d := ServeFromClipboard(m, readable).reports[|m.reports|];
    PolledSerialStays(m.reports, d);
    AppendedWork(m.reports, d);
  }

  lemma WorkByUnpack(m: Machine, payload: Option<Bytes>, peers: nat)
    requires Enabled(m, Unpack(payload))
    ensures Work(StartWrite(m, payload), peers) < Work(m, peers)
  {
    var d := StartWrite(m, payload).reports[|m.reports|];
    PolledSerialStays(m.reports, d);
    AppendedWork(m.reports, d);
  }

  lemma WorkByWrite(m: Machine, e: Event, peers: nat)
    requires e.WriteOut? && Enabled(m, e)
    ensures Work(Next(m, e).0, peers) < Work(m, peers)
  {
    PolledSerialStays(m.reports, NotWritten(true));
    AppendedWork(m.reports, NotWritten(true));
    OwedMonotone(OffersDue(Next(m, e).0), OffersDue(m), peers);
  }

  lemma WorkByReportWrite(m: Machine, known: bool, peers: nat)
    requires m.worker.Written?
    ensures Work(ReportWritten(m, known), peers) < Work(m, peers)
  {
    var d := ReportWritten(m, known).reports[|m.reports|];
    PolledSerialStays(m.reports, d);
    AppendedWork(m.reports, d);
  }

  lemma DueByPolled(m: Machine, links: seq<Link>)
    requires Counted(m) && m.reports != [] && m.reports[0].Polled? && SightingSound(m, m.reports[0])
    ensures OffersDue(ApplyReport(m, links).0) + UserPolls(m.reports[0]) == OffersDue(m)
  {
    OnlyPoll(m);
    forall r <- m.reports[1..]
      ensures !r.Polled?
    {
      var i :| 0 <= i < |m.reports[1..]| && m.reports[1..][i] == r;
      assert !m.reports[i + 1].Polled?;
    }
    NoPolledSerial(m.reports[1..]);
    var d := m.reports[0];
    assert m.sync.Observed(d.serial, d.formats, d.digest).0.Serial() == Some(d.serial);
  }

  lemma SentByPolled(m: Machine, links: seq<Link>)
    requires m.reports != [] && m.reports[0].Polled? && SightingSound(m, m.reports[0])
    requires m.reports[0].how.intact
    ensures Sum(MsgWork, ApplyReport(m, links).1) <= if UserPolls(m.reports[0]) == 1 then 10 * |links| else 0
  {
    var d := m.reports[0];
    var (sync, traffic, change) := SettledReport(m.sync, m.traffic, d);
    if d.how.origin.Peer? {
      ProtectedIsNotOffered(m, d);
    } else if change.value.Offer? {
      OffersCost(m.(reports := m.reports[1..], sync := sync, traffic := traffic), links, d.serial, Syncable(d.formats));
    }
  }

  lemma WorkByPolled(m: Machine, links: seq<Link>, peers: nat)
    requires Inv(m) && m.reports != [] && m.reports[0].Polled? && m.ledger.faults == 0 && |links| <= peers
    ensures var (n, out) := ApplyReport(m, links);
            && Work(n, peers) + Sum(MsgWork, out) <= Work(m, peers)
            && (UserPolls(m.reports[0]) > 0 ==> Work(n, peers) + Sum(MsgWork, out) < Work(m, peers))
  {
    hide ApplyReport, OffersDue, Guard, Accounts;
    assert m.reports[0] in m.reports;
    DueByPolled(m, links);
    SentByPolled(m, links);
    RestByReport(m, links);
  }

  /** Applying a report takes it off the queue and leaves the jobs and the worker alone. */
  lemma RestByReport(m: Machine, links: seq<Link>)
    requires m.reports != []
    ensures var n := ApplyReport(m, links).0;
            n.jobs == m.jobs && n.worker == m.worker && n.os == m.os && n.reports == m.reports[1..]
  {
  }

  lemma DueByOtherReport(m: Machine, links: seq<Link>)
    requires m.reports != [] && !m.reports[0].Polled?
    ensures OffersDue(ApplyReport(m, links).0) == OffersDue(m)
  {
    var n := ApplyReport(m, links).0;
    RestByReport(m, links);
    assert PolledSerial(n.reports) == PolledSerial(m.reports);
    assert n.sync.Serial() == m.sync.Serial();
  }

  lemma WorkByOtherReport(m: Machine, links: seq<Link>, peers: nat)
    requires m.reports != [] && !m.reports[0].Polled?
    ensures var (n, out) := ApplyReport(m, links);
            && Work(n, peers) + Sum(MsgWork, out) <= Work(m, peers)
            && (ReportWork(m.reports[0]) > 0 ==> Work(n, peers) + Sum(MsgWork, out) < Work(m, peers))
  {
    DueByOtherReport(m, links);
    RestByReport(m, links);
    SentByOtherReport(m, links);
  }

  lemma SentByOtherReport(m: Machine, links: seq<Link>)
    requires m.reports != [] && !m.reports[0].Polled?
    ensures Sum(MsgWork, ApplyReport(m, links).1) <= if m.reports[0].Served? then 6 else 0
  {
  }

  lemma WorkByPoll(m: Machine, alone: bool, peers: nat)
    ensures Work(PollClipboard(m, alone), peers) == Work(m, peers)
  {
    SumAppend(JobWork, m.jobs, Poll(m.sync.Serial(), m.sync.Armed()));
  }

  lemma WorkByMove(m: Machine, serial: nat, peers: nat)
    requires m.os.origin.Peer?
    ensures Work(m.(os := Moved(m.os, serial)), peers) == Work(m, peers)
  {
  }

  lemma DueUnmoved(m: Machine, n: Machine)
    requires n.reports == m.reports && n.worker == m.worker && n.os == m.os && n.sync.seen == m.sync.seen
    ensures OffersDue(n) == OffersDue(m)
  {
  }

  lemma WorkByOffer(m: Machine, link: Link, formats: seq<Format>, serial: nat, peers: nat)
    ensures var (n, out) := OnOffer(m, link, formats, serial);
            Work(n, peers) + Sum(MsgWork, out) < Work(m, peers) + 10
  {
    hide OffersDue, Owed;
    DueUnmoved(m, OnOffer(m, link, formats, serial).0);
  }

  lemma WorkByRequest(m: Machine, link: Link, format: Format, serial: nat, peers: nat)
    ensures var (n, out) := OnRequest(m, link, format, serial);
            Work(n, peers) + Sum(MsgWork, out) < Work(m, peers) + 9
  {
    hide OffersDue, Owed;
    DueUnmoved(m, OnRequest(m, link, format, serial).0);
    SumAppend(JobWork, m.jobs, Serve(link.node, format, serial));
  }

  lemma WorkByData(m: Machine, link: Link, format: Format, serial: nat, data: Bytes, peers: nat)
    ensures Work(OnData(m, link, format, serial, data), peers) < Work(m, peers) + 6
  {
    hide OffersDue, Owed;
    DueUnmoved(m, OnData(m, link, format, serial, data));
    SumAppend(JobWork, m.jobs, Accept(link.node, format, data));
  }

  lemma WorkByMessage(m: Machine, link: Link, msg: Msg, peers: nat)
    ensures var (n, out) := OnMessage(m, link, msg);
            Work(n, peers) + Sum(MsgWork, out) < Work(m, peers) + MsgWork(Envelope(link.node, m.id, msg))
  {
    hide OffersDue, Owed, OnOffer, OnRequest, OnData;
    match msg {
      case ClipboardOffer(formats, serial) => WorkByOffer(m, link, formats, serial, peers);
      case ClipboardRequest(format, serial) =>
        var counted := m.(ledger := m.ledger.(requests := m.ledger.requests + 1));
        DueUnmoved(m, counted);
        WorkByRequest(counted, link, format, serial, peers);
      case ClipboardData(format, serial, data) => WorkByData(m, link, format, serial, data, peers);
      case ClipboardStale(_) => DueUnmoved(m, OnMessage(m, link, msg).0);
    }
  }

  lemma WorkByWorker(m: Machine, e: Event, peers: nat)
    requires Inv(m) && Enabled(m, e) && WorkerEvent(e)
    ensures Work(Next(m, e).0, peers) <= Work(m, peers) && Next(m, e).1 == []
    ensures Working(m, e) ==> Work(Next(m, e).0, peers) < Work(m, peers)
  {
    hide Work, Flow, Guard, Sighted, Accounts, OffersSound;
    match e {
      case SampleSerial(readable) => WorkBySample(m, readable, peers);
      case ListFormats(readable) => WorkByListing(m, readable, peers);
      case ReadBack(readable) => WorkByReadBack(m, readable, peers);
      case ReadForPeer(readable) => WorkByServe(m, readable, peers);
      case Unpack(payload) => WorkByUnpack(m, payload, peers);
      case WriteOut(_, _, _, _) => WorkByWrite(m, e, peers);
      case ReportWrite(known) => WorkByReportWrite(m, known, peers);
    }
  }

  /** On one machine: a quiet step never adds work, counting what it sends and was brought, and a working
      step leaves less. */
  lemma QuietStepWorks(m: Machine, e: Event, peers: nat)
    requires Inv(m) && m.ledger.faults == 0 && Enabled(m, e) && Quiet(m, e)
    requires e.Apply? ==> |e.links| <= peers
    ensures var (n, out) := Next(m, e);
            && Work(n, peers) + Sum(MsgWork, out) <= Work(m, peers) + Brought(m, e)
            && (Working(m, e) ==> Work(n, peers) + Sum(MsgWork, out) < Work(m, peers) + Brought(m, e))
  {
    hide Work, Inv, ApplyReport, OnMessage;
    match e {
      case SerialMoved(serial) => WorkByMove(m, serial, peers);
      case PollTick(alone) => WorkByPoll(m, alone, peers);
      case Receive(link, msg) => WorkByMessage(m, link, msg, peers);
      case Apply(links) =>
        if m.reports[0].Polled? {
          WorkByPolled(m, links, peers);
        } else {
          WorkByOtherReport(m, links, peers);
        }
      case _ => WorkByWorker(m, e, peers);
    }
  }

  // --- The mesh ------------------------------------------------------------

  datatype Mesh = Mesh(machines: seq<Machine>, net: seq<Envelope>)

  datatype MeshEvent =
    | Local(at: nat, event: Event)
    | Deliver(which: nat, shared: bool, caps: set<Capability>, room: bool)
    | Lose(which: nat)

  predicate MeshEnabled(w: Mesh, e: MeshEvent) {
    match e
    case Local(at, event) =>
      && at < |w.machines| && !event.Receive? && Enabled(w.machines[at], event)
      && (event.Apply? ==> |event.links| <= |w.machines|)
    case Deliver(which, _, _, _) => which < |w.net| && w.net[which].to < |w.machines|
    case Lose(which) => which < |w.net|
  }

  /** The machine a step happens on, and what happens there. */
  function Actor(w: Mesh, e: MeshEvent): (nat, Event)
    requires MeshEnabled(w, e) && !e.Lose?
  {
    match e
    case Local(at, event) => (at, event)
    case Deliver(which, shared, caps, room) =>
      (w.net[which].to, Receive(Link(w.net[which].from, shared, caps, room), w.net[which].msg))
  }

  function Without<T>(s: seq<T>, i: nat): seq<T>
    requires i < |s|
  {
    s[..i] + s[i + 1..]
  }

  function MeshNext(w: Mesh, e: MeshEvent): Mesh
    requires MeshEnabled(w, e)
  {
    if e.Lose? then w.(net := Without(w.net, e.which)) else
      var (at, event) := Actor(w, e);
      var (m, out) := Next(w.machines[at], event);
      var net := if e.Deliver? then Without(w.net, e.which) else w.net;
      Mesh(w.machines[at := m], net + out)
  }

  ghost predicate MeshInv(w: Mesh) {
    forall m <- w.machines :: Inv(m)
  }

  lemma MeshInvKept(w: Mesh, e: MeshEvent)
    requires MeshInv(w) && MeshEnabled(w, e)
    ensures MeshInv(MeshNext(w, e))
  {
    if !e.Lose? {
      var (at, event) := Actor(w, e);
      InvKept(w.machines[at], event);
    }
  }

  function WorkAmong(peers: nat): Machine -> nat {
    m => Work(m, peers)
  }

  function MeshWork(w: Mesh): nat {
    Sum(WorkAmong(|w.machines|), w.machines) + Sum(MsgWork, w.net)
  }

  predicate MeshQuiet(w: Mesh, e: MeshEvent)
    requires MeshEnabled(w, e)
  {
    e.Lose? || var (at, event) := Actor(w, e); Quiet(w.machines[at], event)
  }

  predicate MeshWorking(w: Mesh, e: MeshEvent)
    requires MeshEnabled(w, e)
  {
    e.Lose? || var (at, event) := Actor(w, e); Working(w.machines[at], event)
  }

  predicate Faultless(w: Mesh) {
    forall m <- w.machines :: m.ledger.faults == 0
  }

  lemma WithoutWork(net: seq<Envelope>, which: nat)
    requires which < |net|
    ensures Sum(MsgWork, Without(net, which)) + MsgWork(net[which]) == Sum(MsgWork, net)
  {
    SumRemove(MsgWork, net, which);
  }

  /** One machine's step, seen from the mesh: `net` is what is left in flight when it happens. */
  lemma ActorWorks(w: Mesh, at: nat, event: Event, net: seq<Envelope>)
    requires MeshInv(w) && Faultless(w) && at < |w.machines| && Enabled(w.machines[at], event)
    requires Quiet(w.machines[at], event) && (event.Apply? ==> |event.links| <= |w.machines|)
    ensures var (n, out) := Next(w.machines[at], event);
            var before := Sum(WorkAmong(|w.machines|), w.machines) + Sum(MsgWork, net) + Brought(w.machines[at], event);
            && Faultless(Mesh(w.machines[at := n], net + out))
            && MeshWork(Mesh(w.machines[at := n], net + out)) <= before
            && (Working(w.machines[at], event) ==> MeshWork(Mesh(w.machines[at := n], net + out)) < before)
  {
    hide Inv, Next, Enabled, Working, Work, MsgWork, Brought;
    var peers := |w.machines|;
    var (n, out) := Next(w.machines[at], event);
    QuietStepWorks(w.machines[at], event, peers);
    SumUpdate(WorkAmong(peers), w.machines, at, n);
    SumConcat(MsgWork, net, out);
  }

  lemma MeshStepWorks(w: Mesh, e: MeshEvent)
    requires MeshInv(w) && Faultless(w) && MeshEnabled(w, e) && MeshQuiet(w, e)
    ensures MeshWork(MeshNext(w, e)) <= MeshWork(w) && Faultless(MeshNext(w, e))
    ensures MeshWorking(w, e) ==> MeshWork(MeshNext(w, e)) < MeshWork(w)
  {
    hide Inv, Work, Next;
    match e {
      case Local(at, event) => ActorWorks(w, at, event, w.net);
      case Deliver(which, _, _, _) =>
        var (at, event) := Actor(w, e);
        ActorWorks(w, at, event, Without(w.net, which));
        WithoutWork(w.net, which);
      case Lose(which) => WithoutWork(w.net, which);
    }
  }

  ghost predicate MeshRun(ws: seq<Mesh>, es: seq<MeshEvent>) {
    && |ws| == |es| + 1
    && forall i :: 0 <= i < |es| ==> MeshEnabled(ws[i], es[i]) && ws[i + 1] == MeshNext(ws[i], es[i])
  }

  /** How many of the steps did outstanding work. */
  ghost function WorkSteps(ws: seq<Mesh>, es: seq<MeshEvent>): nat
    requires MeshRun(ws, es)
  {
    if es == [] then 0 else
      (if MeshWorking(ws[0], es[0]) then 1 else 0) + WorkSteps(ws[1..], es[1..])
  }

  ghost predicate QuietRun(ws: seq<Mesh>, es: seq<MeshEvent>) {
    MeshRun(ws, es) && forall i :: 0 <= i < |es| ==> MeshQuiet(ws[i], es[i])
  }

  /** Once nobody copies anything and nothing fails, the work that can still happen is bounded by what is
      outstanding now: every run, of any length and in any order, has at most that many working steps. */
  lemma {:induction false} TrafficDiesOut(ws: seq<Mesh>, es: seq<MeshEvent>)
    requires QuietRun(ws, es) && MeshInv(ws[0]) && Faultless(ws[0])
    ensures WorkSteps(ws, es) + MeshWork(ws[|es|]) <= MeshWork(ws[0])
  {
    if es != [] {
      assert ws[1] == MeshNext(ws[0], es[0]) && MeshQuiet(ws[0], es[0]);
      MeshInvKept(ws[0], es[0]);
      MeshStepWorks(ws[0], es[0]);
      QuietTail(ws, es);
      TrafficDiesOut(ws[1..], es[1..]);
    }
  }

  lemma QuietTail(ws: seq<Mesh>, es: seq<MeshEvent>)
    requires QuietRun(ws, es) && es != []
    ensures QuietRun(ws[1..], es[1..])
  {
    forall i | 0 <= i < |es[1..]|
      ensures MeshEnabled(ws[1..][i], es[1..][i]) && ws[1..][i + 1] == MeshNext(ws[1..][i], es[1..][i])
      ensures MeshQuiet(ws[1..][i], es[1..][i])
    {
      assert ws[1..][i] == ws[i + 1] && es[1..][i] == es[i + 1];
    }
  }

  lemma {:induction false} MeshInvOnRuns(ws: seq<Mesh>, es: seq<MeshEvent>, k: nat)
    requires MeshRun(ws, es) && MeshInv(ws[0]) && k < |ws|
    ensures MeshInv(ws[k])
  {
    if k > 0 {
      MeshInvOnRuns(ws, es, k - 1);
      MeshInvKept(ws[k - 1], es[k - 1]);
    }
  }

  /** No ping-pong: however the machines pass content around, each makes at most two offers for each OS
      change that left a person's content on it, as long as nothing has failed there. */
  lemma NoPingPong(ws: seq<Mesh>, es: seq<MeshEvent>, k: nat, m: Machine)
    requires MeshRun(ws, es) && MeshInv(ws[0]) && k < |ws| && m in ws[k].machines && m.ledger.faults == 0
    ensures |m.ledger.offers| <= 2 * |m.os.userSerials|
    ensures forall o <- m.ledger.offers :: o.origin.User? && o.at in m.os.userSerials
  {
    MeshInvOnRuns(ws, es, k);
    OffersAreCharged(m);
  }

  // --- Silence is reached --------------------------------------------------

  predicate Empty(m: Machine) {
    m.jobs == [] && m.worker.Idle? && m.reports == []
  }

  /** An offer is due and no poll has been dispatched that would make it. */
  function Undispatched(m: Machine): nat {
    if m.os.origin.User? && Upcoming(m) != Some(m.os.serial) && (forall j <- m.jobs :: !j.Poll?) then 1 else 0
  }

  function PollSteps(j: Job): nat { if j.Poll? then 4 else 0 }

  /** Steps left in the poll under way. */
  function Chores(m: Machine): nat {
    Sum(PollSteps, m.jobs) + Sum(PollReports, m.reports)
    + (if m.worker.Sampled? then 3 else if m.worker.Listed? then 2 else 0)
  }

  /** Nobody is idle on purpose and everything succeeds: reports are applied, jobs are done, payloads are
      unpacked and written, and a poll is sent when one is due. */
  predicate Eager(m: Machine, e: Event)
    requires Enabled(m, e)
  {
    match e
    case SampleSerial(readable) => readable
    case ListFormats(readable) => readable
    case ReadBack(readable) => readable
    case ReadForPeer(readable) => readable
    case Unpack(payload) => payload == Some(m.jobs[0].packed)
    case WriteOut(ok, _, _, _) => ok
    case ReportWrite(known) => known
    case PollTick(alone) => !alone && Empty(m) && Undispatched(m) == 1
    case Copied(_, _, _) => false
    case SerialMoved(_) => false
    case _ => true
  }

  lemma ChoresByReport(m: Machine, d: Done)
    ensures Sum(PollReports, m.reports + [d]) == Sum(PollReports, m.reports) + PollReports(d)
  {
    SumAppend(PollReports, m.reports, d);
  }

  lemma IdlePollShrinks(m: Machine, alone: bool)
    requires Inv(m) && Enabled(m, PollTick(alone)) && Eager(m, PollTick(alone))
    ensures Undispatched(PollClipboard(m, alone)) < Undispatched(m)
  {
    var n := PollClipboard(m, alone);
    assert m.traffic.MayPoll() && n.jobs[0].Poll? && n.jobs[0] in n.jobs;
  }

  lemma SampleShrinks(m: Machine)
    requires Inv(m) && Enabled(m, SampleSerial(true))
    ensures var n := StartSample(m, true); Undispatched(n) <= Undispatched(m) && Chores(n) < Chores(m)
  {
    ChoresByReport(m, NothingNew);
    NonePending(m);
    PolledSerialAppend(m.reports, NothingNew);
    assert m.jobs[0] in m.jobs;
  }

  lemma ListingShrinks(m: Machine, readable: bool)
    requires Inv(m) && m.worker.Sampled?
    ensures var n := AfterListing(m, readable); Undispatched(n) <= Undispatched(m) && Chores(n) < Chores(m)
  {
    NonePending(m);
    var n := AfterListing(m, readable);
    if n.worker.Idle? {
      PolledSerialAppend(m.reports, n.reports[|m.reports|]);
      ChoresByReport(m, n.reports[|m.reports|]);
    }
  }

  lemma ReadBackShrinks(m: Machine, readable: bool)
    requires Inv(m) && m.worker.Listed?
    ensures var n := AfterReadBack(m, readable); Undispatched(n) <= Undispatched(m) && Chores(n) < Chores(m)
  {
    NonePending(m);
    var n := AfterReadBack(m, readable);
    PolledSerialAppend(m.reports, n.reports[|m.reports|]);
    ChoresByReport(m, n.reports[|m.reports|]);
  }

  lemma ApplyShrinks(m: Machine, links: seq<Link>)
    requires Inv(m) && m.reports != [] && PollReports(m.reports[0]) == 1
    ensures var n := ApplyReport(m, links).0; Undispatched(n) <= Undispatched(m) && Chores(n) < Chores(m)
  {
    assert m.reports[0] in m.reports;
    RestByReport(m, links);
    if m.reports[0].Polled? {
      DueByPolled(m, links);
      UpcomingByPolled(m, links);
    }
  }

  lemma UpcomingByPolled(m: Machine, links: seq<Link>)
    requires Counted(m) && m.reports != [] && m.reports[0].Polled?
    ensures Upcoming(ApplyReport(m, links).0) == Upcoming(m)
  {
    OnlyPoll(m);
    forall r <- m.reports[1..]
      ensures !r.Polled?
    {
      var i :| 0 <= i < |m.reports[1..]| && m.reports[1..][i] == r;
      assert !m.reports[i + 1].Polled?;
    }
    NoPolledSerial(m.reports[1..]);
  }

  /** Every eager step either does outstanding work, or dispatches the poll that is due, or moves the poll
      under way one step on. */
  lemma EagerStepShrinks(m: Machine, e: Event)
    requires Inv(m) && Enabled(m, e) && Eager(m, e) && !Working(m, e)
    ensures var n := Next(m, e).0;
            || Undispatched(n) < Undispatched(m)
            || (Undispatched(n) <= Undispatched(m) && Chores(n) < Chores(m))
  {
    match e {
      case PollTick(alone) => IdlePollShrinks(m, alone);
      case SampleSerial(_) => SampleShrinks(m);
      case ListFormats(readable) => ListingShrinks(m, readable);
      case ReadBack(readable) => ReadBackShrinks(m, readable);
      case Apply(links) =>
        assert m.reports[0] in m.reports;
        ApplyShrinks(m, links);
    }
  }

  lemma BusyWorkerStepEnabled(m: Machine) returns (e: Event)
    requires Inv(m) && m.ledger.faults == 0 && m.reports == [] && !m.worker.Idle?
    ensures Enabled(m, e) && !e.Receive? && !e.Apply? && Eager(m, e) && Quiet(m, e)
  {
    if m.worker.Sampled? {
      e := ListFormats(true);
    } else if m.worker.Listed? {
      e := ReadBack(true);
      if m.os.origin.Peer? {
        GuardWhileSampling(m);
      }
    } else if m.worker.Ready? {
      e := WriteOut(true, m.os.serial + 1, [m.worker.format], map[m.worker.format := m.worker.payload]);
    } else {
      e := ReportWrite(true);
    }
  }

  /** A machine with work outstanding always has an eager, quiet step to take. */
  lemma EagerStepEnabled(m: Machine, peers: nat, links: seq<Link>) returns (e: Event)
    requires Inv(m) && m.ledger.faults == 0 && Work(m, peers) > 0
    ensures Enabled(m, e) && !e.Receive? && Eager(m, e) && Quiet(m, e) && (e.Apply? ==> e.links == links)
  {
    hide Flow, Guard, Sighted, Accounts, OffersSound;
    if m.reports != [] {
      e := Apply(links);
    } else if !m.worker.Idle? {
      e := BusyWorkerStepEnabled(m);
    } else if m.jobs != [] {
      e := if m.jobs[0].Poll? then SampleSerial(true)
           else if m.jobs[0].Serve? then ReadForPeer(true)
           else Unpack(Some(m.jobs[0].packed));
    } else {
      e := PollTick(false);
    }
  }

  /** Whether anything is left in flight or waiting that could become traffic. */
  predicate Silent(w: Mesh) {
    w.net == [] && forall m <- w.machines :: Work(m, |w.machines|) == 0
  }

  lemma SilentExactlyWhenNoWork(w: Mesh)
    ensures Silent(w) <==> MeshWork(w) == 0
  {
    var work := WorkAmong(|w.machines|);
    if w.net != [] {
      assert MsgWork(w.net[0]) > 0;
    } else if !Silent(w) {
      var m :| m in w.machines && Work(m, |w.machines|) != 0;
      var i :| 0 <= i < |w.machines| && w.machines[i] == m;
      SumMember(work, w.machines, i);
      assert work(m) == Work(m, |w.machines|);
    } else {
      NothingSums(work, w.machines);
    }
  }

  lemma {:induction false} NothingSums<T>(weigh: T -> nat, s: seq<T>)
    requires forall x <- s :: weigh(x) == 0
    ensures Sum(weigh, s) == 0
  {
    if s != [] {
      assert s[0] in s && forall x <- s[1..] :: x in s;
      NothingSums(weigh, s[1..]);
    }
  }

  const EVERYTHING: set<Capability> := {ClipboardText, ClipboardImage}

  /** Every session up and every peer willing. */
  function AllLinks(n: nat): seq<Link> {
    seq(n, i requires 0 <= i < n => Link(i, true, EVERYTHING, true))
  }

  predicate Within(e: Envelope, n: nat) { e.from < n && e.to < n }

  /** Machines and messages are addressed within the mesh. */
  predicate Addressed(w: Mesh) {
    (forall m <- w.machines :: m.id < |w.machines|) && forall e <- w.net :: Within(e, |w.machines|)
  }

  lemma {:induction false} OffersWithin(m: Machine, links: seq<Link>, serial: nat, formats: seq<Format>, n: nat)
    requires m.id < n && forall l <- links :: l.node < n
    ensures forall e <- OfferClipboard(m, links, serial, formats) :: Within(e, n)
  {
    if links != [] {
      assert links[0] in links && forall l <- links[1..] :: l in links;
      OffersWithin(m, links[1..], serial, formats, n);
    }
  }

  lemma {:induction false} LinkWithin(links: seq<Link>, node: PeerId, n: nat)
    requires forall l <- links :: l.node < n
    ensures var l := LinkTo(links, node); l.room ==> l.node < n
  {
    if links != [] {
      assert links[0] in links && forall l <- links[1..] :: l in links;
      LinkWithin(links[1..], node, n);
    }
  }

  lemma SentWithin(m: Machine, e: Event, n: nat)
    requires m.id < n && Enabled(m, e)
    requires e.Apply? ==> forall l <- e.links :: l.node < n
    requires e.Receive? ==> e.link.node < n
    ensures Next(m, e).0.id < n && forall envelope <- Next(m, e).1 :: Within(envelope, n)
  {
    match e {
      case Apply(links) =>
        var d := m.reports[0];
        if d.Polled? {
          var (sync, traffic, _) := SettledReport(m.sync, m.traffic, d);
          OffersWithin(m.(reports := m.reports[1..], sync := sync, traffic := traffic), links, d.serial, Syncable(d.formats), n);
        } else if d.Served? {
          LinkWithin(links, d.node, n);
        }
      case _ =>
    }
  }

  // --- Every eager run falls silent ----------------------------------------

  /** An eager step somewhere, or a delivery; nothing is lost. */
  predicate MeshEager(w: Mesh, e: MeshEvent)
    requires MeshEnabled(w, e)
  {
    match e
    case Local(at, event) =>
      Eager(w.machines[at], event) && (event.Apply? ==> forall l <- event.links :: l.node < |w.machines|)
    case Deliver(_, _, _, _) => true
    case Lose(_) => false
  }

  ghost predicate EagerRun(ws: seq<Mesh>, es: seq<MeshEvent>) {
    QuietRun(ws, es) && forall i :: 0 <= i < |es| ==> MeshEager(ws[i], es[i])
  }

  /** Poll steps to come on one machine. A poll yet to be dispatched outweighs one under way. */
  function Pending(m: Machine): nat {
    5 * Undispatched(m) + Chores(m)
  }

  lemma {:induction false} PollStepsSum(jobs: seq<Job>)
    ensures Sum(PollSteps, jobs) == 4 * Sum(PollJobs, jobs)
  {
    if jobs != [] {
      PollStepsSum(jobs[1..]);
    }
  }

  lemma PendingBounded(m: Machine)
    requires Counted(m)
    ensures Chores(m) <= 4 && Pending(m) <= 9
  {
    hide Upcoming;
    PollStepsSum(m.jobs);
  }

  lemma PendingShrinks(m: Machine, e: Event)
    requires Inv(m) && Enabled(m, e) && Eager(m, e) && !Working(m, e)
    ensures Pending(Next(m, e).0) < Pending(m)
  {
    hide Undispatched, Chores, Eager, Working, Next, Enabled;
    EagerStepShrinks(m, e);
    InvKept(m, e);
    InvCounts(Next(m, e).0);
    PendingBounded(Next(m, e).0);
  }

  lemma InvCounts(m: Machine)
    requires Inv(m)
    ensures Counted(m)
  {
  }

  lemma {:induction false} PendingSum(machines: seq<Machine>)
    requires forall m <- machines :: Counted(m)
    ensures Sum(Pending, machines) <= 9 * |machines|
  {
    hide Pending, Counted;
    if machines != [] {
      assert machines[0] in machines && forall m <- machines[1..] :: m in machines;
      PendingBounded(machines[0]);
      PendingSum(machines[1..]);
    }
  }

  /** What bounds an eager run: the work outstanding, each unit of it outweighing every poll there can be. */
  function Potential(w: Mesh): nat {
    Weighed(MeshWork(w), 9 * |w.machines| + 1, Sum(Pending, w.machines))
  }

  function Weighed(work: nat, weight: nat, rest: nat): nat {
    work * weight + rest
  }

  lemma Outweighs(a: nat, b: nat, k: nat, p: nat, q: nat)
    requires (a < b && p < k) || (a <= b && p < q)
    ensures Weighed(a, k, p) < Weighed(b, k, q)
  {
    if a < b {
      assert a * k + k == (a + 1) * k <= b * k;
    } else {
      assert a * k == b * k;
    }
  }

  lemma EagerStepLowers(w: Mesh, e: MeshEvent)
    requires MeshInv(w) && Faultless(w) && MeshEnabled(w, e) && MeshQuiet(w, e) && MeshEager(w, e)
    ensures Potential(MeshNext(w, e)) < Potential(w) && |MeshNext(w, e).machines| == |w.machines|
  {
    hide Inv, Next, Enabled, Eager, Quiet, MeshWork, Pending, Weighed;
    var n, k := MeshNext(w, e), 9 * |w.machines| + 1;
    MeshStepWorks(w, e);
    MeshInvKept(w, e);
    forall m <- n.machines
      ensures Counted(m)
    {
      InvCounts(m);
    }
    PendingSum(n.machines);
    if !MeshWorking(w, e) {
      var (at, event) := Actor(w, e);
      PendingShrinks(w.machines[at], event);
      SumUpdate(Pending, w.machines, at, Next(w.machines[at], event).0);
    }
    Outweighs(MeshWork(n), MeshWork(w), k, Sum(Pending, n.machines), Sum(Pending, w.machines));
  }

  lemma AddressedByEager(w: Mesh, e: MeshEvent)
    requires Addressed(w) && MeshEnabled(w, e) && MeshEager(w, e)
    ensures Addressed(MeshNext(w, e))
  {
    hide Next, Enabled, Eager;
    var (at, event) := Actor(w, e);
    if e.Deliver? {
      assert Within(w.net[e.which], |w.machines|);
      AddressedKept(w, at, event, Without(w.net, e.which));
    } else {
      AddressedKept(w, at, event, w.net);
    }
  }

  lemma EagerTail(ws: seq<Mesh>, es: seq<MeshEvent>)
    requires EagerRun(ws, es) && es != []
    ensures EagerRun(ws[1..], es[1..])
  {
    QuietTail(ws, es);
    forall i | 0 <= i < |es[1..]|
      ensures MeshEager(ws[1..][i], es[1..][i])
    {
      assert ws[1..][i] == ws[i + 1] && es[1..][i] == es[i + 1];
    }
  }

  lemma {:induction false} EagerRunLowers(ws: seq<Mesh>, es: seq<MeshEvent>)
    requires EagerRun(ws, es) && MeshInv(ws[0]) && Faultless(ws[0]) && Addressed(ws[0])
    ensures |es| + Potential(ws[|es|]) <= Potential(ws[0])
    ensures MeshInv(ws[|es|]) && Faultless(ws[|es|]) && Addressed(ws[|es|])
    decreases es
  {
    hide Potential, MeshInv, Faultless, Addressed, MeshNext, MeshEnabled, MeshQuiet, MeshEager;
    if es != [] {
      var w, e := ws[0], es[0];
      assert MeshEnabled(w, e) && MeshQuiet(w, e) && MeshEager(w, e) && ws[1] == MeshNext(w, e);
      EagerStepLowers(w, e);
      MeshInvKept(w, e);
      MeshStepWorks(w, e);
      AddressedByEager(w, e);
      EagerTail(ws, es);
      EagerRunLowers(ws[1..], es[1..]);
    }
  }

  /** With nobody copying and nothing failing, every eager run is over within a length fixed at its start, and
      one that cannot be taken further has fallen silent. */
  lemma EagerRunsFallSilent(ws: seq<Mesh>, es: seq<MeshEvent>)
    requires EagerRun(ws, es) && MeshInv(ws[0]) && Faultless(ws[0]) && Addressed(ws[0])
    ensures |es| <= Potential(ws[0])
    ensures var w := ws[|es|];
            !Silent(w) ==> exists e :: MeshEnabled(w, e) && MeshQuiet(w, e) && MeshEager(w, e)
  {
    EagerRunLowers(ws, es);
    if !Silent(ws[|es|]) {
      var e := NextTowardsSilence(ws[|es|]);
    }
  }

  /** From any state, with every session up, nobody copying and nothing failing, the mesh runs on to
      silence without losing a message. */
  lemma ReachesSilence(w: Mesh) returns (ws: seq<Mesh>, es: seq<MeshEvent>)
    requires MeshInv(w) && Faultless(w) && Addressed(w)
    ensures EagerRun(ws, es) && ws[0] == w && Silent(ws[|es|])
    decreases Potential(w)
  {
    if Silent(w) {
      return [w], [];
    }
    hide Silent, MeshInv, Faultless, Addressed, Potential;
    var first := NextTowardsSilence(w);
    EagerStepLowers(w, first);
    MeshInvKept(w, first);
    MeshStepWorks(w, first);
    AddressedByEager(w, first);
    var ws', es' := ReachesSilence(MeshNext(w, first));
    ws, es := [w] + ws', [first] + es';
    EagerRunStarts(w, first, ws', es');
  }

  lemma EagerRunStarts(w: Mesh, e: MeshEvent, ws: seq<Mesh>, es: seq<MeshEvent>)
    requires MeshEnabled(w, e) && MeshQuiet(w, e) && MeshEager(w, e)
    requires EagerRun(ws, es) && ws[0] == MeshNext(w, e)
    ensures EagerRun([w] + ws, [e] + es)
  {
    hide MeshEnabled, MeshQuiet, MeshEager, MeshNext;
    var ws', es' := [w] + ws, [e] + es;
    forall i | 0 <= i < |es'|
      ensures MeshEnabled(ws'[i], es'[i]) && ws'[i + 1] == MeshNext(ws'[i], es'[i])
      ensures MeshQuiet(ws'[i], es'[i]) && MeshEager(ws'[i], es'[i])
    {
      if i > 0 {
        assert ws'[i] == ws[i - 1] && es'[i] == es[i - 1] && ws'[i + 1] == ws[i];
      }
    }
  }

  lemma AddressedKept(w: Mesh, at: nat, event: Event, net: seq<Envelope>)
    requires Addressed(w) && at < |w.machines| && Enabled(w.machines[at], event)
    requires event.Apply? ==> forall l <- event.links :: l.node < |w.machines|
    requires event.Receive? ==> event.link.node < |w.machines|
    requires forall e <- net :: Within(e, |w.machines|)
    ensures var (n, out) := Next(w.machines[at], event); Addressed(Mesh(w.machines[at := n], net + out))
  {
    SentWithin(w.machines[at], event, |w.machines|);
  }

  lemma DeliverNext(w: Mesh) returns (e: MeshEvent)
    requires MeshInv(w) && Addressed(w) && w.net != []
    ensures MeshEnabled(w, e) && MeshQuiet(w, e) && MeshEager(w, e)
  {
    assert Within(w.net[0], |w.machines|);
    e := Deliver(0, true, EVERYTHING, true);
    var (at, event) := Actor(w, e);
    QuietReceive(w.machines[at], event.link, event.msg);
  }

  lemma QuietReceive(m: Machine, link: Link, msg: Msg)
    ensures Quiet(m, Receive(link, msg))
  {
  }

  lemma Restless(w: Mesh) returns (at: nat)
    requires !Silent(w) && w.net == []
    ensures at < |w.machines| && Work(w.machines[at], |w.machines|) > 0
  {
    var m :| m in w.machines && Work(m, |w.machines|) != 0;
    at :| 0 <= at < |w.machines| && w.machines[at] == m;
  }

  lemma WorkNext(w: Mesh) returns (e: MeshEvent)
    requires MeshInv(w) && Faultless(w) && !Silent(w) && w.net == []
    ensures MeshEnabled(w, e) && MeshQuiet(w, e) && MeshEager(w, e)
  {
    var at := Restless(w);
    var event := EagerStepEnabled(w.machines[at], |w.machines|, AllLinks(|w.machines|));
    e := Local(at, event);
  }

  lemma NextTowardsSilence(w: Mesh) returns (e: MeshEvent)
    requires MeshInv(w) && Faultless(w) && !Silent(w) && Addressed(w)
    ensures MeshEnabled(w, e) && MeshQuiet(w, e) && MeshEager(w, e)
  {
    if w.net != [] {
      e := DeliverNext(w);
    } else {
      e := WorkNext(w);
    }
  }
}
