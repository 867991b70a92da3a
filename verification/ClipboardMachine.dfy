/** One machine's clipboard traffic: the engine loop, the worker thread, the two queues between them and
    the OS clipboard, as a step system (crates/wx-agent/src/engine.rs). */
module ClipboardMachines {
  import opened Wrappers
  import opened Sums
  import opened Fnv
  import opened Fingerprints
  import opened ClipboardSyncs

  const JOB_DEPTH: nat := 4
  const MAX_CLIPBOARD_BYTES: nat := 32 * 1024 * 1024 - 64

  // --- The loop's record of what is with the worker ------------------------

  datatype Kind = PollKind | ServeKind | AcceptKind

  datatype Traffic = Traffic(polling: bool, writes: nat, lost: bool)
  {
    predicate MayPoll() {
      !lost && !polling && writes == 0
    }

    function Dispatched(kind: Kind): Traffic {
      match kind
      case PollKind => this.(polling := true)
      case AcceptKind => this.(writes := writes + 1)
      case ServeKind => this
    }

    function Settled(kind: Kind): Traffic {
      match kind
      case PollKind => this.(polling := false)
      case AcceptKind => this.(writes := if writes == 0 then 0 else writes - 1)
      case ServeKind => this
    }

    function WorkerLost(): Traffic {
      Traffic(false, 0, true)
    }
  }

  // --- Jobs, reports, messages ---------------------------------------------

  datatype Job =
    | Poll(seen: Option<nat>, armed: Option<(Format, nat)>)
    | Serve(node: PeerId, format: Format, serial: nat)
    | Accept(node: PeerId, format: Format, packed: Bytes)
  {
    function Kind(): Kind {
      match this
      case Poll(_, _) => PollKind
      case Serve(_, _, _) => ServeKind
      case Accept(_, _, _) => AcceptKind
    }
  }

  /** Whose content the OS clipboard holds. */
  datatype Origin = User | Peer(format: Format, payload: Bytes)

  /** History carried beside a poll's report; no step acts on it. What the poll was dispatched with, and
      what the clipboard held when the sampling ended. */
  datatype Sighting = Sighting(
    armed: Option<(Format, nat)>,
    at: nat,
    origin: Origin,
    intact: bool,
    clean: bool,
    formats: seq<Format>,
    data: map<Format, Bytes>)

  datatype Done =
    | NothingNew
    | Polled(serial: nat, formats: seq<Format>, digest: Option<nat>, how: Sighting)
    | Served(node: PeerId, format: Format, serial: nat, packed: Option<Bytes>)
    | Writing(format: Format, mark: nat)
    | Wrote(node: PeerId, format: Format, produced: Option<nat>)
    | NotWritten(armed: bool)
    | WorkerGone

  datatype Msg =
    | ClipboardOffer(formats: seq<Format>, serial: nat)
    | ClipboardRequest(format: Format, serial: nat)
    | ClipboardData(format: Format, serial: nat, data: Bytes)
    | ClipboardStale(serial: nat)

  datatype Envelope = Envelope(from: PeerId, to: PeerId, msg: Msg)

  /** A peer session as a handler finds it: sharing permitted, what the peer advertises, and whether the
      peer's clipboard queue takes another message. */
  datatype Link = Link(node: PeerId, shared: bool, caps: set<Capability>, room: bool)

  /** Apply one worker report to the sync state and the traffic record. */
  function SettledReport(sync: Sync, traffic: Traffic, done: Done): (Sync, Traffic, Option<LocalChange>) {
    match done
    case NothingNew => (sync, traffic.Settled(PollKind), None)
    case Polled(serial, formats, digest, _) =>
      var (next, change) := sync.Observed(serial, formats, digest);
      (next, traffic.Settled(PollKind), Some(change))
    case Served(_, _, _, _) => (sync, traffic.Settled(ServeKind), None)
    case Writing(format, mark) => (sync.Writing(format, mark), traffic, None)
    case Wrote(_, _, produced) =>
      (if produced.Some? then sync.Wrote(produced.value) else sync, traffic.Settled(AcceptKind), None)
    case NotWritten(armed) => (if armed then sync.WriteFailed() else sync, traffic.Settled(AcceptKind), None)
    case WorkerGone => (sync, traffic.WorkerLost(), None)
  }

  // --- The machine ---------------------------------------------------------

  datatype Worker =
    | Idle
    | Sampled(armed: Option<(Format, nat)>, serial: nat)
    | Listed(guard: (Format, nat), serial: nat, formats: seq<Format>)
    | Ready(node: PeerId, format: Format, payload: Bytes)
    | Written(node: PeerId, format: Format, payload: Bytes)
    | Gone // its queue closed with it

  /** `userSerials` are the serials at which the clipboard held content a person put there. `intact` says
      that no listing, read-back or write has failed since the peer's payload it holds was written. */
  datatype Os = Os(
    serial: nat,
    formats: seq<Format>,
    data: map<Format, Bytes>,
    origin: Origin,
    userSerials: set<nat>,
    intact: bool)

  datatype Offered = Offered(start: nat, at: nat, origin: Origin)

  /** History: what has been counted so far. */
  datatype Ledger = Ledger(
    requests: nat,
    answers: nat,
    asks: map<PeerId, nat>,
    accepts: map<PeerId, nat>,
    offers: seq<Offered>,
    faults: nat)

  function Tally(counts: map<PeerId, nat>, node: PeerId): nat {
    if node in counts then counts[node] else 0
  }

  function Bumped(counts: map<PeerId, nat>, node: PeerId): map<PeerId, nat> {
    counts[node := Tally(counts, node) + 1]
  }

  datatype Machine = Machine(
    id: PeerId,
    caps: set<Capability>,
    sync: Sync,
    traffic: Traffic,
    jobs: seq<Job>,
    worker: Worker,
    reports: seq<Done>,
    os: Os,
    ledger: Ledger)

  /** What can happen next, with everything the environment decides. */
  datatype Event =
    | Copied(serial: nat, formats: seq<Format>, data: map<Format, Bytes>)
    | SerialMoved(serial: nat)
    | PollTick(alone: bool)
    | SampleSerial(readable: bool)
    | ListFormats(readable: bool)
    | ReadBack(readable: bool)
    | ReadForPeer(readable: bool)
    | Unpack(payload: Option<Bytes>)
    | WriteOut(ok: bool, serial: nat, formats: seq<Format>, data: map<Format, Bytes>)
    | ReportWrite(known: bool)
    | Apply(links: seq<Link>)
    | Receive(link: Link, msg: Msg)

  /** The environment's rules: the OS serial only moves forward, a write leaves the payload readable in
      its format, and no copy lands between a write and the serial read that follows it. */
  predicate Enabled(m: Machine, e: Event) {
    match e
    case Copied(serial, _, _) => m.os.serial < serial && !m.worker.Written?
    case SerialMoved(serial) => m.os.serial < serial
    case PollTick(_) => true
    case SampleSerial(_) => m.worker.Idle? && m.jobs != [] && m.jobs[0].Poll?
    case ListFormats(_) => m.worker.Sampled?
    case ReadBack(_) => m.worker.Listed?
    case ReadForPeer(_) => m.worker.Idle? && m.jobs != [] && m.jobs[0].Serve?
    case Unpack(_) => m.worker.Idle? && m.jobs != [] && m.jobs[0].Accept?
    case WriteOut(ok, serial, formats, data) =>
      && m.worker.Ready?
      && (ok ==> m.os.serial < serial)
      && (ok ==> m.worker.format in formats && m.worker.format in data)
      && (ok ==> data[m.worker.format] == m.worker.payload)
    case ReportWrite(_) => m.worker.Written?
    case Apply(_) => m.reports != []
    case Receive(_, _) => true
  }

  function Next(m: Machine, e: Event): (Machine, seq<Envelope>)
    requires Enabled(m, e)
  {
    match e
    case Copied(serial, formats, data) =>
      (m.(os := Os(serial, formats, data, User, m.os.userSerials + {serial}, true)), [])
    case SerialMoved(serial) => (m.(os := Moved(m.os, serial)), [])
    case PollTick(alone) => (PollClipboard(m, alone), [])
    case SampleSerial(readable) => (StartSample(m, readable), [])
    case ListFormats(readable) => (AfterListing(m, readable), [])
    case ReadBack(readable) => (AfterReadBack(m, readable), [])
    case ReadForPeer(readable) => (ServeFromClipboard(m, readable), [])
    case Unpack(payload) => (StartWrite(m, payload), [])
    case WriteOut(ok, serial, formats, data) => (AfterWrite(m, ok, serial, formats, data), [])
    case ReportWrite(known) => (ReportWritten(m, known), [])
    case Apply(links) => ApplyReport(m, links)
    case Receive(link, msg) => OnMessage(m, link, msg)
  }

  function Moved(os: Os, serial: nat): Os {
    os.(serial := serial, userSerials := if os.origin.User? then os.userSerials + {serial} else os.userSerials)
  }

  // --- The worker's steps --------------------------------------------------

  function Reported(m: Machine, done: Done): Machine {
    m.(reports := m.reports + [done])
  }

  /** A failure while a peer's payload is on the clipboard. */
  function Fault(m: Machine, ok: bool): Machine {
    if ok || m.os.origin.User? then m
    else m.(os := m.os.(intact := false), ledger := m.ledger.(faults := m.ledger.faults + 1))
  }

  /** `change_serial`, and nothing more when it cannot be read or has not moved. */
  function StartSample(m: Machine, readable: bool): Machine
    requires Enabled(m, SampleSerial(readable))
  {
    var taken := m.(jobs := m.jobs[1..]);
    if !readable || m.jobs[0].seen == Some(m.os.serial) then Reported(taken, NothingNew)
    else taken.(worker := Sampled(m.jobs[0].armed, m.os.serial))
  }

  function Seen(m: Machine, armed: Option<(Format, nat)>, clean: bool): Sighting {
    Sighting(armed, m.os.serial, m.os.origin, m.os.intact, clean, m.os.formats, m.os.data)
  }

  /** `available_formats`. The written format is read back only when the serial is not the one the write
      produced and the format is still there. */
  function AfterListing(m: Machine, readable: bool): Machine
    requires m.worker.Sampled?
  {
    var formats := if readable then m.os.formats else [];
    var Sampled(armed, serial) := m.worker;
    var after := Fault(m, readable);
    if armed.Some? && armed.value.1 != serial && armed.value.0 in formats then
      after.(worker := Listed(armed.value, serial, formats))
    else
      Reported(after.(worker := Idle), Polled(serial, formats, None, Seen(after, armed, readable)))
  }

  function AfterReadBack(m: Machine, readable: bool): Machine
    requires m.worker.Listed?
  {
    var Listed(guard, serial, formats) := m.worker;
    var read := readable && guard.0 in m.os.data;
    var digest := if read then Some(Fingerprint(m.os.data[guard.0])) else None;
    var after := Fault(m, read);
    Reported(after.(worker := Idle), Polled(serial, formats, digest, Seen(after, Some(guard), readable)))
  }

  function ServeFromClipboard(m: Machine, readable: bool): Machine
    requires Enabled(m, ReadForPeer(readable))
  {
    var Serve(node, format, serial) := m.jobs[0];
    var read := readable && format in m.os.data && |m.os.data[format]| <= MAX_CLIPBOARD_BYTES;
    Reported(m.(jobs := m.jobs[1..]),
             Served(node, format, serial, if read then Some(m.os.data[format]) else None))
  }

  /** Decompress, and report the guard before the write starts. */
  function StartWrite(m: Machine, payload: Option<Bytes>): Machine
    requires Enabled(m, Unpack(payload))
  {
    var Accept(node, format, _) := m.jobs[0];
    var taken := m.(jobs := m.jobs[1..]);
    if payload.None? then Reported(taken, NotWritten(false))
    else Reported(taken, Writing(format, Fingerprint(payload.value))).(worker := Ready(node, format, payload.value))
  }

  function AfterWrite(m: Machine, ok: bool, serial: nat, formats: seq<Format>, data: map<Format, Bytes>): Machine
    requires m.worker.Ready?
  {
    var Ready(node, format, payload) := m.worker;
    if ok then
      m.(os := Os(serial, formats, data, Peer(format, payload), m.os.userSerials, true),
         worker := Written(node, format, payload))
    else
      Reported(Fault(m, false).(worker := Idle), NotWritten(true))
  }

  function ReportWritten(m: Machine, known: bool): Machine
    requires m.worker.Written?
  {
    Reported(m.(worker := Idle),
             Wrote(m.worker.node, m.worker.format, if known then Some(m.os.serial) else None))
  }

  // --- The loop's handlers -------------------------------------------------

  /** A full queue drops the job; a closed one says that the worker is gone, which is remembered. */
  function Dispatch(m: Machine, job: Job): (Machine, bool) {
    if m.worker.Gone? then
      (if m.traffic.lost then m else m.(traffic := m.traffic.WorkerLost()), false)
    else if |m.jobs| < JOB_DEPTH then
      (m.(jobs := m.jobs + [job], traffic := m.traffic.Dispatched(job.Kind())), true)
    else (m, false)
  }

  function PollClipboard(m: Machine, alone: bool): Machine {
    if alone || !m.traffic.MayPoll() then m
    else Dispatch(m, Poll(m.sync.Serial(), m.sync.Armed())).0
  }

  function Send(m: Machine, link: Link, msg: Msg): seq<Envelope> {
    if link.room then [Envelope(m.id, link.node, msg)] else []
  }

  function ApplyReport(m: Machine, links: seq<Link>): (Machine, seq<Envelope>)
    requires m.reports != []
  {
    var done := m.reports[0];
    var (sync, traffic, change) := SettledReport(m.sync, m.traffic, done);
    var after := m.(reports := m.reports[1..], sync := sync, traffic := traffic);
    if done.Served? then OnServed(after, LinkTo(links, done.node), done)
    else if change.Some? && change.value.Offer? then
      (Noted(after, done.serial, done.how),
       OfferClipboard(after, links, change.value.serial, change.value.formats))
    else (after, [])
  }

  function Noted(m: Machine, start: nat, how: Sighting): Machine {
    m.(ledger := m.ledger.(offers := m.ledger.offers + [Offered(start, how.at, how.origin)]))
  }

  function LinkTo(links: seq<Link>, node: PeerId): Link {
    if links == [] then Link(node, false, {}, false)
    else if links[0].node == node then links[0]
    else LinkTo(links[1..], node)
  }

  /** Announce to every peer, in only the formats both ends advertise. */
  function OfferClipboard(m: Machine, links: seq<Link>, serial: nat, formats: seq<Format>): seq<Envelope> {
    if links == [] then [] else
      var rest := OfferClipboard(m, links[1..], serial, formats);
      var offered := BothSupport(m.caps, links[0].caps, formats);
      if !links[0].shared || offered == [] then rest
      else Send(m, links[0], ClipboardOffer(offered, serial)) + rest
  }

  function BothSupport(ours: set<Capability>, theirs: set<Capability>, formats: seq<Format>): seq<Format> {
    if formats == [] then []
    else (if SupportedBy(ours, formats[0]) && SupportedBy(theirs, formats[0]) then [formats[0]] else [])
         + BothSupport(ours, theirs, formats[1..])
  }

  function OnServed(m: Machine, link: Link, done: Done): (Machine, seq<Envelope>)
    requires done.Served?
  {
    if m.sync.Serial() != Some(done.serial) || !link.shared || done.packed.None? then
      Answer(m, link, ClipboardStale(done.serial))
    else
      Answer(m, link, ClipboardData(done.format, done.serial, done.packed.value))
  }

  function Answer(m: Machine, link: Link, msg: Msg): (Machine, seq<Envelope>) {
    (m.(ledger := m.ledger.(answers := m.ledger.answers + 1)), Send(m, link, msg))
  }

  function OnMessage(m: Machine, link: Link, msg: Msg): (Machine, seq<Envelope>) {
    match msg
    case ClipboardOffer(formats, serial) => OnOffer(m, link, formats, serial)
    case ClipboardRequest(format, serial) =>
      OnRequest(m.(ledger := m.ledger.(requests := m.ledger.requests + 1)), link, format, serial)
    case ClipboardData(format, serial, data) => (OnData(m, link, format, serial, data), [])
    case ClipboardStale(_) => (m.(sync := m.sync.Settled(link.node)), [])
  }

  function OnOffer(m: Machine, link: Link, formats: seq<Format>, serial: nat): (Machine, seq<Envelope>) {
    var choice := Choose(formats, m.caps, link.caps);
    if !link.shared || choice.None? then (m, []) else
      var (sync, isNew) := m.sync.Asking(link.node, serial, choice.value);
      if !isNew then (m, [])
      else if !link.room then (m.(sync := sync.Settled(link.node)), [])
      else (m.(sync := sync, ledger := m.ledger.(asks := Bumped(m.ledger.asks, link.node))),
            Send(m, link, ClipboardRequest(choice.value, serial)))
  }

  function OnRequest(m: Machine, link: Link, format: Format, serial: nat): (Machine, seq<Envelope>) {
    if !link.shared || !SupportedBy(link.caps, format) || m.sync.Served(serial, format).Stale? then
      Answer(m, link, ClipboardStale(serial))
    else
      var (after, left) := Dispatch(m, Serve(link.node, format, serial));
      if left then (after, []) else Answer(after, link, ClipboardStale(serial))
  }

  function OnData(m: Machine, link: Link, format: Format, serial: nat, data: Bytes): Machine {
    if !m.sync.Answers(link.node, serial, format) then m else
      var settled := m.(sync := m.sync.Settled(link.node));
      if !link.shared || !SupportedBy(m.caps, format) then settled else
        var (after, left) := Dispatch(settled, Accept(link.node, format, data));
        if left then after.(ledger := after.ledger.(accepts := Bumped(after.ledger.accepts, link.node)))
        else after
  }
}
