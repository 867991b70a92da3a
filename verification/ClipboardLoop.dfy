/** The loop's half of clipboard sync as the engine runs it: objects updated in place
    (crates/wx-agent/src/engine.rs). Each method is tied to the machine's step of the same name. */
module ClipboardLoop {
  import opened Wrappers
  import opened Fnv
  import opened Fingerprints
  import opened ClipboardSyncs
  import opened ClipboardMachines

  class ClipboardTraffic {
    var polling: bool
    var writes: nat
    var lost: bool

    function View(): Traffic
      reads this
    {
      Traffic(polling, writes, lost)
    }

    constructor ()
      ensures View() == Traffic(false, 0, false)
    {
      polling, writes, lost := false, 0, false;
    }

    method Dispatched(kind: Kind)
      modifies this
      ensures View() == old(View()).Dispatched(kind)
    {
      match kind {
        case PollKind => polling := true;
        case AcceptKind => writes := writes + 1;
        case ServeKind =>
      }
    }

    method Settled(kind: Kind)
      modifies this
      ensures View() == old(View()).Settled(kind)
    {
      match kind {
        case PollKind => polling := false;
        case AcceptKind =>
          if writes > 0 {
            writes := writes - 1;
          }
        case ServeKind =>
      }
    }

    method WorkerLost()
      modifies this
      ensures View() == Traffic(false, 0, true)
    {
      polling, writes, lost := false, 0, true;
    }
  }

  method SettleClipboardReport(sync: ClipboardSync, traffic: ClipboardTraffic, done: Done)
    returns (change: Option<LocalChange>)
    modifies sync, traffic
    ensures (sync.View(), traffic.View(), change) == SettledReport(old(sync.View()), old(traffic.View()), done)
  {
    change := None;
    match done {
      case NothingNew => traffic.Settled(PollKind);
      case Polled(serial, formats, digest, _) =>
        traffic.Settled(PollKind);
        var verdict := sync.Observe(serial, formats, _ => digest);
        change := Some(verdict);
      case Served(_, _, _, _) => traffic.Settled(ServeKind);
      case Writing(format, mark) => sync.Writing(format, mark);
      case Wrote(_, _, produced) =>
        traffic.Settled(AcceptKind);
        if produced.Some? {
          sync.Wrote(produced.value);
        }
      case NotWritten(armed) =>
        traffic.Settled(AcceptKind);
        if armed {
          sync.WriteFailed();
        }
      case WorkerGone => traffic.WorkerLost();
    }
  }

  /** The engine's clipboard state. `machine` is the same state as one value, kept beside the fields so
      that what each handler does can be stated as a step of it. */
  class ClipboardEngine {
    const id: PeerId
    const caps: set<Capability>
    const sync: ClipboardSync
    const traffic: ClipboardTraffic
    var jobs: seq<Job>
    var closed: bool
    var outbox: seq<Envelope>
    ghost var machine: Machine

    ghost predicate Valid()
      reads this, sync, traffic
    {
      && machine.id == id && machine.caps == caps
      && machine.sync == sync.View() && machine.traffic == traffic.View() && machine.jobs == jobs
      && closed == machine.worker.Gone?
    }

    constructor (ghost start: Machine, id: PeerId, caps: set<Capability>)
      requires start.id == id && start.caps == caps && start.jobs == [] && !start.worker.Gone?
      requires start.sync == Sync(None, None, map[]) && start.traffic == Traffic(false, 0, false)
      ensures Valid() && machine == start && outbox == [] && fresh(sync) && fresh(traffic)
    {
      this.id, this.caps := id, caps;
      sync := new ClipboardSync();
      traffic := new ClipboardTraffic();
      jobs, closed, outbox := [], false, [];
      machine := start;
    }

    method SendClipboardTo(link: Link, msg: Msg) returns (left: bool)
      requires Valid()
      modifies this`outbox
      ensures Valid() && left == link.room
      ensures outbox == old(outbox) + Send(machine, link, msg)
    {
      left := link.room;
      if left {
        outbox := outbox + [Envelope(id, link.node, msg)];
      }
    }

    /** Hand a job to the worker, if its queue is open and takes it; a closed queue is how the loss shows. */
    method DispatchClipboard(job: Job) returns (left: bool)
      requires Valid()
      modifies this`jobs, this`machine, traffic
      ensures Valid() && (machine, left) == Dispatch(old(machine), job)
    {
      left := !closed && |jobs| < JOB_DEPTH;
      if left {
        jobs := jobs + [job];
        traffic.Dispatched(job.Kind());
      } else if closed && !traffic.lost {
        traffic.WorkerLost();
      }
      machine := Dispatch(machine, job).0;
    }

    method PollClipboard(alone: bool)
      requires Valid()
      modifies this`jobs, this`machine, traffic
      ensures Valid() && machine == ClipboardMachines.PollClipboard(old(machine), alone)
    {
      if alone {
        return;
      }
      if traffic.lost || traffic.polling || traffic.writes != 0 {
        return;
      }
      var v := sync.View();
      var _ := DispatchClipboard(Poll(v.Serial(), v.Armed()));
    }

    method OfferClipboard(links: seq<Link>, serial: nat, formats: seq<Format>)
      requires Valid()
      modifies this`outbox
      ensures Valid()
      ensures outbox == old(outbox) + ClipboardMachines.OfferClipboard(machine, links, serial, formats)
    {
      ghost var sent: seq<Envelope> := [];
      ghost var start := outbox;
      for i := 0 to |links|
        invariant Valid() && outbox == start + sent
        invariant sent + ClipboardMachines.OfferClipboard(machine, links[i..], serial, formats)
               == ClipboardMachines.OfferClipboard(machine, links, serial, formats)
      {
        assert links[i..][1..] == links[i + 1..];
        if !links[i].shared {
          continue;
        }
        var offered := BothSupport(caps, links[i].caps, formats);
        if offered == [] {
          continue;
        }
        var _ := SendClipboardTo(links[i], ClipboardOffer(offered, serial));
        sent := sent + Send(machine, links[i], ClipboardOffer(offered, serial));
      }
    }

    method OnClipboardOffer(link: Link, formats: seq<Format>, serial: nat)
      requires Valid()
      modifies this`outbox, this`machine, sync
      ensures Valid()
      ensures var (after, out) := OnOffer(old(machine), link, formats, serial);
              machine == after && outbox == old(outbox) + out
    {
      assert outbox == outbox + [];
      var choice := Choose(formats, caps, link.caps);
      if !link.shared || choice.None? {
        return;
      }
      machine := OnOffer(machine, link, formats, serial).0;
      var isNew := sync.Ask(link.node, serial, choice.value);
      if !isNew {
        return;
      }
      if !link.room {
        sync.Settle(link.node);
        return;
      }
      outbox := outbox + [Envelope(id, link.node, ClipboardRequest(choice.value, serial))];
    }

    method OnClipboardRequest(link: Link, format: Format, serial: nat)
      requires Valid()
      modifies this`outbox, this`jobs, this`machine, traffic
      ensures Valid()
      ensures var (after, out) := OnMessage(old(machine), link, ClipboardRequest(format, serial));
              machine == after && outbox == old(outbox) + out
    {
      assert outbox == outbox + [];
      ghost var (after, out) := OnMessage(machine, link, ClipboardRequest(format, serial));
      machine := machine.(ledger := machine.ledger.(requests := machine.ledger.requests + 1));
      var refused := !link.shared || !SupportedBy(link.caps, format) || sync.View().Served(serial, format).Stale?;
      if !refused {
        var left := DispatchClipboard(Serve(link.node, format, serial));
        refused := !left;
      }
      if refused {
        var _ := SendClipboardTo(link, ClipboardStale(serial));
      }
      machine := after;
    }

    method OnClipboardServed(link: Link, done: Done)
      requires Valid() && done.Served?
      modifies this`outbox, this`machine
      ensures Valid()
      ensures var (after, out) := OnServed(old(machine), link, done);
              machine == after && outbox == old(outbox) + out
    {
      assert outbox == outbox + [];
      ghost var (after, out) := OnServed(machine, link, done);
      if sync.View().Serial() != Some(done.serial) || !link.shared || done.packed.None? {
        var _ := SendClipboardTo(link, ClipboardStale(done.serial));
      } else {
        var _ := SendClipboardTo(link, ClipboardData(done.format, done.serial, done.packed.value));
      }
      machine := after;
    }

    method OnClipboardData(link: Link, format: Format, serial: nat, data: Bytes)
      requires Valid()
      modifies this`jobs, this`machine, sync, traffic
      ensures Valid() && machine == OnData(old(machine), link, format, serial, data)
    {
      ghost var after := OnData(machine, link, format, serial, data);
      if !sync.View().Answers(link.node, serial, format) {
        return;
      }
      sync.Settle(link.node);
      machine := machine.(sync := machine.sync.Settled(link.node));
      if link.shared && SupportedBy(caps, format) {
        var _ := DispatchClipboard(Accept(link.node, format, data));
      }
      assert machine.(ledger := after.ledger) == after;
      machine := after;
    }

    /** Apply a worker report, and act on it. */
    method OnClipboardDone(links: seq<Link>, done: Done)
      requires Valid() && machine.reports != [] && machine.reports[0] == done
      modifies this`outbox, this`machine, sync, traffic
      ensures Valid()
      ensures var (after, out) := ApplyReport(old(machine), links);
              machine == after && outbox == old(outbox) + out
    {
      assert outbox == outbox + [];
      ghost var (after, out) := ApplyReport(machine, links);
      var change := SettleClipboardReport(sync, traffic, done);
      machine := machine.(reports := machine.reports[1..], sync := sync.View(), traffic := traffic.View());
      if done.Served? {
        OnClipboardServed(LinkTo(links, done.node), done);
      } else if change.Some? && change.value.Offer? {
        OfferClipboard(links, change.value.serial, change.value.formats);
      }
      machine := after;
    }
  }
}
