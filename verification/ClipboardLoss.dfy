/** What is left of clipboard sync once the worker has stopped (crates/wx-agent/src/engine.rs:3855-3881,
    4565-4630). */
module ClipboardLoss {
  import opened Wrappers
  import opened Sums
  import opened Fnv
  import opened ClipboardSyncs
  import opened ClipboardMachines
  import opened ClipboardInvariants
  import opened ClipboardSteps
  import opened ClipboardTheorems

  /** The worker stops, whatever it was doing: its queue closes with what is in it, and its last report says so. */
  function Bereaved(m: Machine): Machine {
    m.(worker := Gone, jobs := [], reports := m.reports + [WorkerGone])
  }

  const LOST := Traffic(false, 0, true)

  /** The loss is on record, for good, or still on its way to the loop; `owed` requests went down with the queue. */
  ghost predicate Mourning(m: Machine, owed: nat) {
    && m.worker.Gone? && m.jobs == []
    && (if m.traffic.lost then m.traffic == LOST
        else m.reports != [] && m.reports[|m.reports| - 1].WorkerGone?)
    && m.ledger.requests == m.ledger.answers + Sum(ServeReports, m.reports) + owed
  }

  lemma MourningBegins(m: Machine)
    requires Inv(m)
    ensures Mourning(Bereaved(m), Sum(ServeJobs, m.jobs))
  {
    AppendedReport(m.reports, WorkerGone);
  }

  lemma MourningByApply(m: Machine, links: seq<Link>, owed: nat)
    requires Mourning(m, owed) && m.reports != []
    ensures Mourning(ApplyReport(m, links).0, owed) && (m.traffic.lost ==> ApplyReport(m, links).0.traffic.lost)
  {
    hide OfferClipboard, Send, Sync.Observed, LinkTo;
    assert m.reports == [m.reports[0]] + m.reports[1..];
  }

  lemma MourningByRequest(m: Machine, link: Link, format: Format, serial: nat, owed: nat)
    requires Mourning(m, owed)
    ensures var n := OnMessage(m, link, ClipboardRequest(format, serial)).0;
            Mourning(n, owed) && (m.traffic.lost ==> n.traffic.lost)
  {
    hide Sum, Send;
  }

  lemma MourningByData(m: Machine, link: Link, format: Format, serial: nat, data: Bytes, owed: nat)
    requires Mourning(m, owed)
    ensures var n := OnData(m, link, format, serial, data); Mourning(n, owed) && (m.traffic.lost ==> n.traffic.lost)
  {
    hide Sum, Bumped;
  }

  lemma MourningByOffer(m: Machine, link: Link, formats: seq<Format>, serial: nat, owed: nat)
    requires Mourning(m, owed)
    ensures var n := OnOffer(m, link, formats, serial).0; Mourning(n, owed) && n.traffic == m.traffic
  {
    hide Sum, OnOffer;
    NothingElseByOffer(m, link, formats, serial);
  }

  /** No step brings the worker back, takes the loss off the record, or answers what went down with the queue. */
  lemma MourningKept(m: Machine, e: Event, owed: nat)
    requires Mourning(m, owed) && Enabled(m, e)
    ensures Mourning(Next(m, e).0, owed)
    ensures m.traffic.lost ==> Next(m, e).0.traffic.lost
  {
    hide ApplyReport, OnOffer, OnRequest, OnData, Sum;
    match e {
      case Apply(links) => MourningByApply(m, links, owed);
      case Receive(link, msg) =>
        match msg {
          case ClipboardOffer(formats, serial) => MourningByOffer(m, link, formats, serial, owed);
          case ClipboardRequest(format, serial) => MourningByRequest(m, link, format, serial, owed);
          case ClipboardData(format, serial, data) => MourningByData(m, link, format, serial, data, owed);
          case ClipboardStale(_) =>
        }
      case _ =>
    }
  }

  lemma {:induction false} MourningOnRuns(ms: seq<Machine>, es: seq<Event>, k: nat, owed: nat)
    requires Run(ms, es) && Mourning(ms[0], owed) && k < |ms|
    ensures Mourning(ms[k], owed)
  {
    hide Mourning;
    if k > 0 {
      MourningOnRuns(ms, es, k - 1, owed);
      MourningKept(ms[k - 1], es[k - 1], owed);
    }
  }

  /** From wherever the worker stopped, along every run: nothing is handed to it again, the loss is on record at the
      latest when every report has been applied, and the requests that were in its queue are never answered. */
  lemma LostForGood(m: Machine, ms: seq<Machine>, es: seq<Event>, k: nat)
    requires Inv(m) && Run(ms, es) && ms[0] == Bereaved(m) && k < |ms|
    ensures ms[k].jobs == [] && ms[k].worker.Gone?
    ensures ms[k].reports == [] ==> ms[k].traffic == LOST
    ensures ms[k].ledger.requests - ms[k].ledger.answers >= Sum(ServeJobs, m.jobs)
    ensures ms[k].reports == [] ==> ms[k].ledger.requests - ms[k].ledger.answers == Sum(ServeJobs, m.jobs)
  {
    MourningBegins(m);
    MourningOnRuns(ms, es, k, Sum(ServeJobs, m.jobs));
  }

  /** A request that comes after that is refused on the spot, and the loss goes on record if it was not. */
  lemma RefusedWhenLost(m: Machine, link: Link, format: Format, serial: nat)
    requires m.worker.Gone?
    ensures var (n, out) := OnMessage(m, link, ClipboardRequest(format, serial));
            && out == Send(m, link, ClipboardStale(serial)) && n.ledger.answers == m.ledger.answers + 1
            && (link.shared && SupportedBy(link.caps, format) && !m.sync.Served(serial, format).Stale? ==> n.traffic.lost)
  {
  }
}
