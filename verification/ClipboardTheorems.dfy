/** What the clipboard machine promises, over every interleaving. */
module ClipboardTheorems {
  import opened Wrappers
  import opened Sums
  import opened Occurrences
  import opened Fnv
  import opened Fingerprints
  import opened ClipboardSyncs
  import opened ClipboardMachines
  import opened ClipboardInvariants
  import opened ClipboardSteps

  /** A run: any enabled events, in any order. */
  ghost predicate Run(ms: seq<Machine>, es: seq<Event>) {
    && |ms| == |es| + 1
    && forall i :: 0 <= i < |es| ==> Enabled(ms[i], es[i]) && ms[i + 1] == Next(ms[i], es[i]).0
  }

  lemma {:induction false} InvOnRuns(ms: seq<Machine>, es: seq<Event>, k: nat)
    requires Run(ms, es) && Inv(ms[0]) && k < |ms|
    ensures Inv(ms[k])
  {
    if k > 0 {
      InvOnRuns(ms, es, k - 1);
      InvKept(ms[k - 1], es[k - 1]);
    }
  }

  /** The guard snapshot a poll was dispatched with is the guard the loop holds when its report is applied. */
  lemma SnapshotIsCurrent(ms: seq<Machine>, es: seq<Event>, k: nat)
    requires Run(ms, es) && Inv(ms[0]) && k < |es| && es[k].Apply? && ms[k].reports[0].Polled?
    ensures ms[k].reports[0].how.armed == ms[k].sync.Armed()
  {
    InvOnRuns(ms, es, k);
    assert ms[k].reports[0] in ms[k].reports;
  }

  function Verdict(m: Machine): LocalChange
    requires m.reports != [] && m.reports[0].Polled?
  {
    m.sync.Observed(m.reports[0].serial, m.reports[0].formats, m.reports[0].digest).1
  }

  /** However often the serial moves, a poll that found a peer's payload on the clipboard is an echo, or
      the first look; nothing is announced to anyone. */
  lemma OwnWriteIsEcho(ms: seq<Machine>, es: seq<Event>, k: nat)
    requires Run(ms, es) && Inv(ms[0]) && k < |es| && es[k].Apply? && SawProtected(ms[k].reports[0])
    ensures Verdict(ms[k]) == if ms[k].sync.seen.None? then FirstSighting else Echo
    ensures Next(ms[k], es[k]).1 == []
  {
    hide Flow, Guard, Accounts, OffersSound, SightingSound;
    InvOnRuns(ms, es, k);
    assert ms[k].reports[0] in ms[k].reports;
    EchoVerdict(ms[k], ms[k].reports[0]);
  }

  lemma EchoVerdict(m: Machine, d: Done)
    requires d.Polled? && SightingSound(m, d) && SawProtected(d)
    ensures m.sync.Observed(d.serial, d.formats, d.digest).1 == if m.sync.seen.None? then FirstSighting else Echo
  {
  }

  /** A copy that was sampled without a failure or a race is announced exactly when it has something to
      announce and does not carry, in the format last written for a peer, bytes with that payload's
      fingerprint. */
  lemma UserCopyIsOffered(ms: seq<Machine>, es: seq<Event>, k: nat)
    requires Run(ms, es) && Inv(ms[0]) && k < |es| && es[k].Apply? && CleanSample(ms[k].reports[0])
    requires ms[k].reports[0].how.origin.User? && ms[k].sync.seen.Some?
    ensures var m, how := ms[k], ms[k].reports[0].how;
            Verdict(m).Offer? <==>
              && (exists f <- SYNCED :: f in how.formats)
              && !(exists f <- SYNCED :: f in how.formats && SameBytes(m.sync.writeBack, f, how.data))
  {
    InvOnRuns(ms, es, k);
    var m := ms[k];
    var d := m.reports[0];
    assert d in m.reports && SightingSound(m, d) && d.how.armed == m.sync.Armed();
    OfferedExactlyWhenNew(m.sync, d.serial, d.formats, d.digest);
    if m.sync.writeBack.Some? {
      var write := m.sync.writeBack.value;
      assert write.serial != d.serial;
      assert IsWriteBack(write, d.serial, Syncable(d.formats), d.digest) <==>
               write.format in SYNCED && write.format in d.how.formats && SameBytes(m.sync.writeBack, write.format, d.how.data);
    }
  }

  predicate SameBytes(write: Option<WriteBack>, f: Format, data: map<Format, Bytes>) {
    write.Some? && write.value.format == f && f in data && Fingerprint(data[f]) == write.value.digest
  }

  /** While a poll is being sampled the guard the loop holds already names the peer's payload. */
  lemma GuardWhileSampling(m: Machine)
    requires Flow(m) && Guard(m) && m.worker.Listed? && Protected(m.os)
    ensures m.sync.writeBack.Some?
    ensures m.sync.writeBack.value == WriteBack(m.worker.guard.1, m.os.origin.format, Fingerprint(m.os.origin.payload))
    ensures m.worker.guard.0 == m.os.origin.format
  {
    StandingUnchanged(MarkOf(m.sync.writeBack), m.reports);
  }

  // --- Accounts ------------------------------------------------------------

  lemma AccountsOnRuns(ms: seq<Machine>, es: seq<Event>, k: nat, node: PeerId)
    requires Run(ms, es) && Inv(ms[0]) && k < |ms|
    ensures ms[k].ledger.requests == ms[k].ledger.answers + ServesOut(ms[k])
    ensures Tally(ms[k].ledger.accepts, node) <= Tally(ms[k].ledger.asks, node)
    ensures ms[k].traffic.writes == WritesOut(ms[k])
    ensures ms[k].traffic.polling <==> PollsOut(ms[k]) == 1
    ensures !ms[k].traffic.polling <==> PollsOut(ms[k]) == 0
  {
    InvOnRuns(ms, es, k);
  }

  /** Content goes out only under the serial and a format of what the loop last saw. */
  lemma DataNamesTheSnapshot(ms: seq<Machine>, es: seq<Event>, k: nat, envelope: Envelope)
    requires Run(ms, es) && Inv(ms[0]) && k < |es|
    requires envelope in Next(ms[k], es[k]).1 && envelope.msg.ClipboardData?
    ensures ms[k].sync.Served(envelope.msg.serial, envelope.msg.format) == Read(envelope.msg.format)
  {
    InvOnRuns(ms, es, k);
    OnlyServedSendsData(ms[k], es[k], envelope);
    assert ms[k].reports[0] in ms[k].reports;
  }

  lemma OnlyServedSendsData(m: Machine, e: Event, envelope: Envelope)
    requires Enabled(m, e) && envelope in Next(m, e).1 && envelope.msg.ClipboardData?
    ensures e.Apply? && m.reports[0].Served? && m.sync.Serial() == Some(m.reports[0].serial)
    ensures envelope.msg.serial == m.reports[0].serial && envelope.msg.format == m.reports[0].format
  {
    match e {
      case Apply(links) =>
        if m.reports[0].Polled? {
          var (sync, traffic, _) := SettledReport(m.sync, m.traffic, m.reports[0]);
          OffersOnly(m.(reports := m.reports[1..], sync := sync, traffic := traffic), links,
                     m.reports[0].serial, Syncable(m.reports[0].formats));
        }
      case Receive(link, msg) => MessagesSendNoData(m, link, msg);
      case _ =>
    }
  }

  lemma MessagesSendNoData(m: Machine, link: Link, msg: Msg)
    ensures forall e <- OnMessage(m, link, msg).1 :: e.msg.ClipboardRequest? || e.msg.ClipboardStale?
  {
  }

  lemma {:induction false} OffersOnly(m: Machine, links: seq<Link>, serial: nat, formats: seq<Format>)
    ensures forall e <- OfferClipboard(m, links, serial, formats) :: e.msg.ClipboardOffer? && e.from == m.id
    ensures |OfferClipboard(m, links, serial, formats)| <= |links|
  {
    if links != [] {
      OffersOnly(m, links[1..], serial, formats);
    }
  }

  /** The re-check after a read cannot see a change no poll has sampled yet: a copy that lands before the
      worker reads goes out under the older serial it was asked for. */
  lemma UnsampledCopyIsServed(m: Machine, link: Link, copy: Event)
    requires m.worker.Idle? && m.reports == [] && |m.jobs| == 1 && m.jobs[0].Serve? && link.node == m.jobs[0].node
    requires m.sync.Serial() == Some(m.jobs[0].serial) && link.shared && link.room
    requires copy.Copied? && Enabled(m, copy) && m.jobs[0].format in copy.data
    requires |copy.data[m.jobs[0].format]| <= MAX_CLIPBOARD_BYTES
    ensures var read := Next(Next(m, copy).0, ReadForPeer(true)).0;
            Next(read, Apply([link])).1
            == [Envelope(m.id, link.node, ClipboardData(m.jobs[0].format, m.jobs[0].serial, copy.data[m.jobs[0].format]))]
  {
  }

  // --- Charging offers to what a person copied ----------------------------

  /** The serials offers are charged to. */
  ghost function Serials(offers: seq<Offered>): set<nat> {
    set o | o in offers :: o.at
  }

  /** An offered sampling began before the serial and ended on it, and another began and ended on it. */
  ghost predicate Straddled(offers: seq<Offered>, serial: nat) {
    && (exists o <- offers :: o.start < serial && o.at == serial)
    && (exists o <- offers :: o.start == serial && o.at == serial)
  }

  ghost function Doubled(offers: seq<Offered>): set<nat> {
    set serial | serial in Serials(offers) && Straddled(offers, serial)
  }

  ghost predicate ChargedTwice(offers: seq<Offered>, serial: nat) {
    exists i, j :: 0 <= i < j < |offers| && offers[i].at == serial && offers[j].at == serial
  }

  lemma TwiceStraddles(offers: seq<Offered>, userSerials: set<nat>, serial: nat)
    requires Charged(offers, userSerials) && ChargedTwice(offers, serial)
    ensures Straddled(offers, serial)
  {
    var i, j :| 0 <= i < j < |offers| && offers[i].at == serial && offers[j].at == serial;
    assert offers[i] in offers && offers[j] in offers;
    assert offers[i].start < offers[j].start && offers[i].at <= offers[j].start <= offers[j].at;
    hide Charged;
  }

  lemma StraddledTwice(offers: seq<Offered>, serial: nat)
    requires Straddled(offers, serial)
    ensures ChargedTwice(offers, serial)
  {
    var before :| before in offers && before.start < serial && before.at == serial;
    var on :| on in offers && on.start == serial && on.at == serial;
    var i :| 0 <= i < |offers| && offers[i] == before;
    var j :| 0 <= j < |offers| && offers[j] == on;
    assert i < j || j < i;
  }

  /** A serial is charged with two offers exactly when it is straddled. */
  lemma ChargedTwiceExactly(m: Machine, serial: nat)
    requires Inv(m)
    ensures ChargedTwice(m.ledger.offers, serial) <==> Straddled(m.ledger.offers, serial)
  {
    hide Flow, Guard, Sighted, Accounts, Charged, ChargedTwice, Straddled;
    if ChargedTwice(m.ledger.offers, serial) {
      TwiceStraddles(m.ledger.offers, m.os.userSerials, serial);
    }
    if Straddled(m.ledger.offers, serial) {
      StraddledTwice(m.ledger.offers, serial);
    }
  }

  /** No offers without copies: while nothing has failed, every offer is charged to a serial at which the
      clipboard held a person's content, and there are exactly as many as serials charged, the straddled ones
      counted twice. */
  lemma OffersAreCharged(m: Machine)
    requires Inv(m) && m.ledger.faults == 0
    ensures Serials(m.ledger.offers) <= m.os.userSerials
    ensures |m.ledger.offers| == |Serials(m.ledger.offers)| + |Doubled(m.ledger.offers)| <= 2 * |m.os.userSerials|
    ensures (forall o <- m.ledger.offers :: o.start == o.at) ==> |m.ledger.offers| <= |m.os.userSerials|
  {
    hide Flow, Guard, Sighted, Accounts;
    var offers := m.ledger.offers;
    assert Charged(offers, m.os.userSerials);
    CountedOnceOrTwice(offers, m.os.userSerials);
    assert Serials(offers) <= m.os.userSerials;
    SubsetSize(Serials(offers), m.os.userSerials);
    SubsetSize(Doubled(offers), m.os.userSerials);
    if forall o <- offers :: o.start == o.at {
      assert Doubled(offers) == {};
    }
  }

  lemma {:induction false} CountedOnceOrTwice(offers: seq<Offered>, userSerials: set<nat>)
    requires Charged(offers, userSerials)
    ensures |offers| == |Serials(offers)| + |Doubled(offers)|
  {
    hide Straddled, Doubled, Serials, Charged, AllEarlier;
    if offers == [] {
      NoneCharged();
    } else {
      var init, last := offers[..|offers| - 1], offers[|offers| - 1];
      AllBefore(offers, userSerials);
      CountedOnceOrTwice(init, userSerials);
      LastCharged(init, last);
      assert offers == init + [last];
      OneMore(Serials(init), Doubled(init), last.at);
    }
  }

  lemma NoneCharged()
    ensures Serials([]) == {} && Doubled([]) == {}
  {
  }

  lemma OneMore(once: set<nat>, twice: set<nat>, serial: nat)
    requires serial in once ==> serial !in twice
    ensures |once + {serial}| + |twice + if serial in once then {serial} else {}| == |once| + |twice| + 1
  {
    if serial in once {
      assert once + {serial} == once;
    }
  }

  ghost predicate AllEarlier(init: seq<Offered>, last: Offered) {
    last.start <= last.at && forall o <- init :: o.start < last.start && o.at <= last.start && o.start <= o.at
  }

  lemma AllBefore(offers: seq<Offered>, userSerials: set<nat>)
    requires Charged(offers, userSerials) && offers != []
    ensures var init, last := offers[..|offers| - 1], offers[|offers| - 1];
            Charged(init, userSerials) && AllEarlier(init, last)
  {
    var n := |offers| - 1;
    forall o <- offers[..n]
      ensures o.start < offers[n].start && o.at <= offers[n].start && o.start <= o.at
    {
      var i :| 0 <= i < n && offers[..n][i] == o;
      assert offers[i] == o;
    }
  }

  /** One more offer: its serial is a new one, or one charged once before and now straddled. */
  lemma LastCharged(init: seq<Offered>, last: Offered)
    requires AllEarlier(init, last)
    ensures last.at in Serials(init) ==> last.at !in Doubled(init)
    ensures Doubled(init + [last]) == Doubled(init) + if last.at in Serials(init) then {last.at} else {}
    ensures Serials(init + [last]) == Serials(init) + {last.at}
  {
    var offers := init + [last];
    assert forall o :: o in offers <==> o in init || o == last;
    assert last in offers;
    assert forall serial :: serial != last.at ==> (Straddled(offers, serial) <==> Straddled(init, serial));
    if last.at in Serials(init) {
      var o :| o in init && o.at == last.at;
      assert o in offers && o.start < last.at && last.start == last.at;
    }
  }
}
