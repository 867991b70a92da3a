/** Whom the clipboard reaches: to whom content is announced, sent and refused, and from whom it is taken
    (crates/wx-agent/src/engine.rs:3890-4111). */
module ClipboardReach {
  import opened Wrappers
  import opened Fnv
  import opened Fingerprints
  import opened ClipboardSyncs
  import opened ClipboardMachines
  import opened ClipboardInvariants
  import opened ClipboardTheorems

  // --- Formats -------------------------------------------------------------

  /** Text and HTML need the text capability, pictures theirs, and file lists are never shared. */
  lemma SupportedExactly(caps: set<Capability>, format: Format)
    ensures SupportedBy(caps, format) <==>
              || (format in {Utf8Text, Html} && ClipboardText in caps)
              || (format == Png && ClipboardImage in caps)
  {
  }

  /** Some of the elements of `b`, in the order they have there. */
  ghost predicate Subsequence<T>(a: seq<T>, b: seq<T>) {
    a == [] || (b != [] && ((a[0] == b[0] && Subsequence(a[1..], b[1..])) || Subsequence(a, b[1..])))
  }

  predicate Shared(ours: set<Capability>, theirs: set<Capability>, format: Format) {
    SupportedBy(ours, format) && SupportedBy(theirs, format)
  }

  /** What both ends advertise: every listed format they both support, each as often as listed, and no other. */
  lemma {:induction false} BothSupportExactly(ours: set<Capability>, theirs: set<Capability>, formats: seq<Format>)
    ensures var both := BothSupport(ours, theirs, formats);
            && Subsequence(both, formats)
            && forall f :: multiset(both)[f] == if Shared(ours, theirs, f) then multiset(formats)[f] else 0
  {
    hide SupportedBy;
    if formats != [] {
      BothSupportExactly(ours, theirs, formats[1..]);
      assert formats == [formats[0]] + formats[1..];
      var rest := BothSupport(ours, theirs, formats[1..]);
      if Shared(ours, theirs, formats[0]) {
        assert BothSupport(ours, theirs, formats)[1..] == rest;
      } else {
        assert BothSupport(ours, theirs, formats) == rest;
      }
    }
  }

  lemma SomethingShared(ours: set<Capability>, theirs: set<Capability>, formats: seq<Format>)
    ensures BothSupport(ours, theirs, formats) != [] <==> exists f <- formats :: Shared(ours, theirs, f)
  {
    var both := BothSupport(ours, theirs, formats);
    BothSupportExactly(ours, theirs, formats);
    hide BothSupport, Shared, Subsequence;
    if both != [] {
      assert both[0] in multiset(both) && multiset(formats)[both[0]] > 0;
      assert both[0] in formats;
    }
    if f :| f in formats && Shared(ours, theirs, f) {
      assert f in multiset(formats) && multiset(both)[f] > 0;
    }
  }

  // --- Announcing ----------------------------------------------------------

  ghost predicate DistinctNodes(links: seq<Link>) {
    forall i, j :: 0 <= i < j < |links| ==> links[i].node != links[j].node
  }

  /** A session this machine can announce these formats on: sharing is on, its queue has room, and some listed
      format is one both ends advertise. */
  ghost predicate Reachable(m: Machine, link: Link, formats: seq<Format>) {
    link.shared && link.room && exists f <- formats :: Shared(m.caps, link.caps, f)
  }

  /** The announcement for that session: exactly the listed formats both ends advertise, in the order listed. */
  ghost predicate Announces(m: Machine, link: Link, serial: nat, formats: seq<Format>, e: Envelope) {
    && e.from == m.id && e.to == link.node && e.msg.ClipboardOffer? && e.msg.serial == serial
    && Subsequence(e.msg.formats, formats)
    && forall f :: multiset(e.msg.formats)[f] == if Shared(m.caps, link.caps, f) then multiset(formats)[f] else 0
  }

  ghost predicate IsFor(m: Machine, links: seq<Link>, serial: nat, formats: seq<Format>, e: Envelope) {
    exists l <- links :: Reachable(m, l, formats) && Announces(m, l, serial, formats, e)
  }

  lemma OneOffer(m: Machine, links: seq<Link>, serial: nat, formats: seq<Format>)
    requires links != []
    ensures var out, rest := OfferClipboard(m, links, serial, formats), OfferClipboard(m, links[1..], serial, formats);
            if Reachable(m, links[0], formats)
            then out != [] && Announces(m, links[0], serial, formats, out[0]) && out[1..] == rest
            else out == rest
  {
    SomethingShared(m.caps, links[0].caps, formats);
    BothSupportExactly(m.caps, links[0].caps, formats);
    hide BothSupport, Shared, Subsequence;
  }

  /** Every announcement is for a session it can be made on, and every such session gets one. */
  lemma {:induction false} OffersExactly(m: Machine, links: seq<Link>, serial: nat, formats: seq<Format>)
    ensures var out := OfferClipboard(m, links, serial, formats);
            && (forall e <- out :: IsFor(m, links, serial, formats, e))
            && (forall l <- links :: Reachable(m, l, formats) ==> exists e <- out :: Announces(m, l, serial, formats, e))
  {
    hide OfferClipboard, Reachable, Announces;
    if links != [] {
      OneOffer(m, links, serial, formats);
      OffersExactly(m, links[1..], serial, formats);
      var out, rest := OfferClipboard(m, links, serial, formats), OfferClipboard(m, links[1..], serial, formats);
      assert forall l :: l in links <==> l == links[0] || l in links[1..];
      if Reachable(m, links[0], formats) {
        assert forall e :: e in out <==> e == out[0] || e in rest;
      }
    } else {
      NoLinksNoOffers(m, serial, formats);
    }
  }

  lemma NoLinksNoOffers(m: Machine, serial: nat, formats: seq<Format>)
    ensures OfferClipboard(m, [], serial, formats) == []
  {
  }

  ghost predicate Reached(m: Machine, links: seq<Link>, formats: seq<Format>, node: PeerId) {
    exists l <- links :: l.node == node && Reachable(m, l, formats)
  }

  ghost predicate SentTo(out: seq<Envelope>, node: PeerId) {
    exists e <- out :: e.to == node
  }

  /** With one session to each machine, a machine is sent an announcement if and only if its session has sharing
      on, room, and a listed format both ends advertise; and never a second one. */
  lemma OfferReaches(m: Machine, links: seq<Link>, serial: nat, formats: seq<Format>, node: PeerId)
    requires DistinctNodes(links)
    ensures var out := OfferClipboard(m, links, serial, formats);
            && (SentTo(out, node) <==> Reached(m, links, formats, node))
            && forall i, j :: 0 <= i < j < |out| ==> out[i].to != out[j].to
  {
    hide Reached, SentTo, OfferClipboard, DistinctNodes;
    if Reached(m, links, formats, node) {
      ReachedIsSentTo(m, links, serial, formats, node);
    }
    if SentTo(OfferClipboard(m, links, serial, formats), node) {
      SentToIsReached(m, links, serial, formats, node);
    }
    OneEach(m, links, serial, formats);
  }

  lemma ReachedIsSentTo(m: Machine, links: seq<Link>, serial: nat, formats: seq<Format>, node: PeerId)
    requires Reached(m, links, formats, node)
    ensures SentTo(OfferClipboard(m, links, serial, formats), node)
  {
    hide Reachable, OfferClipboard, Announces, IsFor;
    OffersExactly(m, links, serial, formats);
    var l :| l in links && l.node == node && Reachable(m, l, formats);
    var e :| e in OfferClipboard(m, links, serial, formats) && Announces(m, l, serial, formats, e);
    GoesToItsNode(m, l, serial, formats, e);
  }

  lemma SentToIsReached(m: Machine, links: seq<Link>, serial: nat, formats: seq<Format>, node: PeerId)
    requires SentTo(OfferClipboard(m, links, serial, formats), node)
    ensures Reached(m, links, formats, node)
  {
    hide Reachable, OfferClipboard, Announces;
    OffersExactly(m, links, serial, formats);
    var e :| e in OfferClipboard(m, links, serial, formats) && e.to == node;
    assert IsFor(m, links, serial, formats, e);
    var l :| l in links && Reachable(m, l, formats) && Announces(m, l, serial, formats, e);
    GoesToItsNode(m, l, serial, formats, e);
  }

  lemma {:induction false} OneEach(m: Machine, links: seq<Link>, serial: nat, formats: seq<Format>)
    requires DistinctNodes(links)
    ensures var out := OfferClipboard(m, links, serial, formats);
            forall i, j :: 0 <= i < j < |out| ==> out[i].to != out[j].to
  {
    hide Reachable, OfferClipboard, Announces, DistinctNodes;
    if links == [] {
      NoLinksNoOffers(m, serial, formats);
    } else {
      OneOffer(m, links, serial, formats);
      RestDistinct(links);
      OneEach(m, links[1..], serial, formats);
      var out, rest := OfferClipboard(m, links, serial, formats), OfferClipboard(m, links[1..], serial, formats);
      if Reachable(m, links[0], formats) {
        GoesToItsNode(m, links[0], serial, formats, out[0]);
        RestGoesElsewhere(m, links, serial, formats);
        assert forall i :: 0 < i < |out| ==> out[i] == rest[i - 1] && rest[i - 1] in rest;
      }
    }
  }

  lemma RestDistinct(links: seq<Link>)
    requires DistinctNodes(links) && links != []
    ensures DistinctNodes(links[1..]) && forall l <- links[1..] :: l.node != links[0].node
  {
    forall l <- links[1..]
      ensures l.node != links[0].node
    {
      var k :| 0 <= k < |links[1..]| && links[1..][k] == l;
      assert links[k + 1] == l;
    }
  }

  lemma GoesToItsNode(m: Machine, l: Link, serial: nat, formats: seq<Format>, e: Envelope)
    requires Announces(m, l, serial, formats, e)
    ensures e.to == l.node
  {
  }

  lemma RestGoesElsewhere(m: Machine, links: seq<Link>, serial: nat, formats: seq<Format>)
    requires DistinctNodes(links) && links != []
    ensures forall e <- OfferClipboard(m, links[1..], serial, formats) :: e.to != links[0].node
  {
    hide OfferClipboard, Announces, Reachable;
    RestDistinct(links);
    OffersExactly(m, links[1..], serial, formats);
    forall e <- OfferClipboard(m, links[1..], serial, formats)
      ensures e.to != links[0].node
    {
      assert IsFor(m, links[1..], serial, formats, e);
      var l :| l in links[1..] && Reachable(m, l, formats) && Announces(m, l, serial, formats, e);
      GoesToItsNode(m, l, serial, formats, e);
    }
  }

  // --- What a person copied ------------------------------------------------

  /** The machine as it announces: the report taken off and recorded. */
  function Recorded(m: Machine): Machine
    requires m.reports != []
  {
    var (sync, traffic, _) := SettledReport(m.sync, m.traffic, m.reports[0]);
    m.(reports := m.reports[1..], sync := sync, traffic := traffic)
  }

  lemma PollAnnounces(m: Machine, links: seq<Link>)
    requires m.reports != [] && m.reports[0].Polled?
    ensures var d := m.reports[0];
            ApplyReport(m, links).1
            == if Verdict(m).Offer? then OfferClipboard(Recorded(m), links, d.serial, Syncable(d.formats)) else []
  {
    hide OfferClipboard, Syncable;
  }

  /** A session to tell of that content: sharing is on, there is room, and it is in a synchronised format both ends
      advertise. */
  ghost predicate Wanted(m: Machine, how: Sighting, link: Link) {
    link.shared && link.room && exists f <- SYNCED :: f in how.formats && Shared(m.caps, link.caps, f)
  }

  /** An announcement of it to that session, under its serial, in exactly those formats. */
  ghost predicate TellsOf(m: Machine, serial: nat, how: Sighting, link: Link, e: Envelope) {
    && e.from == m.id && e.to == link.node && e.msg.ClipboardOffer? && e.msg.serial == serial
    && ExactlyThose(m, how, link, e.msg.formats)
  }

  ghost predicate ExactlyThose(m: Machine, how: Sighting, link: Link, formats: seq<Format>) {
    forall f :: f in formats <==> f in SYNCED && f in how.formats && Shared(m.caps, link.caps, f)
  }

  lemma AnnouncingTells(m: Machine, d: Done, link: Link, e: Envelope)
    requires m.reports != [] && d.Polled? && d.formats == d.how.formats
    ensures Reachable(Recorded(m), link, Syncable(d.formats)) <==> Wanted(m, d.how, link)
    ensures Announces(Recorded(m), link, d.serial, Syncable(d.formats), e) ==> TellsOf(m, d.serial, d.how, link, e)
  {
    hide Shared, Subsequence, SettledReport;
    var formats := Syncable(d.formats);
    hide Syncable;
    assert forall f :: f in formats <==> f in SYNCED && f in d.how.formats;
    if Announces(Recorded(m), link, d.serial, formats, e) {
      forall f
        ensures f in e.msg.formats <==> f in SYNCED && f in d.how.formats && Shared(m.caps, link.caps, f)
      {
        assert f in e.msg.formats <==> multiset(e.msg.formats)[f] > 0;
        assert f in formats <==> multiset(formats)[f] > 0;
      }
    }
  }

  /** The announcements of what a poll found: one on each session wanted, and no others. */
  ghost predicate AnnouncedTo(m: Machine, serial: nat, how: Sighting, links: seq<Link>, out: seq<Envelope>) {
    && (forall e <- out :: ToldSomebody(m, serial, how, links, e))
    && (forall l <- links :: Wanted(m, how, l) ==> Told(m, serial, how, l, out))
    && (DistinctNodes(links) ==> forall i, j :: 0 <= i < j < |out| ==> out[i].to != out[j].to)
  }

  ghost predicate ToldSomebody(m: Machine, serial: nat, how: Sighting, links: seq<Link>, e: Envelope) {
    exists l <- links :: Wanted(m, how, l) && TellsOf(m, serial, how, l, e)
  }

  ghost predicate Told(m: Machine, serial: nat, how: Sighting, link: Link, out: seq<Envelope>) {
    exists e <- out :: TellsOf(m, serial, how, link, e)
  }

  lemma AnnouncingReaches(m: Machine, d: Done, links: seq<Link>)
    requires m.reports != [] && d.Polled? && d.formats == d.how.formats
    ensures AnnouncedTo(m, d.serial, d.how, links, OfferClipboard(Recorded(m), links, d.serial, Syncable(d.formats)))
  {
    hide Wanted, ToldSomebody, Told, OfferClipboard, Recorded, DistinctNodes, Syncable;
    var out := OfferClipboard(Recorded(m), links, d.serial, Syncable(d.formats));
    if DistinctNodes(links) {
      OneEach(Recorded(m), links, d.serial, Syncable(d.formats));
    }
    forall e <- out
      ensures ToldSomebody(m, d.serial, d.how, links, e)
    {
      AnnouncedIsForSomebody(m, d, links, e);
    }
    forall l <- links | Wanted(m, d.how, l)
      ensures Told(m, d.serial, d.how, l, out)
    {
      WantedIsTold(m, d, links, l);
    }
  }

  lemma AnnouncedIsForSomebody(m: Machine, d: Done, links: seq<Link>, e: Envelope)
    requires m.reports != [] && d.Polled? && d.formats == d.how.formats
    requires e in OfferClipboard(Recorded(m), links, d.serial, Syncable(d.formats))
    ensures ToldSomebody(m, d.serial, d.how, links, e)
  {
    hide Reachable, Announces, Wanted, TellsOf, OfferClipboard, Recorded, Syncable;
    var formats := Syncable(d.formats);
    OffersExactly(Recorded(m), links, d.serial, formats);
    assert IsFor(Recorded(m), links, d.serial, formats, e);
    var l :| l in links && Reachable(Recorded(m), l, formats) && Announces(Recorded(m), l, d.serial, formats, e);
    AnnouncingTells(m, d, l, e);
  }

  lemma WantedIsTold(m: Machine, d: Done, links: seq<Link>, l: Link)
    requires m.reports != [] && d.Polled? && d.formats == d.how.formats
    requires l in links && Wanted(m, d.how, l)
    ensures Told(m, d.serial, d.how, l, OfferClipboard(Recorded(m), links, d.serial, Syncable(d.formats)))
  {
    hide Reachable, Announces, Wanted, TellsOf, IsFor, OfferClipboard, Recorded, Syncable;
    var formats := Syncable(d.formats);
    OffersExactly(Recorded(m), links, d.serial, formats);
    AnnouncingTells(m, d, l, Envelope(0, 0, ClipboardStale(0)));
    var e :| e in OfferClipboard(Recorded(m), links, d.serial, formats) && Announces(Recorded(m), l, d.serial, formats, e);
    AnnouncingTells(m, d, l, e);
  }

  ghost predicate Own(m: Machine, how: Sighting) {
    exists f <- SYNCED :: f in how.formats && SameBytes(m.sync.writeBack, f, how.data)
  }

  /** What a person copied, cleanly sampled, is announced on exactly the sessions it should be, on each in exactly
      the formats it can be had in there, and once to a machine; on none where it carries what was last written
      for a peer. Nothing else is sent. */
  lemma UserCopyReaches(ms: seq<Machine>, es: seq<Event>, k: nat)
    requires Run(ms, es) && Inv(ms[0]) && k < |es| && es[k].Apply? && CleanSample(ms[k].reports[0])
    requires ms[k].reports[0].how.origin.User? && ms[k].sync.seen.Some?
    ensures var m, d, out := ms[k], ms[k].reports[0], Next(ms[k], es[k]).1;
            if Own(m, d.how) then out == [] else AnnouncedTo(m, d.serial, d.how, es[k].links, out)
  {
    hide Inv, ApplyReport, Verdict, SameBytes, AnnouncedTo, Syncable;
    InvOnRuns(ms, es, k);
    UserCopyIsOffered(ms, es, k);
    CopyReaches(ms[k], es[k].links);
  }

  lemma CopyReaches(m: Machine, links: seq<Link>)
    requires Inv(m) && m.reports != [] && CleanSample(m.reports[0])
    ensures var d, out := m.reports[0], ApplyReport(m, links).1;
            && (!Verdict(m).Offer? ==> out == [])
            && (Verdict(m).Offer? || !(exists f <- SYNCED :: f in d.how.formats) ==>
                  AnnouncedTo(m, d.serial, d.how, links, out))
  {
    hide OfferClipboard, Recorded, Verdict, ApplyReport, AnnouncedTo;
    var d := m.reports[0];
    CleanFormats(m);
    hide Inv;
    PollAnnounces(m, links);
    AnnouncingReaches(m, d, links);
    if !(exists f <- SYNCED :: f in d.how.formats) {
      NothingWanted(m, d, links);
    }
  }

  lemma NothingWanted(m: Machine, d: Done, links: seq<Link>)
    requires d.Polled? && !(exists f <- SYNCED :: f in d.how.formats)
    ensures AnnouncedTo(m, d.serial, d.how, links, [])
  {
    forall l <- links
      ensures !Wanted(m, d.how, l)
    {
      if Wanted(m, d.how, l) {
        WantedHasAFormat(m, d.how, l);
      }
    }
  }

  lemma WantedHasAFormat(m: Machine, how: Sighting, link: Link)
    requires Wanted(m, how, link)
    ensures exists f <- SYNCED :: f in how.formats
  {
    var f :| f in SYNCED && f in how.formats && Shared(m.caps, link.caps, f);
  }

  lemma CleanFormats(m: Machine)
    requires Inv(m) && m.reports != [] && CleanSample(m.reports[0])
    ensures m.reports[0].formats == m.reports[0].how.formats
  {
    assert m.reports[0] in m.reports;
    hide Flow, Guard, Accounts, OffersSound;
  }

  // --- Serving -------------------------------------------------------------

  /** Over any run, content goes only to a machine that asked for it and that sharing is on for now, whatever it was
      when it asked; and it is what the worker read for that machine. */
  lemma ContentReachesWhoAsked(ms: seq<Machine>, es: seq<Event>, k: nat, e: Envelope)
    requires Run(ms, es) && k < |es| && e in Next(ms[k], es[k]).1 && e.msg.ClipboardData?
    ensures es[k].Apply? && ms[k].reports[0].Served? && Next(ms[k], es[k]).1 == [e]
    ensures exists l <- es[k].links :: l.node == e.to && l.shared && l.room
    ensures var d := ms[k].reports[0];
            e == Envelope(ms[k].id, d.node, ClipboardData(d.format, d.serial, d.packed.value)) && d.packed.Some?
  {
    OnlyServedSendsData(ms[k], es[k], e);
    LinkFound(es[k].links, ms[k].reports[0].node);
  }

  lemma {:induction false} LinkFound(links: seq<Link>, node: PeerId)
    ensures var l := LinkTo(links, node);
            l.node == node && if exists l <- links :: l.node == node then l in links else !l.shared && !l.room
  {
    if links != [] && links[0].node != node {
      LinkFound(links[1..], node);
      assert forall l :: l in links <==> l == links[0] || l in links[1..];
    }
  }

  /** What was read for a machine is sent to it when sharing is still on and nothing newer has been seen; otherwise,
      or where the read failed, it is told that the content is gone. One or the other, if its queue has room. */
  lemma ServedExactly(m: Machine, links: seq<Link>)
    requires m.reports != [] && m.reports[0].Served?
    ensures var d, out := m.reports[0], ApplyReport(m, links).1;
            var link := LinkTo(links, d.node);
            && (out == [] <==> !link.room)
            && (out != [] ==> |out| == 1 && out[0].from == m.id && out[0].to == d.node
                              && (out[0].msg.ClipboardData? <==> d.packed.Some? && link.shared && m.sync.Serial() == Some(d.serial))
                              && (!out[0].msg.ClipboardData? ==> out[0].msg == ClipboardStale(d.serial)))
  {
    LinkFound(links, m.reports[0].node);
  }

  /** A request becomes a read for whoever asked exactly when sharing is on, that machine can take the format, the
      content is what was last seen and in that format, and the worker's queue is open with room; otherwise it is
      refused at once. */
  lemma RequestedExactly(m: Machine, link: Link, format: Format, serial: nat)
    ensures var (n, out) := OnMessage(m, link, ClipboardRequest(format, serial));
            var taken := link.shared && SupportedBy(link.caps, format)
                         && m.sync.seen.Some? && m.sync.seen.value.serial == serial && format in m.sync.seen.value.formats
                         && !m.worker.Gone? && |m.jobs| < 4;
            && n.jobs == (if taken then m.jobs + [Serve(link.node, format, serial)] else m.jobs)
            && out == (if !taken && link.room then [Envelope(m.id, link.node, ClipboardStale(serial))] else [])
            && n.sync == m.sync
  {
  }

  /** What the worker reads for a peer: what the clipboard holds in that format just then, unless it cannot be read, is
      not there, or is more than goes into one message. */
  lemma ReadExactly(m: Machine, readable: bool)
    requires Enabled(m, ReadForPeer(readable))
    ensures var n, job := ServeFromClipboard(m, readable), m.jobs[0];
            && n.jobs == m.jobs[1..] && n.reports[..|m.reports|] == m.reports && |n.reports| == |m.reports| + 1
            && var d := n.reports[|m.reports|];
            && d.Served? && d.node == job.node && d.format == job.format && d.serial == job.serial
            && (d.packed.Some? <==> readable && job.format in m.os.data && |m.os.data[job.format]| <= 33_554_368)
            && (d.packed.Some? ==> d.packed.value == m.os.data[job.format])
            && n.os == m.os && n.sync == m.sync
  {
  }

  // --- Taking --------------------------------------------------------------

  /** Pictures are asked for before HTML, and HTML before plain text. */
  lemma RicherFirst(offered: seq<Format>, local: set<Capability>, peer: set<Capability>)
    ensures Choose(offered, local, peer) ==
              if Png in offered && ClipboardImage in local * peer then Some(Png)
              else if Html in offered && ClipboardText in local * peer then Some(Html)
              else if Utf8Text in offered && ClipboardText in local * peer then Some(Utf8Text)
              else None
  {
    SupportedExactly(local, Png);
    SupportedExactly(peer, Png);
    SupportedExactly(local, Html);
    SupportedExactly(peer, Html);
    SupportedExactly(local, Utf8Text);
    SupportedExactly(peer, Utf8Text);
    hide SupportedBy, CapabilityFor;
  }

  /** An offer is asked about exactly when sharing is on, there is room to ask, some synchronised format of it can be
      had at both ends, and the very same has not been asked for; what is asked for is then outstanding. */
  lemma OfferedExactly(m: Machine, link: Link, formats: seq<Format>, serial: nat)
    ensures var (n, out) := OnMessage(m, link, ClipboardOffer(formats, serial));
            var choice := Choose(formats, m.caps, link.caps);
            var asks := link.shared && link.room && choice.Some? && !m.sync.Answers(link.node, serial, choice.value);
            && (asks <==> out != [])
            && (asks ==> out == [Envelope(m.id, link.node, ClipboardRequest(choice.value, serial))]
                         && n.sync.Answers(link.node, serial, choice.value))
            && (forall other :: other != link.node ==>
                  (other in n.sync.asked <==> other in m.sync.asked)
                  && (other in m.sync.asked ==> n.sync.asked[other] == m.sync.asked[other]))
            && n.jobs == m.jobs
  {
  }

  /** Content is taken only as the answer to what was asked of that very machine, once; and written only where sharing
      is still on and the format is one this machine advertises. */
  lemma TakenExactly(m: Machine, link: Link, format: Format, serial: nat, data: Bytes)
    ensures var (n, out) := OnMessage(m, link, ClipboardData(format, serial, data));
            var answers := link.node in m.sync.asked && m.sync.asked[link.node] == (serial, format);
            var written := answers && link.shared && SupportedBy(m.caps, format) && !m.worker.Gone? && |m.jobs| < 4;
            && n.jobs == (if written then m.jobs + [Accept(link.node, format, data)] else m.jobs)
            && n.sync.asked == (if answers then m.sync.asked - {link.node} else m.sync.asked)
            && n.sync.seen == m.sync.seen && n.sync.writeBack == m.sync.writeBack && out == []
  {
  }

  /** A refusal settles what was asked of that machine, and nothing else. */
  lemma RefusedExactly(m: Machine, link: Link, serial: nat)
    ensures var (n, out) := OnMessage(m, link, ClipboardStale(serial));
            n == m.(sync := m.sync.(asked := n.sync.asked)) && n.sync.asked == m.sync.asked - {link.node} && out == []
  {
  }
}
