# WinXtend: machine-checked model

WinXtend shares one keyboard, mouse and clipboard between machines. This directory models the parts of it
whose correctness depends on order, on arithmetic at its limits, or on two machines reaching the same answer
alone, and proves what they promise. `dafny verify dfyconfig.toml` checks everything.

| files | what they model |
|---|---|
| `ClipboardSync`, `ClipboardMachine`, `ClipboardLoop` | the sync state; loop, worker and OS clipboard as a step system; the engine's handlers as objects |
| `ClipboardInvariant`, `ClipboardSteps`, `ClipboardTheorems`, `ClipboardReach`, `ClipboardFaults`, `ClipboardLoss`, `ClipboardScenario` | what every interleaving keeps, what follows for one machine, whom content reaches, what failures and the loss of the worker do, and concrete runs |
| `ClipboardMesh` | any number of machines over a lossy, reordering network |
| `Fnv`, `Fingerprints`, `MonitorIds` | both hashes; fingerprints; monitor ids |
| `Ints`, `Geometry`, `GlobalLayout`, `Autolayout`, `AutolayoutGeometry`, `Snapping` | rectangles, the layout, automatic placement, the editor's geometry |
| `LexOrders`, `AcceptLayouts`, `LayoutSync`, `LayoutOutcome` | which of two layouts stands, two machines converging on one, and which one that is |
| `Crossings`, `Cursor` | crossing between screens; the authoritative cursor |
| `LineFraming`, `SendQueue`, `Liveness` | line framing, the shedding send queue, the liveness probe |
| `Hotkey`, `PairingCard`, `UnitText`, `Autostart` | hotkey text, the pairing card, the systemd unit and registering it |
| `Wrappers`, `Sums`, `Occurrences`, `Texts` | shared helpers |

Where the source updates an object or a buffer in place, the model has a class or an array method, tied by its
`ensures` to a function on values; the theorems are about that function.

## Assumptions

* The OS clipboard's serial only moves forward, and a copy changes content and serial together. A successful
  write leaves the payload readable in its format, and no copy lands between the worker's write and the serial
  read that follows it. Listing, reads and writes may fail; the statements say where that matters.
* Recognising one's own write is by fingerprint; the statements say "same fingerprint", not "same bytes".
* Layout agreement is for two machines with fixed screens and no manual edits during the exchange. What a
  handshake told of a machine's screens may be anything at all. Messages that arrive before a side regards the
  other as trusted are dropped.
* Probes are handled at most 500 ms apart, and an answer is any traffic at all.
* The unit template has one ExecStart line, and its placeholder appears only there.
* Coordinates and deltas of the cursor are reals; a cursor scale is decoded from its single-precision bits.
* The distance between two screens is subtracted in 32 bits and wraps, as in a release build; a debug build stops
  there. Clamping with bounds out of order stops the program: such an operation has no result in the model.

## What the proofs turned up

* `apply` is documented as reporting no change for an unchanged monitor list. With two usable screens of one id
  it reports a change, and bumps the revision, every time (`Autolayout.IdempotentExactlyWhenDistinct`).
* Blocks abut without a gap only while the mesh's right edge is a storable coordinate; past that, screens
  land on one column and overlap (`AutolayoutGeometry.AbutsExactlyWhenStorable`).
* The editor's free spot is documented as the agent's rule. It is one unit off for a mesh of odd height and a
  screen of even height (`Snapping.SameSpotExactlyByParity`), and it counts empty placements and the machine's
  own, which the agent skips (`Snapping.EmptyPlacementMovesTheSpot`, `Snapping.SameSpotExactly`).
* Two screens further apart than 32 bits hold read backwards: with one at 2,000,000,000 and the other at
  -2,000,000,000 the left one is reached by leaving to the right (`Crossings.FarApartReadsBackwards`).
* Clamping into a non-empty rectangle that starts at i32::MAX has its bounds out of order
  (`Crossings.ClampOrderedExactlyWhenRoomy`), and crossing or warping onto such a screen stops the program
  (`Cursors.CrossesExactlyWhenOneIsEligible`, `Cursors.WarpLandsInside`).
* Sampling the clipboard is three steps, so one copy can be announced twice
  (`ClipboardScenario.OneCopyAnnouncedTwice`), never more (`ClipboardTheorems.OffersAreCharged`).
* A failed read-back drops the guard and a peer's payload is then announced back
  (`ClipboardScenario.FailedReadBackHappens`).
* A machine without a screen whose only peer falls silent writes it off and keeps the cursor there
  (`Liveness.HeadlessMachineIsStranded`).
* Two machines always agree, but not always on a layout with every screen in it: one is left out exactly when
  the layout that prevails lacks its sender's screens and is not sent back for lacking the other's, or when
  neither prevails and they lack one alike (`LayoutOutcome.AllHousedExactly`). With truthful handshakes, exactly
  when the machine whose first layout is the higher came without its own (`LayoutOutcome.AllHousedExactlyWhenTold`,
  at `LayoutOutcome.EvictedScreenStaysOut`).
* When the clipboard worker stops, the requests still in its queue are never answered
  (`ClipboardLoss.LostForGood`).
* A write to the local unit follows a link, so the packaged unit is left alone only when the local copy does
  not lead to it (`Autostart.PackagedUnitRewrittenExactlyThroughALink`). With a packaged unit that links to the
  local copy, registering reports success and leaves nothing registered (`Autostart.PackagedLinkToLocal`).

## Model

| member | source | states |
|---|---|---|
| ClipboardSteps.InvKept | crates/wx-agent/src/engine.rs:3744-4111 | every step of loop, worker, OS or peer keeps the machine invariant: job counts, queue order, guard snapshots, guard matches clipboard, accounts, offers charged |
| ClipboardSteps.InvAtStart | crates/wx-agent/src/clipboard.rs:257-265 | a freshly started agent satisfies it, whatever its clipboard already holds |
| ClipboardSteps.OnlyPoll | crates/wx-agent/src/engine.rs:452-491 | when a poll reports, no other poll is queued, sampling or unreported |
| ClipboardTheorems.InvOnRuns | crates/wx-agent/src/engine.rs:416-491 | the invariant holds at every point of every interleaving |
| ClipboardTheorems.SnapshotIsCurrent | crates/wx-agent/src/engine.rs:416-439 | the guard snapshot a poll carries equals the guard the loop holds when its report is applied |
| ClipboardTheorems.OwnWriteIsEcho | crates/wx-agent/src/clipboard.rs:287-327 | however often the serial moves, a poll that finds a peer's payload in place is an echo (or the first look), and nothing is sent |
| ClipboardTheorems.UserCopyIsOffered | crates/wx-agent/src/clipboard.rs:287-327 | a cleanly sampled copy is announced if and only if it has a synchronised format and is not the last written payload by format and fingerprint |
| ClipboardReach.UserCopyReaches | crates/wx-agent/src/engine.rs:3890-3935 | such a copy is announced on exactly the sessions with sharing on, room, and a synchronised format of it both ends advertise; on each in exactly those formats, once to a machine; on none where it carries what was last written for a peer |
| ClipboardFaults.FailedReadBackOffersBack | crates/wx-agent/src/engine.rs:4699-4727 | with the serial moved, the report a read-back leaves announces a peer's payload back exactly when the read failed; the guard is then gone |
| ClipboardFaults.FailedReadBackIsAnnounced | crates/wx-agent/src/engine.rs:4699-4727 | and so when its turn comes, whatever reports and messages are handled before it |
| ClipboardFaults.FailedListingDropsTheGuard | crates/wx-agent/src/engine.rs:4714-4717 | a failed listing announces nothing and drops the guard of a peer's payload exactly when the serial had moved past its write |
| ClipboardFaults.FailedWriteDropsTheGuard | crates/wx-agent/src/clipboard.rs:408-411 | a failed write leaves the clipboard and drops the guard, whoever's content is on it |
| ClipboardFaults.UnguardedIsOffered | crates/wx-agent/src/clipboard.rs:287-327 | content held without a guard is announced at the next move of the serial exactly when it has a synchronised format |
| ClipboardScenario.FailedReadBackHappens | crates/wx-agent/src/engine.rs:4699-4727 | such a read-back is reached from a fresh start, for any payload |
| ClipboardTheorems.AccountsOnRuns | crates/wx-agent/src/engine.rs:452-491 | on every run: requests = answers + serves in flight; accepts never exceed asks per peer; `writes` and `polling` count exactly the unreported jobs |
| ClipboardTheorems.DataNamesTheSnapshot | crates/wx-agent/src/engine.rs:4014-4063 | content is only ever sent under the serial, and a format, of what the loop last saw |
| ClipboardTheorems.UnsampledCopyIsServed | crates/wx-agent/src/engine.rs:4014-4063 | the re-check is against the last observed serial: a copy not yet sampled goes out under the older serial |
| ClipboardTheorems.OffersAreCharged | crates/wx-agent/src/engine.rs:3890-3935 | without failures, every serial charged held a person's content, and there are exactly as many offers as serials charged, the straddled ones counted twice |
| ClipboardTheorems.ChargedTwiceExactly | crates/wx-agent/src/engine.rs:3890-3935 | a serial is charged twice exactly when one offered sampling began before it and ended on it and another began and ended on it |
| ClipboardScenario.OneCopyAnnouncedTwice | crates/wx-agent/src/engine.rs:4699-4727 | the bound of two is met: a copy landing between reading the serial and listing the formats is announced under both serials |
| ClipboardScenario.TransferThenEcho | crates/wx-agent/src/engine.rs:3938-4111 | for any payload, from a fresh start: offer, request, content, write, a further serial move, read-back, echo; every step can happen |
| ClipboardMesh.QuietStepWorks | crates/wx-agent/src/engine.rs:3938-4111 | on one machine no quiet step adds outstanding work, counting messages; a step that handles traffic strictly lowers it |
| ClipboardMesh.TrafficDiesOut | crates/wx-agent/src/engine.rs:3890-4111 | any number of machines, messages reordered or lost: once nobody copies, every run has at most as many traffic steps as work outstanding now |
| ClipboardMesh.NoPingPong | crates/wx-agent/src/engine.rs:3890-4111 | along every run of the mesh, each machine's offers are bounded by, and each charged to, changes a person made on it |
| ClipboardMesh.SilentExactlyWhenNoWork | crates/wx-agent/src/engine.rs:3890-4111 | the measure is zero exactly when no message, job or due offer is left |
| ClipboardMesh.EagerStepEnabled | crates/wx-agent/src/engine.rs:4654-4697 | a machine with work outstanding always has a next step in which everything it tries succeeds, payloads unpacked included |
| ClipboardMesh.ReachesSilence | crates/wx-agent/src/engine.rs:3890-4111 | from any faultless state the mesh runs on to silence with every message delivered and every list, read, unpack and write succeeding |
| ClipboardMesh.EagerRunsFallSilent | crates/wx-agent/src/engine.rs:3890-4111 | every such run is over within a length fixed at its start, and one that cannot be taken further is silent |
| ClipboardSyncs.DigestOnlyWhenItMatters | crates/wx-agent/src/engine.rs:4699-4727 | wherever the worker skips the read-back, every digest gives the same verdict |
| ClipboardSyncs.OfferedExactlyWhenNew | crates/wx-agent/src/clipboard.rs:287-327 | exact condition for an offer |
| ClipboardSyncs.Choose | crates/wx-agent/src/clipboard.rs:349-359 | the richest offered format both machines support, or none when there is none |
| ClipboardReach.RicherFirst | crates/wx-agent/src/clipboard.rs:349-359 | pictures before HTML before plain text |
| ClipboardSyncs.Syncable | crates/wx-agent/src/clipboard.rs:54-64 | exactly the synchronised formats among those listed |
| ClipboardSyncs.ClipboardSync.Observe | crates/wx-agent/src/clipboard.rs:287-327 | the object moves exactly as `Sync.Observed` |
| ClipboardSyncs.ClipboardSync.Ask | crates/wx-agent/src/clipboard.rs:361-369 | a repeated offer is not asked about twice |
| ClipboardSyncs.ClipboardSync.Settle | crates/wx-agent/src/clipboard.rs:380-384 | forgets the outstanding request of that peer only |
| ClipboardSyncs.ClipboardSync.Writing | crates/wx-agent/src/clipboard.rs:388-397 | arms the guard before the write |
| ClipboardSyncs.ClipboardSync.Wrote | crates/wx-agent/src/clipboard.rs:401-405 | records the serial the write produced, where a guard is armed |
| ClipboardSyncs.ClipboardSync.WriteFailed | crates/wx-agent/src/clipboard.rs:408-411 | drops the guard |
| ClipboardLoop.ClipboardTraffic.Settled | crates/wx-agent/src/engine.rs:452-491 | takes one job of that kind off the record, never below zero |
| ClipboardLoop.SettleClipboardReport | crates/wx-agent/src/engine.rs:4565-4615 | a worker report moves sync state and traffic record exactly as the machine step does |
| ClipboardLoop.ClipboardEngine.DispatchClipboard | crates/wx-agent/src/engine.rs:3845-3864 | counts the job if and only if the queue took it, drops it when the queue is full, and puts the loss on record when the queue is closed |
| ClipboardLoss.LostForGood | crates/wx-agent/src/engine.rs:4617-4630 | from wherever the worker stops, over every run: nothing is handed to it again, the loss is on record once every report is applied, and the requests in its queue are never answered |
| ClipboardLoss.RefusedWhenLost | crates/wx-agent/src/engine.rs:3968-4011 | a request that comes after that is refused on the spot |
| ClipboardLoop.ClipboardEngine.PollClipboard | crates/wx-agent/src/engine.rs:3744-3768 | polls only when no poll or write is outstanding, with the current snapshot |
| ClipboardLoop.ClipboardEngine.OfferClipboard | crates/wx-agent/src/engine.rs:3890-3935 | sends each sharing peer the formats both advertise, in order |
| ClipboardReach.OfferReaches | crates/wx-agent/src/engine.rs:3890-3935 | a machine is sent an announcement if and only if its session has sharing on, room, and a listed format both ends advertise; never two |
| ClipboardReach.BothSupportExactly | crates/wx-agent/src/engine.rs:3907-3935 | what is offered is every listed format both ends support, in order and as often as listed, and no other |
| ClipboardReach.SupportedExactly | crates/wx-agent/src/clipboard.rs:75-86 | text and HTML need the text capability, pictures theirs, file lists are never shared |
| ClipboardLoop.ClipboardEngine.OnClipboardOffer | crates/wx-agent/src/engine.rs:3938-3965 | is the machine's offer step, forgetting the ask when the request does not leave |
| ClipboardReach.OfferedExactly | crates/wx-agent/src/engine.rs:3938-3965 | an offer is asked about exactly when sharing is on, there is room, a format can be had at both ends, and the very same was not asked for; no other peer's request changes |
| ClipboardLoop.ClipboardEngine.OnClipboardRequest | crates/wx-agent/src/engine.rs:3968-4011 | is the machine's request step: a job, or a refusal |
| ClipboardReach.RequestedExactly | crates/wx-agent/src/engine.rs:3968-4011 | a request becomes a read for whoever asked exactly when sharing is on, that machine takes the format, the content is what was last seen, and the queue takes it; otherwise it is refused at once |
| ClipboardReach.ReadExactly | crates/wx-agent/src/engine.rs:4730-4773 | what is read for a peer is what the clipboard holds in that format just then, or nothing where it cannot be read, is missing or is too large |
| ClipboardLoop.ClipboardEngine.OnClipboardServed | crates/wx-agent/src/engine.rs:4014-4063 | is the machine's served step: content, or a refusal |
| ClipboardReach.ContentReachesWhoAsked | crates/wx-agent/src/engine.rs:4014-4063 | over any run, content goes only to the machine it was read for, with sharing on at that moment |
| ClipboardReach.ServedExactly | crates/wx-agent/src/engine.rs:4014-4063 | what was read is sent exactly when the read worked, sharing is still on and nothing newer was seen; otherwise the peer is told it is gone |
| ClipboardLoop.ClipboardEngine.OnClipboardData | crates/wx-agent/src/engine.rs:4066-4111 | is the machine's data step: consumes the one matching request |
| ClipboardReach.TakenExactly | crates/wx-agent/src/engine.rs:4066-4111 | content is taken only as the answer to what was asked of that machine, once, and written only with sharing on and an advertised format |
| ClipboardReach.RefusedExactly | crates/wx-agent/src/engine.rs:2352-2362 | a refusal settles what was asked of that machine and nothing else |
| ClipboardLoop.ClipboardEngine.OnClipboardDone | crates/wx-agent/src/engine.rs:3803-3835 | is the machine's report step, messages included |
| Fnv.StepIsBijective | crates/wx-agent/src/clipboard.rs:104-119 | one FNV step is a bijection on hash values, with its inverse given, in both widths |
| Fnv.EatTellsOneByteApart | crates/wx-agent/src/clipboard.rs:104-119 | changing exactly one byte of a chunk always changes its hash |
| Fingerprints.LittleEndianReadsBack | crates/wx-agent/src/clipboard.rs:111-119 | the length goes in as eight bytes that read back as it |
| Fingerprints.LengthTellsApart | crates/wx-agent/src/clipboard.rs:111-119 | payloads that sample alike differ where their lengths differ in one byte of the eight |
| Fingerprints.SampledRange | crates/wx-agent/src/clipboard.rs:88-119 | head and tail slices are disjoint and cover everything up to 128 KiB, and exactly the first and last 64 KiB beyond |
| Fingerprints.OneByteDifference | crates/wx-agent/src/clipboard.rs:88-119 | equal lengths, one differing byte: fingerprints differ if and only if that byte is sampled |
| MonitorIds.StableMonitorId | crates/wx-platform/src/coords.rs:98-105 | the loop computes 32-bit FNV-1a |
| MonitorIds.KnownIds | crates/wx-platform/src/coords.rs:98-105 | the ids of the empty name and of one letter, which saved layouts rely on |
| MonitorIds.OneByteNames | crates/wx-platform/src/coords.rs:98-105 | display names of one length differing in one byte never share an id |
| MonitorIds.DeduplicateIds | crates/wx-platform/src/coords.rs:111-123 | in place: distinct afterwards if and only if the length is at most 2^32; distinct input is unchanged |
| MonitorIds.ProbeFindsFirstFree | crates/wx-platform/src/coords.rs:111-123 | a probe of more steps than ids taken ends on the first free id, by pigeonhole over wrapping 32 bits |
| MonitorIds.EachTakesFirstFree | crates/wx-platform/src/coords.rs:111-123 | each id becomes the first value at or after its own, wrapping, not held by an earlier one |
| MonitorIds.DistinctExactlyWhenTheyFit | crates/wx-platform/src/coords.rs:111-123 | all ids end distinct if and only if there are at most 2^32 of them |
| Geometry.UnionOf | crates/wx-agent/src/autolayout.rs:190-207 | the accumulating loop computes the clamped bounding box of the non-empty rectangles |
| Geometry.HullIsTight | crates/wx-agent/src/autolayout.rs:190-207 | the box holds every non-empty rectangle and each side is touched by one |
| Geometry.HullIgnoresOrder | crates/wx-agent/src/autolayout.rs:190-207 | the box depends only on which non-empty rectangles there are |
| GlobalLayouts.GlobalLayout.FromLayout | crates/wx-core/src/layout.rs:65-76 | a layout off the wire: of two placements of one monitor the later stands, in the earlier's place |
| GlobalLayouts.GlobalLayout.ToLayout | crates/wx-core/src/layout.rs:77-86 | what goes out names every monitor once |
| GlobalLayouts.GlobalLayout.Insert | crates/wx-core/src/layout.rs:88-97 | replaces in place, or adds at the end |
| GlobalLayouts.GlobalLayout.Remove | crates/wx-core/src/layout.rs:98-102 | removes that monitor and keeps the rest in order |
| Autolayout.Apply | crates/wx-agent/src/autolayout.rs:115-131 | the method makes of a layout exactly `Applied`, and reports whether it changed |
| Autolayout.ForgetNode | crates/wx-agent/src/autolayout.rs:138-148 | removes every placement of the node, bumping the revision if there were any |
| Autolayout.ForgottenExactly | crates/wx-agent/src/autolayout.rs:138-148 | forgetting takes exactly the node's placements, keeps the rest in order, and reports a change and raises the revision by one if and only if there were any |
| Autolayout.AppliedSplit | crates/wx-agent/src/autolayout.rs:115-131 | other machines' placements are untouched and in order |
| Autolayout.IdempotentExactlyWhenDistinct | crates/wx-agent/src/autolayout.rs:115-131 | a second `apply` changes nothing if and only if the usable screens have distinct ids |
| Autolayout.ChangesExactlyWhenDifferent | crates/wx-agent/src/autolayout.rs:115-131 | changed, and revision up by exactly one, if and only if the placements differ from the wanted ones; afterwards they are the wanted ones |
| Autolayout.SameIsSetEquality | crates/wx-agent/src/autolayout.rs:163-172 | the one-directional check is equality of sets, by counting |
| Autolayout.NothingLeftToPlace | crates/wx-agent/src/engine.rs:1026-1031 | after `apply` no usable screen lacks a place, and where one did `apply` reports a change |
| Autolayout.ForgetThenApply | crates/wx-agent/src/autolayout.rs:138-148 | forgetting then applying gives the placements a direct apply gives, duplicate ids included |
| Autolayout.OrderIsIgnored | crates/wx-agent/src/autolayout.rs:55-106 | neither screen order nor insertion order affects where screens go |
| AutolayoutGeometry.ArithmeticFits | crates/wx-agent/src/autolayout.rs:72-90 | every intermediate value fits 64 bits, for all inputs |
| AutolayoutGeometry.AbutsExactlyWhenStorable | crates/wx-agent/src/autolayout.rs:72-106 | the block starts at the mesh's right edge and clear of every other screen if and only if that edge is at most i32::MAX; otherwise every screen lands on the last column |
| AutolayoutGeometry.SizesKept | crates/wx-agent/src/autolayout.rs:88-106 | every usable screen is placed, in order, at its own size |
| AutolayoutGeometry.ArrangementKeptExactly | crates/wx-agent/src/autolayout.rs:88-106 | on each axis, pairwise offsets are kept if and only if no coordinate saturates or all the screens share theirs |
| AutolayoutGeometry.CentredExactlyWhenStorable | crates/wx-agent/src/autolayout.rs:80-86 | the half-height centres agree if and only if the anchor's height is storable |
| AutolayoutGeometry.OverlapPastTheEdge | crates/wx-agent/src/autolayout.rs:72-106 | a concrete mesh past the last column on which the new screen overlaps |
| AcceptLayouts.HigherRevision | crates/wx-agent/src/engine.rs:1076-1081 | a higher revision is taken whatever it holds, and never given up for a lower one |
| AcceptLayouts.FullerIsTaken | crates/wx-agent/src/engine.rs:1082-1086 | at one revision a layout that knows all another does and more is taken for it, and never gives way to it |
| AcceptLayouts.SmallerIsTaken | crates/wx-agent/src/engine.rs:1089 | with as many placements at one revision, the one taken has more of the least spot they hold differently often, by node, monitor, position and size |
| AcceptLayouts.AcceptAsymmetric | crates/wx-agent/src/engine.rs:1076-1090 | never both ways, never itself |
| AcceptLayouts.AcceptTransitive | crates/wx-agent/src/engine.rs:1076-1090 | transitive |
| AcceptLayouts.TiedExactlyWhenAgreed | crates/wx-agent/src/engine.rs:1096-1113 | neither accepts the other if and only if revision and multiset of placements without cursor scale agree |
| AcceptLayouts.TiedTransitive | crates/wx-agent/src/engine.rs:1076-1113 | incomparability is transitive |
| AcceptLayouts.AcceptRespectsTies | crates/wx-agent/src/engine.rs:1076-1113 | tied layouts are interchangeable on either side |
| AcceptLayouts.AcceptIgnoresOrder | crates/wx-agent/src/engine.rs:1096-1113 | permuting placements changes no verdict |
| LexOrders.LexTotal | crates/wx-agent/src/engine.rs:1089 | lexicographic order is total |
| LexOrders.SortedUnique | crates/wx-agent/src/engine.rs:1096-1113 | sorted keys are equal exactly when the rows are the same multiset |
| LayoutSync.LayoutEngine.OnPeerReady | crates/wx-agent/src/engine.rs:2025-2039 | the handler, on the layout object, is the greeting step of the exchange, with the screens the handshake named |
| LayoutSync.LayoutEngine.OnLayoutUpdate | crates/wx-agent/src/engine.rs:2265-2287 | the handler, building and replacing the layout object, is the receiving step |
| LayoutSync.LayoutEngine.OnLayoutRequest | crates/wx-agent/src/engine.rs:2288-2291 | the handler answers with the layout held |
| LayoutSync.InvKept | crates/wx-agent/src/engine.rs:2265-2291 | every step of two machines keeps the invariant, and no held layout loses rank |
| LayoutSync.Taking | crates/wx-agent/src/engine.rs:2265-2287 | adopting houses this machine's screens, neither adds nor removes the sender's, and sends the result back exactly when that raised the revision |
| LayoutSync.WorkShrinks | crates/wx-agent/src/engine.rs:2025-2039 | every step leaves less work, the bump and its re-broadcast included |
| LayoutSync.SettledAgrees | crates/wx-agent/src/engine.rs:2265-2291 | with both ready and the channels empty, both hold the same placements at one revision, and where each came with its own screens housed, with every usable screen of both |
| LayoutSync.TwoMachinesConverge | crates/wx-agent/src/engine.rs:2025-2060 | from any two layouts, any two handshakes, however out of date, and any interleaving: over within sixteen steps, two fewer where both were well informed and four fewer where each came with its own screens housed; in agreement, at a rank no lower than either began with |
| LayoutOutcome.OutcomeIsDecided | crates/wx-agent/src/engine.rs:2025-2039 | what both end up holding is a function of what each would send first, whatever the interleaving: the higher of the two with what it lacks put in, or each its own where neither is higher |
| LayoutOutcome.NothingPlacedIsLost | crates/wx-agent/src/engine.rs:1060-1090 | where both first send one revision and neither lacks the other's screens, both end with exactly as many placements as the fuller of the two |
| LayoutOutcome.HigherRevisionPrevails | crates/wx-agent/src/engine.rs:1060-1090 | where the revisions differ and the higher lacks nothing of the taker's, that is what both end with |
| LayoutOutcome.AllHousedExactly | crates/wx-agent/src/engine.rs:2265-2287 | every usable screen of both ends up housed on both if and only if `Houses` held of the two machines before they met |
| LayoutOutcome.AllHousedExactlyWhenTold | crates/wx-agent/src/engine.rs:2265-2287 | with truthful handshakes that is: the machine whose first layout is the higher came with its own screens housed |
| LayoutOutcome.EvictedScreenStaysOut | crates/wx-agent/src/engine.rs:3215-3224 | a pair that does not: both settle on a layout without the first machine's screen |
| LayoutOutcome.UnmentionedScreenBumps | crates/wx-agent/src/engine.rs:2271-2285 | a pair in which a screen the handshake left out raises the revision on receipt, and what is sent back is what both settle on |
| LayoutOutcome.SomeRunSettles | crates/wx-agent/src/engine.rs:2025-2039 | every exchange can be taken to its end |
| Crossings.ClampOrderedExactlyWhenRoomy | crates/wx-proto/src/geom.rs:100-113 | a non-empty rectangle's clamping bounds are in order if and only if it does not start on the last storable coordinate |
| Crossings.ClampInto | crates/wx-proto/src/geom.rs:100-113 | clamping into a non-empty rectangle lands inside, or stops the program where the bounds are out of order |
| Crossings.ClampIsNearest | crates/wx-proto/src/geom.rs:100-113 | it takes the place well inside that is nearest, on each axis by itself |
| Crossings.ExitExists | crates/wx-core/src/layout.rs:334-366 | a path that starts inside and ends outside has an exit edge |
| Crossings.ExitIsOnTheEdge | crates/wx-core/src/layout.rs:334-366 | the exit point lies on that edge of the rectangle |
| Crossings.ExitIsOnThePath | crates/wx-core/src/layout.rs:334-366 | the exit point is on the path, which has not left the rectangle before it |
| Crossings.CornerLeavesSideways | crates/wx-core/src/layout.rs:334-366 | through a corner the path leaves by the side |
| Crossings.ScanFindsFirstBest | crates/wx-core/src/layout.rs:206-240 | the scan finds the first of the best-scoring eligible screens |
| Crossings.ResolveCrossing | crates/wx-core/src/layout.rs:198-241 | the loop computes `Resolve`, wrapped gaps and rectangles without room included |
| Crossings.CrossingLandsInside | crates/wx-core/src/layout.rs:417-425 | a crossing leads to an eligible screen, which lies beyond the edge exactly when its gap fits 32 bits, and lands inside it, or stops the program exactly when that screen has no room |
| Crossings.EntersAtTheSide | crates/wx-core/src/layout.rs:417-425 | a crossing comes in by the side facing the one left, at most one unit inside it, and exactly one where the screen is two or more across |
| Crossings.AbuttingGoesOneOn | crates/wx-core/src/layout.rs:417-425 | between abutting screens straight ahead the cursor goes one unit past the shared edge, and keeps its place along it |
| Crossings.EligibleExactlyWhenGapFits | crates/wx-core/src/layout.rs:372-386 | being eligible and lying beyond the edge are the same exactly when the distance to the screen fits 32 bits |
| Crossings.FarApartReadsBackwards | crates/wx-core/src/layout.rs:372-386 | two screens four thousand million columns apart: the left one is a neighbour to the right and not to the left |
| Crossings.NeighbourExactlyWhenOneIsEligible | crates/wx-core/src/layout.rs:243-269 | there is a neighbour if and only if some screen is eligible, wherever along the edge the cursor leaves |
| Crossings.NeighbourIsGeometricExactly | crates/wx-core/src/layout.rs:243-269 | that is the same as some screen lying beyond the edge exactly when one lies near ahead, or screens out of range lie both ahead and behind, or neither |
| Crossings.NearestStraightAhead | crates/wx-core/src/layout.rs:183-197 | where every gap fits 32 bits, the screen reached is the nearest one straight ahead, by true distance |
| Crossings.NearestAskew | crates/wx-core/src/layout.rs:206-240 | with none straight ahead, the screen reached has the least distance out to it and along the edge together |
| Crossings.OffsetIsDistance | crates/wx-core/src/layout.rs:388-409 | the offset along the edge is none exactly where the side covers the exit point, and otherwise the distance to its nearest unit |
| Crossings.StraightAheadKeepsItsHeight | crates/wx-core/src/layout.rs:183-197 | an eligible screen straight ahead is preferred, nearest by computed gap, and the cursor keeps its place along the seam |
| Cursors.VirtualCursor.MoveBy | crates/wx-core/src/cursor.rs:174-236 | the object moves exactly as `MovedBy` |
| Cursors.CrossesToTheSide | crates/wx-core/src/cursor.rs:213-236 | a crossing motion puts the cursor at most one unit inside the side it came in by, with nothing held back |
| Cursors.CrossesOneUnitOn | crates/wx-core/src/cursor.rs:213-236 | between abutting screens straight ahead, one unit past the shared edge |
| Cursors.StopsNearest | crates/wx-core/src/cursor.rs:205-236 | a stopped cursor goes to the place well inside its screen nearest to where it was going, on each axis by itself |
| Cursors.MotionIsReported | crates/wx-core/src/cursor.rs:284-287 | what is reported is the screen the cursor is on and the fractions of it where it is |
| Cursors.VirtualCursor.WarpTo | crates/wx-core/src/cursor.rs:245-258 | the object moves exactly as `WarpedTo` |
| Cursors.VirtualCursor.Spend | crates/wx-core/src/cursor.rs:261-282 | spends whole units and keeps the remainder |
| Cursors.Accumulate | crates/wx-core/src/cursor.rs:261-282 | nothing is lost: step plus remainder is what was wanted, remainder below one in magnitude |
| Cursors.EffectiveScale | crates/wx-core/src/cursor.rs:307-314 | always positive |
| Cursors.ScaleExactly | crates/wx-core/src/cursor.rs:307-314 | a positive finite scale counts for what its bits say, everything else for one |
| Cursors.UnscaledIsOne | crates/wx-agent/src/autolayout.rs:103 | the scale placements start with decodes to one |
| Cursors.FreeRunIsExact | crates/wx-core/src/cursor.rs:174-282 | over a run without clamp or crossing, position plus remainder advances by exactly scale times the summed deltas |
| Cursors.DiagonalStaysStraight | crates/wx-core/src/cursor.rs:261-282 | equal deltas on both axes give equal travel, at any scale |
| Cursors.LockedRunStays | crates/wx-core/src/cursor.rs:205-211 | a locked run of any motions never changes monitor, and from home never stops the program |
| Cursors.MotionStaysHome | crates/wx-core/src/cursor.rs:174-236 | in any layout, after any motion that completes, crossing or not, the cursor is inside its screen with less than a unit held back |
| Cursors.RunStaysHome | crates/wx-core/src/cursor.rs:174-236 | and so after any run |
| Cursors.CrossesExactlyWhenOneIsEligible | crates/wx-core/src/cursor.rs:213-236 | an unlocked cursor pushed off its screen crosses if and only if some screen is eligible through the edge it leaves by; the program stops exactly when the one chosen has no room |
| Cursors.CrossesExactlyWhenSomethingLiesBeyond | crates/wx-core/src/cursor.rs:213-236 | and that is the same as some screen lying beyond that edge under the exact condition of `NeighbourIsGeometricExactly` |
| Cursors.WarpLandsInside | crates/wx-core/src/cursor.rs:245-258 | a warp lands inside the named screen even when locked, says why not and changes nothing, or stops the program exactly when that screen has no room |
| Cursors.WarpLandsWhereAsked | crates/wx-core/src/cursor.rs:245-258 | it lands the asked parts of the way across and down, or at the nearest place well inside, and reports the fractions of where it landed |
| LineFraming.LineReader.NextLine | crates/wx-agent/src/ipc.rs:1121-1150 | the loop computes `Next`, cancellation included, and its buffer peaks at `Peak` |
| LineFraming.Conserves | crates/wx-agent/src/ipc.rs:1121-1150 | no call, wherever it is dropped, loses or invents a byte |
| LineFraming.RunIsSplit | crates/wx-agent/src/ipc.rs:1121-1150 | over any chunking and cancellations, lines returned followed by lines still to come are the lines of the stream |
| LineFraming.RefusedOnlyWhenTooLong | crates/wx-agent/src/ipc.rs:87-90 | a refusal means more than the limit unterminated in front |
| LineFraming.NeverRefused | crates/wx-agent/src/ipc.rs:1121-1150 | a stream without an overlong stretch is never refused |
| LineFraming.BufferBounded | crates/wx-agent/src/ipc.rs:1104-1113 | at no point of a call does the buffer exceed the limit plus one read |
| LineFraming.BufferBoundedOnRuns | crates/wx-agent/src/ipc.rs:1104-1113 | nor at any point of any run of calls |
| LineFraming.PatientCallFinishes | crates/wx-agent/src/ipc.rs:1121-1150 | a call left to wait is not cancelled |
| LineFraming.WrittenThenRead | crates/wx-agent/src/ipc.rs:1087-1102 | newline-free messages framed and read back are unchanged |
| Hotkeys.ParseHotkey | crates/wx-agent/src/config.rs:482-508 | the loop computes `Parse` |
| Hotkeys.MeansExactly | crates/wx-agent/src/config.rs:482-508 | a text reads as a hotkey if and only if it has exactly one key token, with the modifiers named anywhere in it |
| Hotkeys.RefusedForWhatIsWrong | crates/wx-agent/src/config.rs:482-508 | a text that is refused is refused for what is wrong with it, naming the first two keys or the unknown name |
| Hotkeys.ModifierNamesMean | crates/wx-agent/src/config.rs:609-618 | the modifier names, aliases included |
| Hotkeys.ReadIsCanonical | crates/wx-agent/src/config.rs:482-508 | whatever is read is canonical |
| Hotkeys.RoundTripExactlyWhenCanonical | crates/wx-agent/src/config.rs:539-552 | print then parse is the identity if and only if the hotkey is canonical |
| Hotkeys.ReadPrintRead | crates/wx-agent/src/config.rs:482-552 | for every text that parses, printing and parsing again gives the same hotkey |
| Hotkeys.PrintedIsPlain | crates/wx-agent/src/config.rs:590-597 | no printed hotkey is empty, needs trimming, or reads as "none" |
| Hotkeys.PrintedInOrder | crates/wx-agent/src/config.rs:539-552 | modifiers are printed in one order |
| Hotkeys.OptionalRoundTrip | crates/wx-agent/src/config.rs:578-598 | the optional form round-trips if and only if absent or canonical |
| SendQueues.PeerQueue.Offer | crates/wx-agent/src/engine.rs:614-626 | never blocks; moves exactly as `Enqueue` |
| SendQueues.OfferIsRightlyAnswered | crates/wx-agent/src/engine.rs:577-626 | at any point of any run: taken with room; with 256 waiting a position is dropped and never closes the session, and anything that latches state closes it and is never dropped |
| SendQueues.OnlyPositionsAreShed | crates/wx-agent/src/engine.rs:577-592 | over any run, whatever is shed is an absolute position |
| SendQueues.PositionsNeverClose | crates/wx-agent/src/engine.rs:610-626 | over any run, an absolute position is never taken for an unresponsive peer |
| SendQueues.QueueDrains | crates/wx-agent/src/engine.rs:4422-4439 | a session that takes what it is given gets the whole queue in order |
| SendQueues.ClosedForGood | crates/wx-agent/src/engine.rs:610-626 | once closed, every further offer is answered so and nothing more is delivered |
| SendQueues.RunFaithful | crates/wx-agent/src/engine.rs:4422-4439 | what was taken on is delivered, in hand or queued, in order; the depth never exceeds 256 |
| SendQueues.LatchingSurvivesExactlyUntilRefused | crates/wx-agent/src/engine.rs:574-626 | while open, latching messages held equal latching messages offered if and only if every latching offer was taken |
| SendQueues.DeliveredInOrder | crates/wx-agent/src/engine.rs:4422-4439 | whatever happens, what was delivered is the front of what was taken on |
| Liveness.CursorWatch.ProbeCursorOwner | crates/wx-agent/src/engine.rs:2682-2733 | pings, or writes off an owner silent past the limit |
| Liveness.CursorWatch.SyncCursor | crates/wx-agent/src/engine.rs:1905-1922 | taking the cursor starts the owner's clock afresh |
| Liveness.SilentOwnerIsWrittenOff | crates/wx-agent/src/engine.rs:91-119 | a peer holding the cursor was heard from, or took it, within the limit plus one probe, if and only if the cursor was not left there for want of a screen |
| Liveness.StrandedExactlyWhenNowhere | crates/wx-agent/src/state.rs:614-659 | the cursor is left with a lost owner exactly when this machine has no screen and no other reachable machine has one |
| Liveness.OwnScreenIsEnough | crates/wx-agent/src/state.rs:614-659 | over any run, a machine with a screen of its own never leaves the cursor with a lost owner |
| Liveness.LosingMoves | crates/wx-agent/src/state.rs:614-659 | the cursor of a lost machine goes where the rescue says or stays, and the lost machine is forgotten and no other |
| Liveness.RescueIsUsable | crates/wx-agent/src/state.rs:614-659 | there is always an answer, never the lost machine, one without a screen or one out of reach |
| Liveness.HeadlessMachineIsStranded | crates/wx-agent/src/state.rs:614-659 | a screenless machine whose only peer dies is left with the cursor on that peer |
| Liveness.SafeExactlyWithinTheLimit | crates/wx-agent/src/engine.rs:2682-2733 | an owner that answers every ping in time is never written off if and only if reply time plus probe gap fits the limit |
| Liveness.AnsweringOwnerIsKept | crates/wx-agent/src/engine.rs:1009-1018 | with the figures in use: answers within 1500 ms keep the cursor, however long the owner was idle before |
| PairingCards.Store.AdoptPendingPairing | ui/src/agent.js:326-376 | the method does exactly `Adopted` |
| PairingCards.EndsExactly | ui/src/agent.js:326-440 | a live card ends exactly on its verdict or on a snapshot that drops it after it was seen; accepted as that event says |
| PairingCards.LiveCardStands | ui/src/agent.js:396-440 | over any run, no other request or snapshot replaces a live card or what was typed into it |
| PairingCards.UnseenCardIsNotExpired | ui/src/agent.js:288-297 | a card never listed is never expired by snapshots |
| PairingCards.RequestedPromptStands | ui/src/agent.js:411-418 | from no live card, a request raises its prompt with nothing typed, and any number of reads that omit the machine leave it up |
| PairingCards.RequestedPromptEnds | ui/src/agent.js:326-376 | the first read that lists it followed by one that does not ends it, accepted exactly when paired |
| PairingCards.ListedPromptStandsAndEnds | ui/src/agent.js:355-376 | a card raised from a read shows the code exactly where this machine began it, and the next read that omits it ends it |
| PairingCards.VerdictIsTold | ui/src/agent.js:423-434 | a verdict ends its machine's card and no other, and a refusal says why |
| PairingCards.HeadTakesTheFreePrompt | ui/src/agent.js:326-376 | after any run, a snapshot a pairing heads leaves its prompt up if and only if no other machine's was up before |
| PairingCards.HeadIsRaisedWithinTwoSnapshots | ui/src/agent.js:326-376 | a pairing at the head of two snapshots, with any requests and verdicts between: its prompt is up if and only if those leave it to that machine or to nobody |
| PairingCards.HeadIsRaisedAcrossRequests | ui/src/agent.js:326-420 | with requests alone between, exactly when nothing live was in its way, or what was had been seen and dropped and nobody else asked first |
| UnitText.ReadsBackExactlyWhenRepresentable | crates/wx-agent/src/autostart.rs:250-309 | a quoted path reads back as itself if and only if it is representable |
| UnitText.QuotedTellsApart | crates/wx-agent/src/autostart.rs:306-309 | quoting is injective |
| UnitText.FindExecStart | crates/wx-agent/src/autostart.rs:369-380 | the loop finds the single ExecStart value, or none |
| UnitText.RenderedStarts | crates/wx-agent/src/autostart.rs:229-232 | a rendered unit has exactly that ExecStart |
| UnitText.StartsOnlyItsOwn | crates/wx-agent/src/autostart.rs:395-400 | a rendered unit starts exactly the binary it was rendered for |
| Autostart.FileSystem.InstallIn | crates/wx-agent/src/autostart.rs:430-478 | step by step on the file system, exactly `Installed` |
| Autostart.FileSystem.UninstallIn | crates/wx-agent/src/autostart.rs:490-502 | step by step on the file system, exactly `Uninstalled` |
| Autostart.RefusedInstall | crates/wx-agent/src/autostart.rs:430-478 | each refusal exactly: what stood in the way, and what is left as it was |
| Autostart.RefusedUninstall | crates/wx-agent/src/autostart.rs:490-502 | each refusal exactly |
| Autostart.InstallRegistersExactly | crates/wx-agent/src/autostart.rs:430-535 | on any file system a registration that succeeds is registered, and starts the installing binary, if and only if the links from its unit avoid what it replaced; otherwise nothing is registered |
| Autostart.PackagedLinkToLocal | crates/wx-agent/src/autostart.rs:430-478 | a packaged unit that links to the local copy: success is reported and nothing is registered |
| Autostart.InterruptionUnregisters | crates/wx-agent/src/autostart.rs:443-449 | a registration through the local copy, interrupted between removing that copy and repointing the link, reads as not registered |
| Autostart.InstallTwiceExactly | crates/wx-agent/src/autostart.rs:430-478 | registering twice equals once if and only if those links avoid what was replaced and the packaged unit does not lead to the local copy's file |
| Autostart.LocalLinkToPackaged | crates/wx-agent/src/autostart.rs:430-478 | a local copy that links to the packaged unit: the second registration removes what the first kept |
| Autostart.UninstallUnregisters | crates/wx-agent/src/autostart.rs:490-502 | ends unregistered, removing exactly link and local copy; again is harmless |
| Autostart.InstallThenUninstallExactly | crates/wx-agent/src/autostart.rs:480-502 | registering then deregistering leaves what deregistering alone does if and only if the local copy was not written through a link to another file, or that file already held the unit |
| Autostart.OrdinaryIsClear | crates/wx-agent/src/autostart.rs:430-502 | where neither unit is a link all three hold without condition |
| Autostart.PackagedUnitRewrittenExactlyThroughALink | crates/wx-agent/src/autostart.rs:430-478 | the file the packaged unit leads to changes if and only if the local copy is written through to it, or it is itself a place that registering replaces |
| Snapping.BoundsOf | ui/src/snap.js:34-48 | the loop computes the box of every rectangle |
| Snapping.SameSpotExactly | ui/src/snap.js:139-147 | for any placements: the editor's free spot is the agent's if and only if all placements and the other machines' non-empty ones end at one storable right edge with level middles (at the origin where there are none) |
| Snapping.SameSpotExactlyByParity | ui/src/snap.js:139-147 | beside other machines' non-empty screens alone, if and only if the mesh's height is even or the screen's is odd |
| Snapping.EmptyPlacementMovesTheSpot | ui/src/layout.js:342-350 | an empty placement far right draws the editor's spot and not the agent's |
| Snapping.SnapOneAxis | ui/src/snap.js:82-98 | the loop computes `SnapAxis` |
| Snapping.NearestIsFirstNearest | ui/src/snap.js:82-98 | the first of the nearest candidates within the tolerance |
| Snapping.SnapLinesUp | ui/src/snap.js:82-98 | a snap puts an end of the dragged screen on an end of another within the tolerance; none only where no such position is that near |
| Snapping.SnapIsStable | ui/src/snap.js:82-98 | a snapped screen stays put when snapped again |

## Left out

- ClipboardSteps.InvKept: the worker thread is alive; what follows once it has stopped is `ClipboardLoss`.
- ClipboardMesh.ReachesSilence: shows one run to silence; that steps are taken at all is up to the scheduler, and how long every run can be is `ClipboardMesh.EagerRunsFallSilent`.
- LayoutSync.TwoMachinesConverge: two machines; a mesh of three or more, manual edits during the exchange, and displays coming and going are not covered.
- SendQueues.RunFaithful: that a later position follows a shed one is up to the caller and is not stated.
- LineFraming.WrittenThenRead: lines are bytes; lossy UTF-8 decoding is not part of the model.
- Cursors.FreeRunIsExact: exact over the reals; floating-point rounding and the scrubbing of non-finite deltas are not part of the model.
- Autostart.InstallRegistersExactly: creating directories always succeeds, permissions are not modelled, paths are text, and a directory on the way to a file is not itself a link.
- Compression of clipboard payloads: content is carried as it is, with the worker's unpacking free to fail.
- The clipboard session teardown, and the portal and Win32 clipboards: foreign calls.
- 64-bit wrap-around of revisions and serials: both are unbounded.
- QUIC, TLS, discovery, handshake, trust store and pairing codes: foreign libraries and cryptography; sessions are channels with a peer id.
- The control channel's authentication and subscription state: each is one flag that is only ever set.
- `router.rs`, `state.rs`, `to_absolute_grid` and hotkey matching: single-branch facts, or not needed by a harder property.
- The mirror probe for the machine driving this one: the same rule on a second peer id.
- The activity log, rendering, CLI output, the Windows registry and firewall code: presentation or foreign calls.
- The user's own actions on the pairing card (starting, typing, dismissing): each overwrites one field.
- The systemd reload, timers and signals: foreign calls.
