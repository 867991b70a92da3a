/** What one machine remembers about clipboard sync (crates/wx-agent/src/clipboard.rs).

    `Sync` is the state as a value, with the transition each method makes; `ClipboardSync` is the object
    the engine mutates. */
module ClipboardSyncs {
  import opened Wrappers
  import opened Fnv
  import opened Fingerprints

  datatype Format = Png | Html | Utf8Text | FileList

  datatype Capability = ClipboardText | ClipboardImage

  /** A peer, by its index among the machines of a mesh. */
  type PeerId = nat

  type Bytes = seq<byte>

  /** Formats that are synchronised, richest first. A file list never is. */
  const SYNCED: seq<Format> := [Png, Html, Utf8Text]

  function CapabilityFor(format: Format): Option<Capability> {
    match format
    case Utf8Text => Some(ClipboardText)
    case Html => Some(ClipboardText)
    case Png => Some(ClipboardImage)
    case FileList => None
  }

  predicate SupportedBy(caps: set<Capability>, format: Format) {
    var need := CapabilityFor(format);
    need.Some? && need.value in caps
  }

  datatype Snapshot = Snapshot(serial: nat, formats: seq<Format>)

  datatype WriteBack = WriteBack(serial: nat, format: Format, digest: nat)

  datatype LocalChange =
    | Unchanged
    | FirstSighting
    | Echo
    | NothingToOffer
    | Offer(serial: nat, formats: seq<Format>)

  datatype Serve = Read(format: Format) | Stale

  datatype Sync = Sync(
    seen: Option<Snapshot>,
    writeBack: Option<WriteBack>,
    asked: map<PeerId, (nat, Format)>)
  {
    function Serial(): Option<nat> {
      if seen.Some? then Some(seen.value.serial) else None
    }

    function Armed(): Option<(Format, nat)> {
      if writeBack.Some? then Some((writeBack.value.format, writeBack.value.serial)) else None
    }

    predicate Answers(node: PeerId, serial: nat, format: Format) {
      node in asked && asked[node] == (serial, format)
    }

    function Served(serial: nat, format: Format): Serve {
      if seen.Some? && seen.value.serial == serial && format in seen.value.formats then Read(format) else Stale
    }

    function Asking(node: PeerId, serial: nat, format: Format): (Sync, bool) {
      if Answers(node, serial, format) then (this, false)
      else (this.(asked := asked[node := (serial, format)]), true)
    }

    function Settled(node: PeerId): Sync {
      this.(asked := asked - {node})
    }

    function Writing(format: Format, digest: nat): Sync {
      this.(writeBack := Some(WriteBack(if seen.Some? then seen.value.serial else 0, format, digest)))
    }

    function Wrote(serial: nat): Sync {
      if writeBack.Some? then this.(writeBack := Some(writeBack.value.(serial := serial))) else this
    }

    function WriteFailed(): Sync {
      this.(writeBack := None)
    }

    /** The verdict on a sampled serial and format list, and the state it leaves.
        `digest` is the fingerprint of the write-back format, where it could be read. */
    function Observed(serial: nat, formats: seq<Format>, digest: Option<nat>): (Sync, LocalChange) {
      if Serial() == Some(serial) then (this, Unchanged) else
        var syncable := Syncable(formats);
        var looked := this.(seen := Some(Snapshot(serial, syncable)));
        if seen.None? then (looked, FirstSighting)
        else if writeBack.Some? && IsWriteBack(writeBack.value, serial, syncable, digest) then (looked, Echo)
        else if syncable == [] then (looked.WriteFailed(), NothingToOffer)
        else (looked.WriteFailed(), Offer(serial, syncable))
    }
  }

  predicate IsWriteBack(write: WriteBack, serial: nat, syncable: seq<Format>, digest: Option<nat>) {
    serial == write.serial || (write.format in syncable && digest == Some(write.digest))
  }

  /** The synchronised formats among `formats`, in `SYNCED` order. */
  function Syncable(formats: seq<Format>): (r: seq<Format>)
    ensures forall f :: f in r <==> f in SYNCED && f in formats
  {
    OneOf(SYNCED[0], formats) + OneOf(SYNCED[1], formats) + OneOf(SYNCED[2], formats)
  }

  function OneOf(f: Format, formats: seq<Format>): seq<Format> {
    if f in formats then [f] else []
  }

  /** The richest offered format both machines advertise. */
  function Choose(offered: seq<Format>, local: set<Capability>, peer: set<Capability>): (r: Option<Format>)
    ensures r.None? <==> forall f <- SYNCED :: !Usable(f, offered, local, peer)
    ensures r.Some? ==> r.value in SYNCED && Usable(r.value, offered, local, peer)
    ensures r.Some? ==> forall i :: 0 <= i < |SYNCED| && Usable(SYNCED[i], offered, local, peer) ==>
                          exists j :: 0 <= j <= i && SYNCED[j] == r.value
  {
    if Usable(SYNCED[0], offered, local, peer) then Some(SYNCED[0])
    else if Usable(SYNCED[1], offered, local, peer) then Some(SYNCED[1])
    else if Usable(SYNCED[2], offered, local, peer) then Some(SYNCED[2])
    else None
  }

  predicate Usable(f: Format, offered: seq<Format>, local: set<Capability>, peer: set<Capability>) {
    f in offered && SupportedBy(local, f) && SupportedBy(peer, f)
  }

  /** The clipboard is only read back when the answer can change the verdict: whenever the serial has not
      moved, no write is outstanding, the serial is the one the write produced, or the written format is
      gone, every digest gives the same result. These are the cases the worker skips the read in. */
  lemma DigestOnlyWhenItMatters(s: Sync, serial: nat, formats: seq<Format>, d: Option<nat>, e: Option<nat>)
    requires s.Serial() == Some(serial) || s.writeBack.None? || s.writeBack.value.serial == serial
          || s.writeBack.value.format !in formats
    ensures s.Observed(serial, formats, d) == s.Observed(serial, formats, e)
  {
  }

  /** Local content is announced exactly when it is new, is not the first look, is not recognised as this
      machine's own write, and has something to announce. */
  lemma OfferedExactlyWhenNew(s: Sync, serial: nat, formats: seq<Format>, digest: Option<nat>)
    ensures s.Observed(serial, formats, digest).1.Offer? <==>
              && s.seen.Some? && s.seen.value.serial != serial
              && (exists f <- SYNCED :: f in formats)
              && (s.writeBack.None? || !IsWriteBack(s.writeBack.value, serial, Syncable(formats), digest))
  {
    assert Syncable(formats) == [] || Syncable(formats)[0] in SYNCED;
  }

  class ClipboardSync {
    var seen: Option<Snapshot>
    var writeBack: Option<WriteBack>
    var asked: map<PeerId, (nat, Format)>

    function View(): Sync
      reads this
    {
      Sync(seen, writeBack, asked)
    }

    constructor ()
      ensures View() == Sync(None, None, map[])
    {
      seen, writeBack, asked := None, None, map[];
    }

    method Observe(serial: nat, formats: seq<Format>, digest: Format -> Option<nat>) returns (change: LocalChange)
      modifies this
      ensures var answer := if old(writeBack).Some? then digest(old(writeBack).value.format) else None;
              (View(), change) == old(View()).Observed(serial, formats, answer)
    {
      if seen.Some? && seen.value.serial == serial {
        return Unchanged;
      }
      var syncable := Syncable(formats);
      var first := seen.None?;
      seen := Some(Snapshot(serial, syncable));
      if first {
        return FirstSighting;
      }
      if writeBack.Some? {
        var write := writeBack.value;
        if serial == write.serial {
          return Echo;
        }
        if write.format in syncable && digest(write.format) == Some(write.digest) {
          return Echo;
        }
        writeBack := None;
      }
      if syncable == [] {
        return NothingToOffer;
      }
      return Offer(serial, syncable);
    }

    method Ask(node: PeerId, serial: nat, format: Format) returns (fresh_: bool)
      modifies this`asked
      ensures (View(), fresh_) == old(View()).Asking(node, serial, format)
    {
      if node in asked && asked[node] == (serial, format) {
        return false;
      }
      asked := asked[node := (serial, format)];
      return true;
    }

    method Settle(node: PeerId)
      modifies this`asked
      ensures View() == old(View()).Settled(node)
    {
      asked := asked - {node};
    }

    method Writing(format: Format, digest: nat)
      modifies this`writeBack
      ensures View() == old(View()).Writing(format, digest)
    {
      writeBack := Some(WriteBack(if seen.Some? then seen.value.serial else 0, format, digest));
    }

    method Wrote(serial: nat)
      modifies this`writeBack
      ensures View() == old(View()).Wrote(serial)
    {
      if writeBack.Some? {
        writeBack := Some(writeBack.value.(serial := serial));
      }
    }

    method WriteFailed()
      modifies this`writeBack
      ensures View() == old(View()).WriteFailed()
    {
      writeBack := None;
    }
  }
}
