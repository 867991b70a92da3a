/** The clipboard payload fingerprint (crates/wx-agent/src/clipboard.rs). */
module Fingerprints {
  import opened Fnv

  const SAMPLE: nat := 64 * 1024

  /** End of the slice hashed from the front. */
  function HeadEnd(len: nat): nat {
    if len < SAMPLE then len else SAMPLE
  }

  /** Start of the slice hashed from the back: saturating, and never inside the head. */
  function TailStart(len: nat): nat {
    var t := if len < SAMPLE then 0 else len - SAMPLE;
    if t < HeadEnd(len) then HeadEnd(len) else t
  }

  function LittleEndian(n: nat, width: nat): seq<byte> {
    if width == 0 then [] else [n % 0x100] + LittleEndian(n / 0x100, width - 1)
  }

  function Fingerprint(bytes: seq<byte>): nat {
    var len := |bytes|;
    var h := Eat(FNV64, FNV64.offset, LittleEndian(len, 8));
    Eat(FNV64, Eat(FNV64, h, bytes[..HeadEnd(len)]), bytes[TailStart(len)..])
  }

  predicate Sampled(len: nat, i: nat) {
    i < HeadEnd(len) || TailStart(len) <= i < len
  }

  /** The two slices never overlap; together they cover everything up to 128 KiB, and beyond that
      exactly the first and the last 64 KiB. */
  lemma SampledRange(len: nat, i: nat)
    requires i < len
    ensures HeadEnd(len) <= TailStart(len) <= len
    ensures Sampled(len, i) <==> len <= 131_072 || i < 65_536 || len - 65_536 <= i
  {
  }

  /** The bytes a payload is judged by: head and tail, joined. */
  function Sample(bytes: seq<byte>): seq<byte> {
    bytes[..HeadEnd(|bytes|)] + bytes[TailStart(|bytes|)..]
  }

  lemma FingerprintHashesSample(bytes: seq<byte>)
    ensures Fingerprint(bytes)
         == Eat(FNV64, Eat(FNV64, FNV64.offset, LittleEndian(|bytes|, 8)), Sample(bytes))
  {
    var h := Eat(FNV64, FNV64.offset, LittleEndian(|bytes|, 8));
    EatConcat(FNV64, h, bytes[..HeadEnd(|bytes|)], bytes[TailStart(|bytes|)..]);
  }

  /** Two payloads of one length that differ in exactly one byte share a fingerprint if and only if
      that byte is outside both sampled slices. */
  lemma OneByteDifference(bytes: seq<byte>, i: nat, b: byte)
    requires i < |bytes| && b != bytes[i]
    ensures Fingerprint(bytes[i := b]) != Fingerprint(bytes) <==> Sampled(|bytes|, i)
  {
    var other := bytes[i := b];
    var len := |bytes|;
    var h := Eat(FNV64, FNV64.offset, LittleEndian(len, 8));
    FingerprintHashesSample(bytes);
    FingerprintHashesSample(other);
    SampleOfUpdate(bytes, i, b);
    if Sampled(len, i) {
      BothWidthsSound();
      EatBounded(FNV64, FNV64.offset, LittleEndian(len, 8));
      EatTellsOneByteApart(FNV64, h, Sample(bytes), SampleIndex(len, i), b);
    }
  }

  /** Where byte `i` ends up in the sample. */
  function SampleIndex(len: nat, i: nat): nat
    requires Sampled(len, i)
  {
    if i < HeadEnd(len) then i else HeadEnd(len) + (i - TailStart(len))
  }

  lemma SampleOfUpdate(bytes: seq<byte>, i: nat, b: byte)
    requires i < |bytes|
    ensures Sampled(|bytes|, i) ==>
              var at := SampleIndex(|bytes|, i);
              at < |Sample(bytes)| && Sample(bytes)[at] == bytes[i] && Sample(bytes[i := b]) == Sample(bytes)[at := b]
    ensures !Sampled(|bytes|, i) ==> Sample(bytes[i := b]) == Sample(bytes)
  {
  }

  // --- The length ----------------------------------------------------------

  function FromLittleEndian(bytes: seq<byte>): nat {
    if bytes == [] then 0 else bytes[0] + 0x100 * FromLittleEndian(bytes[1..])
  }

  function Pow256(width: nat): (r: nat)
    ensures r > 0
  {
    if width == 0 then 1 else 0x100 * Pow256(width - 1)
  }

  /** That many bytes, and what they say is the number, up to what fits in them. */
  lemma {:induction false} LittleEndianReadsBack(n: nat, width: nat)
    ensures |LittleEndian(n, width)| == width
    ensures n < Pow256(width) ==> FromLittleEndian(LittleEndian(n, width)) == n
  {
    if width > 0 {
      LittleEndianReadsBack(n / 0x100, width - 1);
      var bytes := LittleEndian(n, width);
      assert bytes[1..] == LittleEndian(n / 0x100, width - 1);
      assert n == n % 0x100 + 0x100 * (n / 0x100);
    }
  }

  /** Payloads that sample alike have different fingerprints where their lengths differ in exactly one of their
      eight bytes. */
  lemma LengthTellsApart(a: seq<byte>, b: seq<byte>, i: nat)
    requires Sample(a) == Sample(b) && i < 8
    requires var x, y := LittleEndian(|a|, 8), LittleEndian(|b|, 8);
             i < |x| && i < |y| && x[i] != y[i] && y == x[i := y[i]]
    ensures Fingerprint(a) != Fingerprint(b)
  {
    var x, y := LittleEndian(|a|, 8), LittleEndian(|b|, 8);
    FingerprintHashesSample(a);
    FingerprintHashesSample(b);
    BothWidthsSound();
    EatTellsOneByteApart(FNV64, FNV64.offset, x, i, y[i]);
    EatBounded(FNV64, FNV64.offset, x);
    EatBounded(FNV64, FNV64.offset, y);
    hide Eat, LittleEndian, Sample;
    if Fingerprint(a) == Fingerprint(b) {
      EatTellsSeedsApart(FNV64, Eat(FNV64, FNV64.offset, x), Eat(FNV64, FNV64.offset, y), Sample(a));
    }
  }

  /** For one: cutting a payload of one repeated byte, longer than both samples, within the low byte of its length. */
  lemma CuttingShows(c: byte, len: nat, cut: nat)
    requires 0 < cut <= len % 0x100 && len - cut >= 2 * SAMPLE
    ensures Fingerprint(seq(len, _ => c)) != Fingerprint(seq(len - cut, _ => c))
  {
    var a, b := seq(len, _ => c), seq(len - cut, _ => c);
    assert Sample(a) == seq(2 * SAMPLE, _ => c) == Sample(b);
    var x, y := LittleEndian(len, 8), LittleEndian(len - cut, 8);
    assert (len - cut) / 0x100 == len / 0x100 && (len - cut) % 0x100 == len % 0x100 - cut;
    LittleEndianReadsBack(len, 8);
    LittleEndianReadsBack(len - cut, 8);
    assert x[1..] == y[1..];
    assert y == x[0 := y[0]];
    LengthTellsApart(a, b, 0);
  }
}
