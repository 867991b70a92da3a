/** Monitor identity: hashed names, forced apart when they collide (crates/wx-platform/src/coords.rs). */
module MonitorIds {
  import opened Fnv
  import opened Ints
  import opened Occurrences

  const WORD: nat := 0x1_0000_0000

  /** `wrapping_add(k)`. */
  function Bump(id: u32, k: nat): u32 {
    (id + k) % WORD
  }

  // --- stable_monitor_id ---------------------------------------------------

  method StableMonitorId(name: seq<byte>) returns (hash: u32)
    ensures hash == Eat(FNV32, FNV32.offset, name)
  {
    BothWidthsSound();
    hash := FNV32.offset;
    for i := 0 to |name|
      invariant Eat(FNV32, FNV32.offset, name) == Eat(FNV32, hash, name[i..])
    {
      StepIsBijective(FNV32, hash, name[i]);
      assert name[i..][1..] == name[i + 1..];
      hash := Step(FNV32, hash, name[i]);
    }
  }

  /** Two display names of one length that differ in exactly one byte never get the same id. */
  lemma OneByteNames(name: seq<byte>, i: nat, b: byte)
    requires i < |name| && b != name[i]
    ensures Eat(FNV32, FNV32.offset, name[i := b]) != Eat(FNV32, FNV32.offset, name)
  {
    BothWidthsSound();
    EatTellsOneByteApart(FNV32, FNV32.offset, name, i, b);
  }

  // --- deduplicate_ids -----------------------------------------------------

  /** What the bounded probe leaves: at most `fuel` nudges past ids already taken. */
  function Probe(taken: seq<u32>, id: u32, fuel: nat): u32
    decreases fuel
  {
    if fuel == 0 || id !in taken then id else Probe(taken, Bump(id, 1), fuel - 1)
  }

  /** The first `n` ids once each has been probed against the ones before it. */
  function Deduplicated(ids: seq<u32>, n: nat): (r: seq<u32>)
    requires n <= |ids|
    ensures |r| == n
  {
    if n == 0 then [] else
      var taken := Deduplicated(ids, n - 1);
      taken + [Probe(taken, ids[n - 1], |ids|)]
  }

  method DeduplicateIds(ids: array<u32>)
    modifies ids
    ensures ids[..] == Deduplicated(old(ids[..]), ids.Length)
    ensures ids.Length <= WORD <==> NoRepeats(ids[..])
    ensures NoRepeats(old(ids[..])) ==> ids[..] == old(ids[..])
  {
    ghost var was := ids[..];
    for i := 0 to ids.Length
      invariant ids[..i] == Deduplicated(was, i)
      invariant ids[i..] == was[i..]
    {
      ghost var taken := ids[..i];
      ghost var start := ids[i];
      assert start == was[i] by { assert ids[i..][0] == was[i..][0]; }
      var n := 0;
      while n < ids.Length && ids[i] in ids[..i]
        invariant n <= ids.Length && ids[..i] == taken && ids[i + 1..] == was[i + 1..]
        invariant Probe(taken, ids[i], ids.Length - n) == Probe(taken, start, ids.Length)
        decreases ids.Length - n
      {
        ids[i] := Bump(ids[i], 1);
        n := n + 1;
      }
      assert ids[..i + 1] == taken + [ids[i]];
    }
    assert ids[..] == ids[..ids.Length];
    DistinctExactlyWhenTheyFit(was);
    if NoRepeats(was) {
      DistinctUnchanged(was, ids.Length);
      assert was[..ids.Length] == was;
    }
  }

  /** The probe stops `k` nudges on, at the first id not taken. */
  ghost predicate FirstFree(taken: seq<u32>, id: u32, found: u32, k: nat) {
    && found == Bump(id, k) && found !in taken
    && forall j :: 0 <= j < k ==> Bump(id, j) in taken
  }

  lemma {:induction false} ProbeWalks(taken: seq<u32>, id: u32, fuel: nat) returns (k: nat)
    ensures k <= fuel && Probe(taken, id, fuel) == Bump(id, k)
    ensures forall j :: 0 <= j < k ==> Bump(id, j) in taken
    ensures k < fuel ==> Probe(taken, id, fuel) !in taken
    decreases fuel
  {
    if fuel == 0 || id !in taken {
      k := 0;
    } else {
      var next := Bump(id, 1);
      var m := ProbeWalks(taken, next, fuel - 1);
      k := m + 1;
      forall j | 0 <= j < k
        ensures Bump(id, j) in taken
      {
        if j > 0 {
          assert Bump(next, j - 1) == Bump(id, j);
        }
      }
      assert Bump(next, m) == Bump(id, k);
    }
  }

  /** `k` consecutive taken ids (wrapping) are `k` different ids, so there are at least `k` taken. */
  lemma RunFits(taken: seq<u32>, id: u32, k: nat)
    requires k <= WORD && forall j :: 0 <= j < k ==> Bump(id, j) in taken
    ensures k <= |taken|
  {
    var run: seq<u32> := seq(k, j requires 0 <= j < k => Bump(id, j));
    forall i, j | 0 <= i < j < k
      ensures run[i] != run[j]
    {
      BumpsDiffer(id, i, j);
    }
    ElementsCount(run);
    assert Elements(run) <= Elements(taken);
    SubsetSize(Elements(run), Elements(taken));
    ElementsCount(taken);
  }

  lemma BumpsDiffer(id: u32, i: nat, j: nat)
    requires i < j < i + WORD
    ensures Bump(id, i) != Bump(id, j)
  {
  }

  /** While fewer ids are taken than there are ids, the bounded probe always finds the first free one. */
  lemma ProbeFindsFirstFree(taken: seq<u32>, id: u32, fuel: nat) returns (k: nat)
    requires |taken| < fuel && |taken| < WORD
    ensures FirstFree(taken, id, Probe(taken, id, fuel), k)
  {
    k := ProbeWalks(taken, id, fuel);
    if k > |taken| {
      RunFits(taken, id, |taken| + 1);
      assert false;
    }
  }

  /** Each id becomes the first value at or after its own, wrapping, that no earlier id holds. */
  lemma {:induction false} EachTakesFirstFree(ids: seq<u32>, n: nat, i: nat) returns (k: nat)
    requires i < n <= |ids| <= WORD
    ensures FirstFree(Deduplicated(ids, n)[..i], ids[i], Deduplicated(ids, n)[i], k)
  {
    if i == n - 1 {
      k := ProbeFindsFirstFree(Deduplicated(ids, n - 1), ids[i], |ids|);
      assert Deduplicated(ids, n)[..i] == Deduplicated(ids, n - 1);
    } else {
      k := EachTakesFirstFree(ids, n - 1, i);
      assert Deduplicated(ids, n)[..i] == Deduplicated(ids, n - 1)[..i];
    }
  }

  lemma DistinctExactlyWhenTheyFit(ids: seq<u32>)
    ensures NoRepeats(Deduplicated(ids, |ids|)) <==> |ids| <= WORD
  {
    var out := Deduplicated(ids, |ids|);
    if |ids| <= WORD {
      forall i, j | 0 <= i < j < |out|
        ensures out[i] != out[j]
      {
        var k := EachTakesFirstFree(ids, |ids|, j);
        assert out[i] in out[..j];
      }
    } else if NoRepeats(out) {
      ElementsCount(out);
      SubsetSize(Elements(out), Below(WORD));
      assert false;
    }
  }

  ghost function Below(n: nat): (r: set<int>)
    ensures |r| == n && forall x :: x in r <==> 0 <= x < n
  {
    if n == 0 then {} else Below(n - 1) + {n - 1}
  }

  lemma {:induction false} DistinctUnchanged(ids: seq<u32>, n: nat)
    requires n <= |ids| && NoRepeats(ids)
    ensures Deduplicated(ids, n) == ids[..n]
  {
    if n > 0 {
      DistinctUnchanged(ids, n - 1);
      assert ids[n - 1] !in ids[..n - 1];
      assert ids[..n] == ids[..n - 1] + [ids[n - 1]];
    }
  }

  // --- Values saved layouts rely on ----------------------------------------

  lemma LetterMixed()
    ensures Xor(0xc5, 0x61, 8) == 0xa4
  {
    assert Xor(3, 1, 2) == 2;
    assert Xor(12, 6, 4) == 10;
    assert Xor(49, 24, 6) == 41;
  }

  /** The ids of the empty name and of one letter, which no change may move. */
  lemma KnownIds()
    ensures Eat(FNV32, FNV32.offset, []) == 0x811c_9dc5
    ensures Eat(FNV32, FNV32.offset, [0x61]) == 0xe40c_292c
  {
    LetterMixed();
    hide Xor;
    assert 0x811c_9dc5 / 0x100 * 0x100 == 0x811c_9d00 && 0x811c_9dc5 % 0x100 == 0xc5;
    assert Mix(0x811c_9dc5, 0x61) == 0x811c_9da4;
    assert 0x811c_9da4 * 0x0100_0193 % 0x1_0000_0000 == 0xe40c_292c;
    hide Mix;
    assert Step(FNV32, 0x811c_9dc5, 0x61) == 0xe40c_292c;
    hide Step;
    assert [0x61 as byte][1..] == [];
  }

  /** Three of one id become three in a row. */
  lemma KnownNudges()
    ensures Deduplicated([7, 7, 7], 3) == [7, 8, 9]
  {
    var ids: seq<u32> := [7, 7, 7];
    assert Deduplicated(ids, 1) == [7];
    assert Probe([7], 7, 3) == Probe([7], 8, 2) == 8;
    assert Deduplicated(ids, 2) == [7, 8];
    assert Probe([7, 8], 7, 3) == Probe([7, 8], 8, 2) == Probe([7, 8], 9, 1) == 9;
  }
}
