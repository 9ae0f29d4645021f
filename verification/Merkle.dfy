/** The merkle tree over score-packet digests (vidaio/audit/commitments.py). SHA-256 is the free
    constructor of `Hash`: `Leaf` is the hash of 0x00 and a digest, `Node` the hash of 0x01 and two
    hashes, `Opaque` any other value a proof may contain. A digest is its 32 bytes read as a
    big-endian number, so Python's order of the bytes is the order of the numbers. */
module Merkle {
  import opened Wrappers
  import opened Ordering

  type Digest = nat

  datatype Hash = Leaf(digest: Digest) | Node(left: Hash, right: Hash) | Opaque(value: nat)

  /** Where the sibling sits: the texts "left" and "right", or anything else. */
  datatype Side = OnLeft | OnRight | Unknown(text: string)

  type Proof = seq<(Hash, Side)>

  datatype TreeError = NoLeaves | NotALeaf

  // -- the tree ------------------------------------------------------------------

  function SortedLeaves(digests: seq<Digest>): seq<Digest> {
    SortBy(digests, (d: Digest) => d)
  }

  function Hashed(leaves: seq<Digest>): (r: seq<Hash>)
    ensures |r| == |leaves|
  {
    seq(|leaves|, i requires 0 <= i < |leaves| => Leaf(leaves[i]))
  }

  /** Pairs become nodes; an odd last hash is promoted unchanged. */
  function NextLevel(cur: seq<Hash>): (r: seq<Hash>)
    ensures |r| == (|cur| + 1) / 2
  {
    seq((|cur| + 1) / 2,
        i requires 0 <= i < (|cur| + 1) / 2 => if 2 * i + 1 < |cur| then Node(cur[2 * i], cur[2 * i + 1])
          else cur[2 * i])
  }

  function LevelsFrom(level: seq<Hash>): (r: seq<seq<Hash>>)
    requires level != []
    ensures r != [] && r[0] == level && |r[|r| - 1]| == 1
    ensures forall i :: 0 <= i < |r| ==> r[i] != []
    ensures forall i :: 0 <= i < |r| - 1 ==> |r[i]| > 1 && r[i + 1] == NextLevel(r[i])
    decreases |level|
  {
    if |level| == 1 then [level] else [level] + LevelsFrom(NextLevel(level))
  }

  function Top(level: seq<Hash>): Hash
    requires level != []
    decreases |level|
  {
    if |level| == 1 then level[0] else Top(NextLevel(level))
  }

  function Root(digests: seq<Digest>): Hash
    requires digests != []
  {
    Top(Hashed(SortedLeaves(digests)))
  }

  // -- proofs ----------------------------------------------------------------------

  /** The sibling of every level but the last, from the leaf up. */
  function Path(level: seq<Hash>, idx: nat): Proof
    requires idx < |level|
    decreases |level|
  {
    if |level| == 1 then []
    else if idx == |level| - 1 && |level| % 2 == 1 then Path(NextLevel(level), idx / 2)
    else
      var step := if idx % 2 == 0 then (level[idx + 1], OnRight) else (level[idx - 1], OnLeft);
      [step] + Path(NextLevel(level), idx / 2)
  }

  /** The running hash of the verifier; an unknown side stops it. */
  function Climb(h: Hash, proof: Proof): Option<Hash>
    decreases |proof|
  {
    if proof == [] then Some(h)
    else if proof[0].1.OnLeft? then Climb(Node(proof[0].0, h), proof[1..])
    else if proof[0].1.OnRight? then Climb(Node(h, proof[0].0), proof[1..])
    else None
  }

  predicate Accepts(digest: Digest, proof: Proof, root: Hash) {
    Climb(Leaf(digest), proof) == Some(root)
  }

  // -- the loops ----------------------------------------------------------------------

  lemma {:induction false} ChainIsLevels(levels: seq<seq<Hash>>)
    requires levels != [] && |levels[|levels| - 1]| == 1
    requires forall i :: 0 <= i < |levels| - 1 ==> |levels[i]| > 1 && levels[i + 1] == NextLevel(levels[i])
    ensures levels[0] != [] && levels == LevelsFrom(levels[0])
  {
    if |levels| > 1 {
      ChainIsLevels(levels[1..]);
      assert levels == [levels[0]] + levels[1..];
    }
  }

  method Levels(leaves: seq<Digest>) returns (levels: seq<seq<Hash>>)
    requires leaves != []
    ensures levels == LevelsFrom(Hashed(leaves))
  {
    levels := [Hashed(leaves)];
    while |levels[|levels| - 1]| > 1
      invariant levels != [] && levels[0] == Hashed(leaves) && levels[|levels| - 1] != []
      invariant forall i :: 0 <= i < |levels| - 1 ==> |levels[i]| > 1 && levels[i + 1] == NextLevel(levels[i])
      decreases |levels[|levels| - 1]|
    {
      levels := levels + [NextLevel(levels[|levels| - 1])];
    }
    ChainIsLevels(levels);
  }

  method MerkleRoot(digests: seq<Digest>) returns (r: Result<Hash, TreeError>)
    ensures digests == [] ==> r == Failure(NoLeaves)
    ensures digests != [] ==> r == Success(Root(digests))
  {
    var leaves := SortedLeaves(digests);
    if leaves == [] {
      return Failure(NoLeaves);
    }
    var levels := Levels(leaves);
    TopIsLast(Hashed(leaves));
    return Success(levels[|levels| - 1][0]);
  }

  lemma {:induction false} TopIsLast(level: seq<Hash>)
    requires level != []
    ensures var levels := LevelsFrom(level); Top(level) == levels[|levels| - 1][0]
    decreases |level|
  {
    if |level| > 1 { TopIsLast(NextLevel(level)); }
  }

  lemma Regroup(a: Proof, step: (Hash, Side), b: Proof)
    ensures a + ([step] + b) == (a + [step]) + b
  {}

  /** The walk up the levels. */
  method Siblings(levels: seq<seq<Hash>>, start: nat) returns (proof: Proof)
    requires levels != [] && levels[0] != [] && levels == LevelsFrom(levels[0]) && start < |levels[0]|
    ensures proof == Path(levels[0], start)
  {
    proof := [];
    var idx: nat := start;
    var l := 0;
    while l < |levels| - 1
      invariant 0 <= l < |levels| && idx < |levels[l]|
      invariant proof + Path(levels[l], idx) == Path(levels[0], start)
    {
      var level := levels[l];
      if idx == |level| - 1 && |level| % 2 == 1 {
        idx := idx / 2;
      } else {
        var sibling := if idx % 2 == 0 then idx + 1 else idx - 1;
        var step := (level[sibling], if sibling < idx then OnLeft else OnRight);
        assert Path(level, idx) == [step] + Path(levels[l + 1], idx / 2);
        Regroup(proof, step, Path(levels[l + 1], idx / 2));
        idx := idx / 2;
        proof := proof + [step];
      }
      l := l + 1;
    }
    assert proof + [] == proof;
  }

  method MerkleProof(digests: seq<Digest>, target: Digest) returns (r: Result<Proof, TreeError>)
    ensures digests == [] ==> r == Failure(NoLeaves)
    ensures digests != [] && target !in digests ==> r == Failure(NotALeaf)
    ensures target in digests ==> r.Success? && Accepts(target, r.value, Root(digests))
    ensures target in digests ==> forall d: nat :: |digests| <= Power(d) ==> |r.value| <= d
  {
    var leaves := SortedLeaves(digests);
    if leaves == [] {
      return Failure(NoLeaves);
    }
    SortKeepsMembers(digests, (d: Digest) => d, target);
    var idx := 0;
    while idx < |leaves| && leaves[idx] != target
      invariant 0 <= idx <= |leaves| && target !in leaves[..idx]
    {
      idx := idx + 1;
    }
    if idx == |leaves| {
      assert leaves[..idx] == leaves;
      return Failure(NotALeaf);
    }
    var levels := Levels(leaves);
    var proof := Siblings(levels, idx);
    PathIsAccepted(Hashed(leaves), idx);
    forall d: nat | |digests| <= Power(d) ensures |proof| <= d { PathIsShort(Hashed(leaves), idx, d); }
    return Success(proof);
  }

  method VerifyMerkleProof(digest: Digest, proof: Proof, root: Hash) returns (ok: bool)
    ensures ok <==> Accepts(digest, proof, root)
  {
    var h := Leaf(digest);
    var i := 0;
    while i < |proof|
      invariant 0 <= i <= |proof|
      invariant Climb(h, proof[i..]) == Climb(Leaf(digest), proof)
    {
      var (sibling, side) := proof[i];
      assert proof[i..][1..] == proof[i + 1..];
      if side.OnLeft? {
        h := Node(sibling, h);
      } else if side.OnRight? {
        h := Node(h, sibling);
      } else {
        return false;
      }
      i := i + 1;
    }
    return h == root;
  }

  // -- completeness -----------------------------------------------------------------

  function Power(d: nat): (r: nat)
    ensures r >= 1
  {
    if d == 0 then 1 else 2 * Power(d - 1)
  }

  lemma {:induction false} PathIsAccepted(level: seq<Hash>, idx: nat)
    requires idx < |level|
    ensures Climb(level[idx], Path(level, idx)) == Some(Top(level))
    decreases |level|
  {
    if |level| > 1 {
      PathIsAccepted(NextLevel(level), idx / 2);
      PathClimbs(level, idx, Path(NextLevel(level), idx / 2));
    }
  }

  predicate Promoted(level: seq<Hash>, idx: nat) { idx == |level| - 1 && |level| % 2 == 1 }

  lemma ParentOf(level: seq<Hash>, idx: nat)
    requires idx < |level| && 1 < |level|
    ensures NextLevel(level)[idx / 2] ==
            if Promoted(level, idx) then level[idx]
            else if idx % 2 == 0 then Node(level[idx], level[idx + 1]) else Node(level[idx - 1], level[idx])
  {}

  lemma PathIs(level: seq<Hash>, idx: nat)
    requires idx < |level| && 1 < |level|
    ensures Path(level, idx) == (if Promoted(level, idx) then []
                                 else if idx % 2 == 0 then [(level[idx + 1], OnRight)] else [(level[idx - 1], OnLeft)])
                                + Path(NextLevel(level), idx / 2)
  {}

  /** One level up: the running hash becomes the parent, or stays when it is promoted. */
  lemma PathClimbs(level: seq<Hash>, idx: nat, rest: Proof)
    requires idx < |level| && 1 < |level| && rest == Path(NextLevel(level), idx / 2)
    ensures Climb(level[idx], Path(level, idx)) == Climb(NextLevel(level)[idx / 2], rest)
  {
    ParentOf(level, idx);
    PathIs(level, idx);
    if Promoted(level, idx) {
      assert [] + rest == rest;
    } else if idx % 2 == 0 {
      ClimbStep(level[idx], level[idx + 1], OnRight, rest);
    } else {
      ClimbStep(level[idx], level[idx - 1], OnLeft, rest);
    }
  }

  lemma ClimbStep(h: Hash, sibling: Hash, side: Side, rest: Proof)
    requires !side.Unknown?
    ensures Climb(h, [(sibling, side)] + rest) == Climb(if side.OnLeft? then Node(sibling, h) else Node(h, sibling),
                                                        rest)
  {
    assert ([(sibling, side)] + rest)[1..] == rest;
  }

  lemma {:induction false} PathIsShort(level: seq<Hash>, idx: nat, d: nat)
    requires idx < |level| <= Power(d)
    ensures |Path(level, idx)| <= d
    decreases d
  {
    if |level| > 1 {
      PathIsShort(NextLevel(level), idx / 2, d - 1);
    }
  }

  /** The root does not depend on the order the digests are given in. */
  lemma RootIgnoresOrder(a: seq<Digest>, b: seq<Digest>)
    requires a != [] && multiset(a) == multiset(b)
    ensures b != [] && Root(a) == Root(b)
  {
    assert a[0] in multiset(b);
    SortIgnoresArrival(a, b, (d: Digest) => d);
  }

  // -- soundness and binding ----------------------------------------------------------

  /** The digests under a hash, from left to right. */
  function Below(h: Hash): seq<Digest> {
    match h
    case Leaf(d) => [d]
    case Node(l, r) => Below(l) + Below(r)
    case Opaque(_) => []
  }

  function BelowAll(level: seq<Hash>): seq<Digest> {
    if level == [] then [] else Below(level[0]) + BelowAll(level[1..])
  }

  lemma {:induction false} LevelKeepsDigests(level: seq<Hash>)
    ensures BelowAll(NextLevel(level)) == BelowAll(level)
    decreases |level|
  {
    if |level| == 1 {
      assert NextLevel(level) == level;
    } else if |level| > 1 {
      var next := NextLevel(level);
      assert next[1..] == NextLevel(level[2..]);
      LevelKeepsDigests(level[2..]);
      assert level[1..][1..] == level[2..];
      assert Below(level[0]) + (Below(level[1]) + BelowAll(level[2..])) == Below(next[0]) + BelowAll(next[1..]);
    }
  }

  lemma {:induction false} TopKeepsDigests(level: seq<Hash>)
    requires level != []
    ensures Below(Top(level)) == BelowAll(level)
    decreases |level|
  {
    if |level| == 1 {
      assert BelowAll(level[1..]) == [];
    } else {
      LevelKeepsDigests(level);
      TopKeepsDigests(NextLevel(level));
    }
  }

  lemma {:induction false} HashedDigests(leaves: seq<Digest>)
    ensures BelowAll(Hashed(leaves)) == leaves
  {
    if leaves != [] {
      assert Hashed(leaves)[1..] == Hashed(leaves[1..]);
      HashedDigests(leaves[1..]);
    }
  }

  // -- the tree in terms of its leaves alone --------------------------------------------

  /** The digests below the root from left to right are those given, in non-decreasing order. */
  lemma LeavesAscendBelowRoot(digests: seq<Digest>)
    requires digests != []
    ensures var below := Below(Root(digests));
            multiset(below) == multiset(digests) && forall i, j :: 0 <= i < j < |below| ==> below[i] <= below[j]
  {
    RootOpensToLeaves(digests);
    var below := Below(Root(digests));
    assert Ascending(below, (d: Digest) => d);
    forall i, j | 0 <= i < j < |below| ensures below[i] <= below[j] {
      assert ((d: Digest) => d)(below[i]) <= ((d: Digest) => d)(below[j]);
    }
  }

  /** The shape of the tree is that of section 2.1 of RFC 6962: the left subtree is the complete one of
      the largest power of two below the number of leaves. Promoting odd hashes level by level comes to
      the same. */
  lemma {:induction false} TopSplits(level: seq<Hash>, j: nat)
    requires Power(j) < |level| <= 2 * Power(j)
    ensures Top(level) == Node(Top(level[..Power(j)]), Top(level[Power(j)..]))
    decreases j
  {
    var k := Power(j);
    var left, right := level[..k], level[k..];
    if j == 0 {
      assert NextLevel(level) == [Node(level[0], level[1])];
    } else {
      var half := Power(j - 1);
      NextOfHalves(level, half);
      TopSplits(NextLevel(level), j - 1);
      assert NextLevel(level)[..half] == NextLevel(left) && NextLevel(level)[half..] == NextLevel(right);
      assert |right| > 1 || NextLevel(right) == right;
    }
  }

  lemma NextOfHalves(level: seq<Hash>, half: nat)
    requires 2 * half <= |level|
    ensures NextLevel(level) == NextLevel(level[..2 * half]) + NextLevel(level[2 * half..])
  {}

  /** So over ascending digests the root of one leaf is its hash, and any other root splits there. */
  lemma RootSplits(digests: seq<Digest>, j: nat)
    requires Power(j) < |digests| <= 2 * Power(j)
    requires forall i, k :: 0 <= i < k < |digests| ==> digests[i] <= digests[k]
    ensures Root(digests) == Node(Root(digests[..Power(j)]), Root(digests[Power(j)..]))
  {
    var k := Power(j);
    SortedAlready(digests);
    SortedAlready(digests[..k]);
    SortedAlready(digests[k..]);
    assert Hashed(digests)[..k] == Hashed(digests[..k]) && Hashed(digests)[k..] == Hashed(digests[k..]);
    TopSplits(Hashed(digests), j);
  }

  lemma RootOfOne(d: Digest)
    ensures Root([d]) == Leaf(d)
  {
    SortedAlready([d]);
  }

  lemma SortedAlready(digests: seq<Digest>)
    requires forall i, k :: 0 <= i < k < |digests| ==> digests[i] <= digests[k]
    ensures SortedLeaves(digests) == digests
  {
    AscendingIsUnique(SortedLeaves(digests), digests, (d: Digest) => d);
  }

  /** A proof with an unknown side is refused, whatever it is for. */
  lemma {:induction false} UnknownSideRefused(h: Hash, proof: Proof, i: nat)
    requires i < |proof| && proof[i].1.Unknown?
    ensures Climb(h, proof).None?
    decreases |proof|
  {
    if i > 0 {
      assert proof[1..][i - 1] == proof[i];
      if proof[0].1.OnLeft? {
        UnknownSideRefused(Node(proof[0].0, h), proof[1..], i - 1);
      } else if proof[0].1.OnRight? {
        UnknownSideRefused(Node(h, proof[0].0), proof[1..], i - 1);
      }
    }
  }

  /** The root determines the sorted list of digests, duplicates included. */
  lemma RootOpensToLeaves(digests: seq<Digest>)
    requires digests != []
    ensures Below(Root(digests)) == SortedLeaves(digests)
  {
    var leaves := SortedLeaves(digests);
    TopKeepsDigests(Hashed(leaves));
    HashedDigests(leaves);
  }

  lemma EqualRootsBindLeaves(a: seq<Digest>, b: seq<Digest>)
    requires a != [] && b != [] && Root(a) == Root(b)
    ensures SortedLeaves(a) == SortedLeaves(b) && multiset(a) == multiset(b)
  {
    RootOpensToLeaves(a);
    RootOpensToLeaves(b);
  }

  /** Whatever the proof contains, climbing never loses what was below. */
  lemma {:induction false} ClimbKeepsDigests(h: Hash, proof: Proof, d: Digest)
    requires d in Below(h) && Climb(h, proof).Some?
    ensures d in Below(Climb(h, proof).value)
    decreases |proof|
  {
    if proof != [] {
      if proof[0].1.OnLeft? {
        ClimbKeepsDigests(Node(proof[0].0, h), proof[1..], d);
      } else {
        ClimbKeepsDigests(Node(h, proof[0].0), proof[1..], d);
      }
    }
  }

  /** Soundness: a proof of any length and content is only accepted for a digest of the tree. */
  lemma AcceptedIsMember(digests: seq<Digest>, digest: Digest, proof: Proof)
    requires digests != [] && Accepts(digest, proof, Root(digests))
    ensures digest in digests
  {
    ClimbKeepsDigests(Leaf(digest), proof, digest);
    RootOpensToLeaves(digests);
    SortKeepsMembers(digests, (d: Digest) => d, digest);
  }
}
