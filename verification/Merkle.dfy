/** The binary Merkle root over event hashes: pair neighbours level by level, an odd
    last node paired with itself. */
module Merkle {
  import opened Collections

  type Digest = string

  /** SHA-256 in its three uses: of a hash's text, of two concatenated digests, of b"empty". */
  datatype Sha = Sha(leaf: string -> Digest, node: (Digest, Digest) -> Digest, hex: Digest -> string, empty: string)

  function NextLevel(sha: Sha, level: seq<Digest>): (r: seq<Digest>)
    ensures |r| == (|level| + 1) / 2
    ensures forall i | 0 <= i < |r| :: r[i] == sha.node(Left(level, i), Right(level, i))
  {
    seq((|level| + 1) / 2, i requires 0 <= i < (|level| + 1) / 2 => sha.node(Left(level, i), Right(level, i)))
  }

  function Left(level: seq<Digest>, i: nat): Digest
    requires 2 * i < |level|
  {
    level[2 * i]
  }

  function Right(level: seq<Digest>, i: nat): Digest
    requires 2 * i < |level|
  {
    if 2 * i + 1 < |level| then level[2 * i + 1] else level[2 * i]
  }

  function Collapse(sha: Sha, level: seq<Digest>): Digest
    requires level != []
    decreases |level|
  {
    if |level| == 1 then level[0] else Collapse(sha, NextLevel(sha, level))
  }

  function Root(sha: Sha, hashes: seq<string>): string {
    if hashes == [] then sha.empty
    else if |hashes| == 1 then hashes[0]
    else sha.hex(Collapse(sha, Map(hashes, sha.leaf)))
  }

  /** The loop of _compute_merkle_root. */
  method ComputeMerkleRoot(sha: Sha, hashes: seq<string>) returns (root: string)
    ensures root == Root(sha, hashes)
  {
    if hashes == [] { return sha.empty; }
    if |hashes| == 1 { return hashes[0]; }
    var level := Map(hashes, sha.leaf);
    while |level| > 1
      invariant level != []
      invariant Collapse(sha, level) == Collapse(sha, Map(hashes, sha.leaf))
      decreases |level|
    {
      var next: seq<Digest> := [];
      var index := 0;
      while index < |level|
        invariant 0 <= index <= |level| + 1 && index % 2 == 0
        invariant |next| == index / 2
        invariant forall i | 0 <= i < |next| :: next[i] == sha.node(Left(level, i), Right(level, i))
      {
        var left := level[index];
        var right := if index + 1 < |level| then level[index + 1] else left;
        next := next + [sha.node(left, right)];
        index := index + 2;
      }
      assert next == NextLevel(sha, level);
      level := next;
    }
    root := sha.hex(level[0]);
  }

  /** Every pair of digests hashed while collapsing `level`. */
  ghost function HashedPairs(sha: Sha, level: seq<Digest>): set<(Digest, Digest)>
    decreases |level|
  {
    if |level| <= 1 then {}
    else (set i | 0 <= i < (|level| + 1) / 2 ::
          (Left(level, i), Right(level, i))) + HashedPairs(sha, NextLevel(sha, level))
  }

  ghost predicate PairsCollisionFree(sha: Sha, pairs: set<(Digest, Digest)>) {
    forall p, q | p in pairs && q in pairs :: sha.node(p.0, p.1) == sha.node(q.0, q.1) ==> p == q
  }

  /** Nothing hashed for either list collides: the only trust placed in SHA-256. */
  ghost predicate SoundFor(sha: Sha, a: seq<string>, b: seq<string>) {
    && CollisionFree(sha.leaf, (set h | h in a) + (set h | h in b))
    && PairsCollisionFree(sha, HashedPairs(sha, Map(a, sha.leaf)) + HashedPairs(sha, Map(b, sha.leaf)))
    && (forall x, y :: sha.hex(x) == sha.hex(y) ==> x == y)
  }

  lemma {:induction false} CollapseInjective(sha: Sha, a: seq<Digest>, b: seq<Digest>)
    requires |a| == |b| > 0
    requires PairsCollisionFree(sha, HashedPairs(sha, a) + HashedPairs(sha, b))
    requires Collapse(sha, a) == Collapse(sha, b)
    ensures a == b
    decreases |a|
  {
    if |a| > 1 {
      CollapseInjective(sha, NextLevel(sha, a), NextLevel(sha, b));
      forall k | 0 <= k < |a| ensures a[k] == b[k] { LevelInjective(sha, a, b, k / 2); }
    }
  }

  lemma LevelInjective(sha: Sha, a: seq<Digest>, b: seq<Digest>, i: nat)
    requires |a| == |b| > 1 && 2 * i < |a|
    requires PairsCollisionFree(sha, HashedPairs(sha, a) + HashedPairs(sha, b))
    requires NextLevel(sha, a) == NextLevel(sha, b)
    ensures Left(a, i) == Left(b, i) && Right(a, i) == Right(b, i)
  {
    assert NextLevel(sha, a)[i] == NextLevel(sha, b)[i];
    assert (Left(a, i), Right(a, i)) in HashedPairs(sha, a);
    assert (Left(b, i), Right(b, i)) in HashedPairs(sha, b);
  }

  /** Lists of equal length with the same root are the same list. */
  lemma RootInjective(sha: Sha, a: seq<string>, b: seq<string>)
    requires |a| == |b| && SoundFor(sha, a, b)
    requires Root(sha, a) == Root(sha, b)
    ensures a == b
  {
    if |a| > 1 {
      var x, y := Map(a, sha.leaf), Map(b, sha.leaf);
      CollapseInjective(sha, x, y);
      forall k | 0 <= k < |a| ensures a[k] == b[k] { assert x[k] == y[k]; }
    }
  }

  // ----- Lists of different lengths -----------------------------------------------------

  /** How many places the bottom of the tree over `n` hashes has, once every level is padded with its last node. */
  function Width(n: nat): (w: nat)
    ensures w >= 1 && (w == 1 <==> n <= 1)
  {
    if n <= 1 then 1 else 2 * Width((n + 1) / 2)
  }

  /** Which of the `n` hashes stands at place `j` of the padded bottom. */
  function Place(n: nat, j: nat): (p: nat)
    requires n > 0
    ensures p < n
  {
    if n == 1 then 0
    else
      var q := Place((n + 1) / 2, j / 2);
      if 2 * q + j % 2 < n then 2 * q + j % 2 else n - 1
  }

  /** The padded bottom of the tree. */
  function Spread<T>(list: seq<T>): (r: seq<T>)
    requires list != []
    ensures |r| == Width(|list|) && forall j | 0 <= j < |r| :: r[j] == list[Place(|list|, j)]
  {
    seq(Width(|list|), j requires 0 <= j < Width(|list|) => list[Place(|list|, j)])
  }

  /** Padding and going up one level commute. */
  lemma SpreadNext(sha: Sha, a: seq<Digest>, k: nat)
    requires |a| > 1 && 2 * k + 1 < Width(|a|)
    ensures k < |Spread(NextLevel(sha, a))|
    ensures Spread(NextLevel(sha, a))[k] == sha.node(Spread(a)[2 * k], Spread(a)[2 * k + 1])
    ensures (Spread(a)[2 * k], Spread(a)[2 * k + 1]) in HashedPairs(sha, a)
  {
    var p := Place((|a| + 1) / 2, k);
    assert (2 * k) / 2 == k && (2 * k + 1) / 2 == k;
    assert Left(a, p) == Spread(a)[2 * k] && Right(a, p) == Spread(a)[2 * k + 1];
  }

  lemma SpreadsNextSame(sha: Sha, a: seq<Digest>, b: seq<Digest>, k: nat)
    requires |a| > 1 && |b| > 1 && Width(|a|) == Width(|b|) && 2 * k + 1 < Width(|a|)
    requires PairsCollisionFree(sha, HashedPairs(sha, a) + HashedPairs(sha, b))
    ensures k < |Spread(NextLevel(sha, a))| && k < |Spread(NextLevel(sha, b))|
    ensures Spread(NextLevel(sha, a))[k] == Spread(NextLevel(sha, b))[k]
            <==> Spread(a)[2 * k] == Spread(b)[2 * k] && Spread(a)[2 * k + 1] == Spread(b)[2 * k + 1]
  {
    SpreadNext(sha, a, k);
    SpreadNext(sha, b, k);
  }

  lemma SpreadsAbove(sha: Sha, a: seq<Digest>, b: seq<Digest>)
    requires |a| > 1 && |b| > 1 && Width(|a|) == Width(|b|)
    requires PairsCollisionFree(sha, HashedPairs(sha, a) + HashedPairs(sha, b))
    ensures Spread(NextLevel(sha, a)) == Spread(NextLevel(sha, b)) <==> Spread(a) == Spread(b)
  {
    var x, y := Spread(NextLevel(sha, a)), Spread(NextLevel(sha, b));
    forall k | 0 <= k < |x|
      ensures x[k] == y[k] <==> Spread(a)[2 * k] == Spread(b)[2 * k] && Spread(a)[2 * k + 1] == Spread(b)[2 * k + 1]
    {
      SpreadsNextSame(sha, a, b, k);
    }
    PairwiseSame(Spread(a), Spread(b), x, y);
  }

  lemma PairwiseSame<T, U>(s: seq<T>, t: seq<T>, x: seq<U>, y: seq<U>)
    requires |s| == |t| == 2 * |x| == 2 * |y|
    requires forall k | 0 <= k < |x| :: x[k] == y[k] <==> s[2 * k] == t[2 * k] && s[2 * k + 1] == t[2 * k + 1]
    ensures x == y <==> s == t
  {
    if x == y {
      forall j | 0 <= j < |s| ensures s[j] == t[j] {
        assert x[j / 2] == y[j / 2];
        assert j == 2 * (j / 2) || j == 2 * (j / 2) + 1;
      }
    }
  }

  lemma {:induction false} CollapseSameIff(sha: Sha, a: seq<Digest>, b: seq<Digest>)
    requires a != [] && b != [] && Width(|a|) == Width(|b|)
    requires PairsCollisionFree(sha, HashedPairs(sha, a) + HashedPairs(sha, b))
    ensures Collapse(sha, a) == Collapse(sha, b) <==> Spread(a) == Spread(b)
    decreases |a|
  {
    if |a| == 1 {
      assert Spread(a)[0] == a[0] && Spread(b)[0] == b[0];
    } else {
      CollapseSameIff(sha, NextLevel(sha, a), NextLevel(sha, b));
      SpreadsAbove(sha, a, b);
    }
  }

  ghost predicate IsNode(sha: Sha, pairs: set<(Digest, Digest)>, d: Digest) {
    exists p | p in pairs :: d == sha.node(p.0, p.1)
  }

  /** No digest of the level could also have been made by hashing two digests. */
  ghost predicate Apart(sha: Sha, level: seq<Digest>, pairs: set<(Digest, Digest)>) {
    forall d | d in level :: !IsNode(sha, pairs, d)
  }

  lemma NextNodes(sha: Sha, level: seq<Digest>, i: nat)
    requires |level| > 1 && i < |NextLevel(sha, level)|
    ensures IsNode(sha, HashedPairs(sha, level), NextLevel(sha, level)[i])
  {
    assert (Left(level, i), Right(level, i)) in HashedPairs(sha, level);
  }

  lemma {:induction false} HashedFromNodes(sha: Sha, level: seq<Digest>, q: (Digest, Digest))
    requires |level| > 1 && q in HashedPairs(sha, NextLevel(sha, level))
    ensures IsNode(sha, HashedPairs(sha, level), q.0)
    decreases |level|
  {
    var next := NextLevel(sha, level);
    if i :| 0 <= i < (|next| + 1) / 2 && q == (Left(next, i), Right(next, i)) {
      NextNodes(sha, level, 2 * i);
    } else {
      HashedFromNodes(sha, next, q);
      var p :| p in HashedPairs(sha, next) && q.0 == sha.node(p.0, p.1);
      assert p in HashedPairs(sha, level);
    }
  }

  lemma CollapseIsNode(sha: Sha, level: seq<Digest>)
    requires |level| > 1
    ensures IsNode(sha, HashedPairs(sha, level), Collapse(sha, level))
    decreases |level|
  {
    var next := NextLevel(sha, level);
    if |next| == 1 {
      NextNodes(sha, level, 0);
      assert Collapse(sha, level) == Collapse(sha, next) == next[0];
    } else {
      CollapseIsNode(sha, next);
      var p :| p in HashedPairs(sha, next) && Collapse(sha, next) == sha.node(p.0, p.1);
      assert p in HashedPairs(sha, level);
    }
  }

  lemma NotNodeAgain(sha: Sha, a: seq<Digest>, b: seq<Digest>, i: nat)
    requires |a| > 1 && |b| > 1 && i < |NextLevel(sha, a)|
    requires PairsCollisionFree(sha, HashedPairs(sha, a) + HashedPairs(sha, b))
    requires Apart(sha, a, HashedPairs(sha, a) + HashedPairs(sha, b))
    ensures !IsNode(sha, HashedPairs(sha, NextLevel(sha, a)) + HashedPairs(sha, NextLevel(sha, b)),
                    NextLevel(sha, a)[i])
  {
    var p := (Left(a, i), Right(a, i));
    assert p in HashedPairs(sha, a) && p.0 in a;
    forall q | q in HashedPairs(sha, NextLevel(sha, a)) + HashedPairs(sha, NextLevel(sha, b))
      ensures NextLevel(sha, a)[i] != sha.node(q.0, q.1)
    {
      if q in HashedPairs(sha, NextLevel(sha, a)) { HashedFromNodes(sha, a, q); } else { HashedFromNodes(sha, b, q); }
      assert q in HashedPairs(sha, a) + HashedPairs(sha, b);
    }
  }

  lemma ApartAbove(sha: Sha, a: seq<Digest>, b: seq<Digest>)
    requires |a| > 1 && |b| > 1
    requires PairsCollisionFree(sha, HashedPairs(sha, a) + HashedPairs(sha, b))
    requires Apart(sha, a, HashedPairs(sha, a) + HashedPairs(sha, b))
    ensures Apart(sha, NextLevel(sha, a), HashedPairs(sha, NextLevel(sha, a)) + HashedPairs(sha, NextLevel(sha, b)))
  {
    var pairs := HashedPairs(sha, NextLevel(sha, a)) + HashedPairs(sha, NextLevel(sha, b));
    forall i | 0 <= i < |NextLevel(sha, a)| ensures !IsNode(sha, pairs, NextLevel(sha, a)[i]) {
      NotNodeAgain(sha, a, b, i);
    }
  }

  lemma LeafNotCollapse(sha: Sha, d: Digest, level: seq<Digest>, pairs: set<(Digest, Digest)>)
    requires |level| > 1 && HashedPairs(sha, level) <= pairs && !IsNode(sha, pairs, d)
    ensures d != Collapse(sha, level)
  {
    CollapseIsNode(sha, level);
  }

  /** Kept apart, trees of different height have different roots. */
  lemma {:induction false} SameCollapseSameWidth(sha: Sha, a: seq<Digest>, b: seq<Digest>)
    requires a != [] && b != [] && Collapse(sha, a) == Collapse(sha, b)
    requires PairsCollisionFree(sha, HashedPairs(sha, a) + HashedPairs(sha, b))
    requires Apart(sha, a, HashedPairs(sha, a) + HashedPairs(sha, b))
             && Apart(sha, b, HashedPairs(sha, b) + HashedPairs(sha, a))
    ensures Width(|a|) == Width(|b|)
    decreases |a|
  {
    if |a| == 1 {
      if |b| > 1 { LeafNotCollapse(sha, a[0], b, HashedPairs(sha, a) + HashedPairs(sha, b)); }
    } else if |b| == 1 {
      LeafNotCollapse(sha, b[0], a, HashedPairs(sha, b) + HashedPairs(sha, a));
    } else {
      assert HashedPairs(sha, b) + HashedPairs(sha, a) == HashedPairs(sha, a) + HashedPairs(sha, b);
      ApartAbove(sha, a, b);
      ApartAbove(sha, b, a);
      SameCollapseSameWidth(sha, NextLevel(sha, a), NextLevel(sha, b));
    }
  }

  lemma SpreadMap(sha: Sha, a: seq<string>, b: seq<string>)
    requires a != [] && b != [] && CollisionFree(sha.leaf, (set h | h in a) + (set h | h in b))
    ensures Spread(Map(a, sha.leaf)) == Spread(Map(b, sha.leaf)) <==> Spread(a) == Spread(b)
  {
    var x, y := Spread(Map(a, sha.leaf)), Spread(Map(b, sha.leaf));
    if x == y {
      forall j | 0 <= j < |Spread(a)| ensures Spread(a)[j] == Spread(b)[j] {
        assert x[j] == y[j] && sha.leaf(Spread(a)[j]) == sha.leaf(Spread(b)[j]);
        assert Spread(a)[j] in (set h | h in a) && Spread(b)[j] in (set h | h in b);
      }
    }
  }

  /** The exact condition, for trees of one height: two lists share a root exactly when padding every level with its
      last node makes them the same list. */
  lemma RootSameIff(sha: Sha, a: seq<string>, b: seq<string>)
    requires |a| > 1 && |b| > 1 && Width(|a|) == Width(|b|) && SoundFor(sha, a, b)
    ensures Root(sha, a) == Root(sha, b) <==> Spread(a) == Spread(b)
  {
    CollapseSameIff(sha, Map(a, sha.leaf), Map(b, sha.leaf));
    SpreadMap(sha, a, b);
  }

  /** The hash of a text is never that of two digests: the separation that the loop does not enforce. */
  ghost predicate LeavesApart(sha: Sha, a: seq<string>, b: seq<string>) {
    var x, y := Map(a, sha.leaf), Map(b, sha.leaf);
    Apart(sha, x, HashedPairs(sha, x) + HashedPairs(sha, y)) && Apart(sha, y, HashedPairs(sha, y) + HashedPairs(sha, x))
  }

  /** With leaves kept apart from nodes the height need not be known. */
  lemma RootSameIffSpread(sha: Sha, a: seq<string>, b: seq<string>)
    requires |a| > 1 && |b| > 1 && SoundFor(sha, a, b) && LeavesApart(sha, a, b)
    ensures Root(sha, a) == Root(sha, b) <==> Spread(a) == Spread(b)
  {
    if Root(sha, a) == Root(sha, b) { SameCollapseSameWidth(sha, Map(a, sha.leaf), Map(b, sha.leaf)); }
    assert |Spread(a)| == Width(|a|) && |Spread(b)| == Width(|b|);
    if Width(|a|) == Width(|b|) { RootSameIff(sha, a, b); }
  }

  /** A list of one hash is its own root, so every list shares its root with the one-element list that holds it. */
  lemma RootOfOwnRoot(sha: Sha, b: seq<string>)
    ensures Root(sha, [Root(sha, b)]) == Root(sha, b)
    ensures |b| != 1 ==> [Root(sha, b)] != b
  {
  }

  /** When two lists share a root, short ones included: a single hash must be the other's root, nothing is alone, and
      longer lists must agree once padded. */
  predicate SharesRoot(sha: Sha, a: seq<string>, b: seq<string>) {
    if |a| == 1 then a[0] == Root(sha, b)
    else if |b| == 1 then b[0] == Root(sha, a)
    else if a == [] || b == [] then a == b
    else Spread(a) == Spread(b)
  }

  /** The exact condition for any two lists, as long as no longer list has the root of the empty one. */
  lemma RootSameAnyIff(sha: Sha, a: seq<string>, b: seq<string>)
    requires |a| > 1 && |b| > 1 ==> SoundFor(sha, a, b) && LeavesApart(sha, a, b)
    requires (|a| > 1 ==> Root(sha, a) != sha.empty) && (|b| > 1 ==> Root(sha, b) != sha.empty)
    ensures Root(sha, a) == Root(sha, b) <==> SharesRoot(sha, a, b)
  {
    if |a| > 1 && |b| > 1 { RootSameIffSpread(sha, a, b); }
  }

  /** Equal length cannot be dropped: an odd list and the same list with its last hash
      repeated have one root, whatever the hash function. */
  lemma {:induction false} RepeatedLastHashSameRoot(sha: Sha, hashes: seq<string>)
    requires |hashes| % 2 == 1 && |hashes| > 1
    ensures Root(sha, hashes + [hashes[|hashes| - 1]]) == Root(sha, hashes)
  {
    var longer := Map(hashes + [hashes[|hashes| - 1]], sha.leaf);
    assert NextLevel(sha, longer) == NextLevel(sha, Map(hashes, sha.leaf));
  }

  /** Even lists collide too, where an inner level is odd. */
  lemma RepeatedLastPairSameRoot(sha: Sha, a: seq<string>)
    requires |a| == 6
    ensures Root(sha, a + a[4..]) == Root(sha, a)
  {
    var six, eight := Map(a, sha.leaf), Map(a + a[4..], sha.leaf);
    var x, y := NextLevel(sha, six), NextLevel(sha, eight);
    assert y == x + [x[2]];
    assert NextLevel(sha, y) == NextLevel(sha, x);
    assert Collapse(sha, six) == Collapse(sha, NextLevel(sha, x))
           && Collapse(sha, eight) == Collapse(sha, NextLevel(sha, y));
  }
}
