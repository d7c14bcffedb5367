/** Values shared by every model: optional and failing results, sequences without
    duplicates, filtering, and dictionaries that remember insertion order. */
module Collections {

  datatype Option<+T> = None | Some(value: T)

  /** A Python call that either returns or raises. */
  datatype Result<+T, +E> = Ok(value: T) | Err(error: E)

  ghost predicate Distinct<T>(s: seq<T>) {
    forall i, j | 0 <= i < j < |s| :: s[i] != s[j]
  }

  /** A hash is only trusted not to collide on the finite set of inputs under discussion. */
  ghost predicate CollisionFree<A, B>(f: A -> B, inputs: set<A>) {
    forall x, y | x in inputs && y in inputs :: f(x) == f(y) ==> x == y
  }

  lemma {:induction false} DistinctCount<T>(s: seq<T>, x: T)
    requires Distinct(s)
    ensures multiset(s)[x] == if x in s then 1 else 0
  {
    if s != [] {
      assert s == s[..|s| - 1] + [s[|s| - 1]];
      DistinctCount(s[..|s| - 1], x);
    }
  }

  lemma {:induction false} CountTwice<T>(s: seq<T>, i: nat, j: nat)
    requires i < j < |s| && s[i] == s[j]
    ensures multiset(s)[s[i]] >= 2
  {
    var front, last := s[..|s| - 1], s[|s| - 1];
    assert s == front + [last];
    if j < |front| { CountTwice(front, i, j); } else { assert front[i] in multiset(front); }
  }

  /** The elements satisfying `keep`, in order. */
  function Filter<T>(s: seq<T>, keep: T -> bool): seq<T> {
    if s == [] then []
    else
      var front := Filter(s[..|s| - 1], keep);
      if keep(s[|s| - 1]) then front + [s[|s| - 1]] else front
  }

  function Map<T, U>(s: seq<T>, f: T -> U): (r: seq<U>)
    ensures |r| == |s| && forall i | 0 <= i < |s| :: r[i] == f(s[i])
  {
    seq(|s|, i requires 0 <= i < |s| => f(s[i]))
  }

  lemma {:induction false} FilterMember<T>(s: seq<T>, keep: T -> bool, x: T)
    ensures x in Filter(s, keep) <==> x in s && keep(x)
  {
    if s != [] {
      assert s == s[..|s| - 1] + [s[|s| - 1]];
      FilterMember(s[..|s| - 1], keep, x);
    }
  }

  lemma {:induction false} FilterAppend<T>(s: seq<T>, t: seq<T>, keep: T -> bool)
    ensures Filter(s + t, keep) == Filter(s, keep) + Filter(t, keep)
  {
    if t == [] {
      assert s + t == s;
    } else {
      assert (s + t)[..|s + t| - 1] == s + t[..|t| - 1];
      FilterAppend(s, t[..|t| - 1], keep);
    }
  }

  lemma {:induction false} FilterDistinct<T>(s: seq<T>, keep: T -> bool)
    requires Distinct(s)
    ensures Distinct(Filter(s, keep))
  {
    if s != [] {
      FilterDistinct(s[..|s| - 1], keep);
      FilterMember(s[..|s| - 1], keep, s[|s| - 1]);
    }
  }

  lemma {:induction false} FilterExt<T>(s: seq<T>, p: T -> bool, q: T -> bool)
    requires forall x | x in s :: p(x) == q(x)
    ensures Filter(s, p) == Filter(s, q)
  {
    if s != [] {
      assert forall x | x in s[..|s| - 1] :: x in s;
      FilterExt(s[..|s| - 1], p, q);
    }
  }

  lemma {:induction false} FilterAll<T>(s: seq<T>, keep: T -> bool)
    requires forall x | x in s :: keep(x)
    ensures Filter(s, keep) == s
  {
    if s != [] {
      assert forall x | x in s[..|s| - 1] :: x in s;
      FilterAll(s[..|s| - 1], keep);
      assert s == s[..|s| - 1] + [s[|s| - 1]];
    }
  }

  lemma {:induction false} FilterLength<T>(s: seq<T>, keep: T -> bool)
    ensures |Filter(s, keep)| <= |s|
  {
    if s != [] { FilterLength(s[..|s| - 1], keep); }
  }

  /** tuple(dict.fromkeys(s)): the first occurrence of every element, in order. */
  function Unique<T(==)>(s: seq<T>): (r: seq<T>)
    ensures Distinct(r) && (forall x | x in r :: x in s) && (forall x | x in s :: x in r)
  {
    if s == [] then []
    else
      var front := Unique(s[..|s| - 1]);
      assert s == s[..|s| - 1] + [s[|s| - 1]];
      if s[|s| - 1] in front then front else front + [s[|s| - 1]]
  }

  lemma {:induction false} UniqueSame<T>(s: seq<T>)
    requires Distinct(s)
    ensures Unique(s) == s
  {
    if s != [] {
      UniqueSame(s[..|s| - 1]);
      assert s == s[..|s| - 1] + [s[|s| - 1]];
    }
  }

  /** len(set(s)) == len(s) tells whether anything repeats. */
  lemma {:induction false} SetSize<T>(s: seq<T>)
    ensures |set x | x in s| <= |s|
    ensures |set x | x in s| == |s| <==> Distinct(s)
  {
    if s != [] {
      var front, last := s[..|s| - 1], s[|s| - 1];
      SetSize(front);
      assert s == front + [last];
      assert (set x | x in s) == (set x | x in front) + {last};
      if Distinct(s) { assert last !in front; }
      if Distinct(front) && last !in front { assert Distinct(s); }
    }
  }

  lemma MapHead<T, U>(s: seq<T>, f: T -> U)
    requires s != []
    ensures Map(s, f) == [f(s[0])] + Map(s[1..], f)
  {
  }

  lemma MapConcat<T, U>(s: seq<T>, t: seq<T>, f: T -> U)
    ensures Map(s + t, f) == Map(s, f) + Map(t, f)
  {
  }

  lemma MapExt<T, U>(s: seq<T>, f: T -> U, g: T -> U)
    requires forall x | x in s :: f(x) == g(x)
    ensures Map(s, f) == Map(s, g)
  {
  }

  lemma RemoveOne<T>(t: seq<T>, j: nat)
    requires j < |t|
    ensures multiset(t[..j] + t[j + 1..]) == multiset(t) - multiset{t[j]}
  {
    assert t == t[..j] + [t[j]] + t[j + 1..];
  }

  lemma {:induction false} MapPermuted<T, U>(s: seq<T>, t: seq<T>, f: T -> U)
    requires multiset(s) == multiset(t)
    ensures multiset(Map(s, f)) == multiset(Map(t, f))
  {
    if s == [] {
      assert |multiset(t)| == 0;
    } else {
      var j := RestPermuted(s, t);
      MapPermuted(s[..0] + s[1..], t[..j] + t[j + 1..], f);
      MapRemoved(s, 0, f);
      MapRemoved(t, j, f);
    }
  }

  lemma RestPermuted<T>(s: seq<T>, t: seq<T>) returns (j: nat)
    requires multiset(s) == multiset(t) && s != []
    ensures j < |t| && t[j] == s[0] && multiset(s[..0] + s[1..]) == multiset(t[..j] + t[j + 1..])
  {
    assert s[0] in multiset(t);
    j :| 0 <= j < |t| && t[j] == s[0];
    RemoveOne(s, 0);
    RemoveOne(t, j);
  }

  lemma MapRemoved<T, U>(t: seq<T>, j: nat, f: T -> U)
    requires j < |t|
    ensures multiset(Map(t, f)) == multiset(Map(t[..j] + t[j + 1..], f)) + multiset{f(t[j])}
  {
    RemoveOne(Map(t, f), j);
    MapConcat(t[..j], t[j + 1..], f);
    assert Map(t, f)[..j] == Map(t[..j], f) && Map(t, f)[j + 1..] == Map(t[j + 1..], f);
    assert Map(t, f)[j] in multiset(Map(t, f));
  }

  lemma PrefixNext<T>(s: seq<T>, i: nat)
    requires i < |s|
    ensures s[..i + 1] == s[..i] + [s[i]]
    ensures Distinct(s) ==> s[i] !in s[..i]
  {
  }

  lemma FilterNext<T>(s: seq<T>, i: nat, keep: T -> bool)
    requires i < |s|
    ensures Filter(s[..i + 1], keep) == Filter(s[..i], keep) + if keep(s[i]) then [s[i]] else []
  {
    assert s[..i + 1][..i] == s[..i];
  }

  lemma UniqueNext<T>(s: seq<T>, x: T)
    ensures Unique(s + [x]) == if x in s then Unique(s) else Unique(s) + [x]
  {
    assert (s + [x])[..|s|] == s;
  }

  /** At least two elements pass exactly when two positions do. */
  lemma {:induction false} FilterTwo<T>(s: seq<T>, keep: T -> bool)
    ensures |Filter(s, keep)| > 0 <==> exists i :: 0 <= i < |s| && keep(s[i])
    ensures |Filter(s, keep)| > 1 <==> exists i, j :: 0 <= i < j < |s| && keep(s[i]) && keep(s[j])
  {
    if s != [] {
      var front, n := s[..|s| - 1], |s| - 1;
      FilterTwo(front, keep);
      if i :| 0 <= i < |s| && keep(s[i]) { if i < n { assert keep(front[i]); } }
      if i :| 0 <= i < |front| && keep(front[i]) { assert keep(s[i]); }
      if i, j :| 0 <= i < j < |s| && keep(s[i]) && keep(s[j]) {
        assert keep(front[i]);
        if j < n { assert keep(front[j]); }
      }
      if i, j :| 0 <= i < j < |front| && keep(front[i]) && keep(front[j]) { assert keep(s[i]) && keep(s[j]); }
    }
  }

  /** Two disjoint tests between them select as many elements as their union. */
  lemma {:induction false} FilterUnionLength<T>(s: seq<T>, p: T -> bool, q: T -> bool, either: T -> bool)
    requires forall x | x in s :: either(x) == (p(x) || q(x)) && !(p(x) && q(x))
    ensures |Filter(s, either)| == |Filter(s, p)| + |Filter(s, q)|
  {
    if s != [] {
      assert s[|s| - 1] in s && forall x | x in s[..|s| - 1] :: x in s;
      FilterUnionLength(s[..|s| - 1], p, q, either);
    }
  }

  /** The last `n` elements, as Python's s[-n:] for n > 0. */
  function Last<T>(s: seq<T>, n: nat): seq<T> {
    if |s| <= n then s else s[|s| - n..]
  }

  /** Filtering by a test and by its opposite shares the elements out between the two. */
  lemma {:induction false} FilterSplit<T>(s: seq<T>, p: T -> bool, q: T -> bool)
    requires forall x | x in s :: p(x) != q(x)
    ensures multiset(s) == multiset(Filter(s, p)) + multiset(Filter(s, q))
  {
    if s != [] {
      assert s == s[..|s| - 1] + [s[|s| - 1]];
      assert forall x | x in s[..|s| - 1] :: x in s;
      FilterSplit(s[..|s| - 1], p, q);
    }
  }

  lemma {:induction false} FilterTwice<T>(s: seq<T>, p: T -> bool, q: T -> bool, both: T -> bool)
    requires forall x | x in s :: both(x) == (p(x) && q(x))
    ensures Filter(Filter(s, p), q) == Filter(s, both)
  {
    if s != [] {
      var front := s[..|s| - 1];
      assert forall x | x in front :: x in s;
      FilterTwice(front, p, q, both);
      var kept := Filter(front, p);
      if p(s[|s| - 1]) { assert (kept + [s[|s| - 1]])[..|kept|] == kept; }
    }
  }

  /** Truncating after every append or once at the end leaves the same window. */
  lemma LastAppend<T>(s: seq<T>, t: seq<T>, n: nat)
    ensures Last(Last(s, n) + t, n) == Last(s + t, n)
  {
  }

  lemma {:induction false} FilterMap<T, U>(s: seq<T>, f: T -> U, keep: U -> bool, keepSource: T -> bool)
    requires forall x | x in s :: keepSource(x) == keep(f(x))
    ensures Filter(Map(s, f), keep) == Map(Filter(s, keepSource), f)
  {
    if s != [] {
      var front := s[..|s| - 1];
      assert forall x | x in front :: x in s;
      assert Map(s, f)[..|s| - 1] == Map(front, f);
      FilterMap(front, f, keep, keepSource);
    }
  }

  lemma {:induction false} FilterNone<T>(s: seq<T>, keep: T -> bool)
    requires forall x | x in s :: !keep(x)
    ensures Filter(s, keep) == []
  {
    if s != [] {
      assert forall x | x in s[..|s| - 1] :: x in s;
      FilterNone(s[..|s| - 1], keep);
    }
  }

  lemma FilterTail<T>(front: seq<T>, tail: seq<T>, keep: T -> bool)
    requires (forall x | x in front :: !keep(x)) && (forall x | x in tail :: keep(x))
    ensures Filter(front + tail, keep) == tail
  {
    FilterAppend(front, tail, keep);
    FilterNone(front, keep);
    FilterAll(tail, keep);
  }

  lemma FilterImages<T, U, V>(front: seq<U>, s: seq<T>, f: T -> U, g: U -> V, gf: T -> V, keep: U -> bool,
                              keepSource: T -> bool)
    requires forall x | x in s :: keepSource(x) == keep(f(x))
    requires forall x :: gf(x) == g(f(x))
    ensures Map(Filter(front + Map(s, f), keep), g) == Map(Filter(front, keep), g) + Map(Filter(s, keepSource), gf)
  {
    FilterAppend(front, Map(s, f), keep);
    FilterMap(s, f, keep, keepSource);
    var kept := Filter(s, keepSource);
    assert Map(Filter(front, keep) + Map(kept, f), g) == Map(Filter(front, keep), g) + Map(Map(kept, f), g);
    assert Map(Map(kept, f), g) == Map(kept, gf);
  }

  /** Two selections, seen through an injective map, are the same list exactly when they keep the same elements. */
  lemma FilteredSameIff<T, U>(s: seq<T>, p: T -> bool, q: T -> bool, f: T -> U)
    requires forall x, y | x in s && y in s :: f(x) == f(y) ==> x == y
    ensures Map(Filter(s, p), f) == Map(Filter(s, q), f) <==> forall x | x in s :: p(x) == q(x)
  {
    if forall x | x in s :: p(x) == q(x) {
      FilterExt(s, p, q);
    } else {
      var x :| x in s && p(x) != q(x);
      FilterMember(s, p, x);
      FilterMember(s, q, x);
      if p(x) {
        Separates(s, Filter(s, p), Filter(s, q), x, f, q);
      } else {
        Separates(s, Filter(s, q), Filter(s, p), x, f, p);
      }
    }
  }

  lemma Separates<T, U>(s: seq<T>, with: seq<T>, without: seq<T>, x: T, f: T -> U, keep: T -> bool)
    requires forall x, y | x in s && y in s :: f(x) == f(y) ==> x == y
    requires x in s && x in with && x !in without && without == Filter(s, keep)
    ensures Map(with, f) != Map(without, f)
  {
    var i :| 0 <= i < |with| && with[i] == x;
    forall j | 0 <= j < |without| ensures Map(without, f)[j] != f(x) {
      assert without[j] in without;
      FilterMember(s, keep, without[j]);
    }
    assert Map(with, f)[i] == f(x);
  }

  /** What holds at `start` holds at every later point exactly when no step in between breaks it. */
  lemma ThroughoutIff(holds: seq<bool>, spared: seq<bool>, start: nat)
    requires |holds| == |spared| + 1 && start < |holds| && holds[start]
    requires forall i | start <= i < |spared| && holds[i] :: holds[i + 1] == spared[i]
    ensures (forall i | start <= i < |holds| :: holds[i]) <==> (forall i | start <= i < |spared| :: spared[i])
  {
    if forall i | start <= i < |spared| :: spared[i] {
      var i := start;
      while i < |spared|
        invariant start <= i <= |spared|
        invariant forall j | start <= j <= i :: holds[j]
      {
        assert holds[i] && spared[i];
        i := i + 1;
      }
    } else {
      var i :| start <= i < |spared| && !spared[i];
      assert !holds[i] || !holds[i + 1];
    }
  }

  function Other<T(==)>(x: T): T -> bool { y => y != x }

  function Same<T(==)>(x: T): T -> bool { y => y == x }

  lemma {:induction false} FilterSame<T>(s: seq<T>, x: T)
    requires Distinct(s)
    ensures Filter(s, Same(x)) == if x in s then [x] else []
  {
    if s != [] {
      assert s == s[..|s| - 1] + [s[|s| - 1]];
      FilterSame(s[..|s| - 1], x);
    }
  }

  /** A Python dict: `keys` is the insertion order, which assignment to a present key keeps. */
  datatype Dict<K(==), V> = Dict(keys: seq<K>, at: map<K, V>) {

    ghost predicate Valid() {
      Distinct(keys) && (forall k | k in keys :: k in at) && (forall k | k in at :: k in keys)
    }

    function Put(k: K, v: V): Dict<K, V> {
      Dict(if k in at then keys else keys + [k], at[k := v])
    }

    function Del(k: K): Dict<K, V> {
      Dict(Filter(keys, Other(k)), at - {k})
    }

    /** Delete every key that fails the test. */
    function Keep(keep: K -> bool): Dict<K, V> {
      Dict(Filter(keys, keep), map k | k in at && keep(k) :: at[k])
    }

    function Values(): seq<V>
      requires Valid()
    {
      seq(|keys|, i requires 0 <= i < |keys| => assert keys[i] in keys; at[keys[i]])
    }
  }

  lemma PutValid<K, V>(d: Dict<K, V>, k: K, v: V)
    requires d.Valid()
    ensures d.Put(k, v).Valid()
  {
  }

  lemma DelValid<K, V>(d: Dict<K, V>, k: K)
    requires d.Valid()
    ensures d.Del(k).Valid()
  {
    FilterDistinct(d.keys, Other(k));
    forall x ensures x in d.Del(k).keys <==> x in d.keys && x != k {
      FilterMember(d.keys, Other(k), x);
    }
    var e := d.Del(k);
    assert Distinct(e.keys);
    assert forall x | x in e.keys :: x in e.at;
    assert forall x | x in e.at :: x in e.keys;
  }

  lemma KeepValid<K, V>(d: Dict<K, V>, keep: K -> bool)
    requires d.Valid()
    ensures d.Keep(keep).Valid()
  {
    FilterDistinct(d.keys, keep);
    forall x ensures x in d.Keep(keep).keys <==> x in d.keys && keep(x) {
      FilterMember(d.keys, keep, x);
    }
    var e := d.Keep(keep);
    assert Distinct(e.keys);
    assert forall x | x in e.keys :: x in e.at;
    assert forall x | x in e.at :: x in e.keys;
  }

  /** Deleting takes exactly one key away. */
  lemma DelContents<K, V>(d: Dict<K, V>, k: K)
    requires d.Valid() && k in d.at
    ensures d.Del(k).Valid()
    ensures multiset(d.keys) == multiset(d.Del(k).keys) + multiset{k}
    ensures |d.Del(k).keys| == |d.keys| - 1
  {
    DelValid(d, k);
    FilterSplit(d.keys, Other(k), Same(k));
    FilterSame(d.keys, k);
    assert multiset([k]) == multiset{k};
    assert |multiset(d.keys)| == |multiset(d.Del(k).keys)| + 1;
  }
}
