/** Python's sorted() over an explicit total preorder, and the code-point order of strings. */
module Ordering {
  import opened Collections

  ghost predicate TotalPreorder<T(!new)>(le: (T, T) -> bool) {
    && (forall x, y :: le(x, y) || le(y, x))
    && (forall x, y, z :: le(x, y) && le(y, z) ==> le(x, z))
  }

  /** No two elements of `s` tie under `le`. */
  ghost predicate NoTies<T>(le: (T, T) -> bool, s: seq<T>) {
    forall x, y | x in s && y in s :: le(x, y) && le(y, x) ==> x == y
  }

  ghost predicate Sorted<T>(le: (T, T) -> bool, s: seq<T>) {
    forall i, j | 0 <= i < j < |s| :: le(s[i], s[j])
  }

  function Insert<T>(le: (T, T) -> bool, x: T, s: seq<T>): seq<T> {
    if s == [] || le(x, s[0]) then [x] + s else [s[0]] + Insert(le, x, s[1..])
  }

  /** A stable sort: ties keep their order, as sorted() promises. */
  function Sort<T>(le: (T, T) -> bool, s: seq<T>): seq<T> {
    if s == [] then [] else Insert(le, s[0], Sort(le, s[1..]))
  }

  lemma {:induction false} InsertContents<T>(le: (T, T) -> bool, x: T, s: seq<T>)
    ensures multiset(Insert(le, x, s)) == multiset{x} + multiset(s)
  {
    if s != [] && !le(x, s[0]) {
      InsertContents(le, x, s[1..]);
      assert s == [s[0]] + s[1..];
    }
  }

  lemma {:induction false} SortContents<T>(le: (T, T) -> bool, s: seq<T>)
    ensures multiset(Sort(le, s)) == multiset(s)
  {
    if s != [] {
      SortContents(le, s[1..]);
      InsertContents(le, s[0], Sort(le, s[1..]));
      assert s == [s[0]] + s[1..];
    }
  }

  lemma {:induction false} InsertSorted<T(!new)>(le: (T, T) -> bool, x: T, s: seq<T>)
    requires TotalPreorder(le) && Sorted(le, s)
    ensures Sorted(le, Insert(le, x, s))
  {
    if s == [] {
    } else if le(x, s[0]) {
      forall j | 0 <= j < |s| ensures le(x, s[j]) { assert le(s[0], s[0]); }
    } else {
      InsertSorted(le, x, s[1..]);
      var rest := Insert(le, x, s[1..]);
      InsertContents(le, x, s[1..]);
      forall j | 0 <= j < |rest| ensures le(s[0], rest[j]) {
        assert rest[j] in multiset(rest);
        if rest[j] != x { assert rest[j] in s[1..]; }
      }
    }
  }

  lemma {:induction false} SortSorted<T(!new)>(le: (T, T) -> bool, s: seq<T>)
    requires TotalPreorder(le)
    ensures Sorted(le, Sort(le, s))
  {
    if s != [] {
      SortSorted(le, s[1..]);
      InsertSorted(le, s[0], Sort(le, s[1..]));
    }
  }

  /** Two sorted arrangements of the same elements are the same sequence when nothing ties. */
  lemma {:induction false} SortedUnique<T>(le: (T, T) -> bool, a: seq<T>, b: seq<T>)
    requires Sorted(le, a) && Sorted(le, b) && multiset(a) == multiset(b)
    requires NoTies(le, a)
    ensures a == b
  {
    if a == [] {
      assert |multiset(b)| == 0;
    } else {
      assert a[0] in multiset(b);
      HeadsAgree(le, a, b);
      TailContents(a, b);
      SortedTail(le, a);
      SortedTail(le, b);
      SortedUnique(le, a[1..], b[1..]);
    }
  }

  lemma SortedTail<T>(le: (T, T) -> bool, a: seq<T>)
    requires Sorted(le, a) && a != []
    ensures Sorted(le, a[1..])
    ensures NoTies(le, a) ==> NoTies(le, a[1..])
  {
    var t := a[1..];
    forall i, j | 0 <= i < j < |t| ensures le(t[i], t[j]) { assert t[i] == a[i + 1] && t[j] == a[j + 1]; }
    assert forall x | x in t :: x in a;
  }

  lemma TailContents<T>(a: seq<T>, b: seq<T>)
    requires a != [] && b != [] && a[0] == b[0] && multiset(a) == multiset(b)
    ensures multiset(a[1..]) == multiset(b[1..])
  {
    assert a == [a[0]] + a[1..] && b == [b[0]] + b[1..];
    assert multiset(a[1..]) == multiset(a) - multiset{a[0]};
  }

  lemma HeadsAgree<T>(le: (T, T) -> bool, a: seq<T>, b: seq<T>)
    requires Sorted(le, a) && Sorted(le, b) && multiset(a) == multiset(b)
    requires NoTies(le, a) && a != [] && b != []
    ensures a[0] == b[0]
  {
    assert a[0] in multiset(b) && b[0] in multiset(a);
    var i :| 0 <= i < |b| && b[i] == a[0];
    var j :| 0 <= j < |a| && a[j] == b[0];
  }

  /** sorted() does not depend on the order its input arrives in when nothing ties. */
  lemma SortCanonical<T(!new)>(le: (T, T) -> bool, s: seq<T>, t: seq<T>)
    requires TotalPreorder(le) && NoTies(le, s) && multiset(s) == multiset(t)
    ensures Sort(le, s) == Sort(le, t)
  {
    SortContents(le, s);
    SortContents(le, t);
    SortSorted(le, s);
    SortSorted(le, t);
    forall x | x in Sort(le, s) ensures x in s { assert x in multiset(Sort(le, s)); }
    SortedUnique(le, Sort(le, s), Sort(le, t));
  }

  lemma SortMembers<T>(le: (T, T) -> bool, s: seq<T>)
    ensures |Sort(le, s)| == |s|
    ensures forall x :: x in Sort(le, s) <==> x in s
  {
    SortContents(le, s);
    assert |multiset(Sort(le, s))| == |multiset(s)|;
    forall x ensures x in Sort(le, s) <==> x in s {
      assert x in Sort(le, s) <==> x in multiset(Sort(le, s));
    }
  }

  lemma {:induction false} FilterSorted<T>(le: (T, T) -> bool, s: seq<T>, keep: T -> bool)
    requires Sorted(le, s)
    ensures Sorted(le, Filter(s, keep))
  {
    if s != [] {
      var front, kept := s[..|s| - 1], Filter(s[..|s| - 1], keep);
      FilterSorted(le, front, keep);
      forall i | 0 <= i < |kept| ensures le(kept[i], s[|s| - 1]) {
        FilterMember(front, keep, kept[i]);
        var j :| 0 <= j < |front| && front[j] == kept[i];
        assert s[j] == kept[i];
      }
    }
  }

  lemma SortDistinct<T>(le: (T, T) -> bool, s: seq<T>)
    requires Distinct(s)
    ensures Distinct(Sort(le, s))
  {
    SortContents(le, s);
    MultisetDistinct(s, Sort(le, s));
  }

  lemma MultisetDistinct<T>(s: seq<T>, t: seq<T>)
    requires Distinct(s) && multiset(s) == multiset(t)
    ensures Distinct(t)
  {
    forall i, j | 0 <= i < j < |t| ensures t[i] != t[j] {
      if t[i] == t[j] {
        CountTwice(t, i, j);
        DistinctCount(s, t[i]);
      }
    }
  }

  /** Python's <= on str. */
  predicate TextLe(a: string, b: string) {
    a == "" || (b != "" && (a[0] < b[0] || (a[0] == b[0] && TextLe(a[1..], b[1..]))))
  }

  lemma {:induction false} TextLeTotal(a: string, b: string)
    ensures TextLe(a, b) || TextLe(b, a)
    ensures TextLe(a, b) && TextLe(b, a) ==> a == b
  {
    if a != "" && b != "" {
      assert a == [a[0]] + a[1..] && b == [b[0]] + b[1..];
      TextLeTotal(a[1..], b[1..]);
    }
  }

  lemma {:induction false} TextLeTransitive(a: string, b: string, c: string)
    requires TextLe(a, b) && TextLe(b, c)
    ensures TextLe(a, c)
  {
    if a != "" && b != "" && c != "" && a[0] == b[0] && b[0] == c[0] {
      TextLeTransitive(a[1..], b[1..], c[1..]);
    }
  }

  lemma TextLeTotalPreorder()
    ensures TotalPreorder(TextLe)
    ensures forall s :: NoTies(TextLe, s)
  {
    forall x, y ensures TextLe(x, y) || TextLe(y, x) { TextLeTotal(x, y); }
    forall x, y, z | TextLe(x, y) && TextLe(y, z) ensures TextLe(x, z) { TextLeTransitive(x, y, z); }
    forall s: seq<string> ensures NoTies(TextLe, s) {
      forall x, y | x in s && y in s && TextLe(x, y) && TextLe(y, x) ensures x == y { TextLeTotal(x, y); }
    }
  }

  /** str.isspace for one character. */
  predicate IsSpace(c: char) {
    '\t' <= c <= '\r' || '\U{1c}' <= c <= ' ' || c == '\U{85}' || c == '\U{a0}' || c == '\U{1680}'
    || '\U{2000}' <= c <= '\U{200a}' || c == '\U{2028}' || c == '\U{2029}' || c == '\U{202f}'
    || c == '\U{205f}' || c == '\U{3000}'
  }

  /** str.strip. */
  function Strip(s: string): string {
    if s != "" && IsSpace(s[0]) then Strip(s[1..])
    else if s != "" && IsSpace(s[|s| - 1]) then Strip(s[..|s| - 1])
    else s
  }

  lemma {:induction false} StripTwice(s: string)
    ensures Strip(Strip(s)) == Strip(s)
    decreases |s|
  {
    if s != "" && IsSpace(s[0]) { StripTwice(s[1..]); }
    else if s != "" && IsSpace(s[|s| - 1]) { StripTwice(s[..|s| - 1]); }
  }

  /** Text that starts with anything but a space survives stripping. */
  lemma {:induction false} StripKeepsFirst(s: string)
    requires s != "" && !IsSpace(s[0])
    ensures Strip(s) != ""
  {
    if IsSpace(s[|s| - 1]) { StripKeepsFirst(s[..|s| - 1]); }
  }

  /** not s.strip() */
  predicate Blank(s: string) { s == "" || (IsSpace(s[0]) && Blank(s[1..])) }

  lemma {:induction false} BlankIff(s: string)
    ensures Blank(s) <==> Strip(s) == ""
  {
    if s != "" && IsSpace(s[0]) { BlankIff(s[1..]); }
    else if s != "" { StripKeepsFirst(s); }
  }

  /** tuple(dict.fromkeys(v.strip() for v in values if v.strip())). */
  function Normalized(values: seq<string>): (r: seq<string>) {
    Unique(Filter(Map(values, Strip), NonEmpty()))
  }

  function NonEmpty(): string -> bool { v => v != "" }

  lemma NormalizedMember(values: seq<string>, v: string)
    ensures v in Normalized(values) <==> v != "" && exists i | 0 <= i < |values| :: Strip(values[i]) == v
  {
    FilterMember(Map(values, Strip), NonEmpty(), v);
    assert v in Map(values, Strip) <==> exists i | 0 <= i < |values| :: Map(values, Strip)[i] == v;
  }

  lemma StripsNothing(s: string)
    requires s != "" && !IsSpace(s[0]) && !IsSpace(s[|s| - 1])
    ensures Strip(s) == s
  {
  }

  lemma NormalizedNothing()
    ensures Normalized([]) == []
  {
    assert Map([], Strip) == [];
  }

  /** A text of one character that is no space is left as it is. */
  lemma NormalizedLetter(c: char)
    requires !IsSpace(c)
    ensures !Blank([c]) && Strip([c]) == [c] && Normalized([[c]]) == [[c]]
  {
    assert Map([[c]], Strip) == [[c]];
    assert Filter([[c]][..0], NonEmpty()) == [];
    UniqueSame([[c]]);
  }
}
