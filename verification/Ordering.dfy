/**
  Sorting by a composite key.

  Every `sort` in the modelled code orders rows by a tuple of cells: numbers (ascending, or
  negated for descending), missing values last, and strings by code point.  All of them are
  one lexicographic order over sequences of optional numbers; a string contributes one cell
  per character.
*/
module Ordering {
  import opened Wrappers

  type Key = seq<Option<real>>

  function Whole(n: int): Option<real> { Some(n as real) }

  /** A present cell under a descending sort; a missing cell still sorts last. */
  function Descending(x: Option<real>): Option<real> {
    if x.None? then None else Some(-x.value)
  }

  /** The cells of a string, one per character. */
  function Text(s: string): (k: Key)
    ensures |k| == |s|
    ensures forall i :: 0 <= i < |s| ==> k[i] == Some((s[i] as int) as real)
  {
    seq(|s|, i requires 0 <= i < |s| => Some((s[i] as int) as real))
  }

  lemma TextInjective(s: string, t: string)
    requires Text(s) == Text(t)
    ensures s == t
  {
    assert |s| == |t|;
    forall i | 0 <= i < |s|
      ensures s[i] == t[i]
    {
      assert Text(s)[i] == Text(t)[i];
    }
  }

  predicate CellLess(a: Option<real>, b: Option<real>) {
    a.Some? && (b.None? || a.value < b.value)
  }

  predicate KeyLe(a: Key, b: Key) {
    if a == [] then true
    else if b == [] then false
    else if a[0] == b[0] then KeyLe(a[1..], b[1..])
    else CellLess(a[0], b[0])
  }

  lemma {:induction false} KeyLeTotal(a: Key, b: Key)
    ensures KeyLe(a, b) || KeyLe(b, a)
  {
    if a != [] && b != [] && a[0] == b[0] {
      KeyLeTotal(a[1..], b[1..]);
    }
  }

  lemma {:induction false} KeyLeReflexive(a: Key)
    ensures KeyLe(a, a)
  {
    KeyLeTotal(a, a);
  }

  lemma {:induction false} KeyLeAntisymmetric(a: Key, b: Key)
    requires KeyLe(a, b) && KeyLe(b, a)
    ensures a == b
  {
    if a != [] && b != [] {
      assert a[0] == b[0];
      KeyLeAntisymmetric(a[1..], b[1..]);
      assert a == [a[0]] + a[1..] == [b[0]] + b[1..] == b;
    }
  }

  lemma {:induction false} KeyLeTransitive(a: Key, b: Key, c: Key)
    requires KeyLe(a, b) && KeyLe(b, c)
    ensures KeyLe(a, c)
  {
    if a != [] && b != [] && c != [] && a[0] == b[0] && b[0] == c[0] {
      KeyLeTransitive(a[1..], b[1..], c[1..]);
    }
  }

  ghost predicate SortedBy<T>(s: seq<T>, key: T -> Key) {
    forall i, j :: 0 <= i < j < |s| ==> KeyLe(key(s[i]), key(s[j]))
  }

  function Insert<T>(x: T, s: seq<T>, key: T -> Key): (r: seq<T>)
    ensures multiset(r) == multiset{x} + multiset(s)
    ensures |r| == |s| + 1
  {
    if s == [] then [x]
    else if KeyLe(key(x), key(s[0])) then [x] + s
    else
      assert s == [s[0]] + s[1..];
      [s[0]] + Insert(x, s[1..], key)
  }

  /** The stable sort of the source: equal keys keep their input order. */
  function SortBy<T>(s: seq<T>, key: T -> Key): (r: seq<T>)
    ensures multiset(r) == multiset(s)
    ensures |r| == |s|
  {
    if s == [] then []
    else
      assert s == [s[0]] + s[1..];
      Insert(s[0], SortBy(s[1..], key), key)
  }

  lemma {:induction false} InsertSorted<T>(x: T, s: seq<T>, key: T -> Key)
    requires SortedBy(s, key)
    ensures SortedBy(Insert(x, s, key), key)
  {
    if s == [] {
    } else if KeyLe(key(x), key(s[0])) {
      forall j | 0 <= j < |s|
        ensures KeyLe(key(x), key(s[j]))
      {
        if j > 0 { KeyLeTransitive(key(x), key(s[0]), key(s[j])); }
      }
    } else {
      var rest := Insert(x, s[1..], key);
      InsertSorted(x, s[1..], key);
      KeyLeTotal(key(x), key(s[0]));
      forall j | 0 <= j < |rest|
        ensures KeyLe(key(s[0]), key(rest[j]))
      {
        assert rest[j] in multiset(rest);
        assert rest[j] == x || rest[j] in s[1..];
      }
    }
  }

  lemma {:induction false} SortBySorted<T>(s: seq<T>, key: T -> Key)
    ensures SortedBy(SortBy(s, key), key)
  {
    if s != [] {
      SortBySorted(s[1..], key);
      InsertSorted(s[0], SortBy(s[1..], key), key);
    }
  }

  ghost predicate DistinctKeys<T(!new)>(m: multiset<T>, key: T -> Key) {
    && (forall x :: x in m ==> m[x] == 1)
    && (forall x, y :: x in m && y in m && key(x) == key(y) ==> x == y)
  }

  lemma TailMultiset<T>(s: seq<T>)
    requires s != []
    ensures multiset(s) == multiset{s[0]} + multiset(s[1..])
  {
    assert s == [s[0]] + s[1..];
  }

  lemma HeadIsLeast<T>(s: seq<T>, x: T, key: T -> Key)
    requires SortedBy(s, key) && x in s
    ensures KeyLe(key(s[0]), key(x))
  {
    KeyLeReflexive(key(x));
  }

  lemma DistinctKeysTail<T(!new)>(s: seq<T>, key: T -> Key)
    requires s != [] && DistinctKeys(multiset(s), key)
    ensures DistinctKeys(multiset(s[1..]), key)
  {
    TailMultiset(s);
    var t := multiset(s[1..]);
    forall x | x in t
      ensures t[x] == 1 && x in multiset(s)
    {
      assert multiset(s)[x] == multiset{s[0]}[x] + t[x];
    }
  }

  lemma SameHead<T(!new)>(a: seq<T>, b: seq<T>, key: T -> Key)
    requires a != [] && b != []
    requires SortedBy(a, key) && SortedBy(b, key)
    requires multiset(a) == multiset(b)
    requires DistinctKeys(multiset(a), key)
    ensures a[0] == b[0]
  {
    assert a[0] in multiset(b) && b[0] in multiset(a);
    HeadIsLeast(a, b[0], key);
    HeadIsLeast(b, a[0], key);
    KeyLeAntisymmetric(key(a[0]), key(b[0]));
  }

  /** When no two rows share a key there is only one sorted arrangement of them. */
  lemma {:induction false} SortedIsUnique<T(!new)>(a: seq<T>, b: seq<T>, key: T -> Key)
    requires SortedBy(a, key) && SortedBy(b, key)
    requires multiset(a) == multiset(b)
    requires DistinctKeys(multiset(a), key)
    ensures a == b
  {
    assert |a| == |multiset(a)| == |multiset(b)| == |b|;
    if a != [] {
      SameHead(a, b, key);
      TailMultiset(a);
      TailMultiset(b);
      assert multiset(a[1..]) == multiset(a) - multiset{a[0]} == multiset(b[1..]);
      DistinctKeysTail(a, key);
      SortedIsUnique(a[1..], b[1..], key);
    }
  }

  /** Sorting does not depend on the order the rows arrive in, when no two share a key. */
  lemma SortIgnoresInputOrder<T(!new)>(a: seq<T>, b: seq<T>, key: T -> Key)
    requires multiset(a) == multiset(b)
    requires DistinctKeys(multiset(a), key)
    ensures SortBy(a, key) == SortBy(b, key)
  {
    SortBySorted(a, key);
    SortBySorted(b, key);
    SortedIsUnique(SortBy(a, key), SortBy(b, key), key);
  }

  lemma SortOne<T>(x: T, key: T -> Key)
    ensures SortBy([x], key) == [x]
  {
    hide KeyLe;
    assert [x][1..] == [];
  }

  lemma InsertBeside<T>(x: T, y: T, key: T -> Key)
    ensures Insert(x, [y], key) == if KeyLe(key(x), key(y)) then [x, y] else [y, x]
  {
    hide KeyLe;
    assert [y][1..] == [] && Insert(x, [], key) == [x];
  }

  lemma SortPair<T>(x: T, y: T, key: T -> Key)
    ensures SortBy([x, y], key) == if KeyLe(key(x), key(y)) then [x, y] else [y, x]
  {
    hide KeyLe, Insert;
    SortOne(y, key);
    InsertBeside(x, y, key);
    assert [x, y][1..] == [y];
  }

  // ----- the same in plain terms -----

  /** Order by code point, a prefix first. */
  predicate TextLe(s: string, t: string) {
    s == "" || (t != "" && (s[0] < t[0] || (s[0] == t[0] && TextLe(s[1..], t[1..]))))
  }

  lemma {:induction false} TextOrder(s: string, t: string)
    ensures KeyLe(Text(s), Text(t)) <==> TextLe(s, t)
  {
    if s != "" && t != "" {
      assert Text(s)[1..] == Text(s[1..]) && Text(t)[1..] == Text(t[1..]);
      TextOrder(s[1..], t[1..]);
    }
  }

  /** Where two ordered keys first differ, the smaller has the smaller cell; a missing cell is the largest. */
  lemma {:induction false} FirstDifference(a: Key, b: Key, n: nat)
    requires KeyLe(a, b) && n <= |a| && n <= |b| && a[..n] == b[..n]
    ensures KeyLe(a[n..], b[n..])
    ensures n < |a| && n < |b| && b[n].Some? ==> a[n].Some? && a[n].value <= b[n].value
  {
    if n == 0 {
      assert a[0..] == a && b[0..] == b;
    } else {
      assert a[0] == a[..n][0] == b[..n][0] == b[0];
      assert a[1..][..n - 1] == a[..n][1..] == b[..n][1..] == b[1..][..n - 1];
      FirstDifference(a[1..], b[1..], n - 1);
      assert a[1..][n - 1..] == a[n..] && b[1..][n - 1..] == b[n..];
    }
  }
}
