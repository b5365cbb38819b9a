/** A stable sort by a key, as `Array.prototype.sort` with a comparator that
    subtracts two keys: only the sign of the difference matters, and elements
    whose keys are equal keep their input order. */
module StableSort {
  import opened Common

  /** A sort key extended with both infinities. */
  datatype Rank = Bottom | At(v: int) | Top

  /** Strict order on ranks. */
  predicate Less(x: Rank, y: Rank)
  {
    match (x, y)
    case (Bottom, Bottom) => false
    case (Bottom, _) => true
    case (At(a), At(b)) => a < b
    case (At(_), Top) => true
    case (_, _) => false
  }

  /** `Less` is a strict total order. */
  lemma LessOrder(x: Rank, y: Rank, z: Rank)
    ensures !Less(x, x)
    ensures Less(x, y) && Less(y, z) ==> Less(x, z)
    ensures Less(x, y) || x == y || Less(y, x)
  {
  }

  /** `x` goes after every trailing element whose key is not greater. */
  function Insert<T>(l: seq<T>, x: T, key: T -> Rank): (r: seq<T>)
    ensures |r| == |l| + 1
  {
    if l == [] then [x]
    else if Less(key(x), key(l[|l| - 1])) then Insert(l[..|l| - 1], x, key) + [l[|l| - 1]]
    else l + [x]
  }

  /** The stable sort of `s`, built by insertions from the front. */
  function SortSpec<T>(s: seq<T>, key: T -> Rank): (r: seq<T>)
    ensures |r| == |s|
  {
    if s == [] then [] else Insert(SortSpec(s[..|s| - 1], key), s[|s| - 1], key)
  }

  /** Where `Insert` puts its element. */
  function InsertPos<T>(l: seq<T>, x: T, key: T -> Rank): (j: nat)
    ensures j <= |l|
  {
    if l == [] then 0
    else if Less(key(x), key(l[|l| - 1])) then InsertPos(l[..|l| - 1], x, key)
    else |l|
  }

  /** Inserting at a position before which no key is greater and from which
      every key is. */
  lemma {:induction false} InsertAt<T>(l: seq<T>, x: T, key: T -> Rank, j: nat)
    requires j <= |l|
    requires forall k :: j <= k < |l| ==> Less(key(x), key(l[k]))
    requires j > 0 ==> !Less(key(x), key(l[j - 1]))
    ensures Insert(l, x, key) == l[..j] + [x] + l[j..]
  {
    if j < |l| {
      var l', last := l[..|l| - 1], l[|l| - 1];
      assert Insert(l, x, key) == Insert(l', x, key) + [last];
      assert forall k :: j <= k < |l'| ==> l'[k] == l[k];
      assert j > 0 ==> l'[j - 1] == l[j - 1];
      InsertAt(l', x, key, j);
      assert l'[..j] == l[..j];
      assert l[j..] == l'[j..] + [last];
    } else if l != [] {
      assert l[..j] == l;
      assert l[j..] == [];
    }
  }

  /** The shape of an insertion: the keys after the new element are all
      greater than its key, the one before it is not. */
  lemma {:induction false} InsertShape<T>(l: seq<T>, x: T, key: T -> Rank)
    ensures var j := InsertPos(l, x, key);
      (forall k :: j <= k < |l| ==> Less(key(x), key(l[k])))
      && (j > 0 ==> !Less(key(x), key(l[j - 1])))
      && Insert(l, x, key) == l[..j] + [x] + l[j..]
  {
    var j := InsertPos(l, x, key);
    if l != [] && Less(key(x), key(l[|l| - 1])) {
      var l' := l[..|l| - 1];
      InsertShape(l', x, key);
      assert j == InsertPos(l', x, key);
      assert forall k :: j <= k < |l'| ==> l[k] == l'[k];
      assert j > 0 ==> l[j - 1] == l'[j - 1];
    }
    InsertAt(l, x, key, j);
  }

  /** No later key is smaller than an earlier one. */
  predicate Sorted<T>(s: seq<T>, key: T -> Rank)
  {
    forall i, j :: 0 <= i < j < |s| ==> !Less(key(s[j]), key(s[i]))
  }

  lemma InsertSorted<T>(l: seq<T>, x: T, key: T -> Rank)
    requires Sorted(l, key)
    ensures Sorted(Insert(l, x, key), key)
  {
    InsertShape(l, x, key);
    var j := InsertPos(l, x, key);
    var r := l[..j] + [x] + l[j..];
    forall p, q | 0 <= p < q < |r| ensures !Less(key(r[q]), key(r[p])) {
      if q < j {
        assert r[p] == l[p] && r[q] == l[q];
      } else if q == j {
        assert r[p] == l[p] && r[q] == x;
        LessOrder(key(x), key(l[j - 1]), key(l[p]));
        LessOrder(key(l[j - 1]), key(l[p]), key(x));
      } else if p == j {
        assert r[p] == x && r[q] == l[q - 1];
        LessOrder(key(x), key(l[q - 1]), key(x));
      } else if p < j {
        assert r[p] == l[p] && r[q] == l[q - 1];
      } else {
        assert r[p] == l[p - 1] && r[q] == l[q - 1];
      }
    }
  }

  /** The sort orders its result by key. */
  lemma {:induction false} SortSpecSorted<T>(s: seq<T>, key: T -> Rank)
    ensures Sorted(SortSpec(s, key), key)
  {
    if s != [] {
      SortSpecSorted(s[..|s| - 1], key);
      InsertSorted(SortSpec(s[..|s| - 1], key), s[|s| - 1], key);
    }
  }

  lemma {:induction false} InsertPermutes<T>(l: seq<T>, x: T, key: T -> Rank)
    ensures multiset(Insert(l, x, key)) == multiset(l) + multiset{x}
  {
    if l != [] && Less(key(x), key(l[|l| - 1])) {
      var l' := l[..|l| - 1];
      InsertPermutes(l', x, key);
      assert l == l' + [l[|l| - 1]];
    }
  }

  /** The sort is a permutation of its input. */
  lemma {:induction false} SortSpecPermutes<T>(s: seq<T>, key: T -> Rank)
    ensures multiset(SortSpec(s, key)) == multiset(s)
  {
    if s != [] {
      var s' := s[..|s| - 1];
      SortSpecPermutes(s', key);
      InsertPermutes(SortSpec(s', key), s[|s| - 1], key);
      assert s == s' + [s[|s| - 1]];
    }
  }

  /** The elements whose key is `k`. */
  function KeyIs<T>(k: Rank, key: T -> Rank): T -> bool
  {
    y => key(y) == k
  }

  lemma InsertStable<T>(l: seq<T>, y: T, k: Rank, key: T -> Rank)
    ensures Filter(Insert(l, y, key), KeyIs(k, key)) ==
      Filter(l, KeyIs(k, key)) + (if key(y) == k then [y] else [])
  {
    InsertShape(l, y, key);
    var j := InsertPos(l, y, key);
    assert l == l[..j] + l[j..];
    SpliceStable(l[..j], y, l[j..], k, key);
  }

  /** Splicing `y` in front of elements whose keys are all greater. */
  lemma SpliceStable<T>(front: seq<T>, y: T, back: seq<T>, k: Rank, key: T -> Rank)
    requires forall i :: 0 <= i < |back| ==> Less(key(y), key(back[i]))
    ensures Filter(front + [y] + back, KeyIs(k, key)) ==
      Filter(front + back, KeyIs(k, key)) + (if key(y) == k then [y] else [])
  {
    var e := KeyIs(k, key);
    FilterSplice(front, y, back, e);
    FilterConcat(front, back, e);
    if key(y) == k {
      forall i | 0 <= i < |back| ensures !e(back[i]) {
        LessOrder(key(y), key(back[i]), key(y));
      }
      FilterNone(back, e);
    }
  }

  /** Stability: the elements with any one key keep their relative input
      order. */
  lemma {:induction false} SortSpecStable<T>(s: seq<T>, k: Rank, key: T -> Rank)
    ensures Filter(SortSpec(s, key), KeyIs(k, key)) == Filter(s, KeyIs(k, key))
  {
    if s != [] {
      var s', y := s[..|s| - 1], s[|s| - 1];
      SortSpecStable(s', k, key);
      InsertStable(SortSpec(s', key), y, k, key);
      assert s == s' + [y];
      FilterAppend(s', y, KeyIs(k, key));
    }
  }

  /** Insertion sort in place: each element moves left past the elements whose
      key is greater, never past an equal one. */
  method SortInPlace<T>(a: array<T>, key: T -> Rank)
    modifies a
    ensures a[..] == SortSpec(old(a[..]), key)
  {
    ghost var s0 := a[..];
    var i := 0;
    while i < a.Length
      invariant 0 <= i <= a.Length
      invariant a[..i] == SortSpec(s0[..i], key)
      invariant a[i..] == s0[i..]
    {
      InsertLast(a, i, key);
      assert s0[..i + 1] == s0[..i] + [s0[i]];
      assert s0[..i + 1][..i] == s0[..i];
      i := i + 1;
    }
    assert s0[..a.Length] == s0;
  }

  /** One step of the insertion sort: `a[i]` moves into the sorted prefix
      `a[..i]`. */
  method InsertLast<T>(a: array<T>, i: nat, key: T -> Rank)
    requires i < a.Length
    modifies a
    ensures a[..i + 1] == Insert(old(a[..i]), old(a[i]), key)
    ensures a[i + 1..] == old(a[i + 1..])
  {
    var x := a[i];
    ghost var l := a[..i];
    ghost var rest := a[i + 1..];
    var j := i;
    while j > 0 && Less(key(x), key(a[j - 1]))
      invariant 0 <= j <= i
      invariant forall k :: 0 <= k < j ==> a[k] == l[k]
      invariant forall k :: j < k <= i ==> a[k] == l[k - 1]
      invariant forall k :: j <= k < i ==> Less(key(x), key(l[k]))
      invariant a[i + 1..] == rest
    {
      a[j] := a[j - 1];
      j := j - 1;
    }
    a[j] := x;
    InsertAt(l, x, key, j);
    assert a[..i + 1] == l[..j] + [x] + l[j..];
  }
}
