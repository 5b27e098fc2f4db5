/**
 * The ranking step of target selection: the fitted boxes are sorted by
 * their centre's distance to the reference point, nearest first, with a
 * stable sort (Java's `List.sort`), so boxes at equal distance keep the
 * order of their contours. The sort is written as an insertion sort;
 * `StableSortUnique` shows that every stable sort yields the same list.
 */
module ProximitySort {
  import opened Geometry
  import opened TargetMath

  /** The comparator's key: how far the box's centre is from the reference point. */
  function Key(b: RotatedRect): (k: real)
    ensures k >= 0.0
  {
    DistanceToCenter(b.shape.center)
  }

  /** Nearest first. */
  ghost predicate Sorted(s: seq<RotatedRect>)
  {
    forall i, j :: 0 <= i < j < |s| ==> Key(s[i]) <= Key(s[j])
  }

  /** No box appears twice (each stands for a distinct object). */
  ghost predicate Distinct(s: seq<RotatedRect>)
  {
    forall i, j :: 0 <= i < j < |s| ==> s[i] != s[j]
  }

  /** The boxes of `s` whose key is exactly `k`, in their order in `s`. */
  function AtKey(s: seq<RotatedRect>, k: real): seq<RotatedRect>
  {
    if |s| == 0 then []
    else (if Key(s[0]) == k then [s[0]] else []) + AtKey(s[1..], k)
  }

  lemma {:induction false} AtKeyMember(s: seq<RotatedRect>, k: real, b: RotatedRect)
    ensures b in AtKey(s, k) <==> b in s && Key(b) == k
  {
    if |s| > 0 {
      AtKeyMember(s[1..], k, b);
      assert s == [s[0]] + s[1..];
    }
  }

  /** Places `x` before the first box that is at least as far away, which
      keeps `x` ahead of the boxes at its own distance. */
  function Insert(x: RotatedRect, s: seq<RotatedRect>): (r: seq<RotatedRect>)
    ensures multiset(r) == multiset(s) + multiset{x}
  {
    if |s| == 0 || Key(x) <= Key(s[0]) then [x] + s
    else
      assert s == [s[0]] + s[1..];
      [s[0]] + Insert(x, s[1..])
  }

  /** Inserting into a sorted list keeps it sorted. */
  lemma {:induction false} InsertSorted(x: RotatedRect, s: seq<RotatedRect>)
    requires Sorted(s)
    ensures Sorted(Insert(x, s))
  {
    if |s| > 0 && Key(s[0]) < Key(x) {
      var t := Insert(x, s[1..]);
      InsertSorted(x, s[1..]);
      forall j | 0 <= j < |t|
        ensures Key(s[0]) <= Key(t[j])
      {
        assert t[j] in multiset(t);
      }
    }
  }

  /** `rotatedBoxes.sort(...)`: the boxes ordered nearest first. */
  function SortByDistance(s: seq<RotatedRect>): (r: seq<RotatedRect>)
    ensures multiset(r) == multiset(s)
    ensures Sorted(r)
  {
    if |s| == 0 then []
    else
      assert s == [s[0]] + s[1..];
      InsertSorted(s[0], SortByDistance(s[1..]));
      Insert(s[0], SortByDistance(s[1..]))
  }

  lemma {:induction false} InsertAtKey(x: RotatedRect, s: seq<RotatedRect>, k: real)
    ensures AtKey(Insert(x, s), k) == if Key(x) == k then [x] + AtKey(s, k) else AtKey(s, k)
  {
    if |s| == 0 || Key(x) <= Key(s[0]) {
      assert ([x] + s)[1..] == s;
    } else {
      var r := [s[0]] + Insert(x, s[1..]);
      assert r[1..] == Insert(x, s[1..]);
      InsertAtKey(x, s[1..], k);
    }
  }

  /** Stability: the boxes at any one distance appear in the sorted list in
      the order of their contours. */
  lemma {:induction false} SortStable(s: seq<RotatedRect>, k: real)
    ensures AtKey(SortByDistance(s), k) == AtKey(s, k)
  {
    if |s| > 0 {
      SortStable(s[1..], k);
      InsertAtKey(s[0], SortByDistance(s[1..]), k);
    }
  }

  /** The nearest box of a sorted list is the first of the boxes at its distance. */
  lemma {:induction false} HeadIsNearest(a: seq<RotatedRect>, b: RotatedRect)
    requires Sorted(a) && |a| > 0 && b in a
    ensures Key(a[0]) <= Key(b)
  {}

  /** Two sorted lists that agree at every distance start with the same box. */
  lemma {:induction false} SameHead(a: seq<RotatedRect>, b: seq<RotatedRect>)
    requires Sorted(a) && Sorted(b) && |a| > 0
    requires forall k :: AtKey(a, k) == AtKey(b, k)
    ensures |b| > 0 && a[0] == b[0]
  {
    var k0 := Key(a[0]);
    assert AtKey(a, k0) == [a[0]] + AtKey(a[1..], k0);
    assert AtKey(a, k0) == AtKey(b, k0);
    AtKeyMember(b, k0, a[0]);
    var k1 := Key(b[0]);
    assert AtKey(a, k1) == AtKey(b, k1);
    AtKeyMember(b, k1, b[0]);
    AtKeyMember(a, k1, b[0]);
    HeadIsNearest(a, b[0]);
    HeadIsNearest(b, a[0]);
    assert Key(b[0]) == k0;
    assert AtKey(b, k0) == [b[0]] + AtKey(b[1..], k0);
    assert a[0] == AtKey(a, k0)[0] == AtKey(b, k0)[0] == b[0];
  }

  /** Dropping the same first box keeps two lists in agreement at every distance. */
  lemma {:induction false} SameTails(a: seq<RotatedRect>, b: seq<RotatedRect>)
    requires |a| > 0 && |b| > 0 && a[0] == b[0]
    requires forall k :: AtKey(a, k) == AtKey(b, k)
    ensures forall k :: AtKey(a[1..], k) == AtKey(b[1..], k)
  {
    forall k
      ensures AtKey(a[1..], k) == AtKey(b[1..], k)
    {
      assert AtKey(a, k) == AtKey(b, k);
      if Key(a[0]) == k {
        assert AtKey(a[1..], k) == AtKey(a, k)[1..];
        assert AtKey(b[1..], k) == AtKey(b, k)[1..];
      } else {
        assert AtKey(a[1..], k) == AtKey(a, k);
        assert AtKey(b[1..], k) == AtKey(b, k);
      }
    }
  }

  /** A list that is sorted and keeps every distance's boxes in input order
      is unique: any stable sort of the same input yields `SortByDistance`. */
  lemma {:induction false} StableSortUnique(a: seq<RotatedRect>, b: seq<RotatedRect>)
    requires Sorted(a) && Sorted(b)
    requires forall k :: AtKey(a, k) == AtKey(b, k)
    ensures a == b
  {
    if |a| > 0 {
      SameHead(a, b);
      SameTails(a, b);
      StableSortUnique(a[1..], b[1..]);
      assert a == [a[0]] + a[1..];
      assert b == [b[0]] + b[1..];
    } else if |b| > 0 {
      SameHead(b, a);
    }
  }

  /** Sorting an already sorted list changes nothing. */
  lemma {:induction false} SortOfSorted(s: seq<RotatedRect>)
    requires Sorted(s)
    ensures SortByDistance(s) == s
  {
    if |s| > 0 {
      SortOfSorted(s[1..]);
      assert s == [s[0]] + s[1..];
    }
  }

  /** Re-sorting the ranked list gives the ranked list back. */
  lemma SortIdempotent(s: seq<RotatedRect>)
    ensures SortByDistance(SortByDistance(s)) == SortByDistance(s)
  {
    SortOfSorted(SortByDistance(s));
  }

  lemma {:induction false} InsertDistinct(x: RotatedRect, s: seq<RotatedRect>)
    requires Distinct(s) && x !in s
    ensures Distinct(Insert(x, s))
  {
    if |s| > 0 && Key(s[0]) < Key(x) {
      var t := Insert(x, s[1..]);
      InsertDistinct(x, s[1..]);
      assert s[0] !in multiset(t);
      assert Insert(x, s) == [s[0]] + t;
    }
  }

  /** Sorting a list of distinct boxes keeps them distinct. */
  lemma {:induction false} SortDistinct(s: seq<RotatedRect>)
    requires Distinct(s)
    ensures Distinct(SortByDistance(s))
  {
    if |s| > 0 {
      SortDistinct(s[1..]);
      assert s[0] !in multiset(s[1..]);
      InsertDistinct(s[0], SortByDistance(s[1..]));
    }
  }
}
