/**
 * `findTargets`: fit every contour, rank the boxes nearest first, then in
 * one pass pick the box whose angle best matches the left stripe and,
 * through an `else if`, the box that best matches the right stripe.
 */
module TargetSelection {
  import opened Geometry
  import opened TargetMath
  import opened ProximitySort

  /** Expected rotation of the left and right tape stripes, in degrees. */
  const LEFT_ANGLE: real := -75.5
  const RIGHT_ANGLE: real := -14.5

  function LeftDiff(b: RotatedRect): real { Diff(b.shape.angle, LEFT_ANGLE) }

  function RightDiff(b: RotatedRect): real { Diff(b.shape.angle, RIGHT_ANGLE) }

  /** The fitted boxes in contour order; box `i` is the object made for contour `i`. */
  function Boxes(fitted: seq<Shape>): (boxes: seq<RotatedRect>)
    ensures |boxes| == |fitted|
    ensures forall i :: 0 <= i < |fitted| ==> boxes[i] == RotatedRect(i, fitted[i])
  {
    seq(|fitted|, i requires 0 <= i < |fitted| => RotatedRect(i, fitted[i]))
  }

  /** The indices `iLeft` and `iRight`. */
  datatype Choice = Choice(left: nat, right: nat)

  /** The values of `iLeft` and `iRight` once the selection loop has visited
      the boxes `b[0]`, ..., `b[n-1]`. */
  function Choose(b: seq<RotatedRect>, n: nat): (c: Choice)
    requires 0 < |b| && n <= |b|
    ensures c.left < |b| && c.right < |b|
  {
    if n == 0 then Choice(0, 0)
    else
      var c := Choose(b, n - 1);
      var i := n - 1;
      if LeftDiff(b[i]) < LeftDiff(b[c.left]) then Choice(i, c.right)
      else if RightDiff(b[i]) < RightDiff(b[c.right]) then Choice(c.left, i)
      else c
  }

  /** Box `i` takes the left branch when the loop visits it: it matches the
      left angle strictly better than every box before it. */
  ghost predicate ImprovesLeft(b: seq<RotatedRect>, i: int)
  {
    0 < i < |b| && forall j :: 0 <= j < i ==> LeftDiff(b[i]) < LeftDiff(b[j])
  }

  /** `iLeft` is the first of the boxes visited so far that best matches the left angle. */
  lemma {:induction false} ChooseLeft(b: seq<RotatedRect>, n: nat)
    requires 0 < n <= |b|
    ensures Choose(b, n).left < n
    ensures forall j :: 0 <= j < n ==> LeftDiff(b[Choose(b, n).left]) <= LeftDiff(b[j])
    ensures forall j :: 0 <= j < Choose(b, n).left ==> LeftDiff(b[Choose(b, n).left]) < LeftDiff(b[j])
  {
    if n > 1 {
      ChooseLeft(b, n - 1);
    }
  }

  /** `iRight` is the first box that best matches the right angle among the
      boxes visited so far that did not take the left branch: a box that
      improved the left choice is never compared for the right. */
  lemma {:induction false} ChooseRight(b: seq<RotatedRect>, n: nat)
    requires 0 < n <= |b|
    ensures Choose(b, n).right < n
    ensures !ImprovesLeft(b, Choose(b, n).right)
    ensures forall j :: 0 <= j < n && !ImprovesLeft(b, j) ==>
              RightDiff(b[Choose(b, n).right]) <= RightDiff(b[j])
    ensures forall j :: 0 <= j < Choose(b, n).right && !ImprovesLeft(b, j) ==>
              RightDiff(b[Choose(b, n).right]) < RightDiff(b[j])
  {
    if n > 1 {
      var c := Choose(b, n - 1);
      var i := n - 1;
      ChooseLeft(b, n - 1);
      ChooseRight(b, n - 1);
      if LeftDiff(b[i]) < LeftDiff(b[c.left]) {
        assert ImprovesLeft(b, i);
      } else {
        assert !ImprovesLeft(b, i) by {
          assert c.left < i && LeftDiff(b[i]) >= LeftDiff(b[c.left]);
        }
      }
    }
  }

  /** `iLeft` is either the first box or a box that took the left branch. */
  lemma LeftImproves(b: seq<RotatedRect>)
    requires 0 < |b|
    ensures Choose(b, |b|).left == 0 || ImprovesLeft(b, Choose(b, |b|).left)
  {
    ChooseLeft(b, |b|);
  }

  /** The loop can pick one box for both sides only by leaving both indices at 0. */
  lemma SameChoiceOnlyAtStart(b: seq<RotatedRect>)
    requires 0 < |b|
    ensures Choose(b, |b|).left == Choose(b, |b|).right ==> Choose(b, |b|).left == 0
  {
    LeftImproves(b);
    ChooseRight(b, |b|);
  }

  /** On the ranked list, a tie on the left angle goes to the box nearest the reference point. */
  lemma LeftTieGoesToNearest(b: seq<RotatedRect>, j: nat)
    requires 0 < |b| && Sorted(b) && j < |b|
    requires LeftDiff(b[j]) == LeftDiff(b[Choose(b, |b|).left])
    ensures Key(b[Choose(b, |b|).left]) <= Key(b[j])
  {
    ChooseLeft(b, |b|);
  }

  /** What `findTargets` returns: nothing for no contours, otherwise the
      ranked list's boxes at `iLeft` and `iRight`. */
  function SelectedTargets(fitted: seq<Shape>): (r: seq<RotatedRect>)
    ensures |fitted| == 0 ==> r == []
    ensures |fitted| > 0 ==> |r| == 2 && r[0] in Boxes(fitted) && r[1] in Boxes(fitted)
  {
    if |fitted| == 0 then []
    else
      var b := SortByDistance(Boxes(fitted));
      assert |multiset(b)| == |fitted|;
      var c := Choose(b, |b|);
      assert b[c.left] in multiset(b) && b[c.right] in multiset(b);
      [b[c.left], b[c.right]]
  }

  /** The boxes of distinct contours are distinct objects. */
  lemma BoxesDistinct(fitted: seq<Shape>)
    ensures Distinct(Boxes(fitted))
  {}

  /** The two returned boxes are one object exactly when both indices stayed at 0. */
  lemma {:induction false} SameTargetIffFirstTwice(fitted: seq<Shape>)
    requires |fitted| > 0
    ensures var b := SortByDistance(Boxes(fitted));
            var c := Choose(b, |b|);
            (SelectedTargets(fitted)[0] == SelectedTargets(fitted)[1]) <==> (c.left == 0 && c.right == 0)
  {
    var b := SortByDistance(Boxes(fitted));
    assert |multiset(b)| == |fitted|;
    var c := Choose(b, |b|);
    BoxesDistinct(fitted);
    SortDistinct(Boxes(fitted));
    SameChoiceOnlyAtStart(b);
    if c.left != c.right {
      if c.left < c.right {
        assert b[c.left] != b[c.right];
      } else {
        assert b[c.right] != b[c.left];
      }
    }
  }

  /** With one contour, both sides get that contour's box. */
  lemma OneContourTwice(fitted: seq<Shape>)
    requires |fitted| == 1
    ensures SelectedTargets(fitted) == [RotatedRect(0, fitted[0]), RotatedRect(0, fitted[0])]
  {
    var boxes := Boxes(fitted);
    assert boxes == [RotatedRect(0, fitted[0])];
    assert SortByDistance(boxes) == boxes;
  }

  /** The left target matches the left angle at least as well as any fitted box. */
  lemma {:induction false} LeftTargetBest(fitted: seq<Shape>, i: nat)
    requires i < |fitted|
    ensures Diff(SelectedTargets(fitted)[0].shape.angle, LEFT_ANGLE) <= Diff(fitted[i].angle, LEFT_ANGLE)
  {
    var b := SortByDistance(Boxes(fitted));
    assert |multiset(b)| == |fitted|;
    var box := Boxes(fitted)[i];
    assert box in multiset(b);
    var j :| 0 <= j < |b| && b[j] == box;
    ChooseLeft(b, |b|);
  }

  /** The fitting loop of `findTargets`: one box per contour, appended in contour order. */
  method FitBoxes(fitted: seq<Shape>) returns (rotatedBoxes: seq<RotatedRect>)
    ensures rotatedBoxes == Boxes(fitted)
  {
    rotatedBoxes := [];
    for i := 0 to |fitted|
      invariant rotatedBoxes == Boxes(fitted)[..i]
    {
      rotatedBoxes := rotatedBoxes + [RotatedRect(i, fitted[i])];
    }
  }

  /** The selection loop of `findTargets` over the ranked boxes. */
  method SelectIndices(rotatedBoxes: seq<RotatedRect>) returns (iLeft: nat, iRight: nat)
    requires 0 < |rotatedBoxes|
    ensures Choice(iLeft, iRight) == Choose(rotatedBoxes, |rotatedBoxes|)
  {
    iLeft, iRight := 0, 0;
    for i := 0 to |rotatedBoxes|
      invariant Choice(iLeft, iRight) == Choose(rotatedBoxes, i)
    {
      if LeftDiff(rotatedBoxes[i]) < LeftDiff(rotatedBoxes[iLeft]) {
        iLeft := i;
      } else if RightDiff(rotatedBoxes[i]) < RightDiff(rotatedBoxes[iRight]) {
        iRight := i;
      }
    }
  }

  /** `findTargets`: builds the boxes in contour order, sorts them nearest
      first, and runs the selection loop. */
  method FindTargets(fitted: seq<Shape>) returns (rects: seq<RotatedRect>)
    ensures rects == SelectedTargets(fitted)
  {
    if |fitted| == 0 {
      return [];
    }
    var rotatedBoxes := FitBoxes(fitted);
    rotatedBoxes := SortByDistance(rotatedBoxes);
    assert |multiset(rotatedBoxes)| == |fitted|;
    var iLeft, iRight := SelectIndices(rotatedBoxes);
    rects := [rotatedBoxes[iLeft], rotatedBoxes[iRight]];
  }
}
