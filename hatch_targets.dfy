/**
 * `TargetRunnable.run`: one frame of hatch-target processing. It chooses a
 * left and a right box, remembers them in the static fields `leftRect` and
 * `rightRect`, and writes the `contour_left` and `contour_right` entries of
 * the `vision/targets` table: zeros when there were no contours, the two
 * targets when they pass the gate, and nothing at all when they do not.
 */
module HatchTargets {
  import opened Geometry
  import opened TargetMath
  import opened ProximitySort
  import opened TargetSelection
  import opened NetworkTables

  const CONTOUR_LEFT: string := "contour_left"
  const CONTOUR_RIGHT: string := "contour_right"

  /** `new double[6]`: the value written when there are no contours. */
  const RESET_ENTRY: seq<real> := [0.0, 0.0, 0.0, 0.0, 0.0, 0.0]

  /** Largest angle difference (exclusive) the gate accepts. */
  const ANGLE_TOLERANCE: real := 10.0

  /** The array `putTargets` writes for one target: its upright box,
      the estimated range and the fitted angle. */
  function TargetEntry(t: RotatedRect): (e: seq<real>)
    ensures |e| == 6
    ensures e[..4] == [t.shape.bounds.x as real, t.shape.bounds.y as real,
                       t.shape.bounds.width as real, t.shape.bounds.height as real]
    ensures e[4] == Distance(e[2], e[3])
    ensures e[2] >= 1.0 && e[3] >= 1.0 && e[4] > 0.0
    ensures e[5] == t.shape.angle
    ensures e != RESET_ENTRY
  {
    var box := t.shape.bounds;
    [box.x as real, box.y as real, box.width as real, box.height as real,
     Distance(box.width as real, box.height as real), t.shape.angle]
  }

  /** The condition under which `run` publishes: two different boxes, each
      within the tolerance of its expected angle. The two angle windows are
      more than 50 degrees apart, so a box that passes on one side is far
      outside the other side's window. */
  predicate Gate(left: RotatedRect, right: RotatedRect): (g: bool)
    ensures g ==> left != right
    ensures g ==> RightDiff(left) > 51.0 && LeftDiff(right) > 51.0
  {
    left != right && LeftDiff(left) < ANGLE_TOLERANCE && RightDiff(right) < ANGLE_TOLERANCE
  }

  /** What one frame does to the two bus entries. */
  datatype Publication = Reset | Publish(left: seq<real>, right: seq<real>) | Keep

  /** The bus write of one frame, decided from the fitted boxes. */
  function FrameOutcome(fitted: seq<Shape>): (p: Publication)
    ensures p.Reset? <==> |fitted| == 0
    ensures |fitted| > 0 ==>
              var b := SortByDistance(Boxes(fitted));
              var c := Choose(b, |b|);
              && (p.Publish? <==> (c.left != 0 || c.right != 0)
                                  && LeftDiff(b[c.left]) < ANGLE_TOLERANCE
                                  && RightDiff(b[c.right]) < ANGLE_TOLERANCE)
              && (p.Publish? ==> p == Publish(TargetEntry(b[c.left]), TargetEntry(b[c.right])))
              && (!p.Publish? ==> p == Keep)
    ensures p.Publish? ==> |p.left| == 6 && |p.right| == 6
    ensures p.Publish? ==> p.left != RESET_ENTRY && p.right != RESET_ENTRY
    ensures p.Publish? ==> Diff(p.left[5], LEFT_ANGLE) < ANGLE_TOLERANCE
    ensures p.Publish? ==> Diff(p.right[5], RIGHT_ANGLE) < ANGLE_TOLERANCE
  {
    if |fitted| == 0 then Reset
    else
      var t := SelectedTargets(fitted);
      SameTargetIffFirstTwice(fitted);
      if Gate(t[0], t[1]) then Publish(TargetEntry(t[0]), TargetEntry(t[1])) else Keep
  }

  /** The entries after a frame's write; `Keep` leaves them untouched. */
  function Apply(entries: map<string, seq<real>>, p: Publication): map<string, seq<real>>
  {
    match p
    case Reset => entries[CONTOUR_LEFT := RESET_ENTRY][CONTOUR_RIGHT := RESET_ENTRY]
    case Publish(left, right) => entries[CONTOUR_LEFT := left][CONTOUR_RIGHT := right]
    case Keep => entries
  }

  /** The static state of `TargetRunnable` and the table it writes to. */
  class TargetRunnable {
    var leftRect: Option<RotatedRect>
    var rightRect: Option<RotatedRect>
    const targetsTable: NetworkTable

    constructor (table: NetworkTable)
      ensures targetsTable == table
      ensures leftRect == None && rightRect == None
    {
      targetsTable := table;
      leftRect, rightRect := None, None;
    }

    /** `resetTargetEntries`: six zeros on both sides. */
    method ResetTargetEntries()
      modifies targetsTable
      ensures targetsTable.entries ==
              old(targetsTable.entries)[CONTOUR_LEFT := RESET_ENTRY][CONTOUR_RIGHT := RESET_ENTRY]
    {
      targetsTable.SetDoubleArray(CONTOUR_LEFT, RESET_ENTRY);
      targetsTable.SetDoubleArray(CONTOUR_RIGHT, RESET_ENTRY);
    }

    /** `putTargets`: the left target's array, then the right target's. */
    method PutTargets(lTarget: RotatedRect, rTarget: RotatedRect)
      modifies targetsTable
      ensures targetsTable.entries ==
              old(targetsTable.entries)[CONTOUR_LEFT := TargetEntry(lTarget)][CONTOUR_RIGHT := TargetEntry(rTarget)]
    {
      targetsTable.SetDoubleArray(CONTOUR_LEFT, TargetEntry(lTarget));
      targetsTable.SetDoubleArray(CONTOUR_RIGHT, TargetEntry(rTarget));
    }

    /** `run` on the boxes fitted to one frame's contours. */
    method Run(fitted: seq<Shape>)
      modifies this, targetsTable
      ensures targetsTable.entries == Apply(old(targetsTable.entries), FrameOutcome(fitted))
      ensures |fitted| == 0 ==> leftRect == old(leftRect) && rightRect == old(rightRect)
      ensures |fitted| > 0 ==>
                (leftRect == Some(SelectedTargets(fitted)[0]) && rightRect == Some(SelectedTargets(fitted)[1]))
    {
      var rotatedRects := FindTargets(fitted);
      if |rotatedRects| == 2 {
        leftRect := Some(rotatedRects[0]);
        rightRect := Some(rotatedRects[1]);
        if Gate(rotatedRects[0], rotatedRects[1]) {
          PutTargets(rotatedRects[0], rotatedRects[1]);
        }
      } else {
        ResetTargetEntries();
      }
    }
  }

  /** A frame without contours leaves exactly six zeros on both sides. */
  lemma NoContoursWritesZeros(entries: map<string, seq<real>>)
    ensures Apply(entries, FrameOutcome([]))[CONTOUR_LEFT] == [0.0, 0.0, 0.0, 0.0, 0.0, 0.0]
    ensures Apply(entries, FrameOutcome([]))[CONTOUR_RIGHT] == [0.0, 0.0, 0.0, 0.0, 0.0, 0.0]
  {}

  /** One contour never publishes and never resets: the box is picked for
      both sides, the identity check fails, and the entries keep their values. */
  lemma OneContourKeeps(fitted: seq<Shape>)
    requires |fitted| == 1
    ensures FrameOutcome(fitted) == Keep
  {
    OneContourTwice(fitted);
  }

  /** A published pair is two different boxes, not both left at index 0. */
  lemma {:induction false} PublishedPairDistinct(fitted: seq<Shape>)
    requires FrameOutcome(fitted).Publish?
    ensures var b := SortByDistance(Boxes(fitted));
            var c := Choose(b, |b|);
            c.left != 0 || c.right != 0
  {
    SameTargetIffFirstTwice(fitted);
  }

  /** The two-element ranking is one of the two orders. */
  lemma SortTwo(x: RotatedRect, y: RotatedRect)
    ensures SortByDistance([x, y]) == if Key(x) <= Key(y) then [x, y] else [y, x]
  {
    assert [x, y][1..] == [y];
    assert [y][1..] == [];
    assert SortByDistance([y]) == [y];
  }

  /** Two boxes at exactly the expected angles are published as left and
      right, whichever of them is nearer the reference point. */
  lemma ExactAnglesPublish(l: Shape, r: Shape)
    requires l.angle == LEFT_ANGLE && r.angle == RIGHT_ANGLE
    ensures FrameOutcome([l, r]) == Publish(TargetEntry(RotatedRect(0, l)), TargetEntry(RotatedRect(1, r)))
  {
    var lb, rb := RotatedRect(0, l), RotatedRect(1, r);
    assert Boxes([l, r]) == [lb, rb];
    SortTwo(lb, rb);
    var b := SortByDistance([lb, rb]);
    assert LeftDiff(lb) == 0.0 && RightDiff(rb) == 0.0;
    assert LeftDiff(rb) == 61.0 && RightDiff(lb) == 61.0;
    assert Choose(b, 1) == Choice(0, 0);
    if Key(lb) <= Key(rb) {
      assert Choose(b, 2) == Choice(0, 1);
    } else {
      assert Choose(b, 2) == Choice(1, 0);
    }
  }

  /** Two boxes at the same left angle are never published: the loop picks
      the first for both sides and the identity check rejects the pair. */
  lemma EqualAnglesKeep(s1: Shape, s2: Shape)
    requires s1.angle == LEFT_ANGLE && s2.angle == LEFT_ANGLE
    ensures FrameOutcome([s1, s2]) == Keep
  {
    var b1, b2 := RotatedRect(0, s1), RotatedRect(1, s2);
    assert Boxes([s1, s2]) == [b1, b2];
    SortTwo(b1, b2);
    var b := SortByDistance([b1, b2]);
    assert LeftDiff(b1) == LeftDiff(b2) == 0.0;
    assert RightDiff(b1) == RightDiff(b2) == 61.0;
    assert Choose(b, 1) == Choice(0, 0);
    assert Choose(b, 2) == Choice(0, 0);
  }

  /** The `else if` at work: three boxes at one point, at angles 0, -14.5
      and -75.5. The second box matches the right angle exactly and the
      third the left angle exactly, yet the second took the left branch when
      visited, so the right choice stays on the first box and the pair fails
      the gate. A search for the right box over all boxes would have
      published the third and second boxes. */
  lemma ElseIfSkipsRightMatch(at: Point, bounds: Rect)
    ensures var fitted := [Shape(at, 0.0, bounds), Shape(at, RIGHT_ANGLE, bounds), Shape(at, LEFT_ANGLE, bounds)];
            && RightDiff(RotatedRect(1, fitted[1])) == 0.0
            && LeftDiff(RotatedRect(2, fitted[2])) == 0.0
            && FrameOutcome(fitted) == Keep
  {
    var fitted := [Shape(at, 0.0, bounds), Shape(at, RIGHT_ANGLE, bounds), Shape(at, LEFT_ANGLE, bounds)];
    var b := Boxes(fitted);
    assert b == [RotatedRect(0, fitted[0]), RotatedRect(1, fitted[1]), RotatedRect(2, fitted[2])];
    assert Sorted(b);
    SortOfSorted(b);
    assert LeftDiff(b[0]) == 75.5 && RightDiff(b[0]) == 14.5;
    assert LeftDiff(b[1]) == 61.0 && RightDiff(b[1]) == 0.0;
    assert LeftDiff(b[2]) == 0.0;
    assert Choose(b, 1) == Choice(0, 0);
    assert Choose(b, 2) == Choice(1, 0);
    assert Choose(b, 3) == Choice(2, 0);
  }
}
