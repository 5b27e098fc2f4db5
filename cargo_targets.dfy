/**
 * `CargoRunnable.run`: every enclosing circle found in the frame is
 * reported, in contour order and without filtering, as three index-aligned
 * arrays `x`, `y` and `r` in the `vision/cargo` table.
 */
module CargoTargets {
  import opened Geometry
  import opened NetworkTables

  const CARGO_X: string := "x"
  const CARGO_Y: string := "y"
  const CARGO_R: string := "r"

  /** The centre abscissae of the circles, in order. */
  function Xs(circles: seq<Circle>): seq<real>
  {
    seq(|circles|, i requires 0 <= i < |circles| => circles[i].center.x)
  }

  /** The centre ordinates of the circles, in order. */
  function Ys(circles: seq<Circle>): seq<real>
  {
    seq(|circles|, i requires 0 <= i < |circles| => circles[i].center.y)
  }

  /** The radii of the circles, in order. */
  function Rs(circles: seq<Circle>): seq<real>
  {
    seq(|circles|, i requires 0 <= i < |circles| => circles[i].radius)
  }

  /** Reads three index-aligned arrays back as circles. */
  function Zip(xs: seq<real>, ys: seq<real>, rs: seq<real>): (circles: seq<Circle>)
    requires |xs| == |ys| == |rs|
    ensures |circles| == |xs|
  {
    seq(|xs|, i requires 0 <= i < |xs| => Circle(Point(xs[i], ys[i]), rs[i]))
  }

  /** Nothing is lost or reordered: the three arrays give back every circle. */
  lemma ZipOfUnzipped(circles: seq<Circle>)
    ensures |Xs(circles)| == |Ys(circles)| == |Rs(circles)| == |circles|
    ensures Zip(Xs(circles), Ys(circles), Rs(circles)) == circles
  {
    var z := Zip(Xs(circles), Ys(circles), Rs(circles));
    forall i | 0 <= i < |circles|
      ensures z[i] == circles[i]
    {
      assert z[i] == Circle(Point(circles[i].center.x, circles[i].center.y), circles[i].radius);
    }
  }

  /** And every triple of equally long arrays is the unzipping of its circles. */
  lemma UnzippedOfZip(xs: seq<real>, ys: seq<real>, rs: seq<real>)
    requires |xs| == |ys| == |rs|
    ensures Xs(Zip(xs, ys, rs)) == xs && Ys(Zip(xs, ys, rs)) == ys && Rs(Zip(xs, ys, rs)) == rs
  {}

  /** Three circles are reported as they come, with nothing reordered or dropped. */
  lemma ThreeCirclesInOrder()
    ensures var circles := [Circle(Point(10.0, 10.0), 2.0), Circle(Point(50.0, 50.0), 4.0), Circle(Point(90.0, 90.0), 6.0)];
            && Xs(circles) == [10.0, 50.0, 90.0]
            && Ys(circles) == [10.0, 50.0, 90.0]
            && Rs(circles) == [2.0, 4.0, 6.0]
  {}

  /** Slots of the array `run` hands to `minEnclosingCircle` for each
      circle's radius (`new float[]{}`). An array's length never changes. */
  const RADIUS_SLOTS: nat := 0

  /** How a call of `run` ends: an exception before the bus is written, or
      the three published arrays. */
  datatype CargoFrame = Thrown | Published(x: seq<real>, y: seq<real>, r: seq<real>)

  /** `run` as written: every contour's circle reads `radius[0]` from an
      array of `RADIUS_SLOTS` slots, which is out of bounds, so a frame with
      any contour throws before anything is published. */
  function RunAsWritten(circles: seq<Circle>): (o: CargoFrame)
    ensures o.Published? ==> o == Published(Xs(circles), Ys(circles), Rs(circles))
  {
    if |circles| > 0 && !(0 < RADIUS_SLOTS) then Thrown
    else Published(Xs(circles), Ys(circles), Rs(circles))
  }

  /** As written, only a frame without circles reaches the bus: for every
      other frame the intended arrays are never published. */
  lemma AsWrittenThrowsOnAnyCircle(circles: seq<Circle>)
    ensures RunAsWritten(circles).Published? <==> |circles| == 0
    ensures |circles| > 0 ==> RunAsWritten(circles) != Published(Xs(circles), Ys(circles), Rs(circles))
  {}

  /** The array-filling part of `run`: one array per field, filled element by element. */
  method Unzip(circles: seq<Circle>) returns (cargoX: array<real>, cargoY: array<real>, cargoR: array<real>)
    ensures cargoX.Length == |circles| && cargoY.Length == |circles| && cargoR.Length == |circles|
    ensures forall i :: 0 <= i < |circles| ==>
              cargoX[i] == circles[i].center.x && cargoY[i] == circles[i].center.y && cargoR[i] == circles[i].radius
    ensures cargoX[..] == Xs(circles) && cargoY[..] == Ys(circles) && cargoR[..] == Rs(circles)
  {
    cargoX := new real[|circles|];
    cargoY := new real[|circles|];
    cargoR := new real[|circles|];
    for i := 0 to |circles|
      invariant forall k :: 0 <= k < i ==>
                  cargoX[k] == circles[k].center.x && cargoY[k] == circles[k].center.y && cargoR[k] == circles[k].radius
    {
      cargoX[i] := circles[i].center.x;
      cargoY[i] := circles[i].center.y;
      cargoR[i] := circles[i].radius;
    }
  }

  /** The table `run` publishes to. */
  class CargoRunnable {
    const cargoTable: NetworkTable

    constructor (table: NetworkTable)
      ensures cargoTable == table
    {
      cargoTable := table;
    }

    /** `run` on the circles fitted to one frame's contours, in contour
        order: all three entries are overwritten, with empty arrays when
        there are no circles. */
    method Run(circles: seq<Circle>)
      modifies cargoTable
      ensures cargoTable.entries ==
              old(cargoTable.entries)[CARGO_X := Xs(circles)][CARGO_Y := Ys(circles)][CARGO_R := Rs(circles)]
    {
      var cargoX, cargoY, cargoR := Unzip(circles);
      cargoTable.SetDoubleArray(CARGO_X, cargoX[..]);
      cargoTable.SetDoubleArray(CARGO_Y, cargoY[..]);
      cargoTable.SetDoubleArray(CARGO_R, cargoR[..]);
    }
  }
}
