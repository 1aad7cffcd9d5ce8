/**
 * The trilateration engine: an 8-slot anchor table, the choice of the distances a fix uses, the
 * pure-Python 3-sphere solve (its guards and its closed-form coordinates, with the square root as a
 * parameter) and the high-level position calculator. The native library is a parameter too.
 */
module Trilateration {
  import opened Wrappers
  import opened Numerics
  import opened Models

  const MaxAnchors: nat := 8
  /** The threshold below which a baseline length counts as zero. */
  const Degenerate: real := 0.0000000001

  // ----- vector helpers of _trilaterate_3spheres

  function Sub(a: Vector3, b: Vector3): Vector3 { Vector3(a.x - b.x, a.y - b.y, a.z - b.z) }
  function Add(a: Vector3, b: Vector3): Vector3 { Vector3(a.x + b.x, a.y + b.y, a.z + b.z) }
  function Scale(v: Vector3, s: real): Vector3 { Vector3(v.x * s, v.y * s, v.z * s) }

  /** vdiv: a zero divisor gives the zero vector instead of raising. */
  function Div(v: Vector3, s: real): Vector3
  {
    if s != 0.0 then Vector3(v.x / s, v.y / s, v.z / s) else Vector3(0.0, 0.0, 0.0)
  }

  function Dot(a: Vector3, b: Vector3): real { a.x * b.x + a.y * b.y + a.z * b.z }

  function Cross(a: Vector3, b: Vector3): Vector3
  {
    Vector3(a.y * b.z - a.z * b.y, a.z * b.x - a.x * b.z, a.x * b.y - a.y * b.x)
  }

  function Norm(sqrt: real -> real, v: Vector3): real { sqrt(Dot(v, v)) }

  // ----- the 3-sphere solve

  /** The local frame (ex, ey, ez) and the coordinates (x, y, z) of the fix in it. */
  datatype LocalFix = LocalFix(ex: Vector3, ey: Vector3, ez: Vector3, x: real, y: real, z: real)

  /**
   * The solve relative to p1, given t2 = p2 - p1, t3 = p3 - p1 and the three radii. It fails when
   * p1 and p2 are closer than the threshold, or when p3 is that close to the line through them.
   * A negative z squared (spheres that do not meet) falls back to the plane solution z = 0.
   */
  function Local(sqrt: real -> real, t2: Vector3, t3: Vector3, r1: real, r2: real, r3: real): Option<LocalFix>
  {
    var d := Norm(sqrt, t2);
    if d < Degenerate then None
    else
      var ex := Div(t2, d);
      var i := Dot(ex, t3);
      var off := Sub(t3, Scale(ex, i));
      var j := Norm(sqrt, off);
      if j < Degenerate then None
      else
        var ey := Div(off, j);
        var x := (r1 * r1 - r2 * r2 + d * d) / (2.0 * d);
        var y := (r1 * r1 - r3 * r3 + i * i + j * j) / (2.0 * j) - (i / j) * x;
        Some(Lift(sqrt, ex, ey, x, y, r1))
  }

  /** The third axis and coordinate: z is the root of r1² - x² - y², or 0 when that is negative. */
  function Lift(sqrt: real -> real, ex: Vector3, ey: Vector3, x: real, y: real, r1: real): LocalFix
  {
    var zSq := r1 * r1 - x * x - y * y;
    LocalFix(ex, ey, Cross(ex, ey), x, y, if zSq < 0.0 then 0.0 else sqrt(zSq))
  }

  /** _trilaterate_3spheres: p1 + x*ex + y*ey + z*ez, or None for short input or a degenerate frame. */
  function Trilaterate3Spheres(sqrt: real -> real, anchors: seq<Vector3>, distances: seq<real>): Option<Vector3>
  {
    if |anchors| < 3 || |distances| < 3 then None
    else
      var p1 := anchors[0];
      match Local(sqrt, Sub(anchors[1], p1), Sub(anchors[2], p1), distances[0], distances[1], distances[2])
      case None => None
      case Some(f) => Some(Add(Add(Add(p1, Scale(f.ex, f.x)), Scale(f.ey, f.y)), Scale(f.ez, f.z)))
  }

  /**
   * The local coordinates of a fix: z is the non-negative root, and either the fix lies on the first
   * sphere (x² + y² + z² = r1²) or the spheres do not meet and the fix is the plane point (z = 0)
   * outside the first sphere.
   */
  lemma LocalOnFirstSphere(sqrt: real -> real, t2: Vector3, t3: Vector3, r1: real, r2: real, r3: real)
    requires IsSqrt(sqrt)
    requires Local(sqrt, t2, t3, r1, r2, r3).Some?
    ensures var f := Local(sqrt, t2, t3, r1, r2, r3).value;
      && 0.0 <= f.z
      && (f.x * f.x + f.y * f.y + f.z * f.z == r1 * r1
          || (f.z == 0.0 && f.x * f.x + f.y * f.y > r1 * r1))
  {
    var f := Local(sqrt, t2, t3, r1, r2, r3).value;
    assert f == Lift(sqrt, f.ex, f.ey, f.x, f.y, r1);
    LiftOnFirstSphere(sqrt, f.ex, f.ey, f.x, f.y, r1);
  }

  lemma LiftOnFirstSphere(sqrt: real -> real, ex: Vector3, ey: Vector3, x: real, y: real, r1: real)
    requires IsSqrt(sqrt)
    ensures var f := Lift(sqrt, ex, ey, x, y, r1);
      && 0.0 <= f.z
      && (x * x + y * y + f.z * f.z == r1 * r1 || (f.z == 0.0 && x * x + y * y > r1 * r1))
  {
    var zSq := r1 * r1 - x * x - y * y;
    if 0.0 <= zSq {
      assert sqrt(zSq) * sqrt(zSq) == zSq;
    }
  }

  const Origin: Vector3 := Vector3(0.0, 0.0, 0.0)

  /** p2 on top of p1 fails the first length guard. */
  lemma LocalCoincidentSecond(sqrt: real -> real, t3: Vector3, r1: real, r2: real, r3: real)
    requires IsSqrt(sqrt)
    ensures Local(sqrt, Origin, t3, r1, r2, r3).None?
  {
    assert Dot(Origin, Origin) == 0.0;
  }

  /** p3 on top of p1 fails the second length guard. */
  lemma LocalCoincidentThird(sqrt: real -> real, t2: Vector3, r1: real, r2: real, r3: real)
    requires IsSqrt(sqrt)
    ensures Local(sqrt, t2, Origin, r1, r2, r3).None?
  {
    var d := Norm(sqrt, t2);
    if d >= Degenerate {
      var ex := Div(t2, d);
      assert Dot(ex, Origin) == 0.0;
      assert Scale(ex, 0.0) == Origin;
      assert Sub(Origin, Scale(ex, 0.0)) == Origin;
      assert Dot(Origin, Origin) == 0.0;
    }
  }

  /** Anchors 1 or 2 on top of anchor 0 and input shorter than three entries give no fix. */
  lemma TrilaterateDegenerate(sqrt: real -> real, anchors: seq<Vector3>, distances: seq<real>)
    requires IsSqrt(sqrt)
    ensures |anchors| < 3 || |distances| < 3 ==> Trilaterate3Spheres(sqrt, anchors, distances).None?
    ensures |anchors| >= 3 && (anchors[1] == anchors[0] || anchors[2] == anchors[0])
      ==> Trilaterate3Spheres(sqrt, anchors, distances).None?
  {
    if |anchors| >= 3 && |distances| >= 3 {
      var p1 := anchors[0];
      if anchors[1] == p1 {
        assert Sub(anchors[1], p1) == Origin;
        LocalCoincidentSecond(sqrt, Sub(anchors[2], p1), distances[0], distances[1], distances[2]);
      } else if anchors[2] == p1 {
        assert Sub(anchors[2], p1) == Origin;
        LocalCoincidentThird(sqrt, Sub(anchors[1], p1), distances[0], distances[1], distances[2]);
      }
    }
  }

  /** Moving all three anchors by one offset moves the fix by that offset and keeps failure as failure. */
  lemma TrilaterateTranslation(sqrt: real -> real, anchors: seq<Vector3>, distances: seq<real>, offset: Vector3)
    requires |anchors| >= 3
    ensures var moved := seq(|anchors|, k requires 0 <= k < |anchors| => Add(anchors[k], offset));
      match Trilaterate3Spheres(sqrt, anchors, distances)
      case None => Trilaterate3Spheres(sqrt, moved, distances).None?
      case Some(p) => Trilaterate3Spheres(sqrt, moved, distances) == Some(Add(p, offset))
  {
    var moved := seq(|anchors|, k requires 0 <= k < |anchors| => Add(anchors[k], offset));
    assert Sub(moved[1], moved[0]) == Sub(anchors[1], anchors[0]);
    assert Sub(moved[2], moved[0]) == Sub(anchors[2], anchors[0]);
  }

  /** Entries after the third play no part in the solve. */
  lemma TrilaterateFirstThree(sqrt: real -> real, anchors: seq<Vector3>, distances: seq<real>)
    requires |anchors| >= 3 && |distances| >= 3
    ensures Trilaterate3Spheres(sqrt, anchors, distances) == Trilaterate3Spheres(sqrt, anchors[..3], distances[..3])
  {
  }

  // ----- the engine

  /** An anchor dict of set_anchors: a missing coordinate reads as 0. */
  type AnchorDict = map<string, real>

  function Coord(d: AnchorDict, key: string): real
  {
    if key in d then d[key] else 0.0
  }

  function DictPosition(d: AnchorDict): Vector3
  {
    Vector3(Coord(d, "x"), Coord(d, "y"), Coord(d, "z"))
  }

  /** Index i joins the fix: a positive distance, within the table, and a set slot. */
  predicate Usable(slots: seq<Option<Vector3>>, distances: seq<int>, i: nat)
  {
    i < |distances| && distances[i] > 0 && i < MaxAnchors && i < |slots| && slots[i].Some?
  }

  /** The usable indices below k, in increasing order. */
  function UsableBelow(slots: seq<Option<Vector3>>, distances: seq<int>, k: nat): seq<nat>
    requires k <= |distances|
  {
    if k == 0 then []
    else UsableBelow(slots, distances, k - 1) + (if Usable(slots, distances, k - 1) then [k - 1] else [])
  }

  predicate AllUsable(slots: seq<Option<Vector3>>, distances: seq<int>, idx: seq<nat>)
  {
    forall t :: 0 <= t < |idx| ==> Usable(slots, distances, idx[t])
  }

  /** The selection is exactly the usable indices below k, strictly increasing. */
  lemma {:induction false} UsableBelowProperties(slots: seq<Option<Vector3>>, distances: seq<int>, k: nat)
    requires k <= |distances|
    ensures AllUsable(slots, distances, UsableBelow(slots, distances, k))
    ensures forall i: nat :: i < k && Usable(slots, distances, i) ==> i in UsableBelow(slots, distances, k)
    ensures forall t :: 0 <= t < |UsableBelow(slots, distances, k)| ==> UsableBelow(slots, distances, k)[t] < k
    ensures forall s, t :: 0 <= s < t < |UsableBelow(slots, distances, k)| ==>
      UsableBelow(slots, distances, k)[s] < UsableBelow(slots, distances, k)[t]
  {
    if k > 0 {
      var prev := UsableBelow(slots, distances, k - 1);
      UsableBelowProperties(slots, distances, k - 1);
      if Usable(slots, distances, k - 1) {
        var now := prev + [k - 1];
        assert UsableBelow(slots, distances, k) == now;
        assert forall t :: 0 <= t < |prev| ==> now[t] == prev[t];
      } else {
        assert UsableBelow(slots, distances, k) == prev;
      }
    }
  }

  function AnchorsAt(slots: seq<Option<Vector3>>, distances: seq<int>, idx: seq<nat>): seq<Vector3>
    requires AllUsable(slots, distances, idx)
  {
    seq(|idx|, t requires 0 <= t < |idx| => slots[idx[t]].value)
  }

  /** The selected distances converted from millimetres to metres. */
  function MetresAt(slots: seq<Option<Vector3>>, distances: seq<int>, idx: seq<nat>): seq<real>
    requires AllUsable(slots, distances, idx)
  {
    seq(|idx|, t requires 0 <= t < |idx| => distances[idx[t]] as real / 1000.0)
  }

  lemma AtAppend(slots: seq<Option<Vector3>>, distances: seq<int>, idx: seq<nat>, i: nat)
    requires AllUsable(slots, distances, idx) && Usable(slots, distances, i)
    ensures AllUsable(slots, distances, idx + [i])
    ensures AnchorsAt(slots, distances, idx + [i]) == AnchorsAt(slots, distances, idx) + [slots[i].value]
    ensures MetresAt(slots, distances, idx + [i]) == MetresAt(slots, distances, idx) + [distances[i] as real / 1000.0]
  {
  }

  lemma AtPrefix(slots: seq<Option<Vector3>>, distances: seq<int>, idx: seq<nat>, n: nat)
    requires AllUsable(slots, distances, idx) && n <= |idx|
    ensures AllUsable(slots, distances, idx[..n])
    ensures AnchorsAt(slots, distances, idx)[..n] == AnchorsAt(slots, distances, idx[..n])
    ensures MetresAt(slots, distances, idx)[..n] == MetresAt(slots, distances, idx[..n])
  {
  }

  /** _get_location_python: at least three usable indices, and the first three of them solve. */
  function PythonLocation(sqrt: real -> real, slots: seq<Option<Vector3>>, distances: seq<int>): Option<Vector3>
  {
    var idx := UsableBelow(slots, distances, |distances|);
    UsableBelowProperties(slots, distances, |distances|);
    if |idx| < 3 then None
    else Trilaterate3Spheres(sqrt, AnchorsAt(slots, distances, idx[..3]), MetresAt(slots, distances, idx[..3]))
  }

  /**
   * Three usable indices i < j < k with no usable index between or before them decide the fix, and
   * fewer than three usable indices give none.
   */
  lemma PythonLocationFirstThree(sqrt: real -> real, slots: seq<Option<Vector3>>, distances: seq<int>)
    ensures var idx := UsableBelow(slots, distances, |distances|);
      && (forall i: nat :: Usable(slots, distances, i) <==> i in idx)
      && (forall s, t :: 0 <= s < t < |idx| ==> idx[s] < idx[t])
      && AllUsable(slots, distances, idx)
      && (|idx| < 3 ==> PythonLocation(sqrt, slots, distances).None?)
      && (|idx| >= 3 ==>
            (PythonLocation(sqrt, slots, distances) ==
             Trilaterate3Spheres(sqrt,
               [slots[idx[0]].value, slots[idx[1]].value, slots[idx[2]].value],
               [distances[idx[0]] as real / 1000.0, distances[idx[1]] as real / 1000.0,
                distances[idx[2]] as real / 1000.0])))
  {
    var idx := UsableBelow(slots, distances, |distances|);
    UsableSelection(slots, distances);
    if |idx| >= 3 {
      FirstThreeAt(slots, distances, idx);
    }
  }

  /** The selection holds every usable index and no other, in increasing order. */
  lemma UsableSelection(slots: seq<Option<Vector3>>, distances: seq<int>)
    ensures var idx := UsableBelow(slots, distances, |distances|);
      && (forall i: nat :: Usable(slots, distances, i) <==> i in idx)
      && (forall s, t :: 0 <= s < t < |idx| ==> idx[s] < idx[t])
      && AllUsable(slots, distances, idx)
  {
    UsableBelowProperties(slots, distances, |distances|);
  }

  lemma FirstThreeAt(slots: seq<Option<Vector3>>, distances: seq<int>, idx: seq<nat>)
    requires AllUsable(slots, distances, idx) && |idx| >= 3
    ensures AnchorsAt(slots, distances, idx[..3]) == [slots[idx[0]].value, slots[idx[1]].value, slots[idx[2]].value]
    ensures MetresAt(slots, distances, idx[..3]) ==
      [distances[idx[0]] as real / 1000.0, distances[idx[1]] as real / 1000.0, distances[idx[2]] as real / 1000.0]
  {
  }


  /** TrilaterationEngine: the slot table and whether a native library was found at construction. */
  class Engine {
    var slots: seq<Option<Vector3>>
    const useDll: bool

    ghost predicate Valid()
      reads this
    {
      |slots| == MaxAnchors
    }

    /** All eight slots start empty; dllLoaded is what the library search found. */
    constructor(dllLoaded: bool)
      ensures Valid() && useDll == dllLoaded
      ensures forall i :: 0 <= i < MaxAnchors ==> slots[i].None?
    {
      slots := seq(MaxAnchors, _ => None);
      useDll := dllLoaded;
    }

    /** set_anchor: an id outside 0..7 is ignored; otherwise only that slot changes. */
    method SetAnchor(anchorId: int, x: real, y: real, z: real)
      requires Valid()
      modifies this
      ensures Valid()
      ensures slots == if 0 <= anchorId < MaxAnchors then old(slots)[anchorId := Some(Vector3(x, y, z))] else old(slots)
    {
      if 0 <= anchorId < MaxAnchors {
        slots := slots[anchorId := Some(Vector3(x, y, z))];
      }
    }

    /** set_anchors: the first (at most eight) dicts fill slots 0, 1, ... in order; later slots keep their value. */
    method SetAnchors(anchors: seq<AnchorDict>)
      requires Valid()
      modifies this
      ensures Valid()
      ensures forall i :: 0 <= i < MaxAnchors ==>
        slots[i] == if i < |anchors| then Some(DictPosition(anchors[i])) else old(slots)[i]
    {
      var i := 0;
      while i < |anchors|
        invariant 0 <= i <= |anchors| && Valid()
        invariant forall k :: 0 <= k < MaxAnchors ==>
          slots[k] == if k < i then Some(DictPosition(anchors[k])) else old(slots)[k]
      {
        if i < MaxAnchors {
          SetAnchor(i, Coord(anchors[i], "x"), Coord(anchors[i], "y"), Coord(anchors[i], "z"));
        }
        i := i + 1;
      }
    }

    /** _get_location_python with its collecting loop. */
    method GetLocationPython(sqrt: real -> real, distances: seq<int>) returns (r: Option<Vector3>)
      requires Valid()
      ensures r == PythonLocation(sqrt, slots, distances)
    {
      var validAnchors: seq<Vector3> := [];
      var validDistances: seq<real> := [];
      var i := 0;
      while i < |distances|
        invariant 0 <= i <= |distances|
        invariant AllUsable(slots, distances, UsableBelow(slots, distances, i))
        invariant validAnchors == AnchorsAt(slots, distances, UsableBelow(slots, distances, i))
        invariant validDistances == MetresAt(slots, distances, UsableBelow(slots, distances, i))
      {
        if distances[i] > 0 && i < MaxAnchors && slots[i].Some? {
          AtAppend(slots, distances, UsableBelow(slots, distances, i), i);
          validAnchors := validAnchors + [slots[i].value];
          validDistances := validDistances + [distances[i] as real / 1000.0];
        }
        i := i + 1;
      }
      if |validAnchors| < 3 {
        return None;
      }
      AtPrefix(slots, distances, UsableBelow(slots, distances, i), 3);
      r := Trilaterate3Spheres(sqrt, validAnchors[..3], validDistances[..3]);
    }

    /** get_location: the native library when one was loaded, the Python fallback otherwise. */
    method GetLocation(sqrt: real -> real, dll: seq<Option<Vector3>> -> seq<int> -> Option<Vector3>,
                       distances: seq<int>) returns (r: Option<Vector3>)
      requires Valid()
      ensures r == if useDll then dll(slots)(distances) else PythonLocation(sqrt, slots, distances)
    {
      if useDll {
        r := dll(slots)(distances);
      } else {
        r := GetLocationPython(sqrt, distances);
      }
    }
  }

  // ----- UWBPositionCalculator

  /** The distance array of calculate_position after the first `items` of range_data are stored. */
  function SlotValue(items: seq<(int, real)>, i: int): int
  {
    if items == [] then -1
    else if items[|items| - 1].0 == i then TruncToInt(items[|items| - 1].1)
    else SlotValue(items[..|items| - 1], i)
  }

  /** A slot no item names stays -1; a slot named holds int() of the last distance given for it. */
  lemma SlotValueLookup(items: seq<(int, real)>, i: int)
    ensures (forall k :: 0 <= k < |items| ==> items[k].0 != i) ==> SlotValue(items, i) == -1
    ensures forall k ::
      (0 <= k < |items| && items[k].0 == i && (forall l :: k < l < |items| ==> items[l].0 != i))
      ==> SlotValue(items, i) == TruncToInt(items[k].1)
  {
    if forall k :: 0 <= k < |items| ==> items[k].0 != i {
      SlotValueUnnamed(items, i);
    }
    forall k | 0 <= k < |items| && items[k].0 == i && (forall l :: k < l < |items| ==> items[l].0 != i)
      ensures SlotValue(items, i) == TruncToInt(items[k].1)
    {
      SlotValueLast(items, i, k);
    }
  }

  lemma {:induction false} SlotValueUnnamed(items: seq<(int, real)>, i: int)
    requires forall k :: 0 <= k < |items| ==> items[k].0 != i
    ensures SlotValue(items, i) == -1
  {
    if items != [] {
      var init := items[..|items| - 1];
      assert forall k :: 0 <= k < |init| ==> init[k] == items[k];
      SlotValueUnnamed(init, i);
    }
  }

  lemma {:induction false} SlotValueLast(items: seq<(int, real)>, i: int, k: nat)
    requires k < |items| && items[k].0 == i && forall l :: k < l < |items| ==> items[l].0 != i
    ensures SlotValue(items, i) == TruncToInt(items[k].1)
  {
    if k < |items| - 1 {
      var init := items[..|items| - 1];
      assert forall l :: 0 <= l < |init| ==> init[l] == items[l];
      SlotValueLast(init, i, k);
    }
  }

  class PositionCalculator {
    const engine: Engine
    var lastPosition: Option<Vector3>

    constructor(dllLoaded: bool)
      ensures engine.Valid() && fresh(engine) && lastPosition.None?
      ensures forall i :: 0 <= i < MaxAnchors ==> engine.slots[i].None?
    {
      engine := new Engine(dllLoaded);
      lastPosition := None;
    }

    /** The range dict, as its items in order, becomes an 8-slot array of -1 with int() distances stored by id. */
    static method DistanceArray(rangeData: seq<(int, real)>) returns (distances: seq<int>)
      ensures |distances| == MaxAnchors
      ensures forall i :: 0 <= i < MaxAnchors ==> distances[i] == SlotValue(rangeData, i)
    {
      distances := seq(MaxAnchors, _ => -1);
      var k := 0;
      while k < |rangeData|
        invariant 0 <= k <= |rangeData| && |distances| == MaxAnchors
        invariant forall i :: 0 <= i < MaxAnchors ==> distances[i] == SlotValue(rangeData[..k], i)
      {
        assert rangeData[..k + 1][..k] == rangeData[..k];
        var (anchorId, dist) := rangeData[k];
        if 0 <= anchorId < MaxAnchors {
          distances := distances[anchorId := TruncToInt(dist)];
        }
        k := k + 1;
      }
      assert rangeData[..k] == rangeData;
    }

    /** calculate_position: the last position is updated only when a fix is found. */
    method CalculatePosition(sqrt: real -> real, dll: seq<Option<Vector3>> -> seq<int> -> Option<Vector3>,
                             rangeData: seq<(int, real)>) returns (r: Option<Vector3>)
      requires engine.Valid()
      modifies this
      ensures var ds := seq(MaxAnchors, i => SlotValue(rangeData, i));
        r == if engine.useDll then dll(engine.slots)(ds) else PythonLocation(sqrt, engine.slots, ds)
      ensures lastPosition == if r.Some? then r else old(lastPosition)
    {
      var distances := DistanceArray(rangeData);
      assert distances == seq(MaxAnchors, i => SlotValue(rangeData, i));
      r := engine.GetLocation(sqrt, dll, distances);
      if r.Some? {
        lastPosition := r;
      }
    }
  }
}
