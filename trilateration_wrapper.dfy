/**
 * The ctypes wrapper around the native GetLocation routine: two fixed 8-slot buffers written slot by
 * slot, the anchor list, and the checks made before the native call. The native routine is a
 * parameter returning its status code and the location it writes.
 */
module TrilaterationWrapper {
  import opened Wrappers
  import opened Numerics
  import opened Models

  const MaxAnchors: nat := 8
  const Zero: Vector3 := Vector3(0.0, 0.0, 0.0)

  /** GetLocation(location, anchors, distances): a status code and the location it writes back. */
  type NativeGetLocation = (seq<Vector3>, seq<int>) -> (int, Vector3)

  /** The number of strictly positive distances (the generator sum of calculate_position). */
  function CountPositive(ds: seq<int>): (n: nat)
    ensures n <= |ds|
  {
    if ds == [] then 0 else CountPositive(ds[..|ds| - 1]) + (if ds[|ds| - 1] > 0 then 1 else 0)
  }

  /** The first eight distances, which is all calculate_position looks at. */
  function Truncated(ds: seq<int>): (r: seq<int>)
    ensures |r| <= MaxAnchors
  {
    if |ds| > MaxAnchors then ds[..MaxAnchors] else ds
  }

  /** The distance buffer after the fill loop: each c_int slot holds the wrapped value, -1 past the end. */
  function DistanceSlots(ds: seq<int>): seq<int>
    requires |ds| <= MaxAnchors
  {
    seq(MaxAnchors, i requires 0 <= i < MaxAnchors => if i < |ds| then WrapInt32(ds[i]) else -1)
  }

  /** The anchor buffer after set_anchors: the given positions, then zeros. */
  function AnchorSlots(anchors: seq<Vector3>): seq<Vector3>
    requires |anchors| <= MaxAnchors
  {
    seq(MaxAnchors, i requires 0 <= i < MaxAnchors => if i < |anchors| then anchors[i] else Zero)
  }

  /**
   * In-range millimetre distances land in their slots unchanged and every slot past the input is
   * -1, so the positive slots are exactly the positive inputs.
   */
  lemma DistanceSlotsFaithful(ds: seq<int>)
    requires |ds| <= MaxAnchors
    requires forall i :: 0 <= i < |ds| ==> -TwoTo31 <= ds[i] < TwoTo31
    ensures forall i :: 0 <= i < |ds| ==> DistanceSlots(ds)[i] == ds[i]
    ensures forall i :: |ds| <= i < MaxAnchors ==> DistanceSlots(ds)[i] == -1
    ensures CountPositive(DistanceSlots(ds)) == CountPositive(ds)
  {
    var slots := DistanceSlots(ds);
    var tail := seq(MaxAnchors - |ds|, _ => -1);
    DistanceSlotsPadded(ds);
    assert slots == ds + tail;
    forall i | 0 <= i < |ds|
      ensures slots[i] == ds[i]
    {
      assert (ds + tail)[i] == ds[i];
    }
    forall i | |ds| <= i < MaxAnchors
      ensures slots[i] == -1
    {
      assert (ds + tail)[i] == tail[i - |ds|];
    }
    CountPositiveNegativeTail(ds, MaxAnchors - |ds|);
  }

  lemma DistanceSlotsPadded(ds: seq<int>)
    requires |ds| <= MaxAnchors
    requires forall i :: 0 <= i < |ds| ==> -TwoTo31 <= ds[i] < TwoTo31
    ensures DistanceSlots(ds) == ds + seq(MaxAnchors - |ds|, _ => -1)
  {
    var slots := DistanceSlots(ds);
    var padded := ds + seq(MaxAnchors - |ds|, _ => -1);
    forall i | 0 <= i < MaxAnchors ensures slots[i] == padded[i] {
      if i < |ds| {
        assert slots[i] == WrapInt32(ds[i]);
      }
    }
  }

  lemma {:induction false} CountPositiveNegativeTail(ds: seq<int>, k: nat)
    ensures CountPositive(ds + seq(k, _ => -1)) == CountPositive(ds)
  {
    if k > 0 {
      var tail := seq(k, _ => -1);
      assert (ds + tail)[..|ds + tail| - 1] == ds + seq(k - 1, _ => -1);
      CountPositiveNegativeTail(ds, k - 1);
    } else {
      assert ds + seq(k, _ => -1) == ds;
    }
  }

  /** Truncation keeps the first eight entries and never adds a positive one. */
  lemma {:induction false} TruncatedPrefix(ds: seq<int>)
    ensures Truncated(ds) == ds[..if |ds| < MaxAnchors then |ds| else MaxAnchors]
    ensures CountPositive(Truncated(ds)) <= CountPositive(ds)
  {
    if |ds| > MaxAnchors {
      CountPositivePrefix(ds, MaxAnchors);
    } else {
      assert ds[..|ds|] == ds;
    }
  }

  lemma {:induction false} CountPositivePrefix(ds: seq<int>, n: nat)
    requires n <= |ds|
    ensures CountPositive(ds[..n]) <= CountPositive(ds)
  {
    if n < |ds| {
      assert ds[..|ds| - 1][..n] == ds[..n];
      CountPositivePrefix(ds[..|ds| - 1], n);
    } else {
      assert ds[..n] == ds;
    }
  }

  /** The wrapper's TrilaterationEngine with its two ctypes buffers. */
  class Engine {
    const dllLoaded: bool
    const anchorArray: array<Vector3>
    const distanceArray: array<int>
    var anchors: seq<Vector3>
    var location: Vector3

    ghost predicate Valid()
      reads this
    {
      anchorArray.Length == MaxAnchors && distanceArray.Length == MaxAnchors
    }

    /** A new engine: zeroed anchor buffer, every distance slot -1, no anchors. */
    constructor(loaded: bool)
      ensures Valid() && dllLoaded == loaded && fresh(anchorArray) && fresh(distanceArray)
      ensures anchors == [] && anchorArray[..] == AnchorSlots([])
      ensures forall i :: 0 <= i < MaxAnchors ==> distanceArray[i] == -1
    {
      dllLoaded := loaded;
      anchors := [];
      location := Zero;
      var a := new Vector3[MaxAnchors](_ => Zero);
      assert a[..] == AnchorSlots([]);
      anchorArray := a;
      var d := new int[MaxAnchors](_ => 0);
      var i := 0;
      while i < MaxAnchors
        invariant 0 <= i <= MaxAnchors
        invariant forall k :: 0 <= k < i ==> d[k] == -1
        modifies d
      {
        d[i] := -1;
        i := i + 1;
      }
      distanceArray := d;
    }

    /**
     * set_anchors: more than eight anchors raise ValueError and change nothing; otherwise the buffer
     * holds the anchors then zeros, and the anchor list is the input.
     */
    method SetAnchors(positions: seq<Vector3>) returns (r: Result<()>)
      requires Valid()
      modifies this, anchorArray
      ensures Valid()
      ensures |positions| > MaxAnchors ==>
        r == Err(ValueError) && anchors == old(anchors) && anchorArray[..] == old(anchorArray[..])
      ensures |positions| <= MaxAnchors ==>
        r == Ok(()) && anchors == positions && anchorArray[..] == AnchorSlots(positions)
      ensures location == old(location)
    {
      if |positions| > MaxAnchors {
        return Err(ValueError);
      }
      var list: seq<Vector3> := [];
      var i := 0;
      while i < |positions|
        invariant 0 <= i <= |positions| && list == positions[..i]
        invariant forall k :: 0 <= k < i ==> anchorArray[k] == positions[k]
        modifies anchorArray
      {
        anchorArray[i] := positions[i];
        list := list + [positions[i]];
        i := i + 1;
      }
      while i < MaxAnchors
        invariant |positions| <= i <= MaxAnchors
        invariant forall k :: 0 <= k < |positions| ==> anchorArray[k] == positions[k]
        invariant forall k :: |positions| <= k < i ==> anchorArray[k] == Zero
        modifies anchorArray
      {
        anchorArray[i] := Zero;
        i := i + 1;
      }
      assert list == positions;
      anchors := list;
      assert anchorArray[..] == AnchorSlots(positions);
      return Ok(());
    }

    /**
     * calculate_position: None without a library; None with the distance buffer untouched for fewer
     * than three positive distances among the first eight; otherwise the buffer is refilled and
     * a non-negative status from the native routine yields the location it wrote.
     */
    method CalculatePosition(native: NativeGetLocation, distances: seq<int>) returns (r: Option<Vector3>)
      requires Valid()
      modifies this, distanceArray
      ensures Valid() && anchors == old(anchors)
      ensures !dllLoaded || CountPositive(Truncated(distances)) < 3 ==>
        r.None? && distanceArray[..] == old(distanceArray[..]) && location == old(location)
      ensures dllLoaded && CountPositive(Truncated(distances)) >= 3 ==>
        && distanceArray[..] == DistanceSlots(Truncated(distances))
        && var (code, loc) := native(anchorArray[..], DistanceSlots(Truncated(distances)));
           location == loc && r == (if code >= 0 then Some(loc) else None)
    {
      if !dllLoaded {
        return None;
      }
      var ds := Truncated(distances);
      if CountPositive(ds) < 3 {
        return None;
      }
      var i := 0;
      while i < MaxAnchors
        invariant 0 <= i <= MaxAnchors
        invariant forall k :: 0 <= k < i ==> distanceArray[k] == DistanceSlots(ds)[k]
        modifies distanceArray
      {
        distanceArray[i] := if i < |ds| then WrapInt32(ds[i]) else -1;
        i := i + 1;
      }
      assert distanceArray[..] == DistanceSlots(ds);
      var (code, loc) := native(anchorArray[..], distanceArray[..]);
      location := loc;
      r := if code >= 0 then Some(loc) else None;
    }
  }

  /**
   * calculate_tag_position on the shared engine: None without a library, ValueError for more than
   * eight anchors, both leaving the engine as it was; otherwise set_anchors then calculate_position,
   * whose buffers and location the next call on the engine sees.
   */
  method CalculateTagPosition(engine: Engine, native: NativeGetLocation,
                              anchorPositions: seq<Vector3>, distancesMm: seq<int>)
      returns (r: Result<Option<Vector3>>)
    requires engine.Valid()
    modifies engine, engine.anchorArray, engine.distanceArray
    ensures engine.Valid()
    ensures !engine.dllLoaded ==> r == Ok(None)
    ensures engine.dllLoaded && |anchorPositions| > MaxAnchors ==> r == Err(ValueError)
    ensures engine.dllLoaded && |anchorPositions| <= MaxAnchors ==>
      && engine.anchors == anchorPositions
      && engine.anchorArray[..] == AnchorSlots(anchorPositions)
      && r.Ok?
      && (CountPositive(Truncated(distancesMm)) < 3 ==> r == Ok(None))
      && (CountPositive(Truncated(distancesMm)) >= 3 ==>
            var (code, loc) := native(AnchorSlots(anchorPositions), DistanceSlots(Truncated(distancesMm)));
            r == Ok(if code >= 0 then Some(loc) else None))
    ensures !engine.dllLoaded || |anchorPositions| > MaxAnchors ==>
      && engine.anchors == old(engine.anchors) && engine.anchorArray[..] == old(engine.anchorArray[..])
      && engine.distanceArray[..] == old(engine.distanceArray[..]) && engine.location == old(engine.location)
    ensures engine.dllLoaded && |anchorPositions| <= MaxAnchors && CountPositive(Truncated(distancesMm)) < 3 ==>
      engine.distanceArray[..] == old(engine.distanceArray[..]) && engine.location == old(engine.location)
    ensures engine.dllLoaded && |anchorPositions| <= MaxAnchors && CountPositive(Truncated(distancesMm)) >= 3 ==>
      && engine.distanceArray[..] == DistanceSlots(Truncated(distancesMm))
      && engine.location == native(AnchorSlots(anchorPositions), DistanceSlots(Truncated(distancesMm))).1
  {
    if !engine.dllLoaded {
      return Ok(None);
    }
    var stored := engine.SetAnchors(anchorPositions);
    if stored.Err? {
      return Err(stored.error);
    }
    var p := engine.CalculatePosition(native, distancesMm);
    return Ok(p);
  }
}
