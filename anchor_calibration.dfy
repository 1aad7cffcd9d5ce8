/**
 * Bookkeeping of anchor self-calibration (src/uwb_line_tracker/anchor_calibration.py): the
 * per-pair sample map, median aggregation into a distance matrix with missing-pair detection and
 * symmetry fill, distance statistics, and the two gauge steps of the embedding that need no
 * trigonometry. The SVD of _mds and the rotation of _angle_rotation are parameters.
 */
module AnchorCalibration {
  import opened Wrappers
  import opened Numerics
  import PyText

  type Key = (int, int)

  function Reverse(k: Key): Key
  {
    (k.1, k.0)
  }

  // ----- median

  predicate SortedReals(s: seq<real>)
  {
    forall i, j :: 0 <= i < j < |s| ==> s[i] <= s[j]
  }

  function InsertReal(x: real, s: seq<real>): (r: seq<real>)
    ensures multiset(r) == multiset(s) + multiset{x} && |r| == |s| + 1
    ensures SortedReals(s) ==> SortedReals(r)
  {
    if s == [] then [x]
    else if x <= s[0] then [x] + s
    else
      var rest := InsertReal(x, s[1..]);
      assert s == [s[0]] + s[1..];
      InsertBehindHead(x, s, rest);
      [s[0]] + rest
  }

  /** Inserting behind the head of a sorted list keeps the head first: every element of `rest` is at least s[0]. */
  lemma InsertBehindHead(x: real, s: seq<real>, rest: seq<real>)
    requires s != [] && x > s[0]
    requires multiset(rest) == multiset(s[1..]) + multiset{x}
    requires SortedReals(s[1..]) ==> SortedReals(rest)
    ensures SortedReals(s) ==> SortedReals([s[0]] + rest)
  {
    if SortedReals(s) {
      assert SortedReals(s[1..]) by {
        forall i, j | 0 <= i < j < |s[1..]| ensures s[1..][i] <= s[1..][j] {
          assert s[1..][i] == s[i + 1] && s[1..][j] == s[j + 1];
        }
      }
      forall j | 0 <= j < |rest| ensures s[0] <= rest[j] {
        assert rest[j] in multiset(rest);
        if rest[j] != x {
          assert rest[j] in multiset(s[1..]);
          var q :| 0 <= q < |s[1..]| && s[1..][q] == rest[j];
          assert s[q + 1] == rest[j];
        }
      }
    }
  }

  /** The samples in ascending order. */
  function SortReals(xs: seq<real>): (r: seq<real>)
    ensures multiset(r) == multiset(xs) && |r| == |xs| && SortedReals(r)
  {
    if xs == [] then []
    else
      assert xs == [xs[0]] + xs[1..];
      InsertReal(xs[0], SortReals(xs[1..]))
  }

  /** np.median: the middle sample, or the mean of the two middle samples for an even count. */
  function Median(xs: seq<real>): real
    requires |xs| > 0
  {
    var s := SortReals(xs);
    var n := |s|;
    if n % 2 == 1 then s[n / 2] else (s[n / 2 - 1] + s[n / 2]) / 2.0
  }

  /** The median lies within any bounds of the samples; in particular positive samples have a positive median. */
  lemma MedianBounds(xs: seq<real>, lo: real, hi: real)
    requires |xs| > 0
    requires forall i :: 0 <= i < |xs| ==> lo <= xs[i] <= hi
    ensures lo <= Median(xs) <= hi
  {
    var s := SortReals(xs);
    forall k | 0 <= k < |s| ensures lo <= s[k] <= hi {
      assert s[k] in multiset(xs);
      var q :| 0 <= q < |xs| && xs[q] == s[k];
    }
  }

  /** Any non-empty run of equal samples has that value as its median. */
  lemma MedianOfEqual(xs: seq<real>, v: real)
    requires |xs| > 0 && forall i :: 0 <= i < |xs| ==> xs[i] == v
    ensures Median(xs) == v
  {
    MedianBounds(xs, v, v);
  }

  // ----- the sample map

  /** A non-empty list of positive samples. */
  predicate PositiveSamples(s: seq<real>)
  {
    |s| > 0 && forall t :: 0 <= t < |s| ==> s[t] > 0.0
  }

  predicate DistinctKeys(keys: seq<Key>)
  {
    forall a, b :: 0 <= a < b < |keys| ==> keys[a] != keys[b]
  }

  /**
   * The dict _twr_distances: `keys` lists its keys in insertion order; every list holds positive
   * samples, and both directions of a pair are present with the same list.
   */
  ghost predicate WellFormed(keys: seq<Key>, samples: map<Key, seq<real>>)
  {
    && DistinctKeys(keys)
    && (forall k :: k in keys <==> k in samples)
    && (forall k :: k in samples ==> PositiveSamples(samples[k]))
    && (forall i, j :: (i, j) in samples ==> (j, i) in samples && samples[(j, i)] == samples[(i, j)])
  }

  function SamplesOf(samples: map<Key, seq<real>>, k: Key): seq<real>
  {
    if k in samples then samples[k] else []
  }

  /** Where build_distance_matrix writes a key's median: skipped, a cell (NumPy wraps negative indices), or IndexError. */
  datatype Target = Skip | Cell(row: nat, col: nat) | OutOfRange

  function Wrap(i: int, n: nat): nat
    requires -(n as int) <= i < n
  {
    if i < 0 then (i + n) as nat else i as nat
  }

  function TargetOf(k: Key, s: seq<real>, n: nat): (t: Target)
    ensures t.Cell? ==> t.row < n && t.col < n
  {
    if !(k.0 < n && k.1 < n && |s| > 0) then Skip
    else if k.0 < -(n as int) || k.1 < -(n as int) then OutOfRange
    else Cell(Wrap(k.0, n), Wrap(k.1, n))
  }

  /** The first loop of build_distance_matrix: the median of the last key (in insertion order) writing cell (a, b), else 0. */
  function RawCell(keys: seq<Key>, samples: map<Key, seq<real>>, n: nat, a: nat, b: nat): real
  {
    if keys == [] then 0.0
    else
      var k := keys[|keys| - 1];
      if TargetOf(k, SamplesOf(samples, k), n) == Cell(a, b) then Median(SamplesOf(samples, k))
      else RawCell(keys[..|keys| - 1], samples, n, a, b)
  }

  predicate AnyOutOfRange(keys: seq<Key>, samples: map<Key, seq<real>>, n: nat)
  {
    exists t :: 0 <= t < |keys| && TargetOf(keys[t], SamplesOf(samples, keys[t]), n) == OutOfRange
  }

  predicate Measured(keys: seq<Key>, samples: map<Key, seq<real>>, n: nat, a: nat, b: nat)
  {
    exists t :: 0 <= t < |keys| && TargetOf(keys[t], SamplesOf(samples, keys[t]), n) == Cell(a, b)
  }

  /** With positive samples, a raw cell is non-zero exactly when some key writes it. */
  lemma {:induction false} RawCellMeasured(keys: seq<Key>, samples: map<Key, seq<real>>, n: nat, a: nat, b: nat)
    requires forall k :: k in samples ==> PositiveSamples(samples[k])
    ensures RawCell(keys, samples, n, a, b) >= 0.0
    ensures RawCell(keys, samples, n, a, b) != 0.0 <==> Measured(keys, samples, n, a, b)
  {
    if keys != [] {
      var init := keys[..|keys| - 1];
      var k := keys[|keys| - 1];
      RawCellMeasured(init, samples, n, a, b);
      var s := SamplesOf(samples, k);
      if TargetOf(k, s, n) == Cell(a, b) {
        assert |s| > 0;
        MedianBounds(s, SmallestOf(s), LargestOf(s));
        assert Measured(keys, samples, n, a, b) by { assert TargetOf(keys[|keys| - 1], SamplesOf(samples, keys[|keys| - 1]), n) == Cell(a, b); }
      } else {
        if Measured(keys, samples, n, a, b) {
          var t :| 0 <= t < |keys| && TargetOf(keys[t], SamplesOf(samples, keys[t]), n) == Cell(a, b);
          assert t < |keys| - 1;
          assert init[t] == keys[t];
        }
        if Measured(init, samples, n, a, b) {
          var t :| 0 <= t < |init| && TargetOf(init[t], SamplesOf(samples, init[t]), n) == Cell(a, b);
          assert keys[t] == init[t];
        }
      }
    }
  }

  function SmallestOf(s: seq<real>): (r: real)
    requires |s| > 0
    ensures forall i :: 0 <= i < |s| ==> r <= s[i]
    ensures exists i :: 0 <= i < |s| && r == s[i]
  {
    if |s| == 1 then s[0] else Min(s[0], SmallestOf(s[1..]))
  }

  function LargestOf(s: seq<real>): (r: real)
    requires |s| > 0
    ensures forall i :: 0 <= i < |s| ==> s[i] <= r
  {
    if |s| == 1 then s[0] else Max(s[0], LargestOf(s[1..]))
  }

  /** A cell is written by some key when a key for it was added, or a wrapped negative key lands on it. */
  lemma MeasuredByKey(keys: seq<Key>, samples: map<Key, seq<real>>, n: nat, a: nat, b: nat)
    requires WellFormed(keys, samples) && a < n && b < n
    requires (a as int, b as int) in samples
    ensures Measured(keys, samples, n, a, b)
  {
    var t :| 0 <= t < |keys| && keys[t] == (a as int, b as int);
    assert TargetOf(keys[t], SamplesOf(samples, keys[t]), n) == Cell(a, b);
  }

  // ----- build_distance_matrix

  /** The second loop of build_distance_matrix fills a zero off-diagonal cell from its mirror. */
  function SymCell(keys: seq<Key>, samples: map<Key, seq<real>>, n: nat, a: nat, b: nat): real
  {
    if a != b && RawCell(keys, samples, n, a, b) == 0.0 then RawCell(keys, samples, n, b, a)
    else RawCell(keys, samples, n, a, b)
  }

  predicate MissingPair(keys: seq<Key>, samples: map<Key, seq<real>>, n: nat)
  {
    exists i: nat, j: nat :: i < j < n && RawCell(keys, samples, n, i, j) == 0.0 && RawCell(keys, samples, n, j, i) == 0.0
  }

  /** The result of build_distance_matrix: IndexError for a key below -n, None for a missing pair, else the filled matrix. */
  function BuiltMatrix(keys: seq<Key>, samples: map<Key, seq<real>>, n: nat): Result<Option<seq<seq<real>>>>
  {
    if AnyOutOfRange(keys, samples, n) then Err(IndexError)
    else if MissingPair(keys, samples, n) then Ok(None)
    else Ok(Some(seq(n, a requires 0 <= a < n => seq(n, b requires 0 <= b < n => SymCell(keys, samples, n, a, b)))))
  }

  /**
   * With positive samples, building fails with None exactly when some pair i < j of anchors below n
   * was measured in neither direction; a built matrix has every off-diagonal cell positive, taken
   * from the cell itself or, when that one was never written, from its mirror.
   */
  lemma BuiltMatrixProperties(keys: seq<Key>, samples: map<Key, seq<real>>, n: nat)
    requires WellFormed(keys, samples) && !AnyOutOfRange(keys, samples, n)
    ensures BuiltMatrix(keys, samples, n) == Ok(None) <==>
      exists i: nat, j: nat :: i < j < n && !Measured(keys, samples, n, i, j) && !Measured(keys, samples, n, j, i)
    ensures BuiltMatrix(keys, samples, n).Ok? && BuiltMatrix(keys, samples, n).value.Some? ==>
      var m := BuiltMatrix(keys, samples, n).value.value;
      |m| == n && (forall a :: 0 <= a < n ==> |m[a]| == n)
      && forall a: nat, b: nat :: a < n && b < n && a != b ==>
           m[a][b] > 0.0 && m[a][b] == (if Measured(keys, samples, n, a, b) then RawCell(keys, samples, n, a, b) else RawCell(keys, samples, n, b, a))
  {
    forall a: nat, b: nat | a < n && b < n {
      RawCellMeasured(keys, samples, n, a, b);
    }
  }

  /**
   * When no key has a negative index, each cell is written by its own key only, so the two
   * directions of a pair, which always hold the same samples, give a symmetric matrix.
   */
  lemma BuiltMatrixSymmetric(keys: seq<Key>, samples: map<Key, seq<real>>, n: nat)
    requires WellFormed(keys, samples)
    requires forall k :: k in samples ==> k.0 >= 0 && k.1 >= 0
    requires BuiltMatrix(keys, samples, n).Ok? && BuiltMatrix(keys, samples, n).value.Some?
    ensures var m := BuiltMatrix(keys, samples, n).value.value;
      forall a, b :: 0 <= a < n && 0 <= b < n ==> m[a][b] == m[b][a]
  {
    forall a: nat, b: nat | a < n && b < n
      ensures RawCell(keys, samples, n, a, b) == RawCell(keys, samples, n, b, a)
    {
      RawCellOwnKey(keys, samples, n, a, b);
      RawCellOwnKey(keys, samples, n, b, a);
    }
  }

  /** Without negative keys, a raw cell is the median of its own key's samples, or 0 when that key is absent. */
  lemma {:induction false} RawCellOwnKey(keys: seq<Key>, samples: map<Key, seq<real>>, n: nat, a: nat, b: nat)
    requires forall k :: k in samples ==> k.0 >= 0 && k.1 >= 0
    requires forall k :: k in keys ==> k in samples
    requires DistinctKeys(keys)
    requires a < n && b < n
    ensures RawCell(keys, samples, n, a, b) ==
      if (a as int, b as int) in keys && |samples[(a as int, b as int)]| > 0 then Median(samples[(a as int, b as int)]) else 0.0
  {
    if keys != [] {
      var init := keys[..|keys| - 1];
      var k := keys[|keys| - 1];
      assert keys == init + [k];
      assert forall q :: q in init ==> q in keys;
      assert DistinctKeys(init) by {
        forall i, j | 0 <= i < j < |init| ensures init[i] != init[j] {
          assert init[i] == keys[i] && init[j] == keys[j];
        }
      }
      RawCellOwnKey(init, samples, n, a, b);
      forall i | 0 <= i < |init| ensures init[i] != k {
        assert init[i] == keys[i];
      }
      OwnTarget(k, SamplesOf(samples, k), n, a, b);
    }
  }

  /** A key without negative indices writes its own cell, and only when it has samples. */
  lemma OwnTarget(k: Key, s: seq<real>, n: nat, a: nat, b: nat)
    requires k.0 >= 0 && k.1 >= 0 && a < n && b < n
    ensures TargetOf(k, s, n) == Cell(a, b) <==> k == (a as int, b as int) && |s| > 0
  {
  }

  /**
   * Whether the inner loop at (i, j) has already symmetrised cell (a, b): its pair lo < hi was
   * visited before (i, j) in the row-major order of the pairs.
   */
  predicate PairDone(a: nat, b: nat, i: nat, j: nat)
  {
    var lo, hi := if a < b then a else b, if a < b then b else a;
    lo != hi && (lo < i || (lo == i && hi < j))
  }

  /** The raw matrix misses a pair exactly when the samples do. */
  lemma MissingInRaw(keys: seq<Key>, samples: map<Key, seq<real>>, n: nat)
    ensures MissingIn(RawMatrix(keys, samples, n), n) <==> MissingPair(keys, samples, n)
  {
    var raw := RawMatrix(keys, samples, n);
    if MissingIn(raw, n) {
      var i: nat, j: nat :| i < j < n && raw[i][j] == 0.0 && raw[j][i] == 0.0;
      assert RawCell(keys, samples, n, i, j) == 0.0 && RawCell(keys, samples, n, j, i) == 0.0;
    }
    if MissingPair(keys, samples, n) {
      var i: nat, j: nat :| i < j < n && RawCell(keys, samples, n, i, j) == 0.0 && RawCell(keys, samples, n, j, i) == 0.0;
      assert raw[i][j] == 0.0 && raw[j][i] == 0.0;
    }
  }

  /** The second loop on the raw matrix is SymCell. */
  lemma SymOfRaw(keys: seq<Key>, samples: map<Key, seq<real>>, n: nat, a: nat, b: nat)
    requires a < n && b < n
    ensures SymOf(RawMatrix(keys, samples, n), a, b) == SymCell(keys, samples, n, a, b)
  {
  }

  /** A square matrix of SymCell values is what a successful build returns. */
  lemma BuiltFromCells(keys: seq<Key>, samples: map<Key, seq<real>>, n: nat, result: seq<seq<real>>)
    requires !AnyOutOfRange(keys, samples, n) && !MissingPair(keys, samples, n)
    requires |result| == n && forall a :: 0 <= a < n ==> |result[a]| == n
    requires forall a, b :: 0 <= a < n && 0 <= b < n ==> result[a][b] == SymCell(keys, samples, n, a, b)
    ensures BuiltMatrix(keys, samples, n) == Ok(Some(result))
  {
    var spec := seq(n, a requires 0 <= a < n => seq(n, b requires 0 <= b < n => SymCell(keys, samples, n, a, b)));
    assert BuiltMatrix(keys, samples, n) == Ok(Some(spec));
    forall a | 0 <= a < n ensures result[a] == spec[a] {
      assert |spec[a]| == n;
      assert forall b :: 0 <= b < n ==> result[a][b] == spec[a][b];
    }
    assert result == spec;
  }

  /** The two loops of build_distance_matrix on a fresh n x n array of zeros. */
  method BuildMatrix(keys: seq<Key>, samples: map<Key, seq<real>>, n: nat) returns (r: Result<Option<seq<seq<real>>>>)
    requires forall k :: k in keys ==> k in samples
    ensures r == BuiltMatrix(keys, samples, n)
  {
    var m := new real[n, n]((_, _) => 0.0);
    var indexable := FillMedians(keys, samples, m);
    if !indexable {
      return Err(IndexError);
    }
    ghost var raw := RawMatrix(keys, samples, n);
    var complete := Symmetrize(m, raw);
    MissingInRaw(keys, samples, n);
    if !complete {
      return Ok(None);
    }
    var result := seq(n, a requires 0 <= a < n reads m => seq(n, b requires 0 <= b < n reads m => m[a, b]));
    forall a, b | 0 <= a < n && 0 <= b < n ensures result[a][b] == SymCell(keys, samples, n, a, b) {
      SymOfRaw(keys, samples, n, a, b);
    }
    BuiltFromCells(keys, samples, n, result);
    return Ok(Some(result));
  }

  /** Visiting pair (i, j) of the inner loop marks exactly its two cells as done. */
  lemma PairDoneStep(a: nat, b: nat, i: nat, j: nat)
    requires i < j
    ensures PairDone(a, b, i, j + 1) <==> PairDone(a, b, i, j) || (a == i && b == j) || (a == j && b == i)
  {
  }

  /** The raw cells as a matrix. */
  function RawMatrix(keys: seq<Key>, samples: map<Key, seq<real>>, n: nat): (raw: seq<seq<real>>)
    ensures |raw| == n && forall a :: 0 <= a < n ==> |raw[a]| == n
  {
    seq(n, a requires 0 <= a < n => seq(n, b requires 0 <= b < n => RawCell(keys, samples, n, a, b)))
  }

  predicate Square(raw: seq<seq<real>>, n: nat)
  {
    |raw| == n && forall a :: 0 <= a < n ==> |raw[a]| == n
  }

  predicate MissingIn(raw: seq<seq<real>>, n: nat)
    requires Square(raw, n)
  {
    exists i: nat, j: nat :: i < j < n && raw[i][j] == 0.0 && raw[j][i] == 0.0
  }

  function SymOf(raw: seq<seq<real>>, a: nat, b: nat): real
    requires a < |raw| && b < |raw| && |raw[a]| == |raw| && |raw[b]| == |raw|
  {
    if a != b && raw[a][b] == 0.0 then raw[b][a] else raw[a][b]
  }

  /** The first loop of build_distance_matrix: false (IndexError) at the first key below -n, else every cell holds its raw value. */
  method FillMedians(keys: seq<Key>, samples: map<Key, seq<real>>, m: array2<real>) returns (indexable: bool)
    requires m.Length0 == m.Length1
    requires forall k :: k in keys ==> k in samples
    requires forall a, b :: 0 <= a < m.Length0 && 0 <= b < m.Length1 ==> m[a, b] == 0.0
    modifies m
    ensures indexable <==> !AnyOutOfRange(keys, samples, m.Length0)
    ensures indexable ==> forall a, b :: 0 <= a < m.Length0 && 0 <= b < m.Length1 ==>
      m[a, b] == RawCell(keys, samples, m.Length0, a, b)
  {
    var n := m.Length0;
    var k := 0;
    while k < |keys|
      invariant 0 <= k <= |keys|
      invariant forall a, b :: 0 <= a < n && 0 <= b < n ==> m[a, b] == RawCell(keys[..k], samples, n, a, b)
      invariant forall t :: 0 <= t < k ==> TargetOf(keys[t], SamplesOf(samples, keys[t]), n) != OutOfRange
    {
      var key := keys[k];
      var s := samples[key];
      assert s == SamplesOf(samples, key);
      var target := TargetOf(key, s, n);
      if target == OutOfRange {
        return false;
      }
      if target.Cell? {
        m[target.row, target.col] := Median(s);
      }
      forall a, b | 0 <= a < n && 0 <= b < n ensures m[a, b] == RawCell(keys[..k + 1], samples, n, a, b) {
        RawCellStep(keys, samples, n, k, a, b);
      }
      k := k + 1;
    }
    assert keys[..k] == keys;
    return true;
  }

  /** One more key of the first loop: it overwrites its own cell and leaves the others as they were. */
  lemma RawCellStep(keys: seq<Key>, samples: map<Key, seq<real>>, n: nat, k: nat, a: nat, b: nat)
    requires k < |keys|
    ensures RawCell(keys[..k + 1], samples, n, a, b)
      == if TargetOf(keys[k], SamplesOf(samples, keys[k]), n) == Cell(a, b) then Median(SamplesOf(samples, keys[k]))
         else RawCell(keys[..k], samples, n, a, b)
  {
    assert keys[..k + 1][..k] == keys[..k];
  }

  /**
   * The second loop of build_distance_matrix over the pairs i < j in row-major order: false at the
   * first pair zero in both directions, otherwise every cell ends as SymOf of the entry contents.
   */
  method Symmetrize(m: array2<real>, ghost raw: seq<seq<real>>) returns (complete: bool)
    requires m.Length0 == m.Length1 && Square(raw, m.Length0)
    requires forall a, b :: 0 <= a < m.Length0 && 0 <= b < m.Length1 ==> m[a, b] == raw[a][b]
    modifies m
    ensures complete <==> !MissingIn(raw, m.Length0)
    ensures complete ==> forall a, b :: 0 <= a < m.Length0 && 0 <= b < m.Length1 ==> m[a, b] == SymOf(raw, a, b)
  {
    var n := m.Length0;
    var i := 0;
    while i < n
      invariant 0 <= i <= n
      invariant forall a, b :: 0 <= a < n && 0 <= b < n ==>
        m[a, b] == if PairDone(a, b, i, 0) then SymOf(raw, a, b) else raw[a][b]
      invariant forall a, b :: 0 <= a < i && a < b < n ==> raw[a][b] != 0.0 || raw[b][a] != 0.0
    {
      var rowComplete := SymmetrizeRow(m, raw, i);
      if !rowComplete {
        return false;
      }
      i := i + 1;
    }
    forall a, b | 0 <= a < n && 0 <= b < n ensures m[a, b] == SymOf(raw, a, b) {
      assert PairDone(a, b, n, 0) || a == b;
    }
    return true;
  }

  /** The inner loop of the second loop for row i: the pairs (i, j) with j > i, in order. */
  method SymmetrizeRow(m: array2<real>, ghost raw: seq<seq<real>>, i: nat) returns (complete: bool)
    requires m.Length0 == m.Length1 && Square(raw, m.Length0) && i < m.Length0
    requires forall a, b :: 0 <= a < m.Length0 && 0 <= b < m.Length1 ==>
      m[a, b] == if PairDone(a, b, i, 0) then SymOf(raw, a, b) else raw[a][b]
    modifies m
    ensures !complete ==> MissingIn(raw, m.Length0)
    ensures complete ==> forall a, b :: 0 <= a < m.Length0 && 0 <= b < m.Length1 ==>
      m[a, b] == if PairDone(a, b, i + 1, 0) then SymOf(raw, a, b) else raw[a][b]
    ensures complete ==> forall b :: i < b < m.Length0 ==> raw[i][b] != 0.0 || raw[b][i] != 0.0
  {
    var n := m.Length0;
    assert forall a: nat, b: nat :: a < n && b < n ==> PairDone(a, b, i, 0) == PairDone(a, b, i, i + 1);
    var j := i + 1;
    while j < n
      invariant i + 1 <= j <= n
      invariant forall a, b :: 0 <= a < n && 0 <= b < n ==>
        m[a, b] == if PairDone(a, b, i, j) then SymOf(raw, a, b) else raw[a][b]
      invariant forall b :: i < b < j ==> raw[i][b] != 0.0 || raw[b][i] != 0.0
    {
      if m[i, j] == 0.0 && m[j, i] == 0.0 {
        assert MissingIn(raw, n) by {
          assert raw[i][j] == 0.0 && raw[j][i] == 0.0;
        }
        return false;
      }
      PairDoneStep(i, j, i, j);
      PairDoneStep(j, i, i, j);
      assert m[i, j] == raw[i][j] && m[j, i] == raw[j][i];
      if m[i, j] == 0.0 {
        m[i, j] := m[j, i];
      } else if m[j, i] == 0.0 {
        m[j, i] := m[i, j];
      }
      forall a, b | 0 <= a < n && 0 <= b < n
        ensures m[a, b] == if PairDone(a, b, i, j + 1) then SymOf(raw, a, b) else raw[a][b]
      {
        PairDoneStep(a, b, i, j);
      }
      j := j + 1;
    }
    assert forall a: nat, b: nat :: a < n && b < n ==> PairDone(a, b, i, n) == PairDone(a, b, i + 1, 0);
    return true;
  }

  // ----- gauge steps of the embedding

  datatype AnchorPosition = AnchorPosition(id: int, x: real, y: real, z: real)

  /** The last step of _mds: subtract the reference node's row from every row. */
  function TranslateToView(est: seq<(real, real)>, view: nat): (r: seq<(real, real)>)
    requires view < |est|
    ensures |r| == |est|
  {
    seq(|est|, i requires 0 <= i < |est| => (est[i].0 - est[view].0, est[i].1 - est[view].1))
  }

  /** The reference node lands on the origin and all differences between nodes are kept. */
  lemma TranslateToViewProperties(est: seq<(real, real)>, view: nat)
    requires view < |est|
    ensures TranslateToView(est, view)[view] == (0.0, 0.0)
    ensures forall i, j :: 0 <= i < |est| && 0 <= j < |est| ==>
      TranslateToView(est, view)[i].0 - TranslateToView(est, view)[j].0 == est[i].0 - est[j].0
      && TranslateToView(est, view)[i].1 - TranslateToView(est, view)[j].1 == est[i].1 - est[j].1
  {
  }

  /** The last step of _angle_rotation: with more than two nodes and anchor 2 below the x axis, negate every y. */
  function FlipY(coord: seq<(real, real)>): (r: seq<(real, real)>)
    ensures |r| == |coord|
  {
    if |coord| > 2 && coord[2].1 < 0.0 then seq(|coord|, i requires 0 <= i < |coord| => (coord[i].0, -coord[i].1))
    else coord
  }

  /**
   * After the flip anchor 2 (when present) has y >= 0; x coordinates never change, and either every
   * y is kept or every y is negated. Flipping twice is flipping once.
   */
  lemma FlipYProperties(coord: seq<(real, real)>)
    ensures var r := FlipY(coord);
      && (|coord| > 2 ==> r[2].1 >= 0.0)
      && (forall i :: 0 <= i < |coord| ==> r[i].0 == coord[i].0)
      && ((forall i :: 0 <= i < |coord| ==> r[i].1 == coord[i].1) || (forall i :: 0 <= i < |coord| ==> r[i].1 == -coord[i].1))
      && FlipY(r) == r
  {
    var r := FlipY(coord);
    if |coord| > 2 && coord[2].1 < 0.0 {
      assert r[2].1 > 0.0;
      assert !(r[2].1 < 0.0);
    }
  }

  /** The anchor positions of calibrate, ids 0 .. n-1 in order at z = 0. */
  function PositionsOf(coord: seq<(real, real)>): (r: seq<AnchorPosition>)
    ensures |r| == |coord|
    ensures forall i :: 0 <= i < |coord| ==> r[i] == AnchorPosition(i, coord[i].0, coord[i].1, 0.0)
  {
    seq(|coord|, i requires 0 <= i < |coord| => AnchorPosition(i, coord[i].0, coord[i].1, 0.0))
  }

  /** distance_m = matrix / 1000. */
  function ToMetres(matrix: seq<seq<real>>): (r: seq<seq<real>>)
    ensures |r| == |matrix| && forall i :: 0 <= i < |matrix| ==> |r[i]| == |matrix[i]|
  {
    seq(|matrix|, i requires 0 <= i < |matrix| => seq(|matrix[i]|, j requires 0 <= j < |matrix[i]| => matrix[i][j] / 1000.0))
  }

  /**
   * The try block of calibrate, given the millimetre matrix: `mds` stands for the SVD embedding
   * before its translation and `rotate` for the rotation of _angle_rotation before its flip (None
   * where NumPy raises); an embedding without the reference row, or with fewer rows than anchors,
   * raises inside the try and yields None.
   */
  function Embedding(matrix: seq<seq<real>>,
                     mds: seq<seq<real>> -> Option<seq<(real, real)>>,
                     rotate: seq<(real, real)> -> Option<seq<(real, real)>>): Option<seq<(real, real)>>
  {
    match mds(ToMetres(matrix))
    case None => None
    case Some(est) =>
      if |est| == 0 then None
      else match rotate(TranslateToView(est, 0))
        case None => None
        case Some(rotated) => Some(FlipY(rotated))
  }

  /** A successful embedding of more than two anchors puts anchor 2 on the non-negative y side. */
  lemma EmbeddingAnchorTwo(matrix: seq<seq<real>>,
                           mds: seq<seq<real>> -> Option<seq<(real, real)>>,
                           rotate: seq<(real, real)> -> Option<seq<(real, real)>>)
    requires Embedding(matrix, mds, rotate).Some?
    ensures var c := Embedding(matrix, mds, rotate).value;
      |c| > 2 ==> c[2].1 >= 0.0
  {
    var est := mds(ToMetres(matrix)).value;
    FlipYProperties(rotate(TranslateToView(est, 0)).value);
  }

  /** Python's truth value of a NumPy matrix: ambiguous (ValueError) beyond one element; undecided here for none. */
  function NdarrayTruth(m: seq<seq<real>>): Result<bool>
  {
    if |m| == 1 && |m[0]| == 1 then Ok(m[0][0] != 0.0)
    else if |m| == 0 || |m[0]| == 0 then Err(Unsupported)
    else Err(ValueError)
  }

  lemma NdarrayTruthAmbiguous(n: nat, m: seq<seq<real>>)
    requires n >= 2 && |m| == n && forall i :: 0 <= i < n ==> |m[i]| == n
    ensures NdarrayTruth(m) == Err(ValueError)
  {
  }

  /**
   * The outcome of the try block of calibrate: the embedding's first n positions, or None when the
   * embedding raises or has fewer than n rows.
   */
  function CalibrationResult(matrix: seq<seq<real>>, numAnchors: nat,
                             mds: seq<seq<real>> -> Option<seq<(real, real)>>,
                             rotate: seq<(real, real)> -> Option<seq<(real, real)>>): Option<seq<AnchorPosition>>
  {
    match Embedding(matrix, mds, rotate)
    case None => None
    case Some(c) => if |c| < numAnchors then None else Some(PositionsOf(c[..numAnchors]))
  }

  /**
   * The positions the try block of calibrate leaves stored: unchanged when the embedding raises,
   * otherwise one position per anchor, cut short where the embedding has too few rows.
   */
  function StoredPositions(matrix: seq<seq<real>>, numAnchors: nat,
                           mds: seq<seq<real>> -> Option<seq<(real, real)>>,
                           rotate: seq<(real, real)> -> Option<seq<(real, real)>>,
                           prior: Option<seq<AnchorPosition>>): Option<seq<AnchorPosition>>
  {
    match Embedding(matrix, mds, rotate)
    case None => prior
    case Some(c) => Some(PositionsOf(c[..if |c| < numAnchors then |c| else numAnchors]))
  }

  /**
   * A successful calibration lists exactly n anchors with ids 0 .. n-1 in order, all at z = 0,
   * and with more than two anchors anchor 2 has y >= 0.
   */
  lemma CalibrationResultProperties(matrix: seq<seq<real>>, numAnchors: nat,
                                    mds: seq<seq<real>> -> Option<seq<(real, real)>>,
                                    rotate: seq<(real, real)> -> Option<seq<(real, real)>>)
    requires CalibrationResult(matrix, numAnchors, mds, rotate).Some?
    ensures var ps := CalibrationResult(matrix, numAnchors, mds, rotate).value;
      && |ps| == numAnchors
      && (forall i :: 0 <= i < numAnchors ==> ps[i].id == i && ps[i].z == 0.0)
      && (numAnchors > 2 ==> ps[2].y >= 0.0)
  {
    EmbeddingAnchorTwo(matrix, mds, rotate);
  }

  // ----- get_distance_info

  datatype PairStats = PairStats(count: nat, meanMm: real, stdMm: real)
  datatype DistanceInfo = DistanceInfo(numPairs: nat, pairs: map<string, PairStats>)

  function PairKey(k: Key): string
  {
    "A" + PyText.DecimalString(k.0) + "-A" + PyText.DecimalString(k.1)
  }

  /** np.var: the mean squared deviation from the mean. */
  function Variance(xs: seq<real>): real
    requires |xs| > 0
  {
    var m := Mean(xs);
    Mean(seq(|xs|, i requires 0 <= i < |xs| => (xs[i] - m) * (xs[i] - m)))
  }

  /** count, mean_mm (0 for no samples) and std_mm (np.std, 0 for fewer than two samples). */
  function StatsOf(sqrt: real -> real, xs: seq<real>): PairStats
  {
    PairStats(|xs|, if |xs| > 0 then Mean(xs) else 0.0, if |xs| > 1 then sqrt(Variance(xs)) else 0.0)
  }

  /** The "pairs" dict after visiting `keys` in order. */
  function PairsOf(sqrt: real -> real, keys: seq<Key>, samples: map<Key, seq<real>>): map<string, PairStats>
    requires forall k :: k in keys ==> k in samples
  {
    if keys == [] then map[]
    else
      var k := keys[|keys| - 1];
      var before := PairsOf(sqrt, keys[..|keys| - 1], samples);
      if k.0 < k.1 then before[PairKey(k) := StatsOf(sqrt, samples[k])] else before
  }

  function DistanceInfoOf(sqrt: real -> real, keys: seq<Key>, samples: map<Key, seq<real>>): DistanceInfo
    requires forall k :: k in keys ==> k in samples
  {
    DistanceInfo(|keys|, PairsOf(sqrt, keys, samples))
  }

  /** Every key i < j visited has an entry in "pairs". */
  lemma {:induction false} PairsOfCovers(sqrt: real -> real, keys: seq<Key>, samples: map<Key, seq<real>>)
    requires forall k :: k in keys ==> k in samples
    ensures forall k :: k in keys && k.0 < k.1 ==> PairKey(k) in PairsOf(sqrt, keys, samples)
  {
    if keys != [] {
      var init, last := keys[..|keys| - 1], keys[|keys| - 1];
      assert keys == init + [last];
      PairsOfCovers(sqrt, init, samples);
      forall k | k in keys && k.0 < k.1 ensures PairKey(k) in PairsOf(sqrt, keys, samples) {
        if k != last {
          assert k in init;
        }
      }
    }
  }

  /** Every entry of "pairs" belongs to a visited key i < j and carries that key's statistics. */
  lemma {:induction false} PairsOfEntries(sqrt: real -> real, keys: seq<Key>, samples: map<Key, seq<real>>)
    requires forall k :: k in keys ==> k in samples
    ensures forall name :: name in PairsOf(sqrt, keys, samples) ==>
      exists k :: k in keys && k.0 < k.1 && name == PairKey(k)
        && PairsOf(sqrt, keys, samples)[name] == StatsOf(sqrt, samples[k])
  {
    if keys != [] {
      var init, last := keys[..|keys| - 1], keys[|keys| - 1];
      assert keys == init + [last];
      PairsOfEntries(sqrt, init, samples);
      var pairs, before := PairsOf(sqrt, keys, samples), PairsOf(sqrt, init, samples);
      forall name | name in pairs
        ensures exists k :: k in keys && k.0 < k.1 && name == PairKey(k) && pairs[name] == StatsOf(sqrt, samples[k])
      {
        if last.0 < last.1 && name == PairKey(last) {
          assert pairs[name] == StatsOf(sqrt, samples[last]);
        } else {
          assert name in before && pairs[name] == before[name];
          var k :| k in init && k.0 < k.1 && name == PairKey(k) && before[name] == StatsOf(sqrt, samples[k]);
          assert k in keys;
        }
      }
    }
  }

  /** Each entry counts at least one sample, has a positive mean, and a std of 0 for one sample and non-negative otherwise. */
  lemma PairsOfStats(sqrt: real -> real, keys: seq<Key>, samples: map<Key, seq<real>>)
    requires IsSqrt(sqrt)
    requires forall k :: k in keys ==> k in samples && PositiveSamples(samples[k])
    ensures forall name :: name in PairsOf(sqrt, keys, samples) ==>
      var st := PairsOf(sqrt, keys, samples)[name];
      st.count >= 1 && st.meanMm > 0.0 && st.stdMm >= 0.0 && (st.count == 1 ==> st.stdMm == 0.0)
  {
    var pairs := PairsOf(sqrt, keys, samples);
    PairsOfEntries(sqrt, keys, samples);
    forall name | name in pairs
      ensures var st := pairs[name];
        st.count >= 1 && st.meanMm > 0.0 && st.stdMm >= 0.0 && (st.count == 1 ==> st.stdMm == 0.0)
    {
      var k :| k in keys && k.0 < k.1 && name == PairKey(k) && pairs[name] == StatsOf(sqrt, samples[k]);
      StatsProperties(sqrt, samples[k]);
    }
  }

  lemma StatsProperties(sqrt: real -> real, xs: seq<real>)
    requires IsSqrt(sqrt) && PositiveSamples(xs)
    ensures var st := StatsOf(sqrt, xs);
      st.count == |xs| && st.meanMm > 0.0 && st.stdMm >= 0.0 && (|xs| == 1 ==> st.stdMm == 0.0)
  {
    MeanBounds(xs, SmallestOf(xs), LargestOf(xs));
    if |xs| > 1 {
      var m := Mean(xs);
      var sq := seq(|xs|, i requires 0 <= i < |xs| => (xs[i] - m) * (xs[i] - m));
      forall i | 0 <= i < |sq| ensures 0.0 <= sq[i] <= LargestOf(sq) {
        SquarePositive(xs[i] - m);
      }
      MeanBounds(sq, 0.0, LargestOf(sq));
    }
  }

  // ----- module-level entry points

  /**
   * The matrix of calibrate_from_distance_matrix: np.array(distances[:n])[:, :n]. No rows leave a
   * one-dimensional array that the column slice rejects (IndexError); ragged rows are rejected by
   * np.array (ValueError).
   */
  function TruncateMatrix(distances: seq<seq<real>>, n: nat): (r: Result<seq<seq<real>>>)
  {
    var rows := distances[..if |distances| < n then |distances| else n];
    if |rows| == 0 then Err(IndexError)
    else if !Rectangular(rows) then Err(ValueError)
    else
      var cols := if |rows[0]| < n then |rows[0]| else n;
      Ok(seq(|rows|, i requires 0 <= i < |rows| => rows[i][..cols]))
  }

  predicate Rectangular(rows: seq<seq<real>>)
    requires |rows| > 0
  {
    forall i :: 0 <= i < |rows| ==> |rows[i]| == |rows[0]|
  }

  /** The truncated matrix is the top-left block of at most n x n entries of a rectangular input. */
  lemma TruncateMatrixBlock(distances: seq<seq<real>>, n: nat)
    requires TruncateMatrix(distances, n).Ok?
    ensures var m := TruncateMatrix(distances, n).value;
      && 0 < |m| <= n && |m| <= |distances|
      && (forall i :: 0 <= i < |m| ==> |m[i]| <= n && |m[i]| == |m[0]| && |m[i]| <= |distances[i]|)
      && (forall i, j :: 0 <= i < |m| && 0 <= j < |m[i]| ==> m[i][j] == distances[i][j])
      && (|distances| >= n && |distances[0]| >= n ==> |m| == n && |m[0]| == n)
  {
    var rows := distances[..if |distances| < n then |distances| else n];
    assert Rectangular(rows);
    assert forall i :: 0 <= i < |rows| ==> rows[i] == distances[i];
  }

  /** calibrate_from_distance_matrix: a fresh calibrator with the truncated matrix preset, then calibrate. */
  method CalibrateFromDistanceMatrix(distances: seq<seq<real>>, numAnchors: nat,
                                     mds: seq<seq<real>> -> Option<seq<(real, real)>>,
                                     rotate: seq<(real, real)> -> Option<seq<(real, real)>>)
      returns (r: Result<Option<seq<AnchorPosition>>>)
    ensures match TruncateMatrix(distances, numAnchors)
      case Err(e) => r == Err(e)
      case Ok(m) => r == Ok(CalibrationResult(m, numAnchors, mds, rotate))
  {
    var matrix := TruncateMatrix(distances, numAnchors);
    if matrix.Err? {
      return Err(matrix.error);
    }
    var calibrator := new Calibrator(numAnchors);
    calibrator.SetDistanceMatrix(matrix.value);
    r := calibrator.Calibrate(mds, rotate);
  }

  /**
   * calibrate_from_ranges: its loop over the range data records nothing, so the fresh calibrator
   * has no samples and calibrate, as written, finds nothing to embed: for two or more anchors the
   * build reports a missing pair, for one anchor the built 1x1 matrix holds 0 and `not` takes it as
   * a failure, and an empty matrix has no truth value the model represents.
   */
  method CalibrateFromRanges(rangesData: seq<seq<int>>, numAnchors: nat,
                             mds: seq<seq<real>> -> Option<seq<(real, real)>>,
                             rotate: seq<(real, real)> -> Option<seq<(real, real)>>)
      returns (r: Result<Option<seq<AnchorPosition>>>)
    ensures numAnchors >= 1 ==> r == Ok(None)
    ensures numAnchors == 0 ==> r == Err(Unsupported)
  {
    var calibrator := new Calibrator(numAnchors);
    r := calibrator.CalibrateAsWritten(mds, rotate);
    if numAnchors >= 2 {
      assert RawCell([], map[], numAnchors, 0, 1) == 0.0 && RawCell([], map[], numAnchors, 1, 0) == 0.0;
      assert MissingPair([], map[], numAnchors);
    } else if numAnchors == 1 {
      assert !MissingPair([], map[], 1);
      var m := BuiltMatrix([], map[], 1).value.value;
      assert m[0][0] == SymCell([], map[], 1, 0, 0);
    }
  }

  /**
   * The guard of calibrate as written rejects a complete build: two anchors measured once each way
   * give a matrix, and `not` on that 2x2 matrix raises ValueError.
   */
  lemma AsWrittenGuardRaises()
    ensures var keys, samples := [(0, 1), (1, 0)], map[(0, 1) := [1000.0], (1, 0) := [1000.0]];
      && WellFormed(keys, samples)
      && BuiltMatrix(keys, samples, 2).Ok? && BuiltMatrix(keys, samples, 2).value.Some?
      && NdarrayTruth(BuiltMatrix(keys, samples, 2).value.value) == Err(ValueError)
  {
    var keys: seq<Key> := [(0, 1), (1, 0)];
    var samples := map[(0, 1) := [1000.0], (1, 0) := [1000.0]];
    TwoAnchorsWellFormed(keys, samples);
    TwoAnchorsBuild(keys, samples);
    var m := BuiltMatrix(keys, samples, 2).value.value;
    NdarrayTruthAmbiguous(2, m);
  }

  lemma TwoAnchorsWellFormed(keys: seq<Key>, samples: map<Key, seq<real>>)
    requires keys == [(0, 1), (1, 0)] && samples == map[(0, 1) := [1000.0], (1, 0) := [1000.0]]
    ensures WellFormed(keys, samples)
  {
    assert PositiveSamples([1000.0]);
  }

  lemma TwoAnchorsBuild(keys: seq<Key>, samples: map<Key, seq<real>>)
    requires keys == [(0, 1), (1, 0)] && samples == map[(0, 1) := [1000.0], (1, 0) := [1000.0]]
    ensures BuiltMatrix(keys, samples, 2).Ok? && BuiltMatrix(keys, samples, 2).value.Some?
  {
    assert !AnyOutOfRange(keys, samples, 2) by {
      forall t | 0 <= t < |keys| ensures TargetOf(keys[t], SamplesOf(samples, keys[t]), 2) != OutOfRange {
      }
    }
    MedianOfEqual([1000.0], 1000.0);
    assert RawCell(keys, samples, 2, 0, 1) == 1000.0 by {
      assert keys[..1] == [(0, 1)];
      assert RawCell(keys, samples, 2, 0, 1) == RawCell(keys[..1], samples, 2, 0, 1);
    }
    assert !MissingPair(keys, samples, 2) by {
      forall i: nat, j: nat | i < j < 2 ensures RawCell(keys, samples, 2, i, j) != 0.0 {
        assert i == 0 && j == 1;
      }
    }
  }

  // ----- the calibrator

  class Calibrator {
    const numAnchors: nat
    var twrKeys: seq<Key>
    var twrDistances: map<Key, seq<real>>
    var distanceMatrix: Option<seq<seq<real>>>
    var calibratedPositions: Option<seq<AnchorPosition>>

    ghost predicate Valid()
      reads this`twrKeys, this`twrDistances
    {
      WellFormed(twrKeys, twrDistances)
    }

    constructor (numAnchors: nat)
      ensures Valid() && this.numAnchors == numAnchors
      ensures twrKeys == [] && twrDistances == map[] && distanceMatrix.None? && calibratedPositions.None?
    {
      this.numAnchors := numAnchors;
      twrKeys := [];
      twrDistances := map[];
      distanceMatrix := None;
      calibratedPositions := None;
    }

    /** reset: empty sample map, no matrix, no positions. */
    method Reset()
      modifies this
      ensures Valid()
      ensures twrKeys == [] && twrDistances == map[] && distanceMatrix.None? && calibratedPositions.None?
    {
      distanceMatrix := None;
      calibratedPositions := None;
      twrKeys := [];
      twrDistances := map[];
    }

    /**
     * add_distance_measurement: distances <= 0 are ignored; otherwise the sample is appended to the
     * lists of both (from, to) and (to, from) (twice to the one list when from == to), new keys
     * entering in that order. Nothing else changes.
     */
    method AddDistanceMeasurement(fromAnchor: int, toAnchor: int, distanceMm: real)
      requires Valid()
      modifies this`twrKeys, this`twrDistances
      ensures Valid()
      ensures distanceMatrix == old(distanceMatrix) && calibratedPositions == old(calibratedPositions)
      ensures distanceMm <= 0.0 ==> twrKeys == old(twrKeys) && twrDistances == old(twrDistances)
      ensures distanceMm > 0.0 && fromAnchor != toAnchor ==>
        var k1, k2 := (fromAnchor, toAnchor), (toAnchor, fromAnchor);
        && twrDistances == old(twrDistances)[k1 := SamplesOf(old(twrDistances), k1) + [distanceMm]]
                                            [k2 := SamplesOf(old(twrDistances), k2) + [distanceMm]]
        && twrKeys == if k1 in old(twrDistances) then old(twrKeys) else old(twrKeys) + [k1, k2]
      ensures distanceMm > 0.0 && fromAnchor == toAnchor ==>
        var k := (fromAnchor, toAnchor);
        && twrDistances == old(twrDistances)[k := SamplesOf(old(twrDistances), k) + [distanceMm, distanceMm]]
        && twrKeys == if k in old(twrDistances) then old(twrKeys) else old(twrKeys) + [k]
    {
      if distanceMm <= 0.0 {
        return;
      }
      var key1 := (fromAnchor, toAnchor);
      var key2 := (toAnchor, fromAnchor);
      if key1 !in twrDistances {
        twrDistances := twrDistances[key1 := []];
        twrKeys := twrKeys + [key1];
      }
      if key2 !in twrDistances {
        twrDistances := twrDistances[key2 := []];
        twrKeys := twrKeys + [key2];
      }
      ghost var before := SamplesOf(old(twrDistances), key1);
      twrDistances := twrDistances[key1 := twrDistances[key1] + [distanceMm]];
      twrDistances := twrDistances[key2 := twrDistances[key2] + [distanceMm]];
      if fromAnchor == toAnchor {
        assert twrDistances[key1] == before + [distanceMm] + [distanceMm];
        assert before + [distanceMm] + [distanceMm] == before + [distanceMm, distanceMm];
        assert twrDistances == old(twrDistances)[key1 := before + [distanceMm, distanceMm]];
      }
      assert WellFormed(twrKeys, twrDistances) by {
        AddKeepsWellFormed(old(twrKeys), old(twrDistances), fromAnchor, toAnchor, distanceMm, twrKeys, twrDistances);
      }
    }

    /** set_distance_matrix: the matrix is stored as given; nothing else changes. */
    method SetDistanceMatrix(matrix: seq<seq<real>>)
      modifies this`distanceMatrix
      ensures distanceMatrix == Some(matrix)
      ensures twrKeys == old(twrKeys) && twrDistances == old(twrDistances) && calibratedPositions == old(calibratedPositions)
    {
      distanceMatrix := Some(matrix);
    }

    /**
     * build_distance_matrix: the medians are written key by key in insertion order, then every pair
     * i < j is checked and its zero side filled from the other. The result is BuiltMatrix of the
     * samples; only a successful build is stored.
     */
    method BuildDistanceMatrix() returns (r: Result<Option<seq<seq<real>>>>)
      requires Valid()
      modifies this`distanceMatrix
      ensures Valid()
      ensures r == BuiltMatrix(twrKeys, twrDistances, numAnchors)
      ensures twrKeys == old(twrKeys) && twrDistances == old(twrDistances) && calibratedPositions == old(calibratedPositions)
      ensures distanceMatrix == if r.Ok? && r.value.Some? then Some(r.value.value) else old(distanceMatrix)
    {
      r := BuildMatrix(twrKeys, twrDistances, numAnchors);
      if r.Ok? && r.value.Some? {
        distanceMatrix := Some(r.value.value);
      }
    }

    /**
     * calibrate as written: without a stored matrix one is built, and the built NumPy matrix is
     * then tested with `not`, which is ambiguous for two or more anchors and raises ValueError
     * outside the try block; a 1x1 matrix counts as failed when its one cell is zero.
     */
    method CalibrateAsWritten(mds: seq<seq<real>> -> Option<seq<(real, real)>>,
                              rotate: seq<(real, real)> -> Option<seq<(real, real)>>)
        returns (r: Result<Option<seq<AnchorPosition>>>)
      requires Valid()
      modifies this`distanceMatrix, this`calibratedPositions
      ensures Valid() && twrKeys == old(twrKeys) && twrDistances == old(twrDistances)
      ensures old(distanceMatrix).Some? ==> r == Ok(CalibrationResult(old(distanceMatrix).value, numAnchors, mds, rotate))
      ensures old(distanceMatrix).None? ==>
        match BuiltMatrix(twrKeys, twrDistances, numAnchors)
        case Err(e) => r == Err(e)
        case Ok(None) => r == Ok(None)
        case Ok(Some(m)) =>
          match NdarrayTruth(m)
          case Err(e) => r == Err(e)
          case Ok(truth) => r == if truth then Ok(CalibrationResult(m, numAnchors, mds, rotate)) else Ok(None)
      ensures old(distanceMatrix).Some? ==>
        distanceMatrix == old(distanceMatrix)
        && calibratedPositions == StoredPositions(old(distanceMatrix).value, numAnchors, mds, rotate, old(calibratedPositions))
      ensures old(distanceMatrix).None? ==>
        match BuiltMatrix(twrKeys, twrDistances, numAnchors)
        case Ok(Some(m)) =>
          && distanceMatrix == Some(m)
          && calibratedPositions == if NdarrayTruth(m) == Ok(true) then StoredPositions(m, numAnchors, mds, rotate, old(calibratedPositions))
                                    else old(calibratedPositions)
        case _ => distanceMatrix == old(distanceMatrix) && calibratedPositions == old(calibratedPositions)
    {
      if distanceMatrix.None? {
        var built := BuildDistanceMatrix();
        if built.Err? {
          return Err(built.error);
        }
        if built.value.None? {
          return Ok(None);
        }
        var truth := NdarrayTruth(built.value.value);
        if truth.Err? {
          return Err(truth.error);
        }
        if !truth.value {
          return Ok(None);
        }
      }
      r := EmbedAndStore(mds, rotate);
    }

    /**
     * calibrate with the evident intent of its guard: a stored matrix is reused; otherwise one is
     * built, None when building finds a missing pair, IndexError when a key is below -n.
     */
    method Calibrate(mds: seq<seq<real>> -> Option<seq<(real, real)>>,
                     rotate: seq<(real, real)> -> Option<seq<(real, real)>>)
        returns (r: Result<Option<seq<AnchorPosition>>>)
      requires Valid()
      modifies this`distanceMatrix, this`calibratedPositions
      ensures Valid() && twrKeys == old(twrKeys) && twrDistances == old(twrDistances)
      ensures old(distanceMatrix).Some? ==> r == Ok(CalibrationResult(old(distanceMatrix).value, numAnchors, mds, rotate))
      ensures old(distanceMatrix).None? ==>
        match BuiltMatrix(twrKeys, twrDistances, numAnchors)
        case Err(e) => r == Err(e)
        case Ok(None) => r == Ok(None)
        case Ok(Some(m)) => r == Ok(CalibrationResult(m, numAnchors, mds, rotate))
      ensures old(distanceMatrix).Some? ==>
        distanceMatrix == old(distanceMatrix)
        && calibratedPositions == StoredPositions(old(distanceMatrix).value, numAnchors, mds, rotate, old(calibratedPositions))
      ensures old(distanceMatrix).None? ==>
        match BuiltMatrix(twrKeys, twrDistances, numAnchors)
        case Ok(Some(m)) =>
          distanceMatrix == Some(m) && calibratedPositions == StoredPositions(m, numAnchors, mds, rotate, old(calibratedPositions))
        case _ => distanceMatrix == old(distanceMatrix) && calibratedPositions == old(calibratedPositions)
    {
      if distanceMatrix.None? {
        var built := BuildDistanceMatrix();
        if built.Err? {
          return Err(built.error);
        }
        if built.value.None? {
          return Ok(None);
        }
      }
      r := EmbedAndStore(mds, rotate);
    }

    /**
     * The try block of calibrate: embed the stored matrix and append one position per anchor; an
     * embedding with too few rows raises IndexError inside the loop, leaving the positions appended so far.
     */
    method EmbedAndStore(mds: seq<seq<real>> -> Option<seq<(real, real)>>,
                         rotate: seq<(real, real)> -> Option<seq<(real, real)>>)
        returns (r: Result<Option<seq<AnchorPosition>>>)
      requires distanceMatrix.Some?
      modifies this`calibratedPositions
      ensures r == Ok(CalibrationResult(old(distanceMatrix).value, numAnchors, mds, rotate))
      ensures twrKeys == old(twrKeys) && twrDistances == old(twrDistances) && distanceMatrix == old(distanceMatrix)
      ensures var c := Embedding(old(distanceMatrix).value, mds, rotate);
        calibratedPositions == if c.None? then old(calibratedPositions)
                               else Some(PositionsOf(c.value[..if |c.value| < numAnchors then |c.value| else numAnchors]))
      ensures calibratedPositions == StoredPositions(old(distanceMatrix).value, numAnchors, mds, rotate, old(calibratedPositions))
    {
      var coords := Embedding(distanceMatrix.value, mds, rotate);
      if coords.None? {
        return Ok(None);
      }
      var c := coords.value;
      calibratedPositions := Some([]);
      var i := 0;
      while i < numAnchors
        invariant 0 <= i <= numAnchors && i <= |c|
        invariant calibratedPositions == Some(PositionsOf(c[..i]))
        invariant twrKeys == old(twrKeys) && twrDistances == old(twrDistances) && distanceMatrix == old(distanceMatrix)
      {
        if i >= |c| {
          return Ok(None);
        }
        assert PositionsOf(c[..i + 1]) == PositionsOf(c[..i]) + [AnchorPosition(i, c[i].0, c[i].1, 0.0)];
        calibratedPositions := Some(calibratedPositions.value + [AnchorPosition(i, c[i].0, c[i].1, 0.0)]);
        i := i + 1;
      }
      return Ok(calibratedPositions);
    }

    /** get_distance_info: one entry per key with i < j, keyed "A{i}-A{j}"; num_pairs counts the directed keys. */
    method GetDistanceInfo(sqrt: real -> real) returns (info: DistanceInfo)
      requires Valid()
      ensures info == DistanceInfoOf(sqrt, twrKeys, twrDistances)
    {
      var pairs: map<string, PairStats> := map[];
      var k := 0;
      while k < |twrKeys|
        invariant 0 <= k <= |twrKeys|
        invariant pairs == PairsOf(sqrt, twrKeys[..k], twrDistances)
      {
        var key := twrKeys[k];
        assert twrKeys[..k + 1][..k] == twrKeys[..k];
        if key.0 < key.1 {
          pairs := pairs[PairKey(key) := StatsOf(sqrt, twrDistances[key])];
        }
        k := k + 1;
      }
      assert twrKeys[..k] == twrKeys;
      return DistanceInfo(|twrKeys|, pairs);
    }

    /** get_positions. */
    function GetPositions(): (r: Option<seq<AnchorPosition>>)
      reads this
      ensures r == calibratedPositions
    {
      calibratedPositions
    }
  }

  lemma AddKeepsWellFormed(keys: seq<Key>, samples: map<Key, seq<real>>, fromAnchor: int, toAnchor: int, d: real,
                           keys': seq<Key>, samples': map<Key, seq<real>>)
    requires WellFormed(keys, samples) && d > 0.0
    requires var k1, k2 := (fromAnchor, toAnchor), (toAnchor, fromAnchor);
      if fromAnchor != toAnchor then
        && samples' == samples[k1 := SamplesOf(samples, k1) + [d]][k2 := SamplesOf(samples, k2) + [d]]
        && keys' == if k1 in samples then keys else keys + [k1, k2]
      else
        && samples' == samples[k1 := SamplesOf(samples, k1) + [d, d]]
        && keys' == if k1 in samples then keys else keys + [k1]
    ensures WellFormed(keys', samples')
  {
    if fromAnchor != toAnchor {
      AddPairKeepsWellFormed(keys, samples, fromAnchor, toAnchor, d, keys', samples');
    } else {
      AddSelfKeepsWellFormed(keys, samples, (fromAnchor, toAnchor), d, keys', samples');
    }
  }

  /** Appending positive samples to an empty or positive list keeps it positive. */
  lemma AppendPositive(s: seq<real>, extra: seq<real>)
    requires (s == [] || PositiveSamples(s)) && PositiveSamples(extra)
    ensures PositiveSamples(s + extra)
  {
    forall t | 0 <= t < |s + extra| ensures (s + extra)[t] > 0.0 {
      if t < |s| {
        assert (s + extra)[t] == s[t];
      } else {
        assert (s + extra)[t] == extra[t - |s|];
      }
    }
  }

  /** A sample for two distinct anchors goes to both directions of the pair. */
  lemma AddPairKeepsWellFormed(keys: seq<Key>, samples: map<Key, seq<real>>, a: int, b: int, d: real,
                               keys': seq<Key>, samples': map<Key, seq<real>>)
    requires WellFormed(keys, samples) && d > 0.0 && a != b
    requires samples' == samples[(a, b) := SamplesOf(samples, (a, b)) + [d]][(b, a) := SamplesOf(samples, (b, a)) + [d]]
    requires keys' == if (a, b) in samples then keys else keys + [(a, b), (b, a)]
    ensures WellFormed(keys', samples')
  {
    var k1, k2 := (a, b), (b, a);
    assert k1 in samples ==> k2 in samples;
    assert k2 in samples ==> k1 in samples;
    assert SamplesOf(samples, k1) == SamplesOf(samples, k2);
    AppendPositive(SamplesOf(samples, k1), [d]);
    assert DistinctKeys(keys') by {
      if k1 !in samples {
        assert k1 !in keys && k2 !in keys;
      }
    }
    assert forall k :: k in keys' <==> k in samples';
    forall k | k in samples' ensures PositiveSamples(samples'[k]) {
      if k != k1 && k != k2 {
        assert samples'[k] == samples[k];
      }
    }
    forall i, j | (i, j) in samples' ensures (j, i) in samples' && samples'[(j, i)] == samples'[(i, j)] {
      if (i, j) != k1 && (i, j) != k2 {
        assert (j, i) != k1 && (j, i) != k2;
        assert samples'[(i, j)] == samples[(i, j)] && samples'[(j, i)] == samples[(j, i)];
      }
    }
  }

  /** A sample for one anchor with itself goes twice to its list. */
  lemma AddSelfKeepsWellFormed(keys: seq<Key>, samples: map<Key, seq<real>>, k: Key, d: real,
                               keys': seq<Key>, samples': map<Key, seq<real>>)
    requires WellFormed(keys, samples) && d > 0.0 && k == (k.1, k.0)
    requires samples' == samples[k := SamplesOf(samples, k) + [d, d]]
    requires keys' == if k in samples then keys else keys + [k]
    ensures WellFormed(keys', samples')
  {
    AppendPositive(SamplesOf(samples, k), [d, d]);
    assert DistinctKeys(keys') by {
      if k !in samples {
        assert k !in keys;
      }
    }
    assert forall k :: k in keys' <==> k in samples';
  }
}
