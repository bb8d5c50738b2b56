/**
 * The QR relief: the error-correction key lookup, the row-run merge that
 * turns the module matrix into rectangles, the module-size and version
 * arithmetic, the emboss/deboss transform and the final fuse or cut.
 *
 * The module matrix is an input (encoding it is the `qrcode` package's
 * job); the kernel's compound extrusion and `transformShape` are
 * parameters; `normalize()` is a positive rescaling as in the logo deboss.
 */
module QrEmboss {
  import opened Wrappers
  import opened Vectors
  import opened Shapes
  import LogoDeboss

  // ---------------------------------------------------------------------
  // Error-correction key
  // ---------------------------------------------------------------------

  datatype EcLevel = Low | Medium | Quartile | High

  function EcLabel(level: EcLevel): string
  {
    match level
    case Low => "L"
    case Medium => "M"
    case Quartile => "Q"
    case High => "H"
  }

  /** The level named by `key`, or medium for any other key. */
  function ErrorCorrection(key: string): (level: EcLevel)
    ensures key !in {"L", "M", "Q", "H"} ==> level == Medium
  {
    if key == "L" then Low
    else if key == "Q" then Quartile
    else if key == "H" then High
    else Medium
  }

  /** Each level's own label selects it. */
  lemma ErrorCorrectionOfLabel(level: EcLevel)
    ensures ErrorCorrection(EcLabel(level)) == level
  {
  }

  // ---------------------------------------------------------------------
  // Row runs
  // ---------------------------------------------------------------------

  /** The module matrix is square: the merge indexes every row up to the row count. */
  predicate IsSquare(m: seq<seq<bool>>)
  {
    forall r :: 0 <= r < |m| ==> |m[r]| == |m|
  }

  /** Dark modules `start .. end - 1` of one row. */
  datatype Run = Run(row: nat, start: nat, end: nat)

  /** The run lies in the matrix, is nonempty and covers dark modules only. */
  predicate IsDarkRun(m: seq<seq<bool>>, run: Run)
    requires IsSquare(m)
  {
    run.row < |m| && run.start < run.end <= |m|
    && forall c :: run.start <= c < run.end ==> m[run.row][c]
  }

  /** The modules just before and just after the run are light or outside the row. */
  predicate IsMaximal(m: seq<seq<bool>>, run: Run)
    requires IsSquare(m) && IsDarkRun(m, run)
  {
    (run.start == 0 || !m[run.row][run.start - 1]) && (run.end == |m| || !m[run.row][run.end])
  }

  predicate InRun(run: Run, row: int, col: int)
  {
    run.row == row && run.start <= col < run.end
  }

  /** Some run of the list covers module (row, col). */
  predicate Covers(runs: seq<Run>, row: int, col: int)
  {
    runs != [] && (InRun(runs[|runs| - 1], row, col) || Covers(runs[..|runs| - 1], row, col))
  }

  /** Row-major, left-to-right order with a gap between runs of the same row. */
  predicate Before(a: Run, b: Run)
  {
    a.row < b.row || (a.row == b.row && a.end < b.start)
  }

  /**
   * The runs are the maximal horizontal runs of dark modules, in row-major
   * order, and together they cover exactly the dark modules.
   */
  predicate IsRunDecomposition(m: seq<seq<bool>>, runs: seq<Run>)
  {
    IsSquare(m)
    && (forall i :: 0 <= i < |runs| ==> IsDarkRun(m, runs[i]) && IsMaximal(m, runs[i]))
    && (forall i, j :: 0 <= i < j < |runs| ==> Before(runs[i], runs[j]))
    && (forall r, c :: 0 <= r < |m| && 0 <= c < |m| ==> (m[r][c] <==> Covers(runs, r, c)))
  }

  function CountDark(row: seq<bool>): nat
  {
    if row == [] then 0 else CountDark(row[..|row| - 1]) + (if row[|row| - 1] then 1 else 0)
  }

  function CountDarkRows(m: seq<seq<bool>>): nat
  {
    if m == [] then 0 else CountDarkRows(m[..|m| - 1]) + CountDark(m[|m| - 1])
  }

  predicate HasDark(m: seq<seq<bool>>)
  {
    exists r, c :: 0 <= r < |m| && 0 <= c < |m[r]| && m[r][c]
  }

  lemma CoversAppend(runs: seq<Run>, run: Run, row: int, col: int)
    ensures Covers(runs + [run], row, col) <==> Covers(runs, row, col) || InRun(run, row, col)
  {
    assert (runs + [run])[..|runs|] == runs;
  }

  /** A covered module lies in some run of the list. */
  lemma {:induction false} CoveredByRun(runs: seq<Run>, row: int, col: int) returns (i: nat)
    requires Covers(runs, row, col)
    ensures i < |runs| && InRun(runs[i], row, col)
  {
    if InRun(runs[|runs| - 1], row, col) {
      i := |runs| - 1;
    } else {
      i := CoveredByRun(runs[..|runs| - 1], row, col);
    }
  }

  /** A module inside some run of the list is covered. */
  lemma {:induction false} RunCovers(runs: seq<Run>, i: nat, row: int, col: int)
    requires i < |runs| && InRun(runs[i], row, col)
    ensures Covers(runs, row, col)
  {
    if i < |runs| - 1 {
      RunCovers(runs[..|runs| - 1], i, row, col);
    }
  }

  /** Ordering neighbours is enough: `Before` chains through nonempty runs. */
  lemma {:induction false} OrderedPairwise(runs: seq<Run>)
    requires forall i :: 0 <= i < |runs| ==> runs[i].start < runs[i].end
    requires forall i :: 0 < i < |runs| ==> Before(runs[i - 1], runs[i])
    ensures forall i, j :: 0 <= i < j < |runs| ==> Before(runs[i], runs[j])
  {
    forall i, j | 0 <= i < j < |runs|
      ensures Before(runs[i], runs[j])
    {
      var k := i + 1;
      while k < j
        invariant i < k <= j
        invariant Before(runs[i], runs[k])
      {
        k := k + 1;
      }
    }
  }

  lemma CountDarkStep(row: seq<bool>, col: nat)
    requires col < |row|
    ensures CountDark(row[..col + 1]) == CountDark(row[..col]) + (if row[col] then 1 else 0)
  {
    assert row[..col + 1][..col] == row[..col];
  }

  /** Dark modules from `start` on, up to the first light one or the end of the row. */
  method ScanRun(m: seq<seq<bool>>, row: nat, start: nat) returns (end: nat)
    requires IsSquare(m) && row < |m| && start < |m| && m[row][start]
    ensures start < end <= |m| && (end == |m| || !m[row][end])
    ensures forall c :: start <= c < end ==> m[row][c]
    ensures CountDark(m[row][..end]) >= CountDark(m[row][..start]) + 1
  {
    var n := |m|;
    CountDarkStep(m[row], start);
    end := start + 1;
    while end < n && m[row][end]
      invariant start < end <= n
      invariant forall c :: start <= c < end ==> m[row][c]
      invariant CountDark(m[row][..end]) >= CountDark(m[row][..start]) + 1
      decreases n - end
    {
      CountDarkStep(m[row], end);
      end := end + 1;
    }
  }

  /** Runs of other rows do not change whether a module of this row is covered. */
  lemma {:induction false} CoversOtherRows(runs: seq<Run>, extra: seq<Run>, row: int, r: int, c: int)
    requires forall i :: 0 <= i < |extra| ==> extra[i].row == row
    requires r != row
    ensures Covers(runs + extra, r, c) <==> Covers(runs, r, c)
    decreases |extra|
  {
    if extra != [] {
      var e := extra[..|extra| - 1];
      assert runs + extra == (runs + e) + [extra[|extra| - 1]];
      CoversAppend(runs + e, extra[|extra| - 1], r, c);
      CoversOtherRows(runs, e, row, r, c);
    } else {
      assert runs + extra == runs;
    }
  }

  /** Every run is dark, maximal and in a row before `rowBound`. */
  predicate RunsBelow(m: seq<seq<bool>>, runs: seq<Run>, rowBound: int)
    requires IsSquare(m)
  {
    forall i :: 0 <= i < |runs| ==> IsDarkRun(m, runs[i]) && IsMaximal(m, runs[i]) && runs[i].row < rowBound
  }

  predicate Ordered(runs: seq<Run>)
  {
    forall i :: 0 < i < |runs| ==> Before(runs[i - 1], runs[i])
  }

  /** The state of the scan of row `row` when it has reached column `col`. */
  predicate RowScanned(m: seq<seq<bool>>, row: nat, runs0: seq<Run>, runs: seq<Run>, col: nat)
    requires IsSquare(m) && row < |m|
  {
    col <= |m|
    && |runs0| <= |runs| && runs[..|runs0|] == runs0
    && (forall i :: |runs0| <= i < |runs| ==> runs[i].row == row && runs[i].end <= col)
    && RunsBelow(m, runs, row + 1) && Ordered(runs)
    && (|runs| > |runs0| && runs[|runs| - 1].end == col ==> col == |m| || !m[row][col])
    && (col == 0 || col == |m| || !m[row][col - 1] || !m[row][col])
    && (forall c :: 0 <= c < col ==> (m[row][c] <==> Covers(runs, row, c)))
    && (forall c :: col <= c < |m| ==> !Covers(runs, row, c))
    && |runs| - |runs0| <= CountDark(m[row][..col])
  }

  lemma RowScanStart(m: seq<seq<bool>>, row: nat, runs0: seq<Run>)
    requires IsSquare(m) && row < |m| && RunsBelow(m, runs0, row) && Ordered(runs0)
    ensures RowScanned(m, row, runs0, runs0, 0)
  {
    forall c | 0 <= c < |m|
      ensures !Covers(runs0, row, c)
    {
      if Covers(runs0, row, c) {
        var i := CoveredByRun(runs0, row, c);
      }
    }
  }

  /** Stepping over a light module. */
  lemma RowScanLight(m: seq<seq<bool>>, row: nat, runs0: seq<Run>, runs: seq<Run>, col: nat)
    requires IsSquare(m) && row < |m| && col < |m| && !m[row][col]
    requires RowScanned(m, row, runs0, runs, col)
    ensures RowScanned(m, row, runs0, runs, col + 1)
  {
    CountDarkStep(m[row], col);
  }

  /** Appending the maximal run `start .. end - 1` found at the scan position. */
  lemma RowScanRun(m: seq<seq<bool>>, row: nat, runs0: seq<Run>, runs: seq<Run>, start: nat, end: nat)
    requires IsSquare(m) && row < |m| && start < |m| && m[row][start]
    requires RunsBelow(m, runs0, row) && RowScanned(m, row, runs0, runs, start)
    requires start < end <= |m| && (end == |m| || !m[row][end])
    requires forall c :: start <= c < end ==> m[row][c]
    requires CountDark(m[row][..end]) >= CountDark(m[row][..start]) + 1
    ensures RowScanned(m, row, runs0, runs + [Run(row, start, end)], end)
  {
    AppendedRunOrdered(m, row, runs0, runs, start, end);
    AppendedRunCovers(m, row, runs0, runs, start, end);
  }

  /** The appended run keeps the runs dark, maximal, in rows up to `row` and in scan order. */
  lemma AppendedRunOrdered(m: seq<seq<bool>>, row: nat, runs0: seq<Run>, runs: seq<Run>, start: nat, end: nat)
    requires IsSquare(m) && row < |m| && start < |m| && m[row][start]
    requires RunsBelow(m, runs0, row) && RowScanned(m, row, runs0, runs, start)
    requires start < end <= |m| && (end == |m| || !m[row][end])
    requires forall c :: start <= c < end ==> m[row][c]
    ensures var runs' := runs + [Run(row, start, end)];
      |runs0| <= |runs'| && runs'[..|runs0|] == runs0
      && (forall i :: |runs0| <= i < |runs'| ==> runs'[i].row == row && runs'[i].end <= end)
      && RunsBelow(m, runs', row + 1) && Ordered(runs')
  {
    var run := Run(row, start, end);
    var runs' := runs + [run];
    assert IsDarkRun(m, run) && IsMaximal(m, run);
    assert runs'[..|runs0|] == runs0;
    assert RunsBelow(m, runs', row + 1);
    if |runs| > |runs0| {
      assert Before(runs[|runs| - 1], run);
    } else if |runs| > 0 {
      assert runs[|runs| - 1] == runs0[|runs0| - 1];
    }
  }

  /** After the appended run, the scanned part of the row is covered exactly where it is dark. */
  lemma AppendedRunCovers(m: seq<seq<bool>>, row: nat, runs0: seq<Run>, runs: seq<Run>, start: nat, end: nat)
    requires IsSquare(m) && row < |m| && start < |m|
    requires RowScanned(m, row, runs0, runs, start)
    requires start < end <= |m|
    requires forall c :: start <= c < end ==> m[row][c]
    ensures forall c :: 0 <= c < end ==> (m[row][c] <==> Covers(runs + [Run(row, start, end)], row, c))
    ensures forall c :: end <= c < |m| ==> !Covers(runs + [Run(row, start, end)], row, c)
  {
    var run := Run(row, start, end);
    forall c | 0 <= c < |m|
      ensures Covers(runs + [run], row, c) <==> Covers(runs, row, c) || InRun(run, row, c)
    {
      CoversAppend(runs, run, row, c);
    }
  }

  /**
   * The inner `while col < n` loop of `_create_qr_solid` for one row: it
   * appends the maximal dark runs of that row, left to right.
   */
  method MergeRow(m: seq<seq<bool>>, row: nat, runs0: seq<Run>) returns (runs: seq<Run>)
    requires IsSquare(m) && row < |m|
    requires RunsBelow(m, runs0, row) && Ordered(runs0)
    ensures |runs0| <= |runs| && runs[..|runs0|] == runs0
    ensures forall i :: |runs0| <= i < |runs| ==> runs[i].row == row
    ensures RunsBelow(m, runs, row + 1) && Ordered(runs)
    ensures forall c :: 0 <= c < |m| ==> (m[row][c] <==> Covers(runs, row, c))
    ensures |runs| - |runs0| <= CountDark(m[row])
  {
    var n := |m|;
    runs := runs0;
    RowScanStart(m, row, runs0);
    var col := 0;
    while col < n
      invariant RowScanned(m, row, runs0, runs, col)
      decreases n - col
    {
      if m[row][col] {
        var start := col;
        col := ScanRun(m, row, start);
        RowScanRun(m, row, runs0, runs, start, col);
        runs := runs + [Run(row, start, col)];
      } else {
        RowScanLight(m, row, runs0, runs, col);
        col := col + 1;
      }
    }
    assert m[row][..col] == m[row];
  }

  /** Rows before `row` are covered exactly where they are dark. */
  predicate RowsCovered(m: seq<seq<bool>>, runs: seq<Run>, row: int)
    requires IsSquare(m)
  {
    forall r, c :: 0 <= r < row && r < |m| && 0 <= c < |m| ==> (m[r][c] <==> Covers(runs, r, c))
  }

  lemma {:induction false} MergeRowCovers(m: seq<seq<bool>>, row: nat, runs: seq<Run>, runs': seq<Run>)
    requires IsSquare(m) && row < |m| && RowsCovered(m, runs, row)
    requires |runs| <= |runs'| && runs'[..|runs|] == runs
    requires forall i :: |runs| <= i < |runs'| ==> runs'[i].row == row
    requires forall c :: 0 <= c < |m| ==> (m[row][c] <==> Covers(runs', row, c))
    ensures RowsCovered(m, runs', row + 1)
  {
    assert runs' == runs + runs'[|runs|..];
    forall r, c | 0 <= r < row && 0 <= c < |m|
      ensures Covers(runs', r, c) <==> Covers(runs, r, c)
    {
      CoversOtherRows(runs, runs'[|runs|..], row, r, c);
    }
  }

  /**
   * The nested loops of `_create_qr_solid` that merge consecutive dark
   * modules of each row into runs. `col` grows on every pass, so both
   * loops end; there are never more runs than dark modules.
   */
  method MergeRuns(m: seq<seq<bool>>) returns (runs: seq<Run>)
    requires IsSquare(m)
    ensures IsRunDecomposition(m, runs)
    ensures |runs| <= CountDarkRows(m)
    ensures runs == [] <==> !HasDark(m)
  {
    var n := |m|;
    runs := [];
    for row := 0 to n
      invariant RunsBelow(m, runs, row) && Ordered(runs)
      invariant RowsCovered(m, runs, row)
      invariant |runs| <= CountDarkRows(m[..row])
    {
      var runs' := MergeRow(m, row, runs);
      MergeRowCovers(m, row, runs, runs');
      assert m[..row + 1][..row] == m[..row];
      runs := runs';
    }
    assert m[..n] == m;
    MergedRunsDecompose(m, runs);
  }

  /** What the merge loop establishes makes a decomposition, empty exactly when no module is dark. */
  lemma MergedRunsDecompose(m: seq<seq<bool>>, runs: seq<Run>)
    requires IsSquare(m)
    requires RunsBelow(m, runs, |m|) && Ordered(runs) && RowsCovered(m, runs, |m|)
    ensures IsRunDecomposition(m, runs)
    ensures runs == [] <==> !HasDark(m)
  {
    OrderedPairwise(runs);
    EmptyIffNoDark(m, runs);
  }

  /** A decomposition is empty exactly when no module is dark. */
  lemma EmptyIffNoDark(m: seq<seq<bool>>, runs: seq<Run>)
    requires IsRunDecomposition(m, runs)
    ensures runs == [] <==> !HasDark(m)
  {
    if runs != [] {
      assert m[runs[0].row][runs[0].start];
    }
    if HasDark(m) {
      var r, c :| 0 <= r < |m| && 0 <= c < |m[r]| && m[r][c];
      assert Covers(runs, r, c);
    }
  }

  /** Two dark maximal runs that share a module are the same run. */
  lemma MaximalRunsMeet(m: seq<seq<bool>>, a: Run, b: Run, col: int)
    requires IsSquare(m) && IsDarkRun(m, a) && IsMaximal(m, a) && IsDarkRun(m, b) && IsMaximal(m, b)
    requires InRun(a, b.row, col) && InRun(b, b.row, col)
    ensures a == b
  {
  }

  /**
   * The decomposition of a matrix into runs is unique: whatever produced it,
   * it is the list the merge computes.
   */
  lemma {:induction false} RunDecompositionUnique(m: seq<seq<bool>>, a: seq<Run>, b: seq<Run>)
    requires IsRunDecomposition(m, a) && IsRunDecomposition(m, b)
    ensures a == b
    decreases |a| + |b|
  {
    EmptyIffNoDark(m, a);
    EmptyIffNoDark(m, b);
    if a != [] {
      var x := a[|a| - 1];
      LastRunsAgree(m, a, b);
      DropLast(m, a);
      DropLast(m, b);
      RunDecompositionUnique(DropLastMatrix(m, x), a[..|a| - 1], b[..|b| - 1]);
      assert a == a[..|a| - 1] + [x];
      assert b == b[..|b| - 1] + [x];
    }
  }

  /** Two decompositions end with the same run. */
  lemma LastRunsAgree(m: seq<seq<bool>>, a: seq<Run>, b: seq<Run>)
    requires IsRunDecomposition(m, a) && IsRunDecomposition(m, b) && a != [] && b != []
    ensures a[|a| - 1] == b[|b| - 1]
  {
    var x, y := a[|a| - 1], b[|b| - 1];
    var j := SameRunIn(m, a, b, |a| - 1);
    var i := SameRunIn(m, b, a, |b| - 1);
  }

  /** Run `a[k]` of one decomposition appears in the other at some index. */
  lemma SameRunIn(m: seq<seq<bool>>, a: seq<Run>, b: seq<Run>, k: nat) returns (j: nat)
    requires IsRunDecomposition(m, a) && IsRunDecomposition(m, b) && k < |a|
    ensures j < |b| && b[j] == a[k]
  {
    var x := a[k];
    assert m[x.row][x.start];
    j := CoveredByRun(b, x.row, x.start);
    MaximalRunsMeet(m, b[j], x, x.start);
  }

  /** The matrix with the modules of `run` made light. */
  function DropLastMatrix(m: seq<seq<bool>>, run: Run): (m': seq<seq<bool>>)
    ensures |m'| == |m|
    ensures forall r :: 0 <= r < |m| ==> |m'[r]| == |m[r]|
  {
    seq(|m|, r requires 0 <= r < |m| =>
      seq(|m[r]|, c requires 0 <= c < |m[r]| => m[r][c] && !InRun(run, r, c)))
  }

  /** Removing the last run from a decomposition decomposes the matrix with that run made light. */
  lemma {:induction false} DropLast(m: seq<seq<bool>>, a: seq<Run>)
    requires IsRunDecomposition(m, a) && a != []
    ensures IsRunDecomposition(DropLastMatrix(m, a[|a| - 1]), a[..|a| - 1])
  {
    var x := a[|a| - 1];
    var m' := DropLastMatrix(m, x);
    var a' := a[..|a| - 1];
    forall i | 0 <= i < |a'|
      ensures IsDarkRun(m', a'[i]) && IsMaximal(m', a'[i])
    {
      assert Before(a'[i], x);
    }
    forall r, c | 0 <= r < |m'| && 0 <= c < |m'|
      ensures m'[r][c] <==> Covers(a', r, c)
    {
      assert Covers(a, r, c) <==> Covers(a', r, c) || InRun(x, r, c);
      if InRun(x, r, c) && Covers(a', r, c) {
        var i := CoveredByRun(a', r, c);
        assert Before(a'[i], x);
      }
    }
  }

  // ---------------------------------------------------------------------
  // Rectangles and the solid
  // ---------------------------------------------------------------------

  /** An axis-aligned rectangle of the local XY plane, `(x1, y1)` to `(x2, y2)`. */
  datatype Rect = Rect(x1: real, y1: real, x2: real, y2: real)

  /** The side of one module: the code's side divided by the module count. */
  function ModuleSize(size: real, n: nat): (ms: real)
    requires n > 0
    ensures size > 0.0 ==> ms > 0.0
    ensures size >= 0.0 ==> ms >= 0.0
  {
    size / (n as real)
  }

  /** `n` modules of the module size fill the side exactly. */
  lemma ModuleSizeFills(size: real, n: nat)
    requires n > 0
    ensures (n as real) * ModuleSize(size, n) == size
  {
  }

  /**
   * The rectangle of a run, with the code centred on the origin and row 0
   * at the top (local +Y up).
   */
  function RunRect(run: Run, n: nat, size: real): Rect
    requires n > 0
  {
    var ms := ModuleSize(size, n);
    var half := size / 2.0;
    Rect(-half + (run.start as real) * ms, half - ((run.row + 1) as real) * ms,
         -half + (run.end as real) * ms, half - (run.row as real) * ms)
  }

  /** A fraction `k / n` of the side, for `0 <= k <= n`, lies within the side. */
  lemma WithinSide(k: nat, n: nat, size: real)
    requires 0 < n && k <= n && size >= 0.0
    ensures 0.0 <= (k as real) * ModuleSize(size, n) <= size
  {
    var ms := ModuleSize(size, n);
    ModuleSizeFills(size, n);
    assert ((n - k) as real) * ms >= 0.0;
    assert ((n - k) as real) * ms == (n as real) * ms - (k as real) * ms;
  }

  /**
   * Module counts `a < b <= n` scaled by the module size of a positive side
   * give offsets `0 <= a * ms < b * ms <= size`.
   */
  lemma ScaledSpan(a: nat, b: nat, n: nat, size: real)
    requires 0 < n && a < b <= n && size > 0.0
    ensures 0.0 <= (a as real) * ModuleSize(size, n) < (b as real) * ModuleSize(size, n) <= size
    ensures (b as real) * ModuleSize(size, n) - (a as real) * ModuleSize(size, n) == ((b - a) as real) * ModuleSize(size, n)
  {
    var ms := ModuleSize(size, n);
    WithinSide(a, n, size);
    WithinSide(b, n, size);
    assert ms > 0.0;
    assert ((b - a) as real) * ms > 0.0;
    assert ((b - a) as real) * ms == (b as real) * ms - (a as real) * ms;
  }

  /**
   * The rectangle of a run inside an `n` by `n` matrix lies in the square
   * `[-size/2, size/2]^2`, is exactly one module high, is as wide as the run
   * is long, and row 0 touches the top edge.
   */
  lemma RunRectInside(run: Run, n: nat, size: real)
    requires n > 0 && size > 0.0
    requires run.row < n && run.start < run.end <= n
    ensures -size / 2.0 <= RunRect(run, n, size).x1 < RunRect(run, n, size).x2 <= size / 2.0
    ensures -size / 2.0 <= RunRect(run, n, size).y1 < RunRect(run, n, size).y2 <= size / 2.0
    ensures RunRect(run, n, size).y2 - RunRect(run, n, size).y1 == ModuleSize(size, n)
    ensures RunRect(run, n, size).x2 - RunRect(run, n, size).x1 == ((run.end - run.start) as real) * ModuleSize(size, n)
    ensures run.row == 0 ==> RunRect(run, n, size).y2 == size / 2.0
  {
    RunRectColumns(run, n, size);
    RunRectRows(run, n, size);
  }

  /** The horizontal extent of a run's rectangle. */
  lemma RunRectColumns(run: Run, n: nat, size: real)
    requires n > 0 && size > 0.0
    requires run.start < run.end <= n
    ensures -size / 2.0 <= RunRect(run, n, size).x1 < RunRect(run, n, size).x2 <= size / 2.0
    ensures RunRect(run, n, size).x2 - RunRect(run, n, size).x1 == ((run.end - run.start) as real) * ModuleSize(size, n)
  {
    var ms := ModuleSize(size, n);
    ScaledSpan(run.start, run.end, n, size);
    CenteredSpan(size, (run.start as real) * ms, (run.end as real) * ms);
  }

  /** The vertical extent of a run's rectangle: one module, counted down from the top edge. */
  lemma RunRectRows(run: Run, n: nat, size: real)
    requires n > 0 && size > 0.0
    requires run.row < n
    ensures -size / 2.0 <= RunRect(run, n, size).y1 < RunRect(run, n, size).y2 <= size / 2.0
    ensures RunRect(run, n, size).y2 - RunRect(run, n, size).y1 == ModuleSize(size, n)
    ensures run.row == 0 ==> RunRect(run, n, size).y2 == size / 2.0
  {
    var ms := ModuleSize(size, n);
    ScaledSpan(run.row, run.row + 1, n, size);
    assert ((run.row + 1 - run.row) as real) * ms == ms;
    assert run.row == 0 ==> (run.row as real) * ms == 0.0;
    CenteredSpan(size, (run.row as real) * ms, ((run.row + 1) as real) * ms);
  }

  /** Offsets `0 <= p < q <= size` measured from either edge of `[-size/2, size/2]` stay inside it, in order. */
  lemma CenteredSpan(size: real, p: real, q: real)
    requires 0.0 <= p < q <= size
    ensures -size / 2.0 <= -(size / 2.0) + p < -(size / 2.0) + q <= size / 2.0
    ensures -size / 2.0 <= size / 2.0 - q < size / 2.0 - p <= size / 2.0
  {
  }

  function Rects(runs: seq<Run>, n: nat, size: real): (rects: seq<Rect>)
    requires n > 0
    ensures |rects| == |runs|
    ensures forall i :: 0 <= i < |runs| ==> rects[i] == RunRect(runs[i], n, size)
  {
    seq(|runs|, i requires 0 <= i < |runs| => RunRect(runs[i], n, size))
  }

  /**
   * The compound of rectangle faces at height `z`, to be extruded along
   * local +Z by `extrusion`.
   */
  datatype QrPrisms = QrPrisms(rects: seq<Rect>, z: real, extrusion: real)

  /** The default overlap below the face, so the boolean operation has volume to work with. */
  const DefaultOverlap: real := 0.01

  /**
   * `_create_qr_solid`: nothing for an empty matrix or one without a dark
   * module; otherwise one rectangle per maximal run, from `-overlap` up to
   * `height`.
   */
  method CreateQrSolid(matrix: seq<seq<bool>>, qrSize: real, height: real, overlap: real)
    returns (solid: Option<QrPrisms>)
    requires IsSquare(matrix)
    ensures solid.None? <==> !HasDark(matrix)
    ensures solid.Some? ==> |matrix| > 0
    ensures solid.Some? ==>
      exists runs :: (IsRunDecomposition(matrix, runs)
                         && solid.value == QrPrisms(Rects(runs, |matrix|, qrSize), -overlap, height + overlap))
  {
    var n := |matrix|;
    if n == 0 {
      return None;
    }
    var runs := MergeRuns(matrix);
    if runs == [] {
      return None;
    }
    solid := Some(QrPrisms(Rects(runs, n, qrSize), -overlap, height + overlap));
  }

  /**
   * The version `apply_qr` reports for an `n`-module side with `border`
   * quiet-zone modules on each side, as written.
   */
  function QrVersionAsWritten(n: int, border: int): int
  {
    (n - 2 * border - 17) / 4 + 1
  }

  /**
   * A version-1 symbol (21 modules, ISO/IEC 18004 section 5.3.1) is
   * reported as version 2: the formula counts one version too many.
   */
  lemma QrVersionOffByOne(border: int)
    ensures QrVersionAsWritten(21 + 2 * border, border) == 2
  {
  }

  /**
   * The version of a symbol whose side is `n` modules including the border;
   * a version-`v` symbol is `17 + 4 v` modules wide (ISO/IEC 18004,
   * section 5.3.1).
   */
  function QrVersion(n: int, border: int): (v: int)
    ensures 17 + 4 * v + 2 * border <= n < 17 + 4 * (v + 1) + 2 * border
  {
    (n - 2 * border - 17) / 4
  }

  /** The corrected formula gives back the version from the side length. */
  lemma QrVersionInverts(v: int, border: int)
    ensures QrVersion(17 + 4 * v + 2 * border, border) == v
  {
    assert 17 + 4 * v + 2 * border - 2 * border - 17 == 4 * v;
  }

  // ---------------------------------------------------------------------
  // Frame, transform and the boolean operation
  // ---------------------------------------------------------------------

  /**
   * The frame of `qr_emboss._compute_face_frame`: always the sampled normal,
   * normalised (a positive rescaling `kn`), with u and v as in the logo
   * deboss.
   */
  function QrFaceFrame(center: Vec3, sampledNormal: Vec3, kn: real, ku: real, kv: real): (f: LogoDeboss.Frame)
    requires kn > 0.0 && ku > 0.0 && kv > 0.0
    ensures f.center == center && f.normal == Scale(sampledNormal, kn)
    ensures Dot(f.u, f.normal) == 0.0 && Dot(f.v, f.normal) == 0.0 && Dot(f.u, f.v) == 0.0
    ensures sampledNormal != Zero3 ==> f.u != Zero3
  {
    var normal := Scale(sampledNormal, kn);
    LogoDeboss.FrameOrthogonal(center, normal, ku, kv);
    if sampledNormal != Zero3 then
      ScaleNonZero(sampledNormal, kn);
      LogoDeboss.FrameNonDegenerate(center, normal, ku, kv);
      LogoDeboss.FrameFromNormal(center, normal, ku, kv)
    else
      LogoDeboss.FrameFromNormal(center, normal, ku, kv)
  }

  /** Columns u, v and the normal (emboss) or its opposite (deboss); translation `center`. */
  function BuildQrTransform(center: Vec3, u: Vec3, v: Vec3, normal: Vec3, emboss: bool): Matrix
  {
    Matrix(u, v, if emboss then normal else Neg(normal), center)
  }

  /**
   * Embossing sends local height `h` along the normal, out of the body;
   * debossing uses exactly the logo deboss matrix, sending it into the body.
   */
  lemma QrTransformDirection(center: Vec3, u: Vec3, v: Vec3, normal: Vec3, h: real)
    ensures MapPoint(BuildQrTransform(center, u, v, normal, true), Vec3(0.0, 0.0, h)) == Add(center, Scale(normal, h))
    ensures BuildQrTransform(center, u, v, normal, false) == LogoDeboss.BuildTransform(center, u, v, normal)
    ensures MapPoint(BuildQrTransform(center, u, v, normal, false), Vec3(0.0, 0.0, h)) == Sub(center, Scale(normal, h))
  {
  }

  function QrMatrix(center: Vec3, sampledNormal: Vec3, kn: real, ku: real, kv: real,
                    xOffset: real, yOffset: real, emboss: bool): Matrix
    requires kn > 0.0 && ku > 0.0 && kv > 0.0
  {
    var f := QrFaceFrame(center, sampledNormal, kn, ku, kv);
    BuildQrTransform(LogoDeboss.Placement(f, xOffset, yOffset), f.u, f.v, f.normal, emboss)
  }

  /** Emboss fuses the placed code onto the body; deboss cuts it out. */
  function Relief(body: Solid, tool: Solid, emboss: bool): (result: Solid)
    ensures emboss ==> body <= result && tool <= result
    ensures !emboss ==> result <= body && result !! tool
  {
    if emboss then body + tool else body - tool
  }

  datatype QrError = ZeroDivision | NoDarkModules

  /**
   * `apply_qr` on a given module matrix: the module size divides by the
   * module count before anything else, so an empty matrix fails there; a
   * matrix without a dark module fails with "QR matrix produced no dark
   * modules."; otherwise the relief and the module size.
   */
  method ApplyQr(body: Solid, center: Vec3, sampledNormal: Vec3, matrix: seq<seq<bool>>,
                 size: real, height: real, emboss: bool, border: int, xOffset: real, yOffset: real,
                 kn: real, ku: real, kv: real,
                 extrude: QrPrisms -> Solid, transformShape: (Matrix, Solid) -> Solid)
    returns (r: Result<(Solid, real), QrError>)
    requires IsSquare(matrix) && kn > 0.0 && ku > 0.0 && kv > 0.0
    ensures |matrix| == 0 ==> r == Failure(ZeroDivision)
    ensures |matrix| > 0 && !HasDark(matrix) ==> r == Failure(NoDarkModules)
    ensures HasDark(matrix) ==> r.Success?
    ensures r.Success? ==> |matrix| > 0 && r.value.1 == ModuleSize(size, |matrix|)
    ensures r.Success? ==>
      exists runs :: (IsRunDecomposition(matrix, runs)
                      && r.value.0 == Relief(body, transformShape(QrMatrix(center, sampledNormal, kn, ku, kv, xOffset, yOffset, emboss),
                                                                  extrude(QrPrisms(Rects(runs, |matrix|, size), -DefaultOverlap, height + DefaultOverlap))),
                                             emboss))
  {
    var n := |matrix|;
    if n == 0 {
      return Failure(ZeroDivision);
    }
    var moduleSize := ModuleSize(size, n);
    var solid := CreateQrSolid(matrix, size, height, DefaultOverlap);
    if solid.None? {
      return Failure(NoDarkModules);
    }
    var frame := QrFaceFrame(center, sampledNormal, kn, ku, kv);
    var placement := LogoDeboss.Placement(frame, xOffset, yOffset);
    var mat := BuildQrTransform(placement, frame.u, frame.v, frame.normal, emboss);
    var placed := transformShape(mat, extrude(solid.value));
    r := Success((Relief(body, placed, emboss), moduleSize));
  }
}
