/**
 The Fisher-Jenks table: the recurrence it fills, why its last cell is the least
 cost of any split, and why its backtrack reads that split off.
 */
module Jenks {
  import opened Deviation
  import opened Splits

  /** Table cell `l`, `j`: the first `l` values in up to `j` runs, fewer only where one value opens them. */
  ghost function Best(v: seq<real>, l: nat, j: nat): real
    requires 1 <= l <= |v| && 1 <= j
    decreases l, l
  {
    if l == 1 then 0.0
    else if j == 1 then Ssd(v, 0, l)
    else Least(v, l, j, 1)
  }

  ghost function Through(v: seq<real>, l: nat, j: nat, i: nat): real
    requires 1 <= i < l <= |v| && 2 <= j
    decreases l, 0
  {
    Ssd(v, i, l) + Best(v, i, j - 1)
  }

  /** The cheapest way through a last boundary at or after `i`. */
  ghost function Least(v: seq<real>, l: nat, j: nat, i: nat): real
    requires 1 <= i < l <= |v| && 2 <= j
    decreases l, l - i
  {
    if i + 1 == l || Least(v, l, j, i + 1) >= Through(v, l, j, i)
    then Through(v, l, j, i)
    else Least(v, l, j, i + 1)
  }

  /** The boundary it goes through, the earliest on a tie. */
  ghost function Boundary(v: seq<real>, l: nat, j: nat, i: nat): (p: nat)
    requires 1 <= i < l <= |v| && 2 <= j
    ensures i <= p < l
    ensures Least(v, l, j, i) == Through(v, l, j, p)
    decreases l, l - i
  {
    if i + 1 == l || Least(v, l, j, i + 1) >= Through(v, l, j, i)
    then i
    else Boundary(v, l, j, i + 1)
  }

  /** Every earlier boundary is dearer: a tie goes to the first. */
  lemma {:induction false} BoundaryEarliest(v: seq<real>, l: nat, j: nat, i: nat, q: nat)
    requires 1 <= i < l <= |v| && 2 <= j && i <= q < Boundary(v, l, j, i)
    ensures Through(v, l, j, q) > Least(v, l, j, i)
    decreases l - i
  {
    if q > i {
      BoundaryEarliest(v, l, j, i + 1, q);
    }
  }

  /** Where, counting from one, the last run starts. */
  ghost function Start(v: seq<real>, l: nat, j: nat): (start: nat)
    requires 1 <= l <= |v| && 1 <= j
  {
    if l == 1 || j == 1 then 1 else Boundary(v, l, j, 1) + 1
  }

  lemma {:induction false} LeastBelow(v: seq<real>, l: nat, j: nat, i: nat, p: nat)
    requires 1 <= i <= p < l <= |v| && 2 <= j
    ensures Least(v, l, j, i) <= Through(v, l, j, p)
    decreases l - i
  {
    if i < p {
      LeastBelow(v, l, j, i + 1, p);
    }
  }

  lemma SingleCost(v: seq<real>, i: nat)
    requires i < |v|
    ensures Ssd(v, i, i + 1) == 0.0
  {
    var x := v[i];
    assert Sum(v, i, i + 1) == x + Sum(v, i + 1, i + 1) && Squares(v, i, i + 1) == x * x + Squares(v, i + 1, i + 1);
    assert Count(i, i + 1) == 1.0;
  }

  lemma OneRun(v: seq<real>, l: nat)
    requires 1 <= l <= |v|
    ensures Split([0, l], l) && Cost(v, [0, l]) == Ssd(v, 0, l)
  {
    assert [0, l][..1] == [0];
  }

  /** No split into `j` runs undercuts the cell. */
  lemma {:induction false} CellBelow(v: seq<real>, l: nat, j: nat, b: seq<nat>)
    requires 1 <= l <= |v| && 1 <= j && Split(b, l) && Runs(b) == j
    ensures Best(v, l, j) <= Cost(v, b)
    decreases l
  {
    if j == 1 {
      assert b == [0, l];
      OneRun(v, l);
      if l == 1 {
        SingleCost(v, 0);
      }
    } else {
      var p, c := b[j - 1], b[..j];
      assert b[0] < p < b[j];
      CellBelow(v, p, j - 1, c);
      LeastBelow(v, l, j, 1, p);
    }
  }

  /** The split the table remembers. */
  ghost function Path(v: seq<real>, l: nat, j: nat): seq<nat>
    requires 1 <= l <= |v| && 1 <= j
    decreases l
  {
    if l == 1 || j == 1 then [0, l] else Path(v, Boundary(v, l, j, 1), j - 1) + [l]
  }

  /** The recurrence through the boundary it remembers. */
  lemma LastStep(v: seq<real>, l: nat, j: nat, p: nat)
    requires 2 <= l <= |v| && 2 <= j && p == Boundary(v, l, j, 1)
    ensures Path(v, l, j) == Path(v, p, j - 1) + [l] && Best(v, l, j) == Ssd(v, p, l) + Best(v, p, j - 1)
  {
    assert Best(v, l, j) == Least(v, l, j, 1) == Through(v, l, j, p);
  }

  lemma OneMoreRun(v: seq<real>, b: seq<nat>, p: nat, l: nat)
    requires Split(b, p) && p < l <= |v|
    ensures Split(b + [l], l) && Cost(v, b + [l]) == Cost(v, b) + Ssd(v, p, l)
  {
    CostJoined(v, b, [l]);
  }

  lemma {:induction false} PathCosts(v: seq<real>, l: nat, j: nat)
    requires 1 <= l <= |v| && 1 <= j
    ensures Split(Path(v, l, j), l) && 1 <= Runs(Path(v, l, j)) <= j
    ensures Cost(v, Path(v, l, j)) == Best(v, l, j)
    decreases l
  {
    if l == 1 || j == 1 {
      OneRun(v, l);
      if l == 1 {
        SingleCost(v, 0);
      }
    } else {
      var p := Boundary(v, l, j, 1);
      PathCosts(v, p, j - 1);
      OneMoreRun(v, Path(v, p, j - 1), p, l);
      LastStep(v, l, j, p);
    }
  }

  /** With a value for every run, the remembered split has them all and no other is cheaper. */
  lemma PathOptimal(v: seq<real>, runs: nat)
    requires Ascending(v) && 1 <= runs <= |Values(v)| && 1 <= |v|
    ensures var b := Path(v, |v|, runs); Runs(b) == runs && Optimal(v, b) && Cost(v, b) == Best(v, |v|, runs)
  {
    var b := Path(v, |v|, runs);
    PathCosts(v, |v|, runs);
    var c := RefineTo(v, b, runs);
    CellBelow(v, |v|, runs, c);
    forall c | Split(c, |v|) && Runs(c) == Runs(b) ensures Cost(v, b) <= Cost(v, c) {
      CellBelow(v, |v|, runs, c);
    }
  }

  /** The table's last cell is the least cost of any split into `runs` runs. */
  lemma FinalCellIsMinimum(v: seq<real>, runs: nat)
    requires Ascending(v) && 1 <= runs <= |Values(v)| && 1 <= |v|
    ensures forall b :: Split(b, |v|) && Runs(b) == runs ==> Best(v, |v|, runs) <= Cost(v, b)
    ensures exists b :: Split(b, |v|) && Runs(b) == runs && Cost(v, b) == Best(v, |v|, runs)
  {
    PathOptimal(v, runs);
  }

  // ---- Filling the table ---------------------------------------------------

  /** A variance cell before and after its first relaxation. */
  datatype Cell = Infinite | Finite(cost: real)

  /** What the two tables hold at one place. */
  datatype Entry = Entry(variance: Cell, lower: nat)

  const BLANK := Entry(Infinite, 0)

  /** Trying `i` as the last boundary; a tie moves to the later try, which is the earlier boundary. */
  function Relax(e: Entry, through: real, i: nat): Entry {
    if e.variance.Infinite? || e.variance.cost >= through then Entry(Finite(through), i + 1) else e
  }

  ghost function RelaxedRow(row: seq<Entry>, above: seq<Entry>, cost: real, i: nat): seq<Entry>
    requires |above| == |row| && forall j :: 1 <= j < |row| ==> above[j].variance.Finite?
  {
    seq(|row|, j requires 0 <= j < |row| =>
      if j < 2 then row[j] else Relax(row[j], cost + above[j - 1].variance.cost, i))
  }

  ghost function Done(v: seq<real>, l: nat, j: nat): Entry
    requires 1 <= l <= |v|
  {
    if j == 0 then BLANK else Entry(Finite(Best(v, l, j)), Start(v, l, j))
  }

  ghost function DoneRow(v: seq<real>, l: nat, width: nat): seq<Entry>
    requires 1 <= l <= |v|
  {
    seq(width, j requires 0 <= j < width => Done(v, l, j))
  }

  /** Cell `j` of row `l` once every last boundary from `i` on has been tried. */
  ghost function Tried(v: seq<real>, l: nat, i: nat, j: nat): Entry
    requires 1 <= i <= l <= |v|
  {
    if j < 2 || i == l then BLANK else Entry(Finite(Least(v, l, j, i)), Boundary(v, l, j, i) + 1)
  }

  ghost function TriedRow(v: seq<real>, l: nat, i: nat, width: nat): seq<Entry>
    requires 1 <= i <= l <= |v|
  {
    seq(width, j requires 0 <= j < width => Tried(v, l, i, j))
  }

  lemma RowStep(v: seq<real>, l: nat, i: nat, width: nat)
    requires 1 <= i < l <= |v|
    ensures RelaxedRow(TriedRow(v, l, i + 1, width), DoneRow(v, i, width), Ssd(v, i, l), i) == TriedRow(v, l, i, width)
  {
    var row := TriedRow(v, l, i + 1, width);
    var next := RelaxedRow(row, DoneRow(v, i, width), Ssd(v, i, l), i);
    forall j | 0 <= j < width ensures next[j] == Tried(v, l, i, j) {
      if 2 <= j {
        assert next[j] == Relax(row[j], Through(v, l, j, i), i);
      }
    }
  }

  lemma RowEnd(v: seq<real>, l: nat, width: nat)
    requires 2 <= l <= |v| && 2 <= width
    ensures TriedRow(v, l, 1, width)[1 := Entry(Finite(Ssd(v, 0, l)), 1)] == DoneRow(v, l, width)
  {
  }

  ghost predicate HoldsRow(lower: array2<nat>, variance: array2<Cell>, l: nat, row: seq<Entry>)
    requires l < lower.Length0 == variance.Length0 && |row| == lower.Length1 == variance.Length1
    reads lower, variance
  {
    forall j :: 0 <= j < |row| ==> variance[l, j] == row[j].variance && lower[l, j] == row[j].lower
  }

  ghost predicate Holds(lower: array2<nat>, variance: array2<Cell>, rows: seq<seq<Entry>>)
    reads lower, variance
  {
    && |rows| == lower.Length0 == variance.Length0 && lower.Length1 == variance.Length1
    && forall l :: 0 <= l < |rows| ==> |rows[l]| == lower.Length1 && HoldsRow(lower, variance, l, rows[l])
  }

  /** The innermost loop: tries `i` as the last boundary of every cell of row `l`. */
  method RelaxRow(lower: array2<nat>, variance: array2<Cell>, l: nat, i: nat, cost: real, ghost rows: seq<seq<Entry>>)
    requires Holds(lower, variance, rows) && i < l < |rows|
    requires forall j :: 1 <= j < |rows[i]| ==> rows[i][j].variance.Finite?
    modifies lower, variance
    ensures Holds(lower, variance, rows[l := RelaxedRow(rows[l], rows[i], cost, i)])
  {
    ghost var row, next := rows[l], RelaxedRow(rows[l], rows[i], cost, i);
    var j := 2;
    while j < lower.Length1
      invariant 2 <= j
      invariant forall a :: 0 <= a < |rows| && a != l ==> HoldsRow(lower, variance, a, rows[a])
      invariant forall k :: 0 <= k < |row| ==>
                  var e := if k < j then next[k] else row[k]; variance[l, k] == e.variance && lower[l, k] == e.lower
    {
      assert HoldsRow(lower, variance, i, rows[i]);
      var through := cost + variance[i, j - 1].cost;
      if variance[l, j].Infinite? || variance[l, j].cost >= through {
        lower[l, j] := i + 1;
        variance[l, j] := Finite(through);
      }
      j := j + 1;
    }
  }

  /** The cell for a single run. */
  method SetOneRun(lower: array2<nat>, variance: array2<Cell>, l: nat, cost: real, ghost rows: seq<seq<Entry>>)
    requires Holds(lower, variance, rows) && l < |rows| && 2 <= lower.Length1
    modifies lower, variance
    ensures Holds(lower, variance, rows[l := rows[l][1 := Entry(Finite(cost), 1)]])
  {
    assert forall a :: 0 <= a < |rows| ==> HoldsRow(lower, variance, a, rows[a]);
    lower[l, 1] := 1;
    variance[l, 1] := Finite(cost);
    assert forall a :: 0 <= a < |rows| && a != l ==> HoldsRow(lower, variance, a, rows[a]);
  }

  /** Fills row `l` from the rows before it, adding values from the right. */
  method FillRow(v: seq<real>, lower: array2<nat>, variance: array2<Cell>, l: nat, ghost rows: seq<seq<Entry>>)
    requires Holds(lower, variance, rows) && 2 <= l <= |v| < |rows| && 2 <= lower.Length1
    requires forall i :: 1 <= i < l ==> rows[i] == DoneRow(v, i, lower.Length1)
    requires rows[l] == TriedRow(v, l, l, lower.Length1)
    modifies lower, variance
    ensures Holds(lower, variance, rows[l := DoneRow(v, l, lower.Length1)])
  {
    var s1, s2, w := 0.0, 0.0, 0;
    ghost var width, row := lower.Length1, rows[l];
    assert rows[l := row] == rows;
    for m := 1 to l + 1
      invariant w == m - 1 && s1 == Sum(v, l - m + 1, l) && s2 == Squares(v, l - m + 1, l)
      invariant row == TriedRow(v, l, if m <= l then l - m + 1 else 1, width)
      invariant Holds(lower, variance, rows[l := row])
    {
      var i3 := l - m + 1;
      var val := v[i3 - 1];
      s2 := s2 + val * val;
      s1 := s1 + val;
      w := w + 1;
      var i4 := i3 - 1;
      var cost := Vertex(s2, w as real, s1);
      if i4 != 0 {
        RowStep(v, l, i4, width);
        assert rows[l := row][i4] == DoneRow(v, i4, width);
        RelaxRow(lower, variance, l, i4, cost, rows[l := row]);
        assert rows[l := row][l := TriedRow(v, l, i4, width)] == rows[l := TriedRow(v, l, i4, width)];
        row := TriedRow(v, l, i4, width);
      }
    }
    RowEnd(v, l, width);
    SetOneRun(lower, variance, l, Vertex(s2, w as real, s1), rows[l := row]);
    assert rows[l := row][l := DoneRow(v, l, width)] == rows[l := DoneRow(v, l, width)];
  }

  /** Row `l` of the tables while rows up to `filled` are done. */
  ghost function Rows(v: seq<real>, filled: nat, width: nat): seq<seq<Entry>>
    requires filled <= |v|
  {
    seq(|v| + 1, l requires 0 <= l <= |v| => if 1 <= l <= filled then DoneRow(v, l, width) else seq(width, _ => BLANK))
  }

  lemma RowsStep(v: seq<real>, l: nat, width: nat)
    requires 1 <= l <= |v|
    ensures Rows(v, l - 1, width)[l := DoneRow(v, l, width)] == Rows(v, l, width)
    ensures Rows(v, l - 1, width)[l] == TriedRow(v, l, l, width)
  {
  }

  /** The tables while the first row is being set, column by column. */
  function Opening(a: nat, j: nat, upTo: nat): Entry {
    if a == 1 && 1 <= j < upTo then Entry(Finite(0.0), 1) else BLANK
  }

  lemma OpeningRows(v: seq<real>, lower: array2<nat>, variance: array2<Cell>, classes: nat)
    requires 1 <= |v| && lower.Length0 == variance.Length0 == |v| + 1
    requires lower.Length1 == variance.Length1 == classes + 1
    requires forall a, j :: 0 <= a <= |v| && 0 <= j <= classes ==>
               var e := Opening(a, j, classes + 1); variance[a, j] == e.variance && lower[a, j] == e.lower
    ensures Holds(lower, variance, Rows(v, 1, classes + 1))
  {
    var rows := Rows(v, 1, classes + 1);
    forall a | 0 <= a < |rows| ensures |rows[a]| == classes + 1 && HoldsRow(lower, variance, a, rows[a]) {
      assert forall j :: 0 <= j <= classes ==> rows[a][j] == Opening(a, j, classes + 1);
    }
  }

  method FillTables(v: seq<real>, classes: nat) returns (lower: array2<nat>, variance: array2<Cell>)
    requires 1 <= |v| && 1 <= classes
    ensures Holds(lower, variance, Rows(v, |v|, classes + 1))
  {
    lower := new nat[|v| + 1, classes + 1]((_, _) => 0);
    variance := new Cell[|v| + 1, classes + 1]((_, _) => Infinite);
    for i := 1 to classes + 1
      invariant forall a, j :: 0 <= a <= |v| && 0 <= j <= classes ==>
                  var e := Opening(a, j, i); variance[a, j] == e.variance && lower[a, j] == e.lower
    {
      lower[1, i] := 1;
      variance[1, i] := Finite(0.0);
    }
    OpeningRows(v, lower, variance, classes);
    for l := 2 to |v| + 1
      invariant Holds(lower, variance, Rows(v, l - 1, classes + 1))
    {
      RowsStep(v, l, classes + 1);
      FillRow(v, lower, variance, l, Rows(v, l - 1, classes + 1));
    }
  }

  lemma ReadStarts(v: seq<real>, classes: nat, lower: array2<nat>, variance: array2<Cell>)
    requires 1 <= |v| && 1 <= classes && Holds(lower, variance, Rows(v, |v|, classes + 1))
    ensures lower.Length0 == |v| + 1 && lower.Length1 == classes + 1
    ensures forall l, j :: 1 <= l <= |v| && 1 <= j <= classes ==> lower[l, j] == Start(v, l, j)
  {
    var rows := Rows(v, |v|, classes + 1);
    assert |rows[0]| == classes + 1;
    forall l, j | 1 <= l <= |v| && 1 <= j <= classes ensures lower[l, j] == Start(v, l, j) {
      assert rows[l] == DoneRow(v, l, classes + 1);
      assert rows[l][j] == Done(v, l, j);
    }
  }

  // ---- Reading the split back -----------------------------------------------

  /** The last value of each run but the last. */
  ghost predicate EndsRuns(v: seq<real>, b: seq<nat>, breaks: seq<real>) {
    && Split(b, |v|) && |breaks| == Runs(b) - 1
    && forall k :: 1 <= k < Runs(b) ==> breaks[k - 1] == v[b[k] - 1]
  }

  lemma PathStep(v: seq<real>, k: nat, count: nat, b: seq<nat>)
    requires 1 <= k <= |v| && 2 <= count && b == Path(v, k, count) && |b| == count + 1
    ensures 2 <= Start(v, k, count) <= k
    ensures b[..count] == Path(v, Start(v, k, count) - 1, count - 1)
    ensures b[count - 1] == Start(v, k, count) - 1
  {
    var p := Boundary(v, k, count, 1);
    PathCosts(v, p, count - 1);
    assert b == Path(v, p, count - 1) + [k];
  }

  /** Backtracks from the last cell; neither clamp ever binds. */
  method Backtrack(v: seq<real>, classes: nat, lower: array2<nat>, ghost b: seq<nat>)
    returns (breaks: seq<real>, ghost clamped: bool)
    requires 1 <= |v| && 1 <= classes
    requires lower.Length0 == |v| + 1 && lower.Length1 == classes + 1
    requires forall l, j :: 1 <= l <= |v| && 1 <= j <= classes ==> lower[l, j] == Start(v, l, j)
    requires b == Path(v, |v|, classes) && Split(b, |v|) && Runs(b) == classes
    ensures EndsRuns(v, b, breaks) && !clamped
  {
    clamped := false;
    var bounds := seq(classes + 1, _ => 0.0);
    bounds := bounds[classes := v[|v| - 1]];
    var k := |v|;
    var count := classes;
    while 2 <= count
      invariant 1 <= count <= classes && 1 <= k <= |v| && |bounds| == classes + 1
      invariant b[..count + 1] == Path(v, k, count) && !clamped
      invariant forall i :: count <= i < classes ==> bounds[i] == v[b[i] - 1]
      decreases count
    {
      var start := lower[k, count];
      PathStep(v, k, count, b[..count + 1]);
      clamped := clamped || start - 2 < 0 || start - 1 < 1;
      var id := if 0 <= start - 2 then start - 2 else 0;
      bounds := bounds[count - 1 := v[id]];
      assert b[..count + 1][..count] == b[..count];
      k := if 1 <= start - 1 then start - 1 else 1;
      count := count - 1;
    }
    breaks := bounds[1..classes];
  }
}
