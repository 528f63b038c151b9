/** Row caps and federation of query results (control-api/app/query_service.py): the cap pushed into the
    query, the grid shaped from what comes back, and the union of several targets' grids. */
module QueryRows {
  import opened Common

  const DefaultRowLimit := 1000

  function Min(a: int, b: int): int { if a <= b then a else b }
  function Max(a: int, b: int): int { if a >= b then a else b }

  /** `clamp_limit`; None is a limit that is not a number. */
  function ClampLimit(limit: Option<int>, max: int): int {
    match limit
    case None => Min(DefaultRowLimit, max)
    case Some(n) => Max(1, Min(n, max))
  }

  /** Clamping again changes nothing, so the two clamps of one query agree; a number out of range goes to
      the nearer end, and what is no number to 1000 or the maximum. */
  lemma {:induction false} ClampTwice(limit: Option<int>, max: int)
    requires max >= 1
    ensures 1 <= ClampLimit(limit, max) <= max
    ensures ClampLimit(Some(ClampLimit(limit, max)), max) == ClampLimit(limit, max)
    ensures limit.Some? && 1 <= limit.value <= max ==> ClampLimit(limit, max) == limit.value
    ensures limit.Some? && limit.value > max ==> ClampLimit(limit, max) == max
    ensures limit.Some? && limit.value < 1 ==> ClampLimit(limit, max) == 1
    ensures limit.None? ==> ClampLimit(limit, max) == if max < 1000 then max else 1000
  {
  }

  // ------------------------------------------------------------------ one target

  datatype Cell = Null | Text(text: string) | Number(value: real)

  type Line = seq<Cell>

  /** A q table as the driver returns it: a dictionary from column names to lists. */
  datatype Table = Table(columns: seq<string>, data: seq<seq<Cell>>)

  datatype Grid = Grid(columns: seq<string>, rows: seq<Line>, rowCount: nat, truncated: bool)

  ghost predicate WellFormed(t: Table) {
    |t.columns| == |t.data| && Distinct(t.columns)
  }

  /** The longest column's length. */
  function Longest(data: seq<seq<Cell>>): (n: nat)
    ensures forall j :: 0 <= j < |data| ==> |data[j]| <= n
    ensures n == 0 || exists j :: 0 <= j < |data| && |data[j]| == n
  {
    if data == [] then 0
    else
      var rest := Longest(data[1..]);
      assert forall j :: 1 <= j < |data| ==> data[j] == data[1..][j - 1];
      assert rest != 0 ==> exists j :: 0 <= j < |data[1..]| && |data[1..][j]| == rest;
      Max(|data[0]|, rest)
  }

  /** Row `i` of the table; a column too short for it gives no value. */
  function LineAt(t: Table, i: nat): (line: Line)
    ensures |line| == |t.data|
  {
    seq(|t.data|, j requires 0 <= j < |t.data| => if i < |t.data[j]| then t.data[j][i] else Null)
  }

  /** A line shows row `i`: in every column its value there, or nothing when the column is too short. */
  ghost predicate ShowsRow(t: Table, line: Line, i: nat) {
    && |line| == |t.data|
    && forall j :: 0 <= j < |t.data| ==> line[j] == if i < |t.data[j]| then t.data[j][i] else Null
  }

  function Lines(t: Table, n: nat): (lines: seq<Line>)
    ensures |lines| == n
  {
    seq(n, i requires 0 <= i < n => LineAt(t, i))
  }

  /** The table case of `shape_result`, for a limit already clamped. */
  function Shape(t: Table, limit: nat): Grid {
    var total := Longest(t.data);
    Grid(t.columns, Lines(t, if total <= limit then total else limit), total, total > limit)
  }

  /** `cap sublist (query)`: the first rows, never padded. */
  function Sublist(t: Table, cap: nat): Table {
    Table(t.columns, seq(|t.data|, j requires 0 <= j < |t.data| => Take(t.data[j], cap)))
  }

  /** `run_query`: a plain select is fetched capped, anything else whole. */
  function RunQuery(t: Table, plainSelect: bool, limit: Option<int>, max: int): Grid
    requires max >= 1
  {
    ClampTwice(limit, max);
    var n := ClampLimit(limit, max);
    Shape(if plainSelect then Sublist(t, n + 1) else t, ClampLimit(Some(n), max))
  }

  lemma {:induction false} SublistLongest(t: Table, cap: nat)
    ensures Longest(Sublist(t, cap).data) == if Longest(t.data) <= cap then Longest(t.data) else cap
  {
    hide Longest;
    var all, cut := t.data, Sublist(t, cap).data;
    assert |cut| == |all| && forall j :: 0 <= j < |all| ==> |cut[j]| == if |all[j]| <= cap then |all[j]| else cap;
    hide Sublist;
    if Longest(all) != 0 {
      var j :| 0 <= j < |all| && |all[j]| == Longest(all);
      assert |cut[j]| <= Longest(cut);
    }
  }

  /** Pushing `limit + 1 sublist` into the query changes neither the displayed rows nor the truncated
      flag; the reported row count is the true one exactly when at most one row lies beyond the limit. */
  lemma {:induction false} CapKeepsAnswer(t: Table, limit: nat)
    ensures var pushed := Shape(Sublist(t, limit + 1), limit);
            var fetched := Shape(t, limit);
            && pushed.columns == fetched.columns && pushed.rows == fetched.rows
            && pushed.truncated == fetched.truncated
            && pushed.rowCount == (if fetched.rowCount <= limit + 1 then fetched.rowCount else limit + 1)
  {
    hide Longest, Lines;
    SublistLongest(t, limit + 1);
    SublistLines(t, limit + 1, if Longest(t.data) <= limit then Longest(t.data) else limit);
  }

  lemma {:induction false} SublistLines(t: Table, cap: nat, n: nat)
    requires n <= cap
    ensures Lines(Sublist(t, cap), n) == Lines(t, n)
  {
    forall i | 0 <= i < n
      ensures LineAt(Sublist(t, cap), i) == LineAt(t, i)
    {
    }
  }

  lemma {:induction false} RunQueryIsShape(t: Table, plainSelect: bool, limit: Option<int>, max: int)
    requires max >= 1
    ensures var n := ClampLimit(limit, max);
            var g := RunQuery(t, plainSelect, limit, max);
            && n >= 1 && g.columns == t.columns && g.rows == Shape(t, n).rows
            && |g.rows| == Min(Longest(t.data), n)
            && (forall i :: 0 <= i < |g.rows| ==> ShowsRow(t, g.rows[i], i))
            && (g.truncated <==> Longest(t.data) > n)
            && g.rowCount == (if plainSelect then Min(Longest(t.data), n + 1) else Longest(t.data))
  {
    hide Longest, Sublist;
    ClampTwice(limit, max);
    CapKeepsAnswer(t, ClampLimit(limit, max));
  }

  // ------------------------------------------------------------------ columns of a federation

  /** Each element once, where it first occurs. */
  function Union(seen: seq<string>, more: seq<string>): seq<string>
    decreases |more|
  {
    if more == [] then seen
    else Union(if more[0] in seen then seen else seen + [more[0]], more[1..])
  }

  type Labeled = seq<(string, Grid)>

  function UnionColumns(seen: seq<string>, labeled: Labeled): seq<string>
    decreases |labeled|
  {
    if labeled == [] then seen
    else UnionColumns(Union(seen, labeled[0].1.columns), labeled[1..])
  }

  lemma {:induction false} UnionIs(seen: seq<string>, more: seq<string>)
    requires Distinct(seen)
    ensures Distinct(Union(seen, more)) && seen <= Union(seen, more)
    ensures forall c :: c in Union(seen, more) <==> c in seen || c in more
    decreases |more|
  {
    if more != [] {
      var next := if more[0] in seen then seen else seen + [more[0]];
      UnionIs(next, more[1..]);
      assert more == [more[0]] + more[1..];
    }
  }

  /** The union starts with the columns already seen, repeats none, and holds every column of every
      grid and no other. */
  lemma {:induction false} UnionColumnsIs(seen: seq<string>, labeled: Labeled)
    requires Distinct(seen)
    ensures Distinct(UnionColumns(seen, labeled)) && seen <= UnionColumns(seen, labeled)
    ensures forall c :: c in UnionColumns(seen, labeled)
                   <==> c in seen || exists k :: 0 <= k < |labeled| && c in labeled[k].1.columns
    decreases |labeled|
  {
    if labeled != [] {
      var next := Union(seen, labeled[0].1.columns);
      UnionIs(seen, labeled[0].1.columns);
      UnionColumnsIs(next, labeled[1..]);
      forall c
        ensures c in UnionColumns(seen, labeled)
           <==> c in seen || exists k :: 0 <= k < |labeled| && c in labeled[k].1.columns
      {
        if k :| 0 <= k < |labeled| && c in labeled[k].1.columns {
          assert k > 0 ==> labeled[1..][k - 1] == labeled[k];
        }
        if k :| 0 <= k < |labeled[1..]| && c in labeled[1..][k].1.columns {
          assert labeled[k + 1] == labeled[1..][k];
        }
      }
    }
  }

  /** First-seen order: of two new columns, the earlier one occurs before the later one first does. */
  lemma {:induction false} FirstSeenOrder(seen: seq<string>, more: seq<string>, i: nat, j: nat) returns (p: nat)
    requires Distinct(seen) && |seen| <= i < j < |Union(seen, more)|
    ensures p < |more| && more[p] == Union(seen, more)[i]
    ensures forall k :: 0 <= k <= p ==> more[k] != Union(seen, more)[j]
    decreases |more|
  {
    var u := Union(seen, more);
    var next := if more[0] in seen then seen else seen + [more[0]];
    UnionIs(next, more[1..]);
    FrontIsEarlier(next, u, j);
    if |next| <= i {
      p := FirstSeenOrder(next, more[1..], i, j);
      p := p + 1;
      assert forall k :: 1 <= k <= p ==> more[k] == more[1..][k - 1];
    } else {
      p := 0;
      assert next[i] == u[i];
    }
  }

  lemma {:induction false} FrontIsEarlier(front: seq<string>, u: seq<string>, j: nat)
    requires Distinct(u) && front <= u && |front| <= j < |u|
    ensures u[j] !in front
  {
    assert forall k :: 0 <= k < |front| ==> front[k] == u[k];
  }

  function AllColumns(labeled: Labeled): seq<string> {
    if labeled == [] then [] else labeled[0].1.columns + AllColumns(labeled[1..])
  }

  lemma {:induction false} UnionAppend(seen: seq<string>, a: seq<string>, b: seq<string>)
    ensures Union(seen, a + b) == Union(Union(seen, a), b)
    decreases |a|
  {
    if a == [] {
      assert a + b == b;
    } else {
      assert (a + b)[0] == a[0] && (a + b)[1..] == a[1..] + b;
      UnionAppend(if a[0] in seen then seen else seen + [a[0]], a[1..], b);
    }
  }

  /** Grid by grid or over all the column lists at once: the same union. */
  lemma {:induction false} UnionColumnsFlat(seen: seq<string>, labeled: Labeled)
    ensures UnionColumns(seen, labeled) == Union(seen, AllColumns(labeled))
    decreases |labeled|
  {
    if labeled != [] {
      UnionAppend(seen, labeled[0].1.columns, AllColumns(labeled[1..]));
      UnionColumnsFlat(Union(seen, labeled[0].1.columns), labeled[1..]);
    }
  }

  // ------------------------------------------------------------------ aligning one row

  /** Where a dictionary built from the column list points: the last occurrence. */
  function IndexOf(columns: seq<string>, c: string): (i: Option<nat>)
    ensures i.Some? ==> i.value < |columns| && columns[i.value] == c
    ensures i.None? <==> c !in columns
  {
    if columns == [] then None
    else if columns[|columns| - 1] == c then Some(|columns| - 1)
    else IndexOf(columns[..|columns| - 1], c)
  }

  function AlignedCell(c: string, own: seq<string>, line: Line): Cell {
    match IndexOf(own, c)
    case None => Null
    case Some(i) => if i < |line| then line[i] else Null
  }

  function Align(columns: seq<string>, own: seq<string>, line: Line): (a: Line)
    ensures |a| == |columns|
  {
    seq(|columns|, k requires 0 <= k < |columns| => AlignedCell(columns[k], own, line))
  }

  function Labelled(provenance: bool, target: string, a: Line): Line {
    if provenance then [Text(target)] + a else a
  }

  /** All of a grid's rows, aligned to the union's columns. */
  function Aligned(provenance: bool, columns: seq<string>, target: string, g: Grid): (rows: seq<Line>)
    ensures |rows| == |g.rows|
  {
    seq(|g.rows|, i requires 0 <= i < |g.rows| => Labelled(provenance, target, Align(columns, g.columns, g.rows[i])))
  }

  /** A row of the union without its provenance cell. */
  function Cells(provenance: bool, row: Line): Line
    requires provenance ==> row != []
  {
    if provenance then row[1..] else row
  }

  /** Read a grid's own columns back out of a row of the union. */
  function Project(columns: seq<string>, own: seq<string>, cells: Line): (line: Line)
    ensures |line| == |own|
  {
    seq(|own|, j requires 0 <= j < |own| => AlignedCell(own[j], columns, cells))
  }

  /** An aligned row carries its target's name, projects back to the original cells, and holds nothing
      in the columns its grid does not have. */
  lemma {:induction false} AlignedProjectsBack(provenance: bool, columns: seq<string>, target: string, own: seq<string>, line: Line)
    requires Distinct(own) && |line| == |own|
    requires forall c :: c in own ==> c in columns
    ensures var row := Labelled(provenance, target, Align(columns, own, line));
            && |row| == |columns| + (if provenance then 1 else 0)
            && (provenance ==> row[0] == Text(target))
            && Project(columns, own, Cells(provenance, row)) == line
            && forall k :: 0 <= k < |columns| && columns[k] !in own ==> Cells(provenance, row)[k] == Null
  {
    var a := Align(columns, own, line);
    assert Cells(provenance, Labelled(provenance, target, a)) == a;
    ProjectsBack(columns, own, line);
  }

  lemma {:induction false} ProjectsBack(columns: seq<string>, own: seq<string>, line: Line)
    requires Distinct(own) && |line| == |own|
    requires forall c :: c in own ==> c in columns
    ensures Project(columns, own, Align(columns, own, line)) == line
  {
    forall j | 0 <= j < |own|
      ensures Project(columns, own, Align(columns, own, line))[j] == line[j]
    {
      CellProjectsBack(columns, own, line, j);
    }
  }

  lemma {:induction false} IndexOfDistinct(columns: seq<string>, j: nat)
    requires Distinct(columns) && j < |columns|
    ensures IndexOf(columns, columns[j]) == Some(j)
  {
    assert columns[j] in columns;
  }

  lemma {:induction false} CellProjectsBack(columns: seq<string>, own: seq<string>, line: Line, j: nat)
    requires Distinct(own) && |line| == |own| && j < |own| && own[j] in columns
    ensures AlignedCell(own[j], columns, Align(columns, own, line)) == line[j]
  {
    IndexOfDistinct(own, j);
    var k := IndexOf(columns, own[j]).value;
    assert Align(columns, own, line)[k] == AlignedCell(columns[k], own, line);
  }

  // ------------------------------------------------------------------ the union's rows

  /** The simple form: every row of every grid. */
  function FullRows(provenance: bool, columns: seq<string>, labeled: Labeled): seq<Line> {
    if labeled == [] then []
    else Aligned(provenance, columns, labeled[0].0, labeled[0].1) + FullRows(provenance, columns, labeled[1..])
  }

  /** What the inner loop adds of `more` before its early break: the break comes after a row is added, so
      a grid with rows always contributes one. */
  function Gather(rows: seq<Line>, more: seq<Line>, limit: int): seq<Line>
    decreases |more|
  {
    if more == [] then rows
    else if |rows| + 1 >= limit then rows + [more[0]]
    else Gather(rows + [more[0]], more[1..], limit)
  }

  function Gathered(rows: seq<Line>, provenance: bool, columns: seq<string>, labeled: Labeled, limit: int): seq<Line>
    decreases |labeled|
  {
    if labeled == [] then rows
    else
      Gathered(Gather(rows, Aligned(provenance, columns, labeled[0].0, labeled[0].1), limit),
               provenance, columns, labeled[1..], limit)
  }

  /** Python's `rows[:limit]`: a negative limit drops rows from the end. */
  function Slice(rows: seq<Line>, limit: int): seq<Line> {
    if limit >= 0 then Take(rows, limit)
    else Take(rows, Max(0, |rows| + limit))
  }

  function TotalRows(labeled: Labeled): nat {
    if labeled == [] then 0 else labeled[0].1.rowCount + TotalRows(labeled[1..])
  }

  lemma {:induction false} TotalRowsAdd(a: Labeled, b: Labeled)
    ensures TotalRows([]) == 0 && (|a| == 1 ==> TotalRows(a) == a[0].1.rowCount)
    ensures TotalRows(a + b) == TotalRows(a) + TotalRows(b)
    decreases |a|
  {
    if a == [] {
      assert a + b == b;
    } else {
      assert (a + b)[1..] == a[1..] + b;
      TotalRowsAdd(a[1..], b);
    }
  }

  predicate AnyTruncated(labeled: Labeled) {
    exists k :: 0 <= k < |labeled| && labeled[k].1.truncated
  }

  lemma {:induction false} GatherSnoc(rows: seq<Line>, more: seq<Line>, limit: int, i: nat)
    requires i < |more| && (i == 0 || |rows| + i < limit)
    ensures Gather(rows, more, limit) == Gather(rows + more[..i], more[i..], limit)
    decreases i
  {
    if i == 0 {
      assert rows + more[..0] == rows && more[0..] == more;
    } else {
      GatherSnoc(rows + [more[0]], more[1..], limit, i - 1);
      assert rows + [more[0]] + more[1..][..i - 1] == rows + more[..i];
      assert more[1..][i - 1..] == more[i..];
    }
  }

  /** The whole loop nest, with its early break, as the program runs it. */
  method CombineResults(labeled: Labeled, provenance: bool, limit: int) returns (g: Grid)
    ensures var columns := UnionColumns([], labeled);
            && g.columns == (if provenance then ["_target"] else []) + columns
            && g.rows == Slice(Gathered([], provenance, columns, labeled, limit), limit)
            && g.rowCount == TotalRows(labeled)
            && (g.truncated <==> AnyTruncated(labeled) || TotalRows(labeled) > limit)
    ensures limit >= 0 ==> RowsStand(g, provenance, labeled, limit)
  {
    hide Align, Gather, IndexOf;
    var columns := CollectColumns(labeled);
    var rows: seq<Line> := [];
    var total: nat := 0;
    var truncated := false;
    ghost var whole := Gathered([], provenance, columns, labeled, limit);
    for k := 0 to |labeled|
      invariant whole == Gathered(rows, provenance, columns, labeled[k..], limit)
      invariant total + TotalRows(labeled[k..]) == TotalRows(labeled)
      invariant truncated <==> exists j :: 0 <= j < k && labeled[j].1.truncated
    {
      var (target, grid) := labeled[k];
      assert labeled[k..][0] == labeled[k] && labeled[k..][1..] == labeled[k + 1..];
      total := total + grid.rowCount;
      truncated := truncated || grid.truncated;
      rows := AppendRows(rows, provenance, columns, target, grid, limit);
    }
    g := Grid((if provenance then ["_target"] else []) + columns, Slice(rows, limit), total,
              truncated || total > limit);
    if limit >= 0 {
      RowsDoStand(g, provenance, columns, labeled, limit);
    }
  }

  method CollectColumns(labeled: Labeled) returns (columns: seq<string>)
    ensures columns == UnionColumns([], labeled)
  {
    columns := [];
    for k := 0 to |labeled|
      invariant UnionColumns(columns, labeled[k..]) == UnionColumns([], labeled)
    {
      var own := labeled[k].1.columns;
      assert labeled[k..][0] == labeled[k] && labeled[k..][1..] == labeled[k + 1..];
      ghost var before := columns;
      for i := 0 to |own|
        invariant Union(columns, own[i..]) == Union(before, own)
      {
        assert own[i..][0] == own[i] && own[i..][1..] == own[i + 1..];
        if own[i] !in columns {
          columns := columns + [own[i]];
        }
      }
      assert own[|own|..] == [];
    }
  }

  /** The inner loop. */
  method AppendRows(start: seq<Line>, provenance: bool, columns: seq<string>, target: string, grid: Grid, limit: int)
    returns (rows: seq<Line>)
    ensures rows == Gather(start, Aligned(provenance, columns, target, grid), limit)
  {
    hide Align;
    ghost var more := Aligned(provenance, columns, target, grid);
    rows := start;
    for i := 0 to |grid.rows|
      invariant rows == start + more[..i]
      invariant i == 0 || |start| + i < limit
    {
      GatherSnoc(start, more, limit, i);
      assert more[i..][0] == more[i] && more[i..][1..] == more[i + 1..];
      rows := rows + [Labelled(provenance, target, Align(columns, grid.columns, grid.rows[i]))];
      assert start + more[..i + 1] == rows;
      if |rows| >= limit {
        return;
      }
    }
    GatherAll(start, more, limit);
  }

  lemma {:induction false} GatherAll(start: seq<Line>, more: seq<Line>, limit: int)
    requires more == [] || |start| + |more| < limit
    ensures Gather(start, more, limit) == start + more[..|more|]
  {
    if more != [] {
      GatherSnoc(start, more, limit, |more| - 1);
      assert more[|more| - 1..] == [more[|more| - 1]];
      assert start + more[..|more| - 1] + [more[|more| - 1]] == start + more;
      assert [more[|more| - 1]][1..] == [];
    }
  }

  // ------------------------------------------------------------------ the early break is harmless

  lemma {:induction false} GatherTakes(rows: seq<Line>, more: seq<Line>, limit: nat)
    ensures Take(Gather(rows, more, limit), limit) == Take(rows + more, limit)
    ensures |Gather(rows, more, limit)| < limit ==> Gather(rows, more, limit) == rows + more
    ensures |Gather(rows, more, limit)| >= |rows|
    decreases |more|
  {
    if more == [] {
      assert rows + more == rows;
    } else {
      assert rows + more == rows + [more[0]] + more[1..];
      if |rows| + 1 < limit {
        GatherTakes(rows + [more[0]], more[1..], limit);
      }
    }
  }

  lemma {:induction false} TakeAppend(a: seq<Line>, b: seq<Line>, more: seq<Line>, n: nat)
    requires Take(a, n) == Take(b, n) && (|a| < n ==> a == b)
    ensures Take(a + more, n) == Take(b + more, n)
  {
    if |a| >= n {
      assert Take(a + more, n) == a[..n] && |b| >= n && Take(b + more, n) == b[..n];
    }
  }

  lemma {:induction false} GatheredTakes(rows: seq<Line>, provenance: bool, columns: seq<string>, labeled: Labeled, limit: nat)
    ensures Take(Gathered(rows, provenance, columns, labeled, limit), limit)
         == Take(rows + FullRows(provenance, columns, labeled), limit)
    decreases |labeled|
  {
    hide Take, Gather, Aligned;
    if labeled == [] {
      assert rows + [] == rows;
    } else {
      var more := Aligned(provenance, columns, labeled[0].0, labeled[0].1);
      var rest := FullRows(provenance, columns, labeled[1..]);
      GatherTakes(rows, more, limit);
      GatheredTakes(Gather(rows, more, limit), provenance, columns, labeled[1..], limit);
      TakeAppend(Gather(rows, more, limit), rows + more, rest, limit);
      assert rows + more + rest == rows + (more + rest);
    }
  }

  /** For every limit that is not negative the federated rows are the first `limit` rows of the full
      aligned concatenation. */
  lemma {:induction false} EarlyBreakKeepsRows(provenance: bool, columns: seq<string>, labeled: Labeled, limit: nat)
    ensures Slice(Gathered([], provenance, columns, labeled, limit), limit)
         == Take(FullRows(provenance, columns, labeled), limit)
  {
    GatheredTakes([], provenance, columns, labeled, limit);
    assert [] + FullRows(provenance, columns, labeled) == FullRows(provenance, columns, labeled);
  }

  // ------------------------------------------------------------------ where each row ends up

  function RowsBefore(labeled: Labeled, k: nat): nat
    requires k <= |labeled|
  {
    if k == 0 then 0 else |labeled[0].1.rows| + RowsBefore(labeled[1..], k - 1)
  }

  /** Under `c`: the last of its own values of that name, and nothing for a name it does not have. */
  ghost predicate CellUnder(c: string, cell: Cell, own: seq<string>, line: Line) {
    if c !in own then cell == Null
    else exists j: nat :: LastOf(own, c, j) && cell == if j < |line| then line[j] else Null
  }

  ghost predicate LastOf(own: seq<string>, c: string, j: nat) {
    j < |own| && own[j] == c && forall m :: j < m < |own| ==> own[m] != c
  }

  lemma {:induction false} IndexIsLast(own: seq<string>, c: string)
    ensures IndexOf(own, c).Some? ==> LastOf(own, c, IndexOf(own, c).value)
    decreases |own|
  {
    if own != [] && own[|own| - 1] != c {
      IndexIsLast(own[..|own| - 1], c);
    }
  }

  /** The cells of a row of the union, name by name, after the target's own name. */
  ghost predicate Carries(header: seq<string>, row: Line, provenance: bool, target: string, own: seq<string>, line: Line) {
    var first := if provenance then 1 else 0;
    && |row| == |header| && first <= |row|
    && (provenance ==> row[0] == Text(target))
    && forall c :: first <= c < |header| ==> CellUnder(header[c], row[c], own, line)
  }

  /** Row `i` of grid `k` stands after all the rows of the grids before it. */
  ghost predicate Stands(g: Grid, provenance: bool, labeled: Labeled, k: nat, i: nat)
    requires k < |labeled| && i < |labeled[k].1.rows|
  {
    var at := RowsBefore(labeled, k) + i;
    && at < |g.rows|
    && Carries(g.columns, g.rows[at], provenance, labeled[k].0, labeled[k].1.columns, labeled[k].1.rows[i])
  }

  ghost predicate RowsStand(g: Grid, provenance: bool, labeled: Labeled, limit: nat) {
    && |g.rows| == Min(RowsBefore(labeled, |labeled|), limit)
    && forall k: nat, i: nat :: k < |labeled| && i < |labeled[k].1.rows| ==>
         (RowsBefore(labeled, k) + i < limit ==> Stands(g, provenance, labeled, k, i))
  }

  lemma {:induction false} AlignedCarries(columns: seq<string>, provenance: bool, target: string, own: seq<string>, line: Line)
    ensures Carries((if provenance then ["_target"] else []) + columns,
                    Labelled(provenance, target, Align(columns, own, line)), provenance, target, own, line)
  {
    var header := (if provenance then ["_target"] else []) + columns;
    var row := Labelled(provenance, target, Align(columns, own, line));
    var first := if provenance then 1 else 0;
    forall c | first <= c < |header|
      ensures CellUnder(header[c], row[c], own, line)
    {
      assert row[c] == AlignedCell(columns[c - first], own, line);
      IndexIsLast(own, columns[c - first]);
    }
  }

  lemma {:induction false} FullRowsCount(provenance: bool, columns: seq<string>, labeled: Labeled)
    ensures |FullRows(provenance, columns, labeled)| == RowsBefore(labeled, |labeled|)
    decreases |labeled|
  {
    hide Aligned;
    if labeled != [] {
      FullRowsCount(provenance, columns, labeled[1..]);
    }
  }

  lemma {:induction false} PlaceInFull(provenance: bool, columns: seq<string>, labeled: Labeled, k: nat, i: nat)
    requires k < |labeled| && i < |labeled[k].1.rows|
    ensures var at := RowsBefore(labeled, k) + i;
            var (target, g) := labeled[k];
            && at < |FullRows(provenance, columns, labeled)|
            && FullRows(provenance, columns, labeled)[at] == Labelled(provenance, target, Align(columns, g.columns, g.rows[i]))
    decreases k
  {
    hide Align, Labelled;
    if k > 0 {
      PlaceInFull(provenance, columns, labeled[1..], k - 1, i);
    }
  }

  lemma {:induction false} RowsDoStand(g: Grid, provenance: bool, columns: seq<string>, labeled: Labeled, limit: nat)
    requires g.columns == (if provenance then ["_target"] else []) + columns
    requires g.rows == Slice(Gathered([], provenance, columns, labeled, limit), limit)
    ensures RowsStand(g, provenance, labeled, limit)
  {
    hide Gathered, FullRows, Align, Labelled, Carries, RowsBefore;
    var full := FullRows(provenance, columns, labeled);
    EarlyBreakKeepsRows(provenance, columns, labeled, limit);
    FullRowsCount(provenance, columns, labeled);
    forall k: nat, i: nat | k < |labeled| && i < |labeled[k].1.rows| && RowsBefore(labeled, k) + i < limit
      ensures Stands(g, provenance, labeled, k, i)
    {
      PlaceInFull(provenance, columns, labeled, k, i);
      AlignedCarries(columns, provenance, labeled[k].0, labeled[k].1.columns, labeled[k].1.rows[i]);
    }
  }

  // ------------------------------------------------------------------ capped targets, federated

  type Targets = seq<(string, Table)>

  /** What each target returns, and what it would return uncapped. */
  function Capped(targets: Targets, plain: bool, limit: int, max: int): (labeled: Labeled)
    requires max >= 1
    ensures |labeled| == |targets|
  {
    seq(|targets|, k requires 0 <= k < |targets| =>
      (targets[k].0, RunQuery(targets[k].1, plain, Some(limit), max)))
  }

  function Uncapped(t: Table): Grid {
    Shape(t, Longest(t.data))
  }

  function Everything(targets: Targets): (labeled: Labeled)
    ensures |labeled| == |targets|
  {
    seq(|targets|, k requires 0 <= k < |targets| => (targets[k].0, Uncapped(targets[k].1)))
  }

  /** The gateway's grid: capped at each target, federated with the request's own limit. */
  function Federated(targets: Targets, plain: bool, limit: int, max: int): (r: (seq<Line>, bool))
    requires max >= 1
  {
    var labeled := Capped(targets, plain, limit, max);
    (Slice(Gathered([], true, UnionColumns([], labeled), labeled, limit), limit),
     AnyTruncated(labeled) || TotalRows(labeled) > limit)
  }

  /** The simple answer: fetch everything, concatenate, cut; truncated when rows were cut. */
  function Simple(targets: Targets, limit: int): (seq<Line>, bool) {
    var labeled := Everything(targets);
    (Slice(FullRows(true, UnionColumns([], labeled), labeled), limit), TotalRows(labeled) > limit)
  }

  lemma {:induction false} SameColumns(seen: seq<string>, a: Labeled, b: Labeled)
    requires |a| == |b| && forall k :: 0 <= k < |a| ==> a[k].1.columns == b[k].1.columns
    ensures UnionColumns(seen, a) == UnionColumns(seen, b)
    decreases |a|
  {
    if a != [] {
      SameColumns(Union(seen, a[0].1.columns), a[1..], b[1..]);
    }
  }

  /** `a` is `b` with each grid cut to its first `cap` rows. */
  ghost predicate CutTo(a: Labeled, b: Labeled, cap: nat) {
    && |a| == |b|
    && forall k :: 0 <= k < |a| ==>
         && a[k].0 == b[k].0 && a[k].1.columns == b[k].1.columns
         && a[k].1.rows == Take(b[k].1.rows, cap)
  }

  lemma {:induction false} AlignedOfTake(provenance: bool, columns: seq<string>, target: string, a: Grid, b: Grid, cap: nat)
    requires a.columns == b.columns && a.rows == Take(b.rows, cap)
    ensures Aligned(provenance, columns, target, a) == Take(Aligned(provenance, columns, target, b), cap)
  {
    hide Align;
  }

  lemma {:induction false} TakeOfCut(a: seq<Line>, b: seq<Line>, restA: seq<Line>, restB: seq<Line>, cap: nat, n: nat)
    requires n <= cap && a == Take(b, cap)
    requires forall m: nat :: m <= n ==> Take(restA, m) == Take(restB, m)
    ensures forall m: nat :: m <= n ==> Take(a + restA, m) == Take(b + restB, m)
  {
    forall m: nat | m <= n
      ensures Take(a + restA, m) == Take(b + restB, m)
    {
      if m <= |b| {
        assert m <= |a| && a[..m] == b[..m];
        assert (a + restA)[..m] == a[..m] && (b + restB)[..m] == b[..m];
      } else {
        assert a == b;
        assert Take(a + restA, m) == a + Take(restA, m - |a|);
        assert Take(b + restB, m) == b + Take(restB, m - |b|);
      }
    }
  }

  /** Cutting every grid to at least `n` rows leaves the first `n` rows of the concatenation alone. */
  lemma {:induction false} CutKeepsFront(provenance: bool, columns: seq<string>, a: Labeled, b: Labeled, cap: nat, n: nat)
    requires CutTo(a, b, cap) && n <= cap
    ensures forall m: nat :: m <= n ==>
              Take(FullRows(provenance, columns, a), m) == Take(FullRows(provenance, columns, b), m)
    decreases |a|
  {
    if a != [] {
      hide Take, Aligned;
      CutKeepsFront(provenance, columns, a[1..], b[1..], cap, n);
      AlignedOfTake(provenance, columns, a[0].0, a[0].1, b[0].1, cap);
      TakeOfCut(Aligned(provenance, columns, a[0].0, a[0].1), Aligned(provenance, columns, b[0].0, b[0].1),
                FullRows(provenance, columns, a[1..]), FullRows(provenance, columns, b[1..]), cap, n);
    }
  }

  lemma {:induction false} CappedIsCut(targets: Targets, plain: bool, limit: int, max: int)
    requires max >= 1
    ensures CutTo(Capped(targets, plain, limit, max), Everything(targets), ClampLimit(Some(limit), max))
  {
    var n: nat := ClampLimit(Some(limit), max);
    var a, b := Capped(targets, plain, limit, max), Everything(targets);
    forall k | 0 <= k < |a|
      ensures a[k].1.columns == b[k].1.columns && a[k].1.rows == Take(b[k].1.rows, n)
    {
      RunQueryIsShape(targets[k].1, plain, Some(limit), max);
      LinesPrefix(targets[k].1, n);
    }
  }

  /** Every federated row of a well-formed target reads back as the row of the table it came from. */
  lemma {:induction false} FederatedRowReadsBack(targets: Targets, plain: bool, limit: int, max: int, k: nat, i: nat)
    requires max >= 1 && k < |targets| && WellFormed(targets[k].1)
    requires i < |Capped(targets, plain, limit, max)[k].1.rows|
    ensures var labeled := Capped(targets, plain, limit, max);
            var (columns, t) := (UnionColumns([], labeled), targets[k].1);
            var row := Aligned(true, columns, labeled[k].0, labeled[k].1)[i];
            && row[0] == Text(targets[k].0)
            && ShowsRow(t, Project(columns, t.columns, Cells(true, row)), i)
  {
    hide Align, Project, UnionColumns, Longest;
    var labeled := Capped(targets, plain, limit, max);
    UnionColumnsIs([], labeled);
    RunQueryIsShape(targets[k].1, plain, Some(limit), max);
    AlignedProjectsBack(true, UnionColumns([], labeled), targets[k].0, targets[k].1.columns, labeled[k].1.rows[i]);
  }

  lemma {:induction false} LinesPrefix(t: Table, n: nat)
    ensures Shape(t, n).rows == Take(Uncapped(t).rows, n)
  {
    hide LineAt;
  }

  lemma {:induction false} TruncatedIff(targets: Targets, plain: bool, limit: int, max: int)
    requires max >= 1 && limit <= ClampLimit(Some(limit), max)
    ensures var labeled := Capped(targets, plain, limit, max);
            AnyTruncated(labeled) || TotalRows(labeled) > limit ==> TotalRows(Everything(targets)) > limit
    ensures var labeled := Capped(targets, plain, limit, max);
            TotalRows(Everything(targets)) > limit ==> AnyTruncated(labeled) || TotalRows(labeled) > limit
  {
    var labeled := Capped(targets, plain, limit, max);
    forall k | 0 <= k < |targets|
      ensures labeled[k].1.rowCount <= Everything(targets)[k].1.rowCount
      ensures !labeled[k].1.truncated ==> labeled[k].1.rowCount == Everything(targets)[k].1.rowCount
      ensures labeled[k].1.truncated ==> Everything(targets)[k].1.rowCount > limit
    {
      RunQueryIsShape(targets[k].1, plain, Some(limit), max);
      ClampTwice(Some(limit), max);
      CapKeepsAnswer(targets[k].1, ClampLimit(Some(limit), max));
    }
    TotalsCompare(labeled, Everything(targets), limit);
  }

  lemma {:induction false} TotalsCompare(a: Labeled, b: Labeled, limit: int)
    requires |a| == |b|
    requires forall k :: 0 <= k < |a| ==> a[k].1.rowCount <= b[k].1.rowCount
    requires forall k :: 0 <= k < |a| && !a[k].1.truncated ==> a[k].1.rowCount == b[k].1.rowCount
    requires forall k :: 0 <= k < |a| && a[k].1.truncated ==> b[k].1.rowCount > limit
    ensures TotalRows(a) <= TotalRows(b)
    ensures !AnyTruncated(a) ==> TotalRows(a) == TotalRows(b)
    ensures AnyTruncated(a) ==> TotalRows(b) > limit
    decreases |a|
  {
    if a != [] {
      TotalsCompare(a[1..], b[1..], limit);
      AnyTruncatedFront(a);
    }
  }

  lemma {:induction false} AnyTruncatedFront(a: Labeled)
    requires a != []
    ensures AnyTruncated(a) <==> a[0].1.truncated || AnyTruncated(a[1..])
  {
    if k :| 0 <= k < |a| && a[k].1.truncated {
      assert k > 0 ==> a[1..][k - 1].1.truncated;
    }
    if k :| 0 <= k < |a[1..]| && a[1..][k].1.truncated {
      assert a[k + 1].1.truncated;
    }
  }

  /** Capped, federated with the early break, and cut: the same rows and the same truncated flag as
      fetching everything, for every limit from 0 to the maximum. */
  lemma {:induction false} FederatedIsSimple(targets: Targets, plain: bool, limit: int, max: int)
    requires 0 <= limit <= max && max >= 1
    ensures Federated(targets, plain, limit, max) == Simple(targets, limit)
  {
    var a, b := Capped(targets, plain, limit, max), Everything(targets);
    var columns := UnionColumns([], a);
    CappedIsCut(targets, plain, limit, max);
    SameColumns([], a, b);
    EarlyBreakKeepsRows(true, columns, a, limit);
    CutKeepsFront(true, columns, a, b, ClampLimit(Some(limit), max), limit);
    TruncatedIff(targets, plain, limit, max);
  }

  ghost predicate Exact(limit: int, max: int)
    requires max >= 1
  {
    forall targets: Targets, plain: bool ::
      Federated(targets, plain, limit, max) == Simple(targets, limit)
  }

  function Column(n: nat): Table {
    Table(["x"], [seq(n, i => Null)])
  }

  lemma {:induction false} ColumnShape(n: nat, limit: nat)
    ensures Longest(Column(n).data) == n
    ensures Shape(Column(n), limit).rows == seq(if n <= limit then n else limit, i => [Null])
  {
    assert Column(n).data[1..] == [];
    forall i | 0 <= i < n
      ensures LineAt(Column(n), i) == [Null]
    {
    }
  }

  function Copies(target: string, n: nat): (rows: seq<Line>)
    ensures |rows| == n
  {
    seq(n, i => [Text(target), Null])
  }

  lemma {:induction false} OneColumn(target: string, g: Grid)
    requires g.columns == ["x"] && forall i :: 0 <= i < |g.rows| ==> g.rows[i] == [Null]
    ensures Aligned(true, ["x"], target, g) == Copies(target, |g.rows|)
  {
    assert IndexOf(["x"], "x") == Some(0);
    assert Align(["x"], ["x"], [Null]) == [Null];
    assert [Text(target)] + [Null] == [Text(target), Null];
  }

  lemma {:induction false} UnionOfX()
    ensures Union([], ["x"]) == ["x"] && Union(["x"], ["x"]) == ["x"]
  {
    assert ["x"][1..] == [];
    assert [] + ["x"] == ["x"];
  }

  lemma {:induction false} OneGrid(a: Labeled)
    requires |a| == 1 && a[0].1.columns == ["x"] && forall i :: 0 <= i < |a[0].1.rows| ==> a[0].1.rows[i] == [Null]
    ensures UnionColumns([], a) == ["x"]
    ensures FullRows(true, ["x"], a) == Copies(a[0].0, |a[0].1.rows|)
  {
    UnionOfX();
    assert a[1..] == [];
    OneColumn(a[0].0, a[0].1);
  }

  lemma {:induction false} TwoGrids(a: Labeled)
    requires |a| == 2 && a[0].1.columns == ["x"] && a[1].1.columns == ["x"]
    requires forall i :: 0 <= i < |a[0].1.rows| ==> a[0].1.rows[i] == [Null]
    requires forall i :: 0 <= i < |a[1].1.rows| ==> a[1].1.rows[i] == [Null]
    ensures UnionColumns([], a) == ["x"]
    ensures FullRows(true, ["x"], a) == Copies(a[0].0, |a[0].1.rows|) + Copies(a[1].0, |a[1].1.rows|)
  {
    UnionOfX();
    assert a[1..][1..] == [];
    assert UnionColumns(["x"], a[1..]) == ["x"];
    OneColumn(a[0].0, a[0].1);
    OneColumn(a[1].0, a[1].1);
    assert FullRows(true, ["x"], a[1..]) == Copies(a[1].0, |a[1].1.rows|);
  }

  lemma {:induction false} ColumnRuns(n: nat, limit: int, max: int)
    requires max >= 1
    ensures var g := RunQuery(Column(n), true, Some(limit), max);
            && g.columns == ["x"] && |g.rows| == Min(n, ClampLimit(Some(limit), max))
            && forall i :: 0 <= i < |g.rows| ==> g.rows[i] == [Null]
    ensures var g := Uncapped(Column(n));
            && g.columns == ["x"] && |g.rows| == n && forall i :: 0 <= i < |g.rows| ==> g.rows[i] == [Null]
  {
    RunQueryIsShape(Column(n), true, Some(limit), max);
    ColumnShape(n, ClampLimit(Some(limit), max));
    ColumnShape(n, n);
  }

  /** The request's limit is not clamped where the grids are joined. Above the maximum the first target's
      rows are cut short and the next target's rows follow too early. */
  lemma {:induction false} AboveMaximumFails(limit: int, max: int)
    requires 1 <= max < limit
    ensures !Exact(limit, max)
  {
    hide Federated, Simple, Take, Copies, TwoTargets;
    var targets := TwoTargets(max);
    TwoTargetsAnswers(limit, max);
    CopiesDiffer(limit, max);
    assert Federated(targets, true, limit, max).0 != Simple(targets, limit).0;
  }

  function TwoTargets(max: nat): Targets {
    [("a", Column(max + 1)), ("b", Column(1))]
  }

  lemma {:induction false} CopiesDiffer(limit: int, max: int)
    requires 1 <= max < limit
    ensures Take(Copies("a", max) + Copies("b", 1), limit) != Take(Copies("a", max + 1) + Copies("b", 1), limit)
  {
    var left, right := Copies("a", max) + Copies("b", 1), Copies("a", max + 1) + Copies("b", 1);
    assert left[max] == [Text("b"), Null] && right[max] == [Text("a"), Null];
    assert Take(left, limit)[max] != Take(right, limit)[max];
  }

  lemma {:induction false} TwoTargetsAnswers(limit: int, max: int)
    requires 1 <= max < limit
    ensures Federated(TwoTargets(max), true, limit, max).0 == Take(Copies("a", max) + Copies("b", 1), limit)
    ensures Simple(TwoTargets(max), limit).0 == Take(Copies("a", max + 1) + Copies("b", 1), limit)
  {
    hide RunQuery, Shape, FullRows, Gathered, UnionColumns, Column, Take, Copies, Longest;
    var targets := TwoTargets(max);
    var a, b := Capped(targets, true, limit, max), Everything(targets);
    ColumnRuns(max + 1, limit, max);
    ColumnRuns(1, limit, max);
    TwoGrids(a);
    TwoGrids(b);
    EarlyBreakKeepsRows(true, ["x"], a, limit);
  }

  /** A negative limit stops after one row of a target and then drops rows from the end. */
  lemma {:induction false} NegativeFails(limit: int, max: int)
    requires max >= 1 && limit < 0
    ensures !Exact(limit, max)
  {
    hide RunQuery, Shape, UnionColumns, FullRows, Column;
    var n := 2 - limit;
    var targets := [("a", Column(n))];
    var a, b := Capped(targets, true, limit, max), Everything(targets);
    ColumnRuns(n, limit, max);
    OneGrid(a);
    OneGrid(b);
    OneColumn("a", a[0].1);
    assert a[1..] == [];
    assert |Gathered([], true, ["x"], a, limit)| == 1;
    assert |Federated(targets, true, limit, max).0| == 0;
    assert |Simple(targets, limit).0| == 2;
  }

  /** Exactly the limits for which capping and federating give the simple answer on all data. */
  lemma {:induction false} ExactIff(limit: int, max: int)
    requires max >= 1
    ensures Exact(limit, max) <==> 0 <= limit <= max
  {
    if 0 <= limit <= max {
      forall targets: Targets, plain: bool
        ensures Federated(targets, plain, limit, max) == Simple(targets, limit)
      {
        FederatedIsSimple(targets, plain, limit, max);
      }
    } else if limit < 0 {
      NegativeFails(limit, max);
    } else {
      AboveMaximumFails(limit, max);
    }
  }
}
