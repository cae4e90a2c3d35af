/** The chunked multi-row INSERT: many statements that together are one insert. */
module Chunks {
  import opened Sequences
  import opened Values

  /** The engine's limit on bound parameters in one statement. */
  const MAX_PARAMS: nat := 65535

  const CHUNK_ROWS: nat := 500

  /** Rows in a chunk: fewer when rows are wide. */
  function ChunkRows(cols: nat): (n: nat)
    ensures n <= CHUNK_ROWS
    ensures n * cols <= MAX_PARAMS
    ensures n == 0 <==> cols > MAX_PARAMS
  {
    var width := if cols < 1 then 1 else cols;
    var fit := MAX_PARAMS / width;
    Quotient(MAX_PARAMS, width);
    if fit < CHUNK_ROWS then fit else
      ProductMonotone(CHUNK_ROWS, fit, cols);
      CHUNK_ROWS
  }

  lemma Quotient(a: nat, b: nat)
    requires b > 0
    ensures (a / b) * b <= a
    ensures a / b == 0 <==> b > a
  {
    if a / b == 0 {
      assert a == (a / b) * b + a % b;
    }
  }

  lemma ProductMonotone(a: nat, b: nat, c: nat)
    requires a <= b
    ensures a * c <= b * c
  {
  }

  /** INSERT ... VALUES with `rows` groups of `cols` placeholders, bound to `params`. */
  datatype Statement<R> = Statement(rows: seq<R>, placeholders: nat, params: seq<Value>)

  function Params<R>(bind: R -> seq<Value>, rows: seq<R>): seq<Value> {
    if rows == [] then [] else bind(rows[0]) + Params(bind, rows[1..])
  }

  /** The engine deals the parameters out to the groups of placeholders in order. */
  function Regrouped(params: seq<Value>, cols: nat): seq<seq<Value>>
    requires cols > 0
    decreases |params|
  {
    if |params| < cols then [] else [params[..cols]] + Regrouped(params[cols..], cols)
  }

  lemma {:induction false} ParamsRegrouped<R(!new)>(bind: R -> seq<Value>, rows: seq<R>, cols: nat)
    requires cols > 0 && forall r :: r in rows ==> |bind(r)| == cols
    ensures Regrouped(Params(bind, rows), cols) == Map(bind, rows)
  {
    if rows != [] {
      ParamsRegrouped(bind, rows[1..], cols);
      assert rows[0] in rows;
      var params := Params(bind, rows);
      assert params[..cols] == bind(rows[0]) && params[cols..] == Params(bind, rows[1..]);
    }
  }

  lemma {:induction false} ParamsAppend<R>(bind: R -> seq<Value>, a: seq<R>, b: seq<R>)
    ensures Params(bind, a + b) == Params(bind, a) + Params(bind, b)
  {
    if a == [] {
      assert a + b == b;
    } else {
      ParamsAppend(bind, a[1..], b);
      assert (a + b)[0] == a[0] && (a + b)[1..] == a[1..] + b;
      Assoc(bind(a[0]), Params(bind, a[1..]), Params(bind, b));
    }
  }

  /** The rows of values that land in the table. */
  function Landed<R>(statements: seq<Statement<R>>, cols: nat): seq<seq<Value>>
    requires cols > 0
  {
    if statements == [] then []
    else Landed(statements[..|statements| - 1], cols) + Regrouped(statements[|statements| - 1].params, cols)
  }

  function RowsIn<R>(statements: seq<Statement<R>>): seq<R> {
    if statements == [] then [] else RowsIn(statements[..|statements| - 1]) + statements[|statements| - 1].rows
  }

  /** One statement of a chunked insert. */
  ghost predicate WellFormed<R>(s: Statement<R>, cols: nat, bind: R -> seq<Value>) {
    && 0 < |s.rows| <= ChunkRows(cols)
    && s.params == Params(bind, s.rows)
    && |s.params| == s.placeholders == |s.rows| * cols <= MAX_PARAMS
  }

  lemma OneMore(n: nat, cols: nat)
    requires n > 0
    ensures n * cols == cols + (n - 1) * cols
  {
  }

  lemma {:induction false} ParamsSize<R(!new)>(bind: R -> seq<Value>, rows: seq<R>, cols: nat)
    requires forall r :: r in rows ==> |bind(r)| == cols
    ensures |Params(bind, rows)| == |rows| * cols
  {
    if rows != [] {
      ParamsSize(bind, rows[1..], cols);
      assert rows[0] in rows;
      assert |Params(bind, rows)| == cols + |Params(bind, rows[1..])|;
      hide *;
      OneMore(|rows|, cols);
    }
  }

  lemma RowsInSnoc<R>(statements: seq<Statement<R>>, s: Statement<R>)
    ensures RowsIn(statements + [s]) == RowsIn(statements) + s.rows
  {
    assert (statements + [s])[..|statements|] == statements;
  }

  lemma StatementFits<R(!new)>(bind: R -> seq<Value>, group: seq<R>, cols: nat)
    requires 0 < |group| <= ChunkRows(cols) && |Params(bind, group)| == |group| * cols
    ensures WellFormed(Statement(group, |group| * cols, Params(bind, group)), cols, bind)
  {
    ProductMonotone(|group|, ChunkRows(cols), cols);
  }

  lemma GroupFills<R(!new)>(bind: R -> seq<Value>, rows: seq<R>, group: seq<R>, cols: nat)
    requires forall row :: row in group ==> row in rows
    requires |Params(bind, group)| != |group| * cols
    ensures exists row :: row in rows && |bind(row)| != cols
  {
    if forall row :: row in group ==> |bind(row)| == cols {
      ParamsSize(bind, group, cols);
      assert false;
    }
  }

  datatype Outcome = Inserted(total: nat) | Failed | Panicked

  /** `insert_chunked`. A statement whose parameters do not fill its placeholders is refused by the engine, which may
      also fail on its own (`healthy` is false); a width over the limit makes the chunk size zero, on which slicing
      panics. The statements that ran hold the rows in order, none twice, and all of them unless it failed. */
  method InsertChunked<R(!new)>(rows: seq<R>, cols: nat, bind: R -> seq<Value>, healthy: bool)
    returns (statements: seq<Statement<R>>, r: Outcome)
    ensures r.Panicked? <==> rows != [] && cols > MAX_PARAMS
    ensures forall i :: 0 <= i < |statements| ==> WellFormed(statements[i], cols, bind)
    ensures RowsIn(statements) <= rows
    ensures r.Inserted? ==> RowsIn(statements) == rows && r.total == |rows|
    ensures healthy && (forall row :: row in rows ==> |bind(row)| == cols) ==> !r.Failed?
  {
    statements := [];
    assert RowsIn(statements) == [];
    if rows == [] {
      return statements, Inserted(0);
    }
    var chunk := ChunkRows(cols);
    if chunk == 0 {
      return statements, Panicked;
    }
    var done, affected := 0, 0;
    hide *;
    while done < |rows|
      invariant 0 <= done == affected <= |rows|
      invariant RowsIn(statements) == rows[..done]
      invariant forall i :: 0 <= i < |statements| ==> WellFormed(statements[i], cols, bind)
    {
      var next := if |rows| - done < chunk then |rows| else done + chunk;
      var group := rows[done..next];
      var s := Statement(group, |group| * cols, Params(bind, group));
      if |s.params| != s.placeholders {
        GroupFills(bind, rows, group, cols);
        return statements, Failed;
      }
      var works: bool := *;
      if !healthy && !works {
        return statements, Failed;
      }
      StatementFits(bind, group, cols);
      RowsInSnoc(statements, s);
      assert rows[..next] == rows[..done] + group;
      statements := statements + [s];
      affected := affected + |group|;
      done := next;
    }
    assert rows[..done] == rows;
    r := Inserted(affected);
  }

  /** Rows that bind one value for each column land as they were bound. */
  lemma {:induction false} LandsAligned<R(!new)>(statements: seq<Statement<R>>, cols: nat, bind: R -> seq<Value>)
    requires cols > 0 && (forall i :: 0 <= i < |statements|
                           ==> statements[i].params == Params(bind, statements[i].rows))
    requires forall row :: row in RowsIn(statements) ==> |bind(row)| == cols
    ensures Landed(statements, cols) == Map(bind, RowsIn(statements))
  {
    if statements == [] {
      return;
    }
    var front, last := statements[..|statements| - 1], statements[|statements| - 1];
    assert RowsIn(statements) == RowsIn(front) + last.rows;
    forall row | row in RowsIn(front) || row in last.rows
      ensures |bind(row)| == cols
    {
      assert row in RowsIn(statements);
    }
    LandsAligned(front, cols, bind);
    ParamsRegrouped(bind, last.rows, cols);
    MapAppend(bind, RowsIn(front), last.rows);
    hide Map, Params, Regrouped;
  }

  /** No larger chunk would do: it is either the full 500 rows, or one more row would pass the limit. */
  lemma WideRowsStillFit(cols: nat)
    requires 1 <= cols <= MAX_PARAMS
    ensures 1 <= ChunkRows(cols)
    ensures ChunkRows(cols) == CHUNK_ROWS || (ChunkRows(cols) + 1) * cols > MAX_PARAMS
  {
    var q := MAX_PARAMS / cols;
    assert MAX_PARAMS == q * cols + MAX_PARAMS % cols;
    assert (q + 1) * cols == q * cols + cols;
  }
}
