/** Cells, rows and SQL's three truth values. */
module Values {
  datatype Value =
    | Null
    | Bool(b: bool)
    | BigInt(i: int)
    | Double(d: real)
    | Text(s: string)
    | Ts(t: int)

  /** A row of any relation; a column that is absent reads as NULL. */
  type Row = map<string, Value>

  function Cell(r: Row, column: string): Value {
    if column in r then r[column] else Null
  }

  /** What a statement takes from the database engine: its clock, the parsing of timestamps (to
      seconds) and of numbers, collation, pattern matching, and comparisons across types. Nothing is assumed
      about them. */
  datatype Engine = Engine(
    now: int,
    parseTs: string -> int,
    parseDouble: string -> real,
    textLess: (string, string) -> bool,
    textLike: (string, string) -> bool,
    mixedEqual: (Value, Value) -> bool,
    mixedLess: (Value, Value) -> bool,
    mixedLike: (Value, Value) -> bool)

  predicate SameValue(eng: Engine, a: Value, b: Value) {
    match (a, b)
    case (BigInt(x), BigInt(y)) => x == y
    case (Double(x), Double(y)) => x == y
    case (Text(x), Text(y)) => x == y
    case (Ts(x), Ts(y)) => x == y
    case _ => eng.mixedEqual(a, b)
  }

  predicate LessValue(eng: Engine, a: Value, b: Value) {
    match (a, b)
    case (BigInt(x), BigInt(y)) => x < y
    case (Double(x), Double(y)) => x < y
    case (Text(x), Text(y)) => eng.textLess(x, y)
    case (Ts(x), Ts(y)) => x < y
    case _ => eng.mixedLess(a, b)
  }

  predicate LikeValue(eng: Engine, a: Value, b: Value) {
    match (a, b)
    case (Text(x), Text(y)) => eng.textLike(x, y)
    case _ => eng.mixedLike(a, b)
  }

  function CastTs(eng: Engine, v: Value): Value {
    match v
    case Text(s) => Ts(eng.parseTs(s))
    case Ts(t) => v
    case _ => Null
  }

  const SECONDS_PER_DAY := 86400

  /** The start of a window of `days` days ending now. */
  function Cutoff(eng: Engine, days: nat): int {
    eng.now - days * SECONDS_PER_DAY
  }

  datatype Tri = True | False | Unknown

  function TriOf(b: bool): Tri {
    if b then True else False
  }

  function TriNot(a: Tri): Tri {
    match a
    case True => False
    case False => True
    case Unknown => Unknown
  }

  function TriAnd(a: Tri, b: Tri): Tri {
    if a.False? || b.False? then False
    else if a.True? && b.True? then True
    else Unknown
  }

  function TriOr(a: Tri, b: Tri): Tri {
    if a.True? || b.True? then True
    else if a.False? && b.False? then False
    else Unknown
  }
}
