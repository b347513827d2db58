/** In-memory tables as the sales engine sees them after pandas has read a
    file, and the per-cell conversions it applies to them. What pandas does
    to bytes and to cell text (reading a spreadsheet or a delimited file,
    `to_numeric`, `to_datetime`) is not modelled: a `Readers` value stands
    for it and is passed in. */
module Tables {
  import opened Values

  type Bytes = seq<bv8>

  /** A cell: missing (NaN / None), or present with its text. */
  datatype Cell = Empty | Value(text: string)

  /** A row maps column names to cells; a column the row lacks reads as
      missing, which is what `pd.concat` puts there. */
  type Row = map<string, Cell>

  datatype Table = Table(columns: seq<string>, rows: seq<Row>)

  /** The pandas readers the engine calls, each giving `None` where pandas
      raises or yields NaN / NaT:
      `excel` is `pd.read_excel`, `csv` is `pd.read_csv`,
      `number` is `pd.to_numeric` of one cell, and
      `timestamp` is `pd.to_datetime(errors='coerce')` of one cell, as an
      instant on a single integer time line. */
  datatype Readers = Readers(
    excel: Bytes -> Option<Table>,
    csv: Bytes -> Option<Table>,
    number: string -> Option<real>,
    timestamp: string -> Option<int>)

  function CellAt(row: Row, col: string): Cell
  {
    if col in row then row[col] else Empty
  }

  /** `pd.to_numeric(errors='coerce').fillna(0)` on one cell: a missing
      cell or a text that does not read as a number counts as 0. */
  function Coerce(c: Cell, rd: Readers): (v: real)
    ensures v != 0.0 ==> c.Value? && rd.number(c.text) == Some(v)
    ensures c.Value? && rd.number(c.text).Some? ==> v == rd.number(c.text).value
  {
    match c
    case Empty => 0.0
    case Value(t) => if rd.number(t).Some? then rd.number(t).value else 0.0
  }

  /** `pd.to_datetime(errors='coerce')` on one cell: missing stays missing. */
  function Timestamp(c: Cell, rd: Readers): (ts: Option<int>)
    ensures c.Empty? ==> ts.None?
  {
    match c
    case Empty => None
    case Value(t) => rd.timestamp(t)
  }

  /** Python's `int()` of a float: truncation toward zero. */
  function Trunc(x: real): (r: int)
    ensures 0.0 <= x ==> r as real <= x < r as real + 1.0
    ensures x < 0.0 ==> r as real - 1.0 < x <= r as real
  {
    if x >= 0.0 then x.Floor else -((-x).Floor)
  }

  /** A real with no fractional part. */
  predicate IsWhole(x: real)
  {
    x == x.Floor as real
  }

  /** Truncation leaves a whole number as it is. */
  lemma TruncWhole(x: real)
    requires IsWhole(x)
    ensures Trunc(x) as real == x
  {
    var n := x.Floor;
    if x < 0.0 {
      assert -x == (-n) as real;
      assert (-x).Floor == -n;
    }
  }

  /** The stored-file decoder of the cross-file summary: a spreadsheet
      first and, when that fails, delimited text; `None` when both fail. */
  function Decode(content: Bytes, rd: Readers): (t: Option<Table>)
    ensures t.None? <==> rd.excel(content).None? && rd.csv(content).None?
    ensures rd.excel(content).Some? ==> t == rd.excel(content)
    ensures t.Some? && t != rd.excel(content) ==> t == rd.csv(content)
  {
    if rd.excel(content).Some? then rd.excel(content) else rd.csv(content)
  }

  /** A pandas boolean-mask selection: the elements that pass, in order. */
  function Filter<T(!new)>(s: seq<T>, keep: T -> bool): (r: seq<T>)
    ensures |r| <= |s|
    ensures forall x :: x in r <==> x in s && keep(x)
  {
    if s == [] then []
    else Filter(s[..|s| - 1], keep) + (if keep(s[|s| - 1]) then [s[|s| - 1]] else [])
  }

  /** A selection keeps every passing element as often as it occurs and
      drops every other one. */
  lemma {:induction false} FilterCounts<T(!new)>(s: seq<T>, keep: T -> bool)
    ensures forall x :: multiset(Filter(s, keep))[x] == if keep(x) then multiset(s)[x] else 0
  {
    if s != [] {
      var init, last := s[..|s| - 1], s[|s| - 1];
      assert s == init + [last];
      FilterCounts(init, keep);
      assert multiset(s) == multiset(init) + multiset{last};
      assert multiset(Filter(s, keep)) == multiset(Filter(init, keep)) + (if keep(last) then multiset{last} else multiset{});
    }
  }

  /** Selecting from a concatenation selects from each part in turn, so
      the survivors keep their relative order. */
  lemma {:induction false} FilterAppend<T(!new)>(s: seq<T>, t: seq<T>, keep: T -> bool)
    ensures Filter(s + t, keep) == Filter(s, keep) + Filter(t, keep)
  {
    if t != [] {
      var init := t[..|t| - 1];
      assert (s + t)[..|s + t| - 1] == s + init;
      assert (s + t)[|s + t| - 1] == t[|t| - 1];
      FilterAppend(s, init, keep);
    } else {
      assert s + t == s;
    }
  }

  /** A selection every element passes keeps the sequence as it is. */
  lemma {:induction false} FilterKeepsAll<T(!new)>(s: seq<T>, keep: T -> bool)
    requires forall x :: x in s ==> keep(x)
    ensures Filter(s, keep) == s
  {
    if s != [] {
      var init, last := s[..|s| - 1], s[|s| - 1];
      assert init + [last] == s;
      assert forall x :: x in init ==> x in s;
      FilterKeepsAll(init, keep);
      assert keep(last);
    }
  }
}
