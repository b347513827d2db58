/** The cross-file summary (`resumo_periodo`): every stored file is decoded,
    its rows are tagged with the platform its name reveals, and for each of
    the four supported platforms in registry order the rows are filtered by
    date and by cancellation, then summed per SKU into one record per
    (platform, SKU). */
module Period {
  import opened Values
  import opened Text
  import opened Platforms
  import opened Tables
  import opened Storage

  /** A decoded stored file: its lower-cased name (the `__plataforma`
      column) and its table. */
  datatype Loaded = Loaded(origin: string, table: Table)

  /** One output record of the summary. */
  datatype Record = Record(plataforma: Platform, sku: string, quantidade: int, valorTotal: real)

  datatype PeriodResult = PeriodResult(resumo: seq<Record>, mensagem: Option<string>)

  const NoData: string := "Nenhum dado encontrado."

  // ---------------------------------------------------------------------
  // Loading

  /** The files that decode, in storage order, each with its table. */
  function Decoded(files: seq<StoredFile>, rd: Readers): (ds: seq<Loaded>)
    ensures |ds| <= |files|
    ensures forall d :: d in ds ==> LowerStr(d.origin) == d.origin
  {
    if files == [] then []
    else
      var f := files[|files| - 1];
      Decoded(files[..|files| - 1], rd)
        + match Decode(f.conteudo, rd)
          case Some(t) => [Loaded(LowerStr(f.nome), t)]
          case None => []
  }

  /** Nothing decodes exactly when every stored file fails both readers. */
  lemma {:induction false} DecodedEmptyIff(files: seq<StoredFile>, rd: Readers)
    ensures Decoded(files, rd) == [] <==>
      forall i :: 0 <= i < |files| ==> Decode(files[i].conteudo, rd).None?
  {
    if files != [] {
      var init := files[..|files| - 1];
      DecodedEmptyIff(init, rd);
      assert forall i :: 0 <= i < |init| ==> init[i] == files[i];
    }
  }

  /** Every decoded table comes from a stored file, under that file's
      lower-cased name, and is what the decoder gives for its bytes. */
  lemma {:induction false} DecodedFromFiles(files: seq<StoredFile>, rd: Readers, d: Loaded)
    requires d in Decoded(files, rd)
    ensures exists i :: 0 <= i < |files| && d.origin == LowerStr(files[i].nome)
                        && Decode(files[i].conteudo, rd) == Some(d.table)
  {
    var init := files[..|files| - 1];
    var f := files[|files| - 1];
    if d in Decoded(init, rd) {
      DecodedFromFiles(init, rd, d);
      var i :| 0 <= i < |init| && d.origin == LowerStr(init[i].nome)
               && Decode(init[i].conteudo, rd) == Some(d.table);
      assert init[i] == files[i];
    } else {
      assert d.origin == LowerStr(f.nome) && Decode(f.conteudo, rd) == Some(d.table);
    }
  }

  /** Loading distributes over the stored files: the tables of a longer
      sequence are those of its first part followed by those of the rest. */
  lemma {:induction false} DecodedAppend(a: seq<StoredFile>, b: seq<StoredFile>, rd: Readers)
    ensures Decoded(a + b, rd) == Decoded(a, rd) + Decoded(b, rd)
    decreases |b|
  {
    if b == [] {
      assert a + b == a;
    } else {
      var init := b[..|b| - 1];
      assert (a + b)[..|a + b| - 1] == a + init;
      assert (a + b)[|a + b| - 1] == b[|b| - 1];
      DecodedAppend(a, init, rd);
    }
  }

  /** One stored file gives its table, under its lower-cased name, when
      either reader accepts it, and nothing otherwise. */
  lemma DecodedSingle(f: StoredFile, rd: Readers)
    ensures Decoded([f], rd) == match Decode(f.conteudo, rd)
                                case Some(t) => [Loaded(LowerStr(f.nome), t)]
                                case None => []
  {
    assert [f][..0] == [];
  }

  /** No readable file is skipped: every stored file that decodes has its
      table among the loaded ones. */
  lemma DecodedKeeps(files: seq<StoredFile>, rd: Readers, i: nat)
    requires i < |files| && Decode(files[i].conteudo, rd).Some?
    ensures Loaded(LowerStr(files[i].nome), Decode(files[i].conteudo, rd).value) in Decoded(files, rd)
  {
    var f := files[i];
    assert files == files[..i] + [f] + files[i + 1..];
    DecodedAppend(files[..i] + [f], files[i + 1..], rd);
    DecodedAppend(files[..i], [f], rd);
    DecodedSingle(f, rd);
  }

  /** The loading loop: a spreadsheet first, then delimited text, and a file
      that fails both is skipped. */
  method LoadAll(files: seq<StoredFile>, rd: Readers) returns (dfs: seq<Loaded>)
    ensures dfs == Decoded(files, rd)
  {
    dfs := [];
    for i := 0 to |files|
      invariant dfs == Decoded(files[..i], rd)
    {
      assert files[..i + 1][..i] == files[..i];
      var arq := files[i];
      var df := rd.excel(arq.conteudo);
      if df.None? {
        df := rd.csv(arq.conteudo);
        if df.None? {
          continue;
        }
      }
      dfs := dfs + [Loaded(LowerStr(arq.nome), df.value)];
    }
    assert files[..|files|] == files;
  }

  // ---------------------------------------------------------------------
  // Concatenation and platform tagging

  /** A row of the concatenated table with the platform detected from its
      file's name. */
  datatype Tagged = Tagged(platform: Platform, row: Row)

  /** One decoded file's rows, each tagged with the platform its name
      reveals. */
  function TagRows(d: Loaded): (ts: seq<Tagged>)
    ensures |ts| == |d.table.rows|
    ensures forall x :: x in ts <==> x.platform == Detect(d.origin) && x.row in d.table.rows
  {
    var ts := seq(|d.table.rows|, j requires 0 <= j < |d.table.rows| => Tagged(Detect(d.origin), d.table.rows[j]));
    assert forall j :: 0 <= j < |d.table.rows| ==> ts[j] in ts && ts[j] == Tagged(Detect(d.origin), d.table.rows[j]);
    ts
  }

  /** `pd.concat` of the decoded tables, rows in file order. */
  function TaggedRows(dfs: seq<Loaded>): seq<Tagged>
  {
    if dfs == [] then [] else TaggedRows(dfs[..|dfs| - 1]) + TagRows(dfs[|dfs| - 1])
  }

  /** The columns of the concatenated table: those of every decoded file. */
  function ColumnUnion(dfs: seq<Loaded>): set<string>
  {
    if dfs == [] then {} else ColumnUnion(dfs[..|dfs| - 1]) + ColumnSet(dfs[|dfs| - 1].table.columns)
  }

  function ColumnSet(columns: seq<string>): (s: set<string>)
    ensures forall c :: c in s <==> c in columns
  {
    if columns == [] then {} else {columns[0]} + ColumnSet(columns[1..])
  }

  /** The concatenation distributes over the decoded files, so rows keep
      their file order. */
  lemma {:induction false} TaggedRowsAppend(a: seq<Loaded>, b: seq<Loaded>)
    ensures TaggedRows(a + b) == TaggedRows(a) + TaggedRows(b)
    decreases |b|
  {
    if b == [] {
      assert a + b == a;
    } else {
      var init := b[..|b| - 1];
      assert (a + b)[..|a + b| - 1] == a + init;
      assert (a + b)[|a + b| - 1] == b[|b| - 1];
      TaggedRowsAppend(a, init);
    }
  }

  /** A row is in the concatenated table with platform `p` iff it is a row
      of some decoded file whose name reveals `p`. */
  lemma {:induction false} TaggedRowsMembership(dfs: seq<Loaded>, p: Platform, r: Row)
    ensures Tagged(p, r) in TaggedRows(dfs) <==>
      exists d :: d in dfs && Detect(d.origin) == p && r in d.table.rows
  {
    if dfs != [] {
      var init, last := dfs[..|dfs| - 1], dfs[|dfs| - 1];
      assert dfs == init + [last];
      TaggedRowsMembership(init, p, r);
      if Tagged(p, r) in TaggedRows(init) {
        var d :| d in init && Detect(d.origin) == p && r in d.table.rows;
        assert d in dfs;
      } else if Tagged(p, r) in TagRows(last) {
        assert last in dfs;
      } else {
        forall d | d in dfs ensures !(Detect(d.origin) == p && r in d.table.rows) {
          if d != last {
            assert d in init;
          }
        }
      }
    }
  }

  /** A column belongs to the concatenated table iff some decoded file has
      it. */
  lemma {:induction false} ColumnUnionMembership(dfs: seq<Loaded>, c: string)
    ensures c in ColumnUnion(dfs) <==> exists d :: d in dfs && c in d.table.columns
  {
    if dfs != [] {
      var init, last := dfs[..|dfs| - 1], dfs[|dfs| - 1];
      assert dfs == init + [last];
      ColumnUnionMembership(init, c);
      if c in ColumnUnion(init) {
        var d :| d in init && c in d.table.columns;
        assert d in dfs;
      } else if c in last.table.columns {
        assert last in dfs;
      } else {
        forall d | d in dfs ensures c !in d.table.columns {
          if d != last {
            assert d in init;
          }
        }
      }
    }
  }

  /** `df_all[df_all['plataforma'] == p]`: the rows tagged `p`, in order. */
  function RowsOf(all: seq<Tagged>, p: Platform): (rows: seq<Row>)
    ensures |rows| <= |all|
    ensures forall r :: r in rows <==> Tagged(p, r) in all
  {
    if all == [] then []
    else
      var t := all[|all| - 1];
      RowsOf(all[..|all| - 1], p) + (if t.platform == p then [t.row] else [])
  }

  /** Each row is selected as often as it was tagged `p`: a file uploaded
      twice contributes its rows twice. */
  lemma {:induction false} RowsOfCounts(all: seq<Tagged>, p: Platform)
    ensures forall r :: multiset(RowsOf(all, p))[r] == multiset(all)[Tagged(p, r)]
  {
    if all != [] {
      var init, t := all[..|all| - 1], all[|all| - 1];
      assert all == init + [t];
      RowsOfCounts(init, p);
      assert multiset(all) == multiset(init) + multiset{t};
      assert multiset(RowsOf(all, p)) == multiset(RowsOf(init, p)) + (if t.platform == p then multiset{t.row} else multiset{});
    }
  }

  /** Selecting from a concatenation selects from each part in turn, so
      the rows keep their relative order. */
  lemma {:induction false} RowsOfAppend(all: seq<Tagged>, more: seq<Tagged>, p: Platform)
    ensures RowsOf(all + more, p) == RowsOf(all, p) + RowsOf(more, p)
  {
    if more != [] {
      var init := more[..|more| - 1];
      assert (all + more)[..|all + more| - 1] == all + init;
      assert (all + more)[|all + more| - 1] == more[|more| - 1];
      RowsOfAppend(all, init, p);
    } else {
      assert all + more == all;
    }
  }

  // ---------------------------------------------------------------------
  // Filters

  /** The date test: each bound that is set must hold, inclusively, and a
      missing or unparseable date fails every bound that is set. */
  predicate WithinBounds(ts: Option<int>, lo: Option<int>, hi: Option<int>)
    ensures ts.None? ==> (WithinBounds(ts, lo, hi) <==> lo.None? && hi.None?)
    ensures lo.None? && hi.None? ==> WithinBounds(ts, lo, hi)
    ensures ts.Some? && lo.Some? && hi.Some? ==>
      (WithinBounds(ts, lo, hi) <==> lo.value <= ts.value <= hi.value)
  {
    && (lo.None? || (ts.Some? && lo.value <= ts.value))
    && (hi.None? || (ts.Some? && ts.value <= hi.value))
  }

  /** The status text, lower-cased, contains "cancel". A missing cell reads
      as "nan", which never does. */
  predicate Cancelled(c: Cell)
  {
    c.Value? && Contains(LowerStr(c.text), "cancel")
  }

  /** `df_p[df_p[data] >= inicio]` then `df_p[df_p[data] <= fim]` for
      the bounds that are set: the rows whose parsed date meets them, in
      order. */
  function DateFilter(rows: seq<Row>, col: string, lo: Option<int>, hi: Option<int>, rd: Readers): (kept: seq<Row>)
    ensures |kept| <= |rows|
    ensures forall r :: r in kept <==> r in rows && WithinBounds(Timestamp(CellAt(r, col), rd), lo, hi)
  {
    Filter(rows, (r: Row) => WithinBounds(Timestamp(CellAt(r, col), rd), lo, hi))
  }

  /** `df_p[~df_p[status].astype(str).str.lower().str.contains('cancel')]`:
      the rows that are not cancelled, in order. */
  function StatusFilter(rows: seq<Row>, col: string): (kept: seq<Row>)
    ensures |kept| <= |rows|
    ensures forall r :: r in kept <==> r in rows && !Cancelled(CellAt(r, col))
  {
    Filter(rows, (r: Row) => !Cancelled(CellAt(r, col)))
  }

  /** A reference reading of the status test: the text spells "cancel",
      in some mix of cases, somewhere. */
  lemma CancelledIffSpelled(t: string)
    ensures Cancelled(Value(t)) <==> exists a, k, b :: t == a + k + b && LowerStr(k) == "cancel"
  {
    if Cancelled(Value(t)) {
      ContainsIffOccurs(LowerStr(t), "cancel");
      var i :| 0 <= i <= |t| && "cancel" <= LowerStr(t)[i..];
      var a, k, b := t[..i], t[i..i + 6], t[i + 6..];
      assert t == a + k + b;
      assert LowerStr(k) == LowerStr(t)[i..][..6];
    }
    if exists a, k, b :: t == a + k + b && LowerStr(k) == "cancel" {
      var a, k, b :| t == a + k + b && LowerStr(k) == "cancel";
      ContainsAnyCase(a, k, b, "cancel");
    }
  }

  function SchemaOf(p: Platform): Schema
    requires p != Outro
  {
    ColumnsMap(p).value
  }

  /** The rows of platform `p` that reach the grouping step. */
  ghost function Survivors(p: Platform, sch: Schema, all: seq<Tagged>, cols: set<string>,
                           lo: Option<int>, hi: Option<int>, rd: Readers): (rows: seq<Row>)
    ensures |rows| <= |all|
  {
    var dfp := RowsOf(all, p);
    var dated := if sch.data in cols then DateFilter(dfp, sch.data, lo, hi, rd) else dfp;
    if sch.status in cols then StatusFilter(dated, sch.status) else dated
  }

  /** A row reaches the grouping step exactly when it is tagged with the
      platform, meets every date bound that is set (when the date column
      exists) and is not cancelled (when the status column exists). */
  lemma SurvivorsMembership(p: Platform, sch: Schema, all: seq<Tagged>, cols: set<string>,
                            lo: Option<int>, hi: Option<int>, rd: Readers)
    ensures forall r :: r in Survivors(p, sch, all, cols, lo, hi, rd) <==>
      && Tagged(p, r) in all
      && (sch.data in cols ==> WithinBounds(Timestamp(CellAt(r, sch.data), rd), lo, hi))
      && (sch.status in cols ==> !Cancelled(CellAt(r, sch.status)))
  {
  }

  /** With neither bound set the date filter keeps every row, dated or not. */
  lemma UnboundedDateFilter(rows: seq<Row>, col: string, rd: Readers)
    ensures DateFilter(rows, col, None, None, rd) == rows
  {
    FilterKeepsAll(rows, (r: Row) => WithinBounds(Timestamp(CellAt(r, col), rd), None, None));
  }

  /** A status that spells "cancel" in any mix of cases, anywhere in its
      text, keeps the row out of the summary whenever the status column
      exists. */
  lemma CancelledAnyCase(p: Platform, sch: Schema, all: seq<Tagged>, cols: set<string>,
                         lo: Option<int>, hi: Option<int>, rd: Readers,
                         r: Row, a: string, k: string, b: string)
    requires sch.status in cols
    requires CellAt(r, sch.status) == Value(a + k + b)
    requires LowerStr(k) == "cancel"
    ensures r !in Survivors(p, sch, all, cols, lo, hi, rd)
  {
    ContainsAnyCase(a, k, b, "cancel");
    SurvivorsMembership(p, sch, all, cols, lo, hi, rd);
  }

  // ---------------------------------------------------------------------
  // Grouping

  /** The group key of a row: its SKU text; a missing SKU has none, and
      `groupby` leaves such rows out. */
  function SkuOf(row: Row, skuCol: string): Option<string>
  {
    match CellAt(row, skuCol)
    case Empty => None
    case Value(t) => Some(t)
  }

  /** The distinct SKUs of the rows. */
  function Skus(rows: seq<Row>, skuCol: string): set<string>
  {
    if rows == [] then {}
    else Skus(rows[..|rows| - 1], skuCol) + KeySet(rows[|rows| - 1], skuCol)
  }

  function KeySet(row: Row, skuCol: string): set<string>
  {
    match SkuOf(row, skuCol) case Some(k) => {k} case None => {}
  }

  /** A SKU is among the keys exactly when some row carries it. */
  lemma {:induction false} SkusMembership(rows: seq<Row>, skuCol: string, k: string)
    ensures k in Skus(rows, skuCol) <==> exists r :: r in rows && SkuOf(r, skuCol) == Some(k)
  {
    if rows != [] {
      var init, last := rows[..|rows| - 1], rows[|rows| - 1];
      SkusMembership(init, skuCol, k);
      assert forall r :: r in rows <==> r in init || r == last by {
        assert rows == init + [last];
      }
    }
  }

  lemma SkusSnoc(rows: seq<Row>, r: Row, skuCol: string)
    ensures Skus(rows + [r], skuCol) == Skus(rows, skuCol) + KeySet(r, skuCol)
  {
    assert (rows + [r])[..|rows|] == rows;
  }

  lemma KeySumSnoc(rows: seq<Row>, r: Row, skuCol: string, col: string, k: string, rd: Readers)
    ensures KeySum(rows + [r], skuCol, col, k, rd) ==
      KeySum(rows, skuCol, col, k, rd) + (if SkuOf(r, skuCol) == Some(k) then Coerce(CellAt(r, col), rd) else 0.0)
  {
    assert (rows + [r])[..|rows|] == rows;
  }

  /** The sum of the coerced `col` cells over the rows whose SKU is `k`. */
  function KeySum(rows: seq<Row>, skuCol: string, col: string, k: string, rd: Readers): real
  {
    if rows == [] then 0.0
    else
      var last := rows[|rows| - 1];
      KeySum(rows[..|rows| - 1], skuCol, col, k, rd)
        + (if SkuOf(last, skuCol) == Some(k) then Coerce(CellAt(last, col), rd) else 0.0)
  }

  /** The sum of the coerced `col` cells over every row that has a SKU. */
  function KeyedTotal(rows: seq<Row>, skuCol: string, col: string, rd: Readers): real
  {
    if rows == [] then 0.0
    else
      var last := rows[|rows| - 1];
      KeyedTotal(rows[..|rows| - 1], skuCol, col, rd)
        + (if SkuOf(last, skuCol).Some? then Coerce(CellAt(last, col), rd) else 0.0)
  }

  lemma {:induction false} KeySumAbsent(rows: seq<Row>, skuCol: string, col: string, k: string, rd: Readers)
    requires k !in Skus(rows, skuCol)
    ensures KeySum(rows, skuCol, col, k, rd) == 0.0
  {
    if rows != [] {
      KeySumAbsent(rows[..|rows| - 1], skuCol, col, k, rd);
    }
  }

  /** Inserting a new key into a strictly sorted key list at its place. */
  method InsertSorted(keys: seq<string>, k: string) returns (r: seq<string>)
    requires StrictlySorted(keys) && k !in keys
    ensures StrictlySorted(r)
    ensures forall x :: x in r <==> x in keys || x == k
  {
    var i := 0;
    while i < |keys| && StrLess(keys[i], k)
      invariant 0 <= i <= |keys|
      invariant forall j :: 0 <= j < i ==> StrLess(keys[j], k)
    {
      i := i + 1;
    }
    InsertAt(keys, k, i);
    r := keys[..i] + [k] + keys[i..];
  }

  /** Placing a new key right after the keys below it keeps the sequence
      strictly sorted and adds exactly that key. */
  lemma InsertAt(keys: seq<string>, k: string, i: nat)
    requires StrictlySorted(keys) && k !in keys && i <= |keys|
    requires forall j :: 0 <= j < i ==> StrLess(keys[j], k)
    requires i < |keys| ==> !StrLess(keys[i], k)
    ensures StrictlySorted(keys[..i] + [k] + keys[i..])
    ensures forall x :: x in keys[..i] + [k] + keys[i..] <==> x in keys || x == k
  {
    AboveSplit(keys, k, i);
    var lo, hi := keys[..i], keys[i..];
    assert StrictlySorted(lo) by {
      forall x, y | 0 <= x < y < |lo| ensures StrLess(lo[x], lo[y]) {
        assert lo[x] == keys[x] && lo[y] == keys[y];
      }
    }
    assert StrictlySorted(hi) by {
      forall x, y | 0 <= x < y < |hi| ensures StrLess(hi[x], hi[y]) {
        assert hi[x] == keys[i + x] && hi[y] == keys[i + y];
      }
    }
    SortedAround(lo, k, hi);
    assert keys == lo + hi;
  }

  /** Sorted keys below a key, then that key, then sorted keys above it,
      form a sorted sequence. */
  lemma SortedAround(lo: seq<string>, k: string, hi: seq<string>)
    requires StrictlySorted(lo) && StrictlySorted(hi)
    requires forall j :: 0 <= j < |lo| ==> StrLess(lo[j], k)
    requires forall j :: 0 <= j < |hi| ==> StrLess(k, hi[j])
    ensures StrictlySorted(lo + [k] + hi)
  {
    var r := lo + [k] + hi;
    var n := |lo|;
    forall x, y | 0 <= x < y < |r| ensures StrLess(r[x], r[y]) {
      if y < n {
        assert r[x] == lo[x] && r[y] == lo[y];
      } else if y == n {
        assert r[x] == lo[x] && r[y] == k;
      } else if x < n {
        assert r[x] == lo[x] && r[y] == hi[y - n - 1];
        StrLessTransitive(lo[x], k, hi[y - n - 1]);
      } else if x == n {
        assert r[x] == k && r[y] == hi[y - n - 1];
      } else {
        assert r[x] == hi[x - n - 1] && r[y] == hi[y - n - 1];
      }
    }
  }

  /** Every key from the insertion point on sorts above the new key. */
  lemma AboveSplit(keys: seq<string>, k: string, i: nat)
    requires StrictlySorted(keys) && k !in keys && i <= |keys|
    requires i < |keys| ==> !StrLess(keys[i], k)
    ensures forall j :: i <= j < |keys| ==> StrLess(k, keys[j])
  {
    if i < |keys| {
      StrLessTotal(keys[i], k);
      forall j | i < j < |keys|
        ensures StrLess(k, keys[j])
      {
        StrLessTransitive(k, keys[i], keys[j]);
      }
    }
  }

  /** `groupby(sku).agg(sum)`: the distinct SKUs in sorted order, and per
      SKU the sums of the coerced quantity and value cells. */
  method GroupBySku(rows: seq<Row>, sch: Schema, rd: Readers)
    returns (keys: seq<string>, qty: map<string, real>, val: map<string, real>)
    ensures StrictlySorted(keys)
    ensures forall k :: k in keys <==> k in Skus(rows, sch.sku)
    ensures qty.Keys == Skus(rows, sch.sku) && val.Keys == Skus(rows, sch.sku)
    ensures forall k :: k in qty ==> qty[k] == KeySum(rows, sch.sku, sch.qtd, k, rd)
    ensures forall k :: k in val ==> val[k] == KeySum(rows, sch.sku, sch.valor, k, rd)
  {
    keys, qty, val := [], map[], map[];
    for i := 0 to |rows|
      invariant StrictlySorted(keys)
      invariant forall k :: k in keys <==> k in Skus(rows[..i], sch.sku)
      invariant Sums(qty, rows[..i], sch.sku, sch.qtd, rd)
      invariant Sums(val, rows[..i], sch.sku, sch.valor, rd)
    {
      var row := rows[i];
      assert rows[..i + 1] == rows[..i] + [row];
      SkusSnoc(rows[..i], row, sch.sku);
      SumsSnoc(qty, rows[..i], row, sch.sku, sch.qtd, rd);
      SumsSnoc(val, rows[..i], row, sch.sku, sch.valor, rd);
      if SkuOf(row, sch.sku).Some? {
        var k := SkuOf(row, sch.sku).value;
        if k !in qty {
          keys := InsertSorted(keys, k);
        }
        qty := qty[k := (if k in qty then qty[k] else 0.0) + Coerce(CellAt(row, sch.qtd), rd)];
        val := val[k := (if k in val then val[k] else 0.0) + Coerce(CellAt(row, sch.valor), rd)];
      }
    }
    assert rows[..|rows|] == rows;
  }

  /** `m` holds, per SKU of the rows, the sum of their coerced `col` cells. */
  ghost predicate Sums(m: map<string, real>, rows: seq<Row>, skuCol: string, col: string, rd: Readers)
  {
    && m.Keys == Skus(rows, skuCol)
    && forall k :: k in m ==> m[k] == KeySum(rows, skuCol, col, k, rd)
  }

  /** One more row adds its coerced cell to its own SKU's sum, opening that
      sum at 0 when the SKU is new, and leaves every other sum alone. */
  lemma SumsSnoc(m: map<string, real>, rows: seq<Row>, r: Row, skuCol: string, col: string, rd: Readers)
    requires Sums(m, rows, skuCol, col, rd)
    ensures SkuOf(r, skuCol).None? ==> Sums(m, rows + [r], skuCol, col, rd)
    ensures SkuOf(r, skuCol).Some? ==>
      var k := SkuOf(r, skuCol).value;
      Sums(m[k := (if k in m then m[k] else 0.0) + Coerce(CellAt(r, col), rd)], rows + [r], skuCol, col, rd)
  {
    SkusSnoc(rows, r, skuCol);
    forall k ensures KeySum(rows + [r], skuCol, col, k, rd) ==
        KeySum(rows, skuCol, col, k, rd) + (if SkuOf(r, skuCol) == Some(k) then Coerce(CellAt(r, col), rd) else 0.0)
    {
      KeySumSnoc(rows, r, skuCol, col, k, rd);
    }
    if SkuOf(r, skuCol).Some? {
      var k := SkuOf(r, skuCol).value;
      if k !in m {
        KeySumAbsent(rows, skuCol, col, k, rd);
      }
    }
  }

  // ---------------------------------------------------------------------
  // Per-platform records

  /** The quantity, value and SKU columns are all present, so the platform
      is grouped at all. */
  predicate Grouped(sch: Schema, cols: set<string>)
  {
    sch.sku in cols && sch.qtd in cols && sch.valor in cols
  }

  /** `rec` is the group total of its SKU over `rows`: the quantity is the
      truncated sum of the coerced quantities, the value the sum of the
      coerced values. */
  ghost predicate IsGroupTotal(rec: Record, rows: seq<Row>, sch: Schema, rd: Readers)
  {
    && rec.sku in Skus(rows, sch.sku)
    && rec.quantidade == Trunc(KeySum(rows, sch.sku, sch.qtd, rec.sku, rd))
    && rec.valorTotal == KeySum(rows, sch.sku, sch.valor, rec.sku, rd)
  }

  /** The records of one platform: all tagged `p`, one group total per SKU
      of the surviving rows, sorted by SKU, none at all unless grouped. */
  ghost predicate PlatformRecords(recs: seq<Record>, p: Platform, rows: seq<Row>, sch: Schema,
                                  grouped: bool, rd: Readers)
  {
    && (forall i :: 0 <= i < |recs| ==>
          recs[i].plataforma == p && grouped && IsGroupTotal(recs[i], rows, sch, rd))
    && (forall i, j :: 0 <= i < j < |recs| ==> StrLess(recs[i].sku, recs[j].sku))
    && (grouped ==> forall k :: k in Skus(rows, sch.sku) ==>
          exists i :: 0 <= i < |recs| && recs[i].sku == k)
  }

  /** One iteration of the per-platform loop: select the platform's rows,
      filter them by date and by status when those columns exist, and emit
      one record per SKU when the SKU, quantity and value columns exist. */
  method SummarizePlatform(p: Platform, all: seq<Tagged>, cols: set<string>,
                           lo: Option<int>, hi: Option<int>, rd: Readers) returns (recs: seq<Record>)
    requires p != Outro
    ensures PlatformRecords(recs, p, Survivors(p, SchemaOf(p), all, cols, lo, hi, rd),
                            SchemaOf(p), Grouped(SchemaOf(p), cols), rd)
  {
    var sch := SchemaOf(p);
    ghost var survivors := Survivors(p, sch, all, cols, lo, hi, rd);
    recs := [];
    var dfp := RowsOf(all, p);
    if |dfp| == 0 {
      assert survivors == [];
      return;
    }
    if sch.data in cols {
      dfp := DateFilter(dfp, sch.data, lo, hi, rd);
    }
    if sch.status in cols {
      dfp := StatusFilter(dfp, sch.status);
    }
    assert dfp == survivors;
    if Grouped(sch, cols) {
      recs := GroupRecords(p, dfp, sch, rd);
    }
  }

  /** The grouping step of one platform and the loop appending one record
      per group (`resumo.iterrows()`): the quantity truncated to an
      integer, the value kept as it is. */
  method GroupRecords(p: Platform, rows: seq<Row>, sch: Schema, rd: Readers) returns (recs: seq<Record>)
    ensures PlatformRecords(recs, p, rows, sch, true, rd)
  {
    var keys, qty, val := GroupBySku(rows, sch, rd);
    recs := [];
    for j := 0 to |keys|
      invariant |recs| == j
      invariant forall t :: 0 <= t < j ==> recs[t] == Record(p, keys[t], Trunc(qty[keys[t]]), val[keys[t]])
    {
      var k := keys[j];
      recs := recs + [Record(p, k, Trunc(qty[k]), val[k])];
    }
    GroupsAreRecords(recs, p, keys, qty, val, rows, sch, rd);
  }

  /** The records emitted from the groups of `rows` are that platform's
      records. */
  lemma GroupsAreRecords(recs: seq<Record>, p: Platform, keys: seq<string>,
                         qty: map<string, real>, val: map<string, real>,
                         rows: seq<Row>, sch: Schema, rd: Readers)
    requires StrictlySorted(keys)
    requires forall k :: k in keys <==> k in Skus(rows, sch.sku)
    requires qty.Keys == Skus(rows, sch.sku) && val.Keys == Skus(rows, sch.sku)
    requires forall k :: k in qty ==> qty[k] == KeySum(rows, sch.sku, sch.qtd, k, rd)
    requires forall k :: k in val ==> val[k] == KeySum(rows, sch.sku, sch.valor, k, rd)
    requires |recs| == |keys|
    requires forall t :: 0 <= t < |keys| ==> recs[t] == Record(p, keys[t], Trunc(qty[keys[t]]), val[keys[t]])
    ensures PlatformRecords(recs, p, rows, sch, true, rd)
  {
    forall k | k in Skus(rows, sch.sku)
      ensures exists i :: 0 <= i < |recs| && recs[i].sku == k
    {
      var i :| 0 <= i < |keys| && keys[i] == k;
      assert recs[i].sku == k;
    }
  }

  // ---------------------------------------------------------------------
  // Conservation

  function SumValues(recs: seq<Record>): real
  {
    if recs == [] then 0.0 else SumValues(recs[..|recs| - 1]) + recs[|recs| - 1].valorTotal
  }

  function SumQuantities(recs: seq<Record>): int
  {
    if recs == [] then 0 else SumQuantities(recs[..|recs| - 1]) + recs[|recs| - 1].quantidade
  }

  /** The sum over the keys `ks` of the per-key sums of `col`. */
  function SumKeys(ks: seq<string>, rows: seq<Row>, skuCol: string, col: string, rd: Readers): real
  {
    if ks == [] then 0.0
    else SumKeys(ks[..|ks| - 1], rows, skuCol, col, rd) + KeySum(rows, skuCol, col, ks[|ks| - 1], rd)
  }

  /** Adding a row adds its coerced cell to exactly the one key it carries. */
  lemma {:induction false} SumKeysAddRow(ks: seq<string>, rows: seq<Row>, r: Row,
                                         skuCol: string, col: string, rd: Readers)
    requires Distinct(ks)
    ensures SumKeys(ks, rows + [r], skuCol, col, rd) ==
      SumKeys(ks, rows, skuCol, col, rd)
        + (if SkuOf(r, skuCol).Some? && SkuOf(r, skuCol).value in ks then Coerce(CellAt(r, col), rd) else 0.0)
  {
    assert (rows + [r])[..|rows|] == rows;
    if ks != [] {
      var init := ks[..|ks| - 1];
      assert forall x :: x in ks <==> x in init || x == ks[|ks| - 1];
      assert ks[|ks| - 1] !in init;
      SumKeysAddRow(init, rows, r, skuCol, col, rd);
    }
  }

  /** Summing the per-key sums over distinct keys that cover every SKU of
      the rows gives the sum over all rows that have a SKU. */
  lemma {:induction false} SumKeysCovers(ks: seq<string>, rows: seq<Row>, skuCol: string, col: string, rd: Readers)
    requires Distinct(ks)
    requires forall k :: k in Skus(rows, skuCol) ==> k in ks
    ensures SumKeys(ks, rows, skuCol, col, rd) == KeyedTotal(rows, skuCol, col, rd)
  {
    if rows == [] {
      SumKeysZero(ks, rows, skuCol, col, rd);
    } else {
      var init, last := rows[..|rows| - 1], rows[|rows| - 1];
      assert init + [last] == rows;
      SumKeysCovers(ks, init, skuCol, col, rd);
      SumKeysAddRow(ks, init, last, skuCol, col, rd);
    }
  }

  lemma {:induction false} SumKeysZero(ks: seq<string>, rows: seq<Row>, skuCol: string, col: string, rd: Readers)
    requires rows == []
    ensures SumKeys(ks, rows, skuCol, col, rd) == 0.0
  {
    if ks != [] {
      SumKeysZero(ks[..|ks| - 1], rows, skuCol, col, rd);
    }
  }

  function SkuList(recs: seq<Record>): (ks: seq<string>)
    ensures |ks| == |recs|
    ensures forall i :: 0 <= i < |recs| ==> ks[i] == recs[i].sku
  {
    if recs == [] then [] else SkuList(recs[..|recs| - 1]) + [recs[|recs| - 1].sku]
  }

  /** The value column is conserved: the platform's records add up to the
      total value of its surviving rows that carry a SKU. */
  lemma {:induction false} ValueConservation(recs: seq<Record>, p: Platform, rows: seq<Row>,
                                             sch: Schema, rd: Readers)
    requires PlatformRecords(recs, p, rows, sch, true, rd)
    ensures SumValues(recs) == KeyedTotal(rows, sch.sku, sch.valor, rd)
  {
    var ks := SkuList(recs);
    forall i, j | 0 <= i < j < |ks| ensures ks[i] != ks[j] {
      StrLessIrreflexive(ks[i]);
    }
    forall k | k in Skus(rows, sch.sku) ensures k in ks {
      var i :| 0 <= i < |recs| && recs[i].sku == k;
      assert ks[i] == k;
    }
    SumValuesIsSumKeys(recs, rows, sch, rd);
    SumKeysCovers(ks, rows, sch.sku, sch.valor, rd);
  }

  lemma {:induction false} SumValuesIsSumKeys(recs: seq<Record>, rows: seq<Row>, sch: Schema, rd: Readers)
    requires forall i :: 0 <= i < |recs| ==> IsGroupTotal(recs[i], rows, sch, rd)
    ensures SumValues(recs) == SumKeys(SkuList(recs), rows, sch.sku, sch.valor, rd)
  {
    if recs != [] {
      var init := recs[..|recs| - 1];
      SumValuesIsSumKeys(init, rows, sch, rd);
      assert SkuList(recs)[..|recs| - 1] == SkuList(init);
    }
  }

  /** KeySum of whole quantities is whole. */
  lemma {:induction false} KeySumWhole(rows: seq<Row>, skuCol: string, col: string, k: string, rd: Readers)
    requires forall r :: r in rows ==> IsWhole(Coerce(CellAt(r, col), rd))
    ensures IsWhole(KeySum(rows, skuCol, col, k, rd))
  {
    if rows != [] {
      var init, last := rows[..|rows| - 1], rows[|rows| - 1];
      assert forall r :: r in init ==> r in rows;
      KeySumWhole(init, skuCol, col, k, rd);
      var b := if SkuOf(last, skuCol) == Some(k) then Coerce(CellAt(last, col), rd) else 0.0;
      assert IsWhole(b);
      WholeSum(KeySum(init, skuCol, col, k, rd), b);
    }
  }

  lemma WholeSum(a: real, b: real)
    requires IsWhole(a) && IsWhole(b)
    ensures IsWhole(a + b)
  {
    assert a + b == (a.Floor + b.Floor) as real;
  }

  lemma {:induction false} SumQuantitiesIsSumKeys(recs: seq<Record>, rows: seq<Row>, sch: Schema, rd: Readers)
    requires forall i :: 0 <= i < |recs| ==> IsGroupTotal(recs[i], rows, sch, rd)
    requires forall r :: r in rows ==> IsWhole(Coerce(CellAt(r, sch.qtd), rd))
    ensures SumQuantities(recs) as real == SumKeys(SkuList(recs), rows, sch.sku, sch.qtd, rd)
  {
    if recs != [] {
      var init := recs[..|recs| - 1];
      var last := recs[|recs| - 1];
      SumQuantitiesIsSumKeys(init, rows, sch, rd);
      assert SkuList(recs)[..|recs| - 1] == SkuList(init);
      KeySumWhole(rows, sch.sku, sch.qtd, last.sku, rd);
      TruncWhole(KeySum(rows, sch.sku, sch.qtd, last.sku, rd));
    }
  }

  /** When every surviving quantity is a whole number (the truncation then
      loses nothing), the platform's record quantities add up to the total
      quantity of its surviving rows that carry a SKU. */
  lemma {:induction false} QuantityConservation(recs: seq<Record>, p: Platform, rows: seq<Row>,
                                                sch: Schema, rd: Readers)
    requires PlatformRecords(recs, p, rows, sch, true, rd)
    requires forall r :: r in rows ==> IsWhole(Coerce(CellAt(r, sch.qtd), rd))
    ensures SumQuantities(recs) as real == KeyedTotal(rows, sch.sku, sch.qtd, rd)
  {
    var ks := SkuList(recs);
    forall i, j | 0 <= i < j < |ks| ensures ks[i] != ks[j] {
      StrLessIrreflexive(ks[i]);
    }
    forall k | k in Skus(rows, sch.sku) ensures k in ks {
      var i :| 0 <= i < |recs| && recs[i].sku == k;
      assert ks[i] == k;
    }
    SumQuantitiesIsSumKeys(recs, rows, sch, rd);
    SumKeysCovers(ks, rows, sch.sku, sch.qtd, rd);
  }

  // ---------------------------------------------------------------------
  // The whole summary

  /** The rows of a supported platform that reach the grouping step, over
      everything that decoded. */
  ghost function PlatformSurvivors(p: Platform, dfs: seq<Loaded>, lo: Option<int>, hi: Option<int>,
                                   rd: Readers): seq<Row>
    requires p != Outro
  {
    Survivors(p, SchemaOf(p), TaggedRows(dfs), ColumnUnion(dfs), lo, hi, rd)
  }

  /** Records come grouped by platform in registry order and, within a
      platform, sorted by SKU. */
  predicate Ordered(resumo: seq<Record>)
  {
    forall i, j :: 0 <= i < j < |resumo| ==>
      || resumo[i].plataforma.Rank() < resumo[j].plataforma.Rank()
      || (resumo[i].plataforma == resumo[j].plataforma && StrLess(resumo[i].sku, resumo[j].sku))
  }

  /** A record is the group total of its SKU among its supported
      platform's surviving rows, and that platform is grouped. */
  ghost predicate Explained(rec: Record, dfs: seq<Loaded>, lo: Option<int>, hi: Option<int>, rd: Readers)
  {
    && rec.plataforma != Outro
    && Grouped(SchemaOf(rec.plataforma), ColumnUnion(dfs))
    && IsGroupTotal(rec, PlatformSurvivors(rec.plataforma, dfs, lo, hi, rd), SchemaOf(rec.plataforma), rd)
  }

  /** `resumo_periodo` with the date bounds already parsed: the records
      are exactly one group total per (supported platform, SKU) of the
      surviving rows, ordered by platform then SKU; the "no data" message
      comes exactly when no stored file decodes. */
  method Summarize(arquivos: seq<StoredFile>, lo: Option<int>, hi: Option<int>, rd: Readers)
    returns (out: PeriodResult)
    ensures out.mensagem.Some? <==> Decoded(arquivos, rd) == []
    ensures out.mensagem.Some? ==> out.mensagem.value == NoData && out.resumo == []
    ensures Ordered(out.resumo)
    ensures forall i :: 0 <= i < |out.resumo| ==> Explained(out.resumo[i], Decoded(arquivos, rd), lo, hi, rd)
    ensures forall p: Platform, k ::
      p != Outro && Grouped(SchemaOf(p), ColumnUnion(Decoded(arquivos, rd)))
      && k in Skus(PlatformSurvivors(p, Decoded(arquivos, rd), lo, hi, rd), SchemaOf(p).sku) ==>
        exists i :: 0 <= i < |out.resumo| && out.resumo[i].plataforma == p && out.resumo[i].sku == k
  {
    var dfs := LoadAll(arquivos, rd);
    if |arquivos| == 0 || |dfs| == 0 {
      assert TaggedRows(dfs) == [];
      forall p: Platform | p != Outro ensures PlatformSurvivors(p, dfs, lo, hi, rd) == [] {
        assert RowsOf(TaggedRows(dfs), p) == [];
      }
      return PeriodResult([], Some(NoData));
    }
    var all := TaggedRows(dfs);
    var cols := ColumnUnion(dfs);
    var resumo: seq<Record> := [];
    RegistryOrder();
    for i := 0 to |Registry|
      invariant forall t :: 0 <= t < |resumo| ==> resumo[t].plataforma.Rank() < i
      invariant Ordered(resumo)
      invariant AllExplained(resumo, dfs, lo, hi, rd)
      invariant CompleteUpTo(resumo, i, dfs, lo, hi, rd)
    {
      var p := Registry[i];
      var recs := SummarizePlatform(p, all, cols, lo, hi, rd);
      AppendOrdered(resumo, recs, p);
      AppendExplained(resumo, recs, p, dfs, lo, hi, rd);
      RecordsCoverDue(recs, p, dfs, lo, hi, rd);
      AppendComplete(resumo, recs, p, dfs, lo, hi, rd);
      resumo := resumo + recs;
    }
    CompleteAll(resumo, dfs, lo, hi, rd);
    out := PeriodResult(resumo, None);
  }

  /** A platform's records cover every SKU it owes. */
  lemma RecordsCoverDue(recs: seq<Record>, p: Platform, dfs: seq<Loaded>,
                        lo: Option<int>, hi: Option<int>, rd: Readers)
    requires p != Outro
    requires PlatformRecords(recs, p, PlatformSurvivors(p, dfs, lo, hi, rd),
                             SchemaOf(p), Grouped(SchemaOf(p), ColumnUnion(dfs)), rd)
    ensures forall t :: 0 <= t < |recs| ==> recs[t].plataforma == p
    ensures forall k :: k in Due(p, dfs, lo, hi, rd) ==> exists t :: 0 <= t < |recs| && recs[t].sku == k
  {
  }

  /** Completeness over the whole registry, in the terms of the summary's
      contract. */
  lemma CompleteAll(resumo: seq<Record>, dfs: seq<Loaded>, lo: Option<int>, hi: Option<int>, rd: Readers)
    requires CompleteUpTo(resumo, 4, dfs, lo, hi, rd)
    ensures forall p: Platform, k ::
      p != Outro && Grouped(SchemaOf(p), ColumnUnion(dfs))
      && k in Skus(PlatformSurvivors(p, dfs, lo, hi, rd), SchemaOf(p).sku) ==>
        exists i :: 0 <= i < |resumo| && resumo[i].plataforma == p && resumo[i].sku == k
  {
    forall p: Platform, k | p != Outro && Grouped(SchemaOf(p), ColumnUnion(dfs))
      && k in Skus(PlatformSurvivors(p, dfs, lo, hi, rd), SchemaOf(p).sku)
      ensures exists i :: 0 <= i < |resumo| && resumo[i].plataforma == p && resumo[i].sku == k
    {
      assert k in Due(p, dfs, lo, hi, rd);
    }
  }

  ghost predicate AllExplained(resumo: seq<Record>, dfs: seq<Loaded>, lo: Option<int>, hi: Option<int>, rd: Readers)
  {
    forall t :: 0 <= t < |resumo| ==> Explained(resumo[t], dfs, lo, hi, rd)
  }

  /** The SKUs a supported platform owes a record for: those of its
      surviving rows when it is grouped, none otherwise. */
  ghost function Due(p: Platform, dfs: seq<Loaded>, lo: Option<int>, hi: Option<int>, rd: Readers): set<string>
    requires p != Outro
  {
    if Grouped(SchemaOf(p), ColumnUnion(dfs)) then Skus(PlatformSurvivors(p, dfs, lo, hi, rd), SchemaOf(p).sku) else {}
  }

  /** For each supported platform ranked below `n`, every SKU it owes has a
      record. */
  ghost predicate CompleteUpTo(resumo: seq<Record>, n: nat, dfs: seq<Loaded>,
                               lo: Option<int>, hi: Option<int>, rd: Readers)
  {
    forall p: Platform, k :: p != Outro && p.Rank() < n && k in Due(p, dfs, lo, hi, rd) ==>
      exists t :: 0 <= t < |resumo| && resumo[t].plataforma == p && resumo[t].sku == k
  }

  /** Appending the SKU-sorted records of the next platform keeps the
      summary ordered. */
  lemma AppendOrdered(before: seq<Record>, recs: seq<Record>, p: Platform)
    requires forall t :: 0 <= t < |before| ==> before[t].plataforma.Rank() < p.Rank()
    requires Ordered(before)
    requires forall t :: 0 <= t < |recs| ==> recs[t].plataforma == p
    requires forall a, b :: 0 <= a < b < |recs| ==> StrLess(recs[a].sku, recs[b].sku)
    ensures Ordered(before + recs)
    ensures forall t :: 0 <= t < |before + recs| ==> (before + recs)[t].plataforma.Rank() <= p.Rank()
  {
  }

  lemma AppendExplained(before: seq<Record>, recs: seq<Record>, p: Platform, dfs: seq<Loaded>,
                        lo: Option<int>, hi: Option<int>, rd: Readers)
    requires p != Outro
    requires AllExplained(before, dfs, lo, hi, rd)
    requires PlatformRecords(recs, p, PlatformSurvivors(p, dfs, lo, hi, rd),
                             SchemaOf(p), Grouped(SchemaOf(p), ColumnUnion(dfs)), rd)
    ensures AllExplained(before + recs, dfs, lo, hi, rd)
  {
    var resumo := before + recs;
    forall t | 0 <= t < |resumo| ensures Explained(resumo[t], dfs, lo, hi, rd) {
      if t < |before| {
        assert resumo[t] == before[t];
      } else {
        assert resumo[t] == recs[t - |before|];
      }
    }
  }

  lemma AppendComplete(before: seq<Record>, recs: seq<Record>, p: Platform, dfs: seq<Loaded>,
                       lo: Option<int>, hi: Option<int>, rd: Readers)
    requires p != Outro
    requires CompleteUpTo(before, p.Rank(), dfs, lo, hi, rd)
    requires forall t :: 0 <= t < |recs| ==> recs[t].plataforma == p
    requires forall k :: k in Due(p, dfs, lo, hi, rd) ==> exists t :: 0 <= t < |recs| && recs[t].sku == k
    ensures CompleteUpTo(before + recs, p.Rank() + 1, dfs, lo, hi, rd)
  {
    var resumo := before + recs;
    forall q: Platform, k | q != Outro && q.Rank() < p.Rank() + 1 && k in Due(q, dfs, lo, hi, rd)
      ensures exists t :: 0 <= t < |resumo| && resumo[t].plataforma == q && resumo[t].sku == k
    {
      if q.Rank() < p.Rank() {
        var t :| 0 <= t < |before| && before[t].plataforma == q && before[t].sku == k;
        assert resumo[t] == before[t];
      } else {
        assert q == p;
        var t :| 0 <= t < |recs| && recs[t].sku == k;
        assert resumo[|before| + t] == recs[t];
      }
    }
  }

  /** No two records share a platform and a SKU. */
  lemma UniqueRecords(resumo: seq<Record>)
    requires Ordered(resumo)
    ensures forall i, j :: 0 <= i < j < |resumo| ==>
      (resumo[i].plataforma, resumo[i].sku) != (resumo[j].plataforma, resumo[j].sku)
  {
    forall i, j | 0 <= i < j < |resumo|
      ensures (resumo[i].plataforma, resumo[i].sku) != (resumo[j].plataforma, resumo[j].sku)
    {
      StrLessIrreflexive(resumo[i].sku);
    }
  }
}
