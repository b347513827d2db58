/** The single-file upload (`upload_excel`): the request gate, the
    extension dispatch, the per-platform summary of the uploaded table
    (`resumo_personalizado`) and its one-line rendering
    (`gerar_resumo_texto`). */
module Upload {
  import opened Values
  import opened Text
  import opened Platforms
  import opened Tables
  import opened Storage

  /** The multipart file part: its client-side name and its bytes. */
  datatype UploadFile = UploadFile(filename: string, content: Bytes)

  const NoFile: string := "Nenhum arquivo enviado"
  const EmptyName: string := "Nome de arquivo vazio"
  const UnsupportedFormat: string := "Formato de arquivo não suportado"
  const UnknownPlatform: string := "Plataforma não reconhecida ou não suportada."
  const MissingColumns: string := "Colunas principais não encontradas para esta plataforma."
  const ErrorPrefix: string := "Erro ao calcular resumo: "
  const NoSummaryText: string := "Plataforma não reconhecida ou sem resumo."

  // ---------------------------------------------------------------------
  // The gate

  /** `name.rsplit('.', 1)[-1]`: the text after the last dot, or the whole
      name when it has none. */
  function AfterLastDot(name: string): (e: string)
    ensures |e| <= |name| && e == name[|name| - |e|..]
    ensures '.' !in e
    ensures |e| < |name| ==> name[|name| - |e| - 1] == '.'
  {
    if name == [] then []
    else if name[|name| - 1] == '.' then []
    else AfterLastDot(name[..|name| - 1]) + [name[|name| - 1]]
  }

  /** The three facts above pin the piece down: whatever follows the last
      dot of `stem + "." + e`, for a dot-free `e`, is `e`. */
  lemma {:induction false} AfterLastDotOf(stem: string, e: string)
    requires '.' !in e
    ensures AfterLastDot(stem + "." + e) == e
    decreases |e|
  {
    var name := stem + "." + e;
    if e == [] {
      assert name[|name| - 1] == '.';
    } else {
      assert name[..|name| - 1] == stem + "." + e[..|e| - 1];
      assert e[..|e| - 1] + [e[|e| - 1]] == e;
      AfterLastDotOf(stem, e[..|e| - 1]);
    }
  }

  /** The lower-cased extension the upload is dispatched on. */
  function Extension(name: string): (e: string)
    ensures |e| <= |name| && e == LowerStr(name[|name| - |e|..])
    ensures '.' !in e
    ensures |e| < |name| ==> name[|name| - |e| - 1] == '.'
  {
    LowerStr(AfterLastDot(name))
  }

  /** An extension the reader dispatch accepts. */
  predicate Supported(ext: string)
  {
    ext == "xlsx" || ext == "xls" || ext == "csv"
  }

  /** A name ending in ".XLSX", ".Csv" or the like is accepted whatever
      its case and whatever dots come before. */
  lemma ExtensionIgnoresCase(stem: string, e: string)
    requires '.' !in e
    ensures Extension(stem + "." + e) == LowerStr(e)
  {
    AfterLastDotOf(stem, e);
  }

  /** The reader dispatch: spreadsheets for "xlsx" / "xls", delimited text
      for "csv", and a 400 for anything else. A reader that raises on the
      bytes is not caught and ends the request with a 500. */
  function ReadUpload(ext: string, content: Bytes, rd: Readers): (r: Result<Table, HttpError>)
    ensures r == Failure(BadRequest(UnsupportedFormat)) <==> !Supported(ext)
    ensures r.Failure? && Supported(ext) ==> r.error == ServerError
    ensures (ext == "xlsx" || ext == "xls") ==> (r.Success? <==> rd.excel(content).Some?)
    ensures (ext == "xlsx" || ext == "xls") && r.Success? ==> r.value == rd.excel(content).value
    ensures ext == "csv" ==> (r.Success? <==> rd.csv(content).Some?)
    ensures ext == "csv" && r.Success? ==> r.value == rd.csv(content).value
  {
    if ext == "xlsx" || ext == "xls" then
      match rd.excel(content)
      case Some(t) => Success(t)
      case None => Failure(ServerError)
    else if ext == "csv" then
      match rd.csv(content)
      case Some(t) => Success(t)
      case None => Failure(ServerError)
    else Failure(BadRequest(UnsupportedFormat))
  }

  /** `df.head(5)`: the first five rows, or all of them when there are
      fewer. */
  function Head(rows: seq<Row>): (h: seq<Row>)
    ensures |h| <= 5 && |h| <= |rows| && h == rows[..|h|]
    ensures |h| == 5 || h == rows
  {
    if |rows| <= 5 then rows else rows[..5]
  }

  // ---------------------------------------------------------------------
  // The per-platform summary of one table

  /** The expected columns of the platform that the table has, in the
      expected order. */
  function FoundColumns(expected: seq<string>, columns: seq<string>): (found: seq<string>)
    ensures |found| <= |expected|
    ensures forall c :: c in found <==> c in expected && c in columns
  {
    if expected == [] then []
    else FoundColumns(expected[..|expected| - 1], columns)
         + (if expected[|expected| - 1] in columns then [expected[|expected| - 1]] else [])
  }

  /** The positions, in increasing order, of the expected columns the
      table has. */
  ghost function Present(expected: seq<string>, columns: seq<string>): (idx: seq<int>)
    ensures forall i :: 0 <= i < |idx| ==> 0 <= idx[i] < |expected| && expected[idx[i]] in columns
    ensures forall i, j :: 0 <= i < j < |idx| ==> idx[i] < idx[j]
    ensures forall k :: 0 <= k < |expected| && expected[k] in columns ==> k in idx
  {
    if expected == [] then []
    else
      var n := |expected| - 1;
      var idx := Present(expected[..n], columns);
      assert forall i :: 0 <= i < |idx| ==> expected[..n][idx[i]] == expected[idx[i]];
      idx + (if expected[n] in columns then [n] else [])
  }

  /** The found columns are the expected columns at those positions: the
      expected order is kept and nothing is repeated or invented. */
  lemma {:induction false} FoundColumnsInOrder(expected: seq<string>, columns: seq<string>)
    ensures var found, idx := FoundColumns(expected, columns), Present(expected, columns);
      |found| == |idx| && forall i :: 0 <= i < |idx| ==> found[i] == expected[idx[i]]
  {
    if expected != [] {
      var n := |expected| - 1;
      var init := expected[..n];
      FoundColumnsInOrder(init, columns);
      var f, idx := FoundColumns(init, columns), Present(init, columns);
      assert FoundColumns(expected, columns) == f + (if expected[n] in columns then [expected[n]] else []);
      assert Present(expected, columns) == idx + (if expected[n] in columns then [n] else []);
      forall i | 0 <= i < |idx| ensures f[i] == expected[idx[i]] {
        assert init[idx[i]] == expected[idx[i]];
      }
    }
  }

  /** With distinct expected columns (as every platform's are), the found
      columns are distinct and there are as many as the expected columns
      the table has: the count the four-of-five test reads. */
  lemma FoundColumnsCount(expected: seq<string>, columns: seq<string>)
    requires Distinct(expected)
    ensures Distinct(FoundColumns(expected, columns))
    ensures |FoundColumns(expected, columns)| == |set c | c in expected && c in columns|
  {
    var found, idx := FoundColumns(expected, columns), Present(expected, columns);
    FoundColumnsInOrder(expected, columns);
    assert Distinct(found) by {
      forall i, j | 0 <= i < j < |found| ensures found[i] != found[j] {
        assert idx[i] < idx[j];
      }
    }
    assert (set c | c in expected && c in columns) == (set c | c in found);
    DistinctCard(found);
  }

  /** A sequence of distinct strings has as many elements as its set. */
  lemma {:induction false} DistinctCard(ks: seq<string>)
    requires Distinct(ks)
    ensures |set k | k in ks| == |ks|
  {
    if ks != [] {
      var init, last := ks[..|ks| - 1], ks[|ks| - 1];
      assert ks == init + [last];
      assert Distinct(init);
      DistinctCard(init);
      assert last !in init;
      assert (set k | k in ks) == (set k | k in init) + {last};
    } else {
      assert (set k | k in ks) == {};
    }
  }

  /** What the single-file summary reports for a platform: the key of the
      row count, the key and word of the item total, and the two summed
      columns. */
  datatype Totals = Totals(countKey: string, itemsKey: string, itemsWord: string,
                           qtyColumn: string, valueColumn: string)

  function TotalsOf(p: Platform): (s: Totals)
    requires p != Outro
  {
    match p
    case Shopee => Totals("pedidos", "total_itens", "itens", ShopeeQty, ShopeeValue)
    case MercadoLivre => Totals("vendas", "total_unidades", "unidades", MercadoLivreQty, MercadoLivreValue)
    case TikTok => Totals("pedidos", "total_itens", "itens", TikTokQty, TikTokValue)
    case Shein => Totals("pedidos", "total_itens", "itens", SheinQty, SheinValue)
  }

  /** The single-file summary totals the same quantity and value columns
      the cross-file summary groups, and both are expected columns. */
  lemma TotalsAgreeWithSchema(p: Platform)
    requires p != Outro
    ensures TotalsOf(p).qtyColumn == ColumnsMap(p).value.qtd
    ensures TotalsOf(p).valueColumn == ColumnsMap(p).value.valor
    ensures TotalsOf(p).qtyColumn in ExpectedColumns(p).value
    ensures TotalsOf(p).valueColumn in ExpectedColumns(p).value
    ensures (TotalsOf(p).countKey == "vendas") <==> p == MercadoLivre
  {
    ExpectedColumnsAgreeWithSchema(p);
  }

  /** `df[col].sum()` without coercion: missing cells are skipped, and the
      sum fails (raises) when a present cell is not a number. */
  function RawSum(rows: seq<Row>, col: string, rd: Readers): (r: Option<real>)
    ensures rows == [] ==> r == Some(0.0)
    ensures r.Some? ==> r.value == CoercedSum(rows, col, rd)
  {
    if rows == [] then Some(0.0)
    else
      match RawSum(rows[..|rows| - 1], col, rd)
      case None => None
      case Some(s) =>
        match CellAt(rows[|rows| - 1], col)
        case Empty => Some(s)
        case Value(t) => if rd.number(t).Some? then Some(s + rd.number(t).value) else None
  }

  /** The tolerant column total of the cross-file summary: every cell
      coerced, failures counting as 0. */
  function CoercedSum(rows: seq<Row>, col: string, rd: Readers): real
  {
    if rows == [] then 0.0 else CoercedSum(rows[..|rows| - 1], col, rd) + Coerce(CellAt(rows[|rows| - 1], col), rd)
  }

  /** The raw sum is defined exactly when every present cell reads as a
      number, and then it equals the tolerant sum. */
  lemma {:induction false} RawSumDefined(rows: seq<Row>, col: string, rd: Readers)
    ensures RawSum(rows, col, rd).Some? <==>
      forall i :: 0 <= i < |rows| && CellAt(rows[i], col).Value? ==> rd.number(CellAt(rows[i], col).text).Some?
    ensures RawSum(rows, col, rd).Some? ==> RawSum(rows, col, rd).value == CoercedSum(rows, col, rd)
  {
    if rows != [] {
      var init := rows[..|rows| - 1];
      RawSumDefined(init, col, rd);
      assert forall i :: 0 <= i < |init| ==> init[i] == rows[i];
    }
  }

  /** A column total as the summary sees it: the column is absent (the
      total is None), it sums, or its sum raises. */
  datatype Total = Absent | Sum(value: real) | Fails

  function ColumnTotal(t: Table, col: string, rd: Readers): (r: Total)
    ensures r.Absent? <==> col !in t.columns
    ensures r.Fails? <==> col in t.columns && RawSum(t.rows, col, rd).None?
    ensures r.Sum? ==> RawSum(t.rows, col, rd) == Some(r.value)
  {
    if col !in t.columns then Absent
    else match RawSum(t.rows, col, rd)
      case Some(s) => Sum(s)
      case None => Fails
  }

  function ItemsJson(total: Total): Json
  {
    if total.Sum? then JInt(Trunc(total.value)) else JNull
  }

  function ValueJson(total: Total): Json
  {
    if total.Sum? then JReal(total.value) else JNull
  }

  function Strings(cols: seq<string>): (js: seq<Json>)
    ensures |js| == |cols| && forall i :: 0 <= i < |cols| ==> js[i] == JStr(cols[i])
  {
    seq(|cols|, i requires 0 <= i < |cols| => JStr(cols[i]))
  }

  /** Which branch of the summary a table of platform `p` takes. */
  datatype Outcome =
    | UnknownPlatformNotice
    | MissingColumnsNotice
    | TotalFails
    | Totalled(found: seq<string>, items: Total, value: Total)

  /** The branch: the catch-all has no expected columns; fewer than four of
      the five expected columns is a notice; a total that raises is an
      error; otherwise the found columns and both totals. */
  function OutcomeOf(p: Platform, t: Table, rd: Readers): (o: Outcome)
    ensures o.UnknownPlatformNotice? <==> p == Outro
    ensures o.MissingColumnsNotice? <==> p != Outro && |FoundColumns(ExpectedColumns(p).value, t.columns)| < 4
    ensures o.Totalled? ==> p != Outro && 4 <= |o.found| && !o.items.Fails? && !o.value.Fails?
    ensures o.TotalFails? <==>
      && p != Outro && 4 <= |FoundColumns(ExpectedColumns(p).value, t.columns)|
      && (ColumnTotal(t, TotalsOf(p).qtyColumn, rd).Fails? || ColumnTotal(t, TotalsOf(p).valueColumn, rd).Fails?)
    ensures o.Totalled? ==>
      && o.found == FoundColumns(ExpectedColumns(p).value, t.columns)
      && o.items == ColumnTotal(t, TotalsOf(p).qtyColumn, rd)
      && o.value == ColumnTotal(t, TotalsOf(p).valueColumn, rd)
  {
    if p == Outro then UnknownPlatformNotice
    else
      var found := FoundColumns(ExpectedColumns(p).value, t.columns);
      if |found| < 4 then MissingColumnsNotice
      else
        var items := ColumnTotal(t, TotalsOf(p).qtyColumn, rd);
        var value := ColumnTotal(t, TotalsOf(p).valueColumn, rd);
        if items.Fails? || value.Fails? then TotalFails else Totalled(found, items, value)
  }

  /** The summary `resumo_personalizado` must be, branch by branch: always
      the platform's name; the "unrecognised platform" notice for the
      catch-all; the "main columns not found" notice; the error text when
      a total raises; otherwise the row count, the truncated item total,
      the value total (each null when its column is absent) and the found
      columns. */
  ghost predicate ResumoFor(r: map<string, Json>, p: Platform, t: Table, rd: Readers, detail: string)
  {
    && "plataforma" in r && r["plataforma"] == JStr(p.Name())
    && match OutcomeOf(p, t, rd)
       case UnknownPlatformNotice =>
         r.Keys == {"plataforma", "aviso"} && r["aviso"] == JStr(UnknownPlatform)
       case MissingColumnsNotice =>
         r.Keys == {"plataforma", "aviso"} && r["aviso"] == JStr(MissingColumns)
       case TotalFails =>
         r.Keys == {"plataforma", "erro"} && r["erro"] == JStr(ErrorPrefix + detail)
       case Totalled(found, items, value) =>
         var s := TotalsOf(p);
         && r.Keys == {"plataforma", s.countKey, s.itemsKey, "valor_total", "colunas_encontradas"}
         && r[s.countKey] == JInt(|t.rows|)
         && r[s.itemsKey] == ItemsJson(items)
         && r["valor_total"] == ValueJson(value)
         && r["colunas_encontradas"] == JArr(Strings(found))
  }

  /** Building `resumo_personalizado` in place: the platform first, then
      either a notice, the error text, or the totals. The text of the
      exception a failing total raises is not modelled and comes in as
      `detail`. */
  method BuildResumo(p: Platform, t: Table, rd: Readers, detail: string) returns (r: map<string, Json>)
    ensures ResumoFor(r, p, t, rd, detail)
  {
    r := map["plataforma" := JStr(p.Name())];
    var expected := ExpectedColumns(p);
    if expected.Some? {
      var found := FoundColumns(expected.value, t.columns);
      if |found| >= 4 {
        var s := TotalsOf(p);
        var items := ColumnTotal(t, s.qtyColumn, rd);
        var value := ColumnTotal(t, s.valueColumn, rd);
        if items.Fails? || value.Fails? {
          assert OutcomeOf(p, t, rd) == TotalFails;
          r := r["erro" := JStr(ErrorPrefix + detail)];
        } else {
          r := r[s.countKey := JInt(|t.rows|)];
          r := r[s.itemsKey := ItemsJson(items)];
          r := r["valor_total" := ValueJson(value)];
          r := r["colunas_encontradas" := JArr(Strings(found))];
          TotalledResumo(r, p, t, rd, detail);
        }
      } else {
        assert OutcomeOf(p, t, rd) == MissingColumnsNotice;
        r := r["aviso" := JStr(MissingColumns)];
      }
    } else {
      r := r["aviso" := JStr(UnknownPlatform)];
    }
  }

  /** The summary of the totals branch, with its five keys, is the one
      `ResumoFor` asks for. */
  lemma TotalledResumo(r: map<string, Json>, p: Platform, t: Table, rd: Readers, detail: string)
    requires OutcomeOf(p, t, rd).Totalled?
    requires var o, s := OutcomeOf(p, t, rd), TotalsOf(p);
      r == map["plataforma" := JStr(p.Name())][s.countKey := JInt(|t.rows|)][s.itemsKey := ItemsJson(o.items)]
             ["valor_total" := ValueJson(o.value)]["colunas_encontradas" := JArr(Strings(o.found))]
    ensures ResumoFor(r, p, t, rd, detail)
  {
    var s := TotalsOf(p);
    assert s.countKey in {"pedidos", "vendas"} && s.itemsKey in {"total_itens", "total_unidades"};
  }

  /** A table with all five expected columns whose totals sum gets a full
      summary with numeric totals and all five columns listed. */
  lemma CompleteTableSummary(r: map<string, Json>, p: Platform, t: Table, rd: Readers, detail: string)
    requires p != Outro
    requires ResumoFor(r, p, t, rd, detail)
    requires forall c :: c in ExpectedColumns(p).value ==> c in t.columns
    requires RawSum(t.rows, TotalsOf(p).qtyColumn, rd).Some?
    requires RawSum(t.rows, TotalsOf(p).valueColumn, rd).Some?
    ensures TotalsOf(p).countKey in r && TotalsOf(p).itemsKey in r
    ensures "valor_total" in r && "colunas_encontradas" in r
    ensures r[TotalsOf(p).countKey] == JInt(|t.rows|)
    ensures r[TotalsOf(p).itemsKey] == JInt(Trunc(RawSum(t.rows, TotalsOf(p).qtyColumn, rd).value))
    ensures r["valor_total"] == JReal(RawSum(t.rows, TotalsOf(p).valueColumn, rd).value)
    ensures r["colunas_encontradas"] == JArr(Strings(ExpectedColumns(p).value))
  {
    TotalsAgreeWithSchema(p);
    var e := ExpectedColumns(p).value;
    FoundAll(e, t.columns);
  }

  /** When every expected column exists, all of them are found. */
  lemma {:induction false} FoundAll(expected: seq<string>, columns: seq<string>)
    requires forall c :: c in expected ==> c in columns
    ensures FoundColumns(expected, columns) == expected
  {
    if expected != [] {
      var init, last := expected[..|expected| - 1], expected[|expected| - 1];
      assert init + [last] == expected;
      assert forall c :: c in init ==> c in expected;
      FoundAll(init, columns);
      assert last in columns;
      assert FoundColumns(expected, columns) == FoundColumns(init, columns) + [last];
    }
  }

  // ---------------------------------------------------------------------
  // The rendered line

  /** `{resumo.get(key, 0)}` for the values the summary stores: a missing
      key shows 0, an integer its digits, a null "None". */
  function Shown(r: map<string, Json>, key: string): string
  {
    if key !in r then "0"
    else match r[key]
      case JInt(i) => IntToString(i)
      case JNull => "None"
      case _ => ""
  }

  /** What the line shows for a key can be read back: 0 for a missing
      key, "None" for a null, and for a count digits that denote it,
      after a minus sign when it is negative. */
  lemma ShownReadsBack(r: map<string, Json>, key: string)
    ensures key !in r ==> Shown(r, key) == "0"
    ensures key in r && r[key] == JNull ==> Shown(r, key) == "None"
    ensures key in r && r[key].JInt? && r[key].i >= 0 ==> DigitsValue(Shown(r, key)) == r[key].i
    ensures key in r && r[key].JInt? && r[key].i < 0 ==>
      var s := Shown(r, key); s[0] == '-' && DigitsValue(s[1..]) == -r[key].i
  {
    if key in r && r[key].JInt? {
      var i := r[key].i;
      NatToStringRoundTrip(if i < 0 then -i else i);
      if i < 0 {
        assert Shown(r, key)[1..] == NatToString(-i);
      }
    }
  }

  /** `{resumo.get('valor_total', 0):.2f}`: a missing key formats 0, a
      number formats itself, and anything else (a null) raises. The
      two-decimal formatting itself is `money`. */
  function Money(r: map<string, Json>, money: real -> string): (out: Option<string>)
    ensures out.None? <==> "valor_total" in r && !r["valor_total"].JReal? && !r["valor_total"].JInt?
    ensures "valor_total" !in r ==> out == Some(money(0.0))
    ensures "valor_total" in r && r["valor_total"].JReal? ==> out == Some(money(r["valor_total"].r))
    ensures "valor_total" in r && r["valor_total"].JInt? ==> out == Some(money(r["valor_total"].i as real))
  {
    if "valor_total" !in r then Some(money(0.0))
    else match r["valor_total"]
      case JReal(x) => Some(money(x))
      case JInt(i) => Some(money(i as real))
      case _ => None
  }

  /** The template shared by the four supported platforms. */
  function Line(name: string, count: string, countKey: string, items: string, itemsWord: string,
                value: string): string
  {
    name + ": " + count + " " + countKey + ", " + items + " " + itemsWord + ", valor total R$ " + value
  }

  /** `gerar_resumo_texto`: one fixed template per supported platform, a
      fixed sentence for the catch-all; the request fails with a 500 when
      the value total cannot be formatted. */
  function Render(p: Platform, r: map<string, Json>, money: real -> string): (out: Result<string, HttpError>)
    ensures out.Failure? <==> p != Outro && Money(r, money).None?
    ensures out.Failure? ==> out.error == ServerError
    ensures p == Outro ==> out == Success(NoSummaryText)
  {
    if p == Outro then Success(NoSummaryText)
    else
      var s := TotalsOf(p);
      match Money(r, money)
      case None => Failure(ServerError)
      case Some(m) => Success(Line(p.Name(), Shown(r, s.countKey), s.countKey, Shown(r, s.itemsKey), s.itemsWord, m))
  }

  /** Rendering the summary of an upload fails exactly when the platform is
      supported, at least four expected columns exist, both totals sum,
      and the value column is the one missing: the null value total
      cannot be formatted. */
  lemma RenderFailsIff(r: map<string, Json>, p: Platform, t: Table, rd: Readers, detail: string,
                       money: real -> string)
    requires ResumoFor(r, p, t, rd, detail)
    ensures Render(p, r, money).Failure? <==> TextFails(p, t, rd)
  {
    var o := OutcomeOf(p, t, rd);
    if o.Totalled? {
      assert r["valor_total"] == ValueJson(o.value);
      assert o.value.Absent? <==> TotalsOf(p).valueColumn !in t.columns;
    } else {
      assert "valor_total" !in r;
    }
  }

  /** The condition under which the rendered line of an upload fails. */
  predicate TextFails(p: Platform, t: Table, rd: Readers)
  {
    && p != Outro
    && |FoundColumns(ExpectedColumns(p).value, t.columns)| >= 4
    && !ColumnTotal(t, TotalsOf(p).qtyColumn, rd).Fails?
    && TotalsOf(p).valueColumn !in t.columns
  }

  /** One such table: a Shopee export that has every expected column but
      the product subtotal. */
  lemma RenderCanFail(r: map<string, Json>, rows: seq<Row>, rd: Readers, detail: string,
                      money: real -> string)
    requires RawSum(rows, ShopeeQty, rd).Some?
    requires ResumoFor(r, Shopee, Table([ShopeeDate, ShopeeSku, ShopeeVariation, ShopeeQty], rows), rd, detail)
    ensures Render(Shopee, r, money) == Failure(ServerError)
  {
    var t := Table([ShopeeDate, ShopeeSku, ShopeeVariation, ShopeeQty], rows);
    WithoutSubtotalFails(rows, rd);
    RenderFailsIff(r, Shopee, t, rd, detail, money);
  }

  /** That export meets the failure condition: four of its five expected
      columns are found, the quantity sums, and the subtotal is missing. */
  lemma WithoutSubtotalFails(rows: seq<Row>, rd: Readers)
    requires RawSum(rows, ShopeeQty, rd).Some?
    ensures TextFails(Shopee, Table([ShopeeDate, ShopeeSku, ShopeeVariation, ShopeeQty], rows), rd)
  {
    var t := Table([ShopeeDate, ShopeeSku, ShopeeVariation, ShopeeQty], rows);
    var e := ExpectedColumns(Shopee).value;
    assert ShopeeValue !in t.columns by {
      assert |ShopeeValue| == 19;
      assert |ShopeeDate| == 27 && |ShopeeSku| == 24 && |ShopeeVariation| == 16 && |ShopeeQty| == 10;
    }
    assert e[..4][..3] == e[..3] && e[..4][3] == ShopeeValue;
    assert FoundColumns(e[..4], t.columns) == FoundColumns(e[..3], t.columns);
    FoundAll(e[..3], t.columns);
    assert FoundColumns(e, t.columns) == e[..3] + [ShopeeQty];
  }

  /** When the summary holds only a notice or an error, the template shows
      the defaults: no orders, no items and a zero value. */
  lemma RenderDefaults(r: map<string, Json>, p: Platform, money: real -> string)
    requires p != Outro
    requires r.Keys == {"plataforma", "aviso"} || r.Keys == {"plataforma", "erro"}
    ensures Render(p, r, money) == Success(Line(p.Name(), "0", TotalsOf(p).countKey, "0",
                                                TotalsOf(p).itemsWord, money(0.0)))
  {
    var s := TotalsOf(p);
    assert s.countKey in {"pedidos", "vendas"} && s.itemsKey in {"total_itens", "total_unidades"};
    assert s.countKey !in r && s.itemsKey !in r && "valor_total" !in r;
    assert Money(r, money) == Some(money(0.0));
    assert Shown(r, s.countKey) == "0" && Shown(r, s.itemsKey) == "0";
  }

  /** A full summary renders the whole line from the table: the platform
      name, the row count with its key, the truncated item total ("None"
      when the quantity column is missing) with its word, and the value
      total as money; the line starts with the name and the row count. */
  lemma RenderShowsTotals(r: map<string, Json>, p: Platform, t: Table, rd: Readers, detail: string,
                          money: real -> string)
    requires ResumoFor(r, p, t, rd, detail)
    requires OutcomeOf(p, t, rd).Totalled?
    requires Render(p, r, money).Success?
    ensures p.Name() + ": " + IntToString(|t.rows|) + " " + TotalsOf(p).countKey <= Render(p, r, money).value
    ensures var o := OutcomeOf(p, t, rd);
      && o.value.Sum?
      && Render(p, r, money).value
         == Line(p.Name(), IntToString(|t.rows|), TotalsOf(p).countKey,
                 if o.items.Sum? then IntToString(Trunc(o.items.value)) else "None",
                 TotalsOf(p).itemsWord, money(o.value.value))
  {
    var s := TotalsOf(p);
    var o := OutcomeOf(p, t, rd);
    assert r[s.countKey] == JInt(|t.rows|);
    assert r[s.itemsKey] == ItemsJson(o.items);
    assert r["valor_total"] == ValueJson(o.value);
    assert o.value.Sum? && Money(r, money) == Some(money(o.value.value));
    var m := Money(r, money).value;
    var count := IntToString(|t.rows|);
    var items := Shown(r, s.itemsKey);
    assert items == if o.items.Sum? then IntToString(Trunc(o.items.value)) else "None";
    assert Render(p, r, money).value == Line(p.Name(), count, s.countKey, items, s.itemsWord, m);
    LinePrefix(p.Name(), count, s.countKey, items, s.itemsWord, m);
  }

  lemma LinePrefix(name: string, count: string, countKey: string, items: string, itemsWord: string,
                   value: string)
    ensures name + ": " + count + " " + countKey <= Line(name, count, countKey, items, itemsWord, value)
  {
    var head := name + ": " + count + " " + countKey;
    assert Line(name, count, countKey, items, itemsWord, value)
        == head + (", " + items + " " + itemsWord + ", valor total R$ " + value);
  }

  // ---------------------------------------------------------------------
  // The endpoint

  /** The response body, without the pandas dtypes. */
  datatype UploadResponse = UploadResponse(
    plataforma: Platform,
    resumo: map<string, Json>,
    numRows: nat,
    numColumns: nat,
    colunas: seq<string>,
    preview: seq<Row>,
    texto: string)

  /** The answer to a stored upload: a reader failure or an unsupported
      extension passes through; a readable file fails, with a 500, exactly
      when its text cannot be rendered; otherwise the response carries the
      detected platform, the summary `ResumoFor` fixes, the table's shape,
      its first rows and the rendered text. */
  ghost predicate Answers(file: UploadFile, rd: Readers, money: real -> string, detail: string,
                          res: Result<UploadResponse, HttpError>)
  {
    var read := ReadUpload(Extension(file.filename), file.content, rd);
    && (read.Failure? ==> res == Failure(read.error))
    && (read.Success? ==> (res.Failure? <==> TextFails(Detect(file.filename), read.value, rd)))
    && (read.Success? && res.Failure? ==> res.error == ServerError)
    && (res.Success? ==>
          var u := res.value;
          && read.Success?
          && u.plataforma == Detect(file.filename)
          && ResumoFor(u.resumo, u.plataforma, read.value, rd, detail)
          && u.numRows == |read.value.rows| && u.numColumns == |read.value.columns|
          && u.colunas == read.value.columns
          && u.preview == Head(read.value.rows)
          && Render(u.plataforma, u.resumo, money) == Success(u.texto))
  }

  /** Everything after the bytes are stored: dispatch on the extension,
      read the table, detect the platform, summarise and render. */
  method Respond(file: UploadFile, rd: Readers, money: real -> string, detail: string)
    returns (res: Result<UploadResponse, HttpError>)
    ensures Answers(file, rd, money, detail, res)
  {
    var ext := Extension(file.filename);
    var read := ReadUpload(ext, file.content, rd);
    if read.Failure? {
      return Failure(read.error);
    }
    var t := read.value;
    var p := Detect(file.filename);
    var resumo := BuildResumo(p, t, rd, detail);
    RenderFailsIff(resumo, p, t, rd, detail, money);
    var texto := Render(p, resumo, money);
    if texto.Failure? {
      return Failure(texto.error);
    }
    res := Success(UploadResponse(p, resumo, |t.rows|, |t.columns|, t.columns, Head(t.rows), texto.value));
  }

  /** `upload_excel`: a missing file part or an empty file name is refused
      with a 400 and nothing is stored; otherwise the bytes are stored
      first, so an unsupported extension or an unreadable file is refused
      only after it was saved. */
  method UploadExcel(store: FileStore, file: Option<UploadFile>, rd: Readers,
                     money: real -> string, detail: string)
    returns (res: Result<UploadResponse, HttpError>)
    modifies store
    ensures file.None? ==> res == Failure(BadRequest(NoFile))
    ensures file.Some? && file.value.filename == [] ==> res == Failure(BadRequest(EmptyName))
    ensures file.None? || file.value.filename == [] ==> store.files == old(store.files)
    ensures file.Some? && file.value.filename != [] ==>
      store.files == old(store.files) + [StoredFile(file.value.filename, file.value.content)]
    ensures file.Some? && file.value.filename != [] ==>
      (res == Failure(BadRequest(UnsupportedFormat)) <==> !Supported(Extension(file.value.filename)))
    ensures file.Some? && file.value.filename != [] ==> Answers(file.value, rd, money, detail, res)
    ensures res.Failure? ==> res.error.Status() == 400 || res.error.Status() == 500
  {
    if file.None? {
      return Failure(BadRequest(NoFile));
    }
    var f := file.value;
    if f.filename == [] {
      return Failure(BadRequest(EmptyName));
    }
    store.Save(f.filename, f.content);
    res := Respond(f, rd, money, detail);
  }
}
