/** The closed set of marketplaces, how a file name is classified into one
    of them (`detecta_plataforma`), and the two per-platform column tables:
    `colunas_map`, used by the cross-file summary, and
    `colunas_por_plataforma`, used by the single-file summary. */
module Platforms {
  import opened Values
  import opened Text

  datatype Platform = Shopee | MercadoLivre | TikTok | Shein | Outro
  {
    /** The tag the source uses for the platform. */
    function Name(): string
    {
      match this
      case Shopee => "Shopee"
      case MercadoLivre => "Mercado Livre"
      case TikTok => "TikTok"
      case Shein => "Shein"
      case Outro => "Outro"
    }

    /** Position in the detection priority, which is also the iteration
        order of `colunas_map`; the catch-all comes last. */
    function Rank(): nat
    {
      match this
      case Shopee => 0
      case MercadoLivre => 1
      case TikTok => 2
      case Shein => 3
      case Outro => 4
    }
  }

  /** The lower-case keywords a file name is searched for, per platform. */
  function Keywords(p: Platform): seq<string>
  {
    match p
    case Shopee => ["shopee"]
    case MercadoLivre => ["mercadolivre", "mercado livre"]
    case TikTok => ["tiktok"]
    case Shein => ["shein"]
    case Outro => []
  }

  /** `detecta_plataforma`: lower-case the name, then test the keywords in
      priority order; the catch-all when none occurs. */
  function Detect(name: string): (p: Platform)
    ensures Matches(name, p)
    ensures forall q: Platform :: q.Rank() < p.Rank() ==> !Matches(name, q)
  {
    var n := LowerStr(name);
    assert Keywords(MercadoLivre) == ["mercadolivre", "mercado livre"];
    if Contains(n, "shopee") then Shopee
    else if Contains(n, "mercadolivre") || Contains(n, "mercado livre") then MercadoLivre
    else if Contains(n, "tiktok") then TikTok
    else if Contains(n, "shein") then Shein
    else Outro
  }

  /** Reference reading of detection: some keyword of `p` occurs in the
      lower-cased name; the catch-all matches every name. */
  predicate Matches(name: string, p: Platform)
  {
    p == Outro || exists k :: k in Keywords(p) && Contains(LowerStr(name), k)
  }

  /** Detection picks the first platform, in priority order, whose keyword
      occurs in the name, and the catch-all exactly when none does. */
  lemma DetectIsFirstMatch(name: string, p: Platform)
    ensures Detect(name) == p <==>
      Matches(name, p) && forall q: Platform :: q.Rank() < p.Rank() ==> !Matches(name, q)
  {
    var n := LowerStr(name);
    assert Keywords(MercadoLivre)[0] == "mercadolivre" && Keywords(MercadoLivre)[1] == "mercado livre";
    assert Matches(name, Shopee) <==> Contains(n, "shopee");
    assert Matches(name, MercadoLivre) <==> Contains(n, "mercadolivre") || Contains(n, "mercado livre");
    assert Matches(name, TikTok) <==> Contains(n, "tiktok");
    assert Matches(name, Shein) <==> Contains(n, "shein");
  }

  /** A name that spells a platform's keyword in any mix of cases, and no
      keyword of a platform ranked before it, is classified as that
      platform. In particular a name holding "shopee" is Shopee whatever
      else it holds, e.g. both "shopee" and "shein". */
  lemma DetectFindsKeyword(a: string, k: string, b: string, p: Platform)
    requires LowerStr(k) in Keywords(p)
    requires forall q: Platform :: q.Rank() < p.Rank() ==> !Matches(a + k + b, q)
    ensures Detect(a + k + b) == p
  {
    ContainsAnyCase(a, k, b, LowerStr(k));
    DetectIsFirstMatch(a + k + b, p);
  }

  /** Classification ignores case, so classifying the already lower-cased
      stored name (as the cross-file summary does) changes nothing. */
  lemma DetectIgnoresCase(name: string)
    ensures Detect(LowerStr(name)) == Detect(name)
  {
    LowerStrIdempotent(name);
  }

  // The column headers of each marketplace's order export.

  const ShopeeDate: string := "Hora do pagamento do pedido"
  const ShopeeSku: string := "Número de referência SKU"
  const ShopeeVariation: string := "Nome da variação"
  const ShopeeValue: string := "Subtotal do produto"
  const ShopeeQty: string := "Quantidade"
  const ShopeeStatus: string := "Status do pedido"

  const MercadoLivreDate: string := "Data da venda"
  const MercadoLivreSku: string := "SKU"
  const MercadoLivreVariation: string := "Variação"
  const MercadoLivreValue: string := "Total (BRL)"
  const MercadoLivreQty: string := "Unidades"
  const MercadoLivreStatus: string := "Status"

  const TikTokDate: string := "Order paid time."
  const TikTokSku: string := "Seller sku input by the seller in the product system."
  const TikTokVariation: string := "Platform SKU variation"
  const TikTokValue: string := "It equals SKU Subtotal Before Discount - SKU Platform Discount - SKU Seller Discount."
  const TikTokQty: string := "SKU sold quantity in the order."
  const TikTokStatus: string := "Order status"

  const SheinSku: string := "SKU do vendedor"
  const SheinDate: string := "Data e hora de criação do pedido"
  const SheinVariation: string := "Variação"
  const SheinValue: string := "Receita estimada de mercadorias"
  const SheinQty: string := "Quantidade"
  const SheinStatus: string := "Status do pedido"

  /** The source column names of the canonical fields of one platform. */
  datatype Schema = Schema(sku: string, qtd: string, valor: string, status: string, data: string)

  /** The five roles are played by five different columns. */
  predicate DistinctRoles(s: Schema)
  {
    var cols := [s.sku, s.qtd, s.valor, s.status, s.data];
    forall i, j :: 0 <= i < j < 5 ==> cols[i] != cols[j]
  }

  /** `colunas_map`: the schema of each of the four supported platforms;
      the catch-all has none. */
  function ColumnsMap(p: Platform): (s: Option<Schema>)
    ensures s.Some? <==> p != Outro
    ensures s.Some? ==> DistinctRoles(s.value)
  {
    match p
    case Shopee => Some(Schema(ShopeeSku, ShopeeQty, ShopeeValue, ShopeeStatus, ShopeeDate))
    case MercadoLivre => Some(Schema(MercadoLivreSku, MercadoLivreQty, MercadoLivreValue,
                                     MercadoLivreStatus, MercadoLivreDate))
    case TikTok => Some(Schema(TikTokSku, TikTokQty, TikTokValue, TikTokStatus, TikTokDate))
    case Shein => Some(Schema(SheinSku, SheinQty, SheinValue, SheinStatus, SheinDate))
    case Outro => None
  }

  /** The iteration order of `colunas_map`. */
  const Registry: seq<Platform> := [Shopee, MercadoLivre, TikTok, Shein]

  /** The registry lists each supported platform once, at its rank, and
      never the catch-all. */
  lemma RegistryOrder()
    ensures |Registry| == 4
    ensures forall i :: 0 <= i < |Registry| ==> Registry[i].Rank() == i
    ensures forall p :: p in Registry <==> p != Outro
  {
  }

  /** `colunas_por_plataforma`: the five columns the single-file summary
      expects per platform; the catch-all has no entry. */
  function ExpectedColumns(p: Platform): (cols: Option<seq<string>>)
    ensures cols.Some? <==> p != Outro
    ensures cols.Some? ==> |cols.value| == 5
  {
    match p
    case Shopee => Some([ShopeeDate, ShopeeSku, ShopeeVariation, ShopeeValue, ShopeeQty])
    case MercadoLivre => Some([MercadoLivreDate, MercadoLivreSku, MercadoLivreVariation,
                               MercadoLivreValue, MercadoLivreQty])
    case TikTok => Some([TikTokDate, TikTokSku, TikTokVariation, TikTokValue, TikTokQty])
    case Shein => Some([SheinSku, SheinDate, SheinVariation, SheinValue, SheinQty])
    case Outro => None
  }

  /** No platform expects the same column twice. */
  lemma ExpectedColumnsDistinct(p: Platform)
    requires p != Outro
    ensures Distinct(ExpectedColumns(p).value)
  {
    var e := ExpectedColumns(p).value;
    var n := [|e[0]|, |e[1]|, |e[2]|, |e[3]|, |e[4]|];
    match p
    case Shopee => assert n == [27, 24, 16, 19, 10];
    case MercadoLivre => assert n == [13, 3, 8, 11, 8];
    case TikTok => assert n == [16, 53, 22, 85, 31];
    case Shein => assert n == [15, 32, 8, 31, 10];
  }

  /** How the two tables relate: the expected columns are the schema's
      date, SKU, quantity and value columns plus a variation column, and
      never the status column. */
  lemma ExpectedColumnsAgreeWithSchema(p: Platform)
    requires p != Outro
    ensures ExpectedColumns(p).Some? && ColumnsMap(p).Some?
    ensures var e, s := ExpectedColumns(p).value, ColumnsMap(p).value;
      && s.sku in e && s.qtd in e && s.valor in e && s.data in e
      && s.status !in e
  {
  }
}
