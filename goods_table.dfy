/**
 * src/tables/goods_table.rs: the goods repository. Searching compiles the
 * present fields of a `GoodsSearchParams` into ` AND ... $k` conditions and
 * a bind list; insert is get-or-create on `material_code`; update and
 * delete walk the matched rows one at a time.
 */
module Goods {
  import opened Wrappers
  import opened Like
  import opened StringUtils
  import opened Store
  import opened Filter

  datatype GoodsSearchParams = GoodsSearchParams(
    goodsId: Option<int>,
    materialCode: Option<string>,
    goodsName: Option<string>,
    price: Option<real>,
    volumnL: Option<real>,
    massG: Option<real>,
    minVolumnL: Option<real>,
    maxVolumnL: Option<real>,
    minMassG: Option<real>,
    maxMassG: Option<real>,
    minPrice: Option<real>,
    maxPrice: Option<real>)
  {
    /** `is_get_all`: a `*` in either text identity field asks for every row. */
    predicate IsGetAll() {
      goodsName == Some("*") || materialCode == Some("*")
    }
  }

  /** `GoodsSearchParams::new`: nothing constrained, so nothing is compiled. */
  function NewSearchParams(): (p: GoodsSearchParams)
    ensures !p.IsGetAll() && GoodsFilters(p) == []
  {
    GoodsSearchParams(None, None, None, None, None, None, None, None, None, None, None, None)
  }

  datatype CreateGoodRequest = CreateGoodRequest(
    materialCode: string,
    goodsName: string,
    description: Option<seq<string>>,
    price: real,
    volumnL: real,
    massG: real,
    massBase: Option<int>,
    volumnBase: Option<int>)

  datatype UpdateGoodRequest = UpdateGoodRequest(
    materialCode: Option<string>,
    goodsName: Option<string>,
    description: Option<seq<string>>,
    price: Option<real>,
    volumnL: Option<real>,
    massG: Option<real>,
    massBase: Option<int>,
    volumnBase: Option<int>)

  // ---------------------------------------------------------------------
  // Search

  /**
   * The filters a non-get-all search compiles, in the fixed order
   * goods_id, material_code, goods_name, price, volumn_l, mass_g, then the
   * min/max pairs of volumn_l, mass_g and price.
   */
  function GoodsFilters(p: GoodsSearchParams): seq<Filter> {
    IdentityFilters(p) + ExactFilters(p) + VolumeMassFilters(p) + MassPriceFilters(p)
  }

  /** goods_id, material_code, goods_name */
  function IdentityFilters(p: GoodsSearchParams): seq<Filter> {
    IntFilter(GoodsIdCol, Eq, p.goodsId) + PatternFilter(MaterialCodeCol, p.materialCode) + PatternFilter(GoodsNameCol, p.goodsName)
  }

  /** price, volumn_l, mass_g */
  function ExactFilters(p: GoodsSearchParams): seq<Filter> {
    DecFilter(PriceCol, Eq, p.price) + DecFilter(VolumnLCol, Eq, p.volumnL) + DecFilter(MassGCol, Eq, p.massG)
  }

  /** min/max volumn_l, min mass_g */
  function VolumeMassFilters(p: GoodsSearchParams): seq<Filter> {
    DecFilter(VolumnLCol, Ge, p.minVolumnL) + DecFilter(VolumnLCol, Le, p.maxVolumnL) + DecFilter(MassGCol, Ge, p.minMassG)
  }

  /** max mass_g, min/max price */
  function MassPriceFilters(p: GoodsSearchParams): seq<Filter> {
    DecFilter(MassGCol, Le, p.maxMassG) + DecFilter(PriceCol, Ge, p.minPrice) + DecFilter(PriceCol, Le, p.maxPrice)
  }

  /** `column ILIKE to_search_pattern(v)` */
  predicate PatternMatches(column: string, v: string) {
    ILike(column, ToSearchPattern(v))
  }

  /** What a good must satisfy to be found: every present field, ranges inclusive at both ends. */
  predicate MatchesGoods(p: GoodsSearchParams, g: Good) {
    && (p.goodsId.Some? ==> g.goodsId == p.goodsId.value)
    && (p.materialCode.Some? ==> PatternMatches(g.materialCode, p.materialCode.value))
    && (p.goodsName.Some? ==> PatternMatches(g.goodsName, p.goodsName.value))
    && (p.price.Some? ==> g.price == p.price.value)
    && (p.volumnL.Some? ==> g.volumnL == p.volumnL.value)
    && (p.massG.Some? ==> g.massG == p.massG.value)
    && (p.minVolumnL.Some? ==> g.volumnL >= p.minVolumnL.value)
    && (p.maxVolumnL.Some? ==> g.volumnL <= p.maxVolumnL.value)
    && (p.minMassG.Some? ==> g.massG >= p.minMassG.value)
    && (p.maxMassG.Some? ==> g.massG <= p.maxMassG.value)
    && (p.minPrice.Some? ==> g.price >= p.minPrice.value)
    && (p.maxPrice.Some? ==> g.price <= p.maxPrice.value)
  }

  /** The goods that match, in table order. */
  function MatchingGoods(gs: seq<Good>, p: GoodsSearchParams): (r: seq<Good>)
    ensures forall g :: g in r <==> g in gs && MatchesGoods(p, g)
    ensures GoodsSorted(gs) ==> GoodsSorted(r)
  {
    if gs == [] then []
    else
      var rest := MatchingGoods(gs[1..], p);
      SortedTail(gs);
      SortedCons(gs, rest);
      if MatchesGoods(p, gs[0]) then [gs[0]] + rest else rest
  }

  /** The engine: the rows for which the compiled conditions hold, in key order. */
  function SelectGoods(gs: seq<Good>, conds: seq<Cond>, binds: seq<Value>): seq<Good> {
    if gs == [] then []
    else
      var head := if EvalAll(conds, binds, GoodsRow(gs[0])) then [gs[0]] else [];
      head + SelectGoods(gs[1..], conds, binds)
  }

  /** What `search` returns for a goods table. */
  function SearchResult(gs: seq<Good>, p: GoodsSearchParams): (r: seq<Good>)
    ensures p.IsGetAll() ==> r == gs
    ensures !p.IsGetAll() ==> forall g :: g in r <==> g in gs && MatchesGoods(p, g)
    ensures GoodsSorted(gs) ==> GoodsSorted(r)
  {
    if p.IsGetAll() then gs else MatchingGoods(gs, p)
  }

  const GoodsColumns: string :=
    "goods_id, material_code, goods_name, description, price, volumn_l, mass_g, mass_base, volumn_base"
  const GoodsSearchBase: string := "SELECT " + GoodsColumns + " FROM goods WHERE 1=1"
  const GoodsOrderBy: string := " ORDER BY goods_id ASC"

  /**
   * The query-building half of `search`: one condition per present field
   * in the fixed order, the k-th carrying `$k`.
   */
  method CompileGoodsSearch(p: GoodsSearchParams) returns (query: string, conds: seq<Cond>)
    requires !p.IsGetAll()
    ensures conds == Number(GoodsFilters(p), 0)
    ensures query == GoodsSearchBase + ConditionsSql(conds, false) + GoodsOrderBy
  {
    var bindCount;
    conds, bindCount := PushGoodsConditions(p, 0);
    query := GoodsSearchBase + ConditionsSql(conds, false) + GoodsOrderBy;
  }

  /**
   * The goods conditions, numbered after `start` earlier ones: the goods
   * search starts at 0, the inventory search after its own conditions.
   */
  method PushGoodsConditions(p: GoodsSearchParams, start: nat) returns (conds: seq<Cond>, bindCount: nat)
    requires !p.IsGetAll()
    ensures conds == Number(GoodsFilters(p), start) && bindCount == start + |GoodsFilters(p)|
  {
    var c1, n1 := PushIdentityConditions(p, start);
    var c2, n2 := PushExactConditions(p, n1);
    NumberJoin(c1, c2, IdentityFilters(p), ExactFilters(p), start, n1);
    var c3, n3 := PushVolumeMassConditions(p, n2);
    NumberJoin(c1 + c2, c3, IdentityFilters(p) + ExactFilters(p), VolumeMassFilters(p), start, n2);
    var c4, n4 := PushMassPriceConditions(p, n3);
    NumberJoin(c1 + c2 + c3, c4, IdentityFilters(p) + ExactFilters(p) + VolumeMassFilters(p), MassPriceFilters(p), start, n3);
    conds, bindCount := c1 + c2 + c3 + c4, n4;
  }

  /** The goods_id, material_code and goods_name conditions; `*` never reaches them. */
  method PushIdentityConditions(p: GoodsSearchParams, start: nat) returns (conds: seq<Cond>, bindCount: nat)
    requires !p.IsGetAll()
    ensures conds == Number(IdentityFilters(p), start) && bindCount == start + |IdentityFilters(p)|
  {
    var f1, f2, f3 := IntFilter(GoodsIdCol, Eq, p.goodsId), PatternFilter(MaterialCodeCol, p.materialCode), PatternFilter(GoodsNameCol, p.goodsName);
    conds, bindCount := PushCondition([], start, p.goodsId.Some?, GoodsIdCol, Eq, start, [], f1);
    assert [] + f1 == f1;
    conds, bindCount := PushCondition(conds, bindCount, p.materialCode.Some? && !p.IsGetAll(), MaterialCodeCol, ILikeOp, start, f1, f2);
    conds, bindCount := PushCondition(conds, bindCount, p.goodsName.Some? && !p.IsGetAll(), GoodsNameCol, ILikeOp, start, f1 + f2, f3);
  }

  /** The exact price, volumn_l and mass_g conditions. */
  method PushExactConditions(p: GoodsSearchParams, start: nat) returns (conds: seq<Cond>, bindCount: nat)
    ensures conds == Number(ExactFilters(p), start) && bindCount == start + |ExactFilters(p)|
  {
    var f1, f2, f3 := DecFilter(PriceCol, Eq, p.price), DecFilter(VolumnLCol, Eq, p.volumnL), DecFilter(MassGCol, Eq, p.massG);
    conds, bindCount := PushCondition([], start, p.price.Some?, PriceCol, Eq, start, [], f1);
    assert [] + f1 == f1;
    conds, bindCount := PushCondition(conds, bindCount, p.volumnL.Some?, VolumnLCol, Eq, start, f1, f2);
    conds, bindCount := PushCondition(conds, bindCount, p.massG.Some?, MassGCol, Eq, start, f1 + f2, f3);
  }

  /** The volumn_l bounds and the minimum mass_g. */
  method PushVolumeMassConditions(p: GoodsSearchParams, start: nat) returns (conds: seq<Cond>, bindCount: nat)
    ensures conds == Number(VolumeMassFilters(p), start) && bindCount == start + |VolumeMassFilters(p)|
  {
    var f1, f2, f3 := DecFilter(VolumnLCol, Ge, p.minVolumnL), DecFilter(VolumnLCol, Le, p.maxVolumnL), DecFilter(MassGCol, Ge, p.minMassG);
    conds, bindCount := PushCondition([], start, p.minVolumnL.Some?, VolumnLCol, Ge, start, [], f1);
    assert [] + f1 == f1;
    conds, bindCount := PushCondition(conds, bindCount, p.maxVolumnL.Some?, VolumnLCol, Le, start, f1, f2);
    conds, bindCount := PushCondition(conds, bindCount, p.minMassG.Some?, MassGCol, Ge, start, f1 + f2, f3);
  }

  /** The maximum mass_g and the price bounds. */
  method PushMassPriceConditions(p: GoodsSearchParams, start: nat) returns (conds: seq<Cond>, bindCount: nat)
    ensures conds == Number(MassPriceFilters(p), start) && bindCount == start + |MassPriceFilters(p)|
  {
    var f1, f2, f3 := DecFilter(MassGCol, Le, p.maxMassG), DecFilter(PriceCol, Ge, p.minPrice), DecFilter(PriceCol, Le, p.maxPrice);
    conds, bindCount := PushCondition([], start, p.maxMassG.Some?, MassGCol, Le, start, [], f1);
    assert [] + f1 == f1;
    conds, bindCount := PushCondition(conds, bindCount, p.minPrice.Some?, PriceCol, Ge, start, f1, f2);
    conds, bindCount := PushCondition(conds, bindCount, p.maxPrice.Some?, PriceCol, Le, start, f1 + f2, f3);
  }

  /** The binding half of `search`: the values of the present fields, in the order the conditions were added. */
  method BindGoodsSearch(p: GoodsSearchParams) returns (binds: seq<Value>)
    requires !p.IsGetAll()
    ensures binds == Values(GoodsFilters(p))
  {
    var b1 := BindIdentity(p);
    var b2 := BindExact(p);
    var b3 := BindVolumeMass(p);
    var b4 := BindMassPrice(p);
    binds := b1 + b2 + b3 + b4;
    var f3 := IdentityFilters(p);
    var f6 := f3 + ExactFilters(p);
    var f9 := f6 + VolumeMassFilters(p);
    ValuesAppend(f3, ExactFilters(p));
    ValuesAppend(f6, VolumeMassFilters(p));
    ValuesAppend(f9, MassPriceFilters(p));
  }

  method BindIdentity(p: GoodsSearchParams) returns (binds: seq<Value>)
    requires !p.IsGetAll()
    ensures binds == Values(IdentityFilters(p))
  {
    var f1, f2, f3 := IntFilter(GoodsIdCol, Eq, p.goodsId), PatternFilter(MaterialCodeCol, p.materialCode), PatternFilter(GoodsNameCol, p.goodsName);
    binds := BindInt([], p.goodsId, [], f1);
    assert [] + f1 == f1;
    binds := BindPattern(binds, p.materialCode, f1, f2);
    binds := BindPattern(binds, p.goodsName, f1 + f2, f3);
  }

  method BindExact(p: GoodsSearchParams) returns (binds: seq<Value>)
    ensures binds == Values(ExactFilters(p))
  {
    var f1, f2, f3 := DecFilter(PriceCol, Eq, p.price), DecFilter(VolumnLCol, Eq, p.volumnL), DecFilter(MassGCol, Eq, p.massG);
    binds := BindDec([], p.price, [], f1);
    assert [] + f1 == f1;
    binds := BindDec(binds, p.volumnL, f1, f2);
    binds := BindDec(binds, p.massG, f1 + f2, f3);
  }

  method BindVolumeMass(p: GoodsSearchParams) returns (binds: seq<Value>)
    ensures binds == Values(VolumeMassFilters(p))
  {
    var f1, f2, f3 := DecFilter(VolumnLCol, Ge, p.minVolumnL), DecFilter(VolumnLCol, Le, p.maxVolumnL), DecFilter(MassGCol, Ge, p.minMassG);
    binds := BindDec([], p.minVolumnL, [], f1);
    assert [] + f1 == f1;
    binds := BindDec(binds, p.maxVolumnL, f1, f2);
    binds := BindDec(binds, p.minMassG, f1 + f2, f3);
  }

  method BindMassPrice(p: GoodsSearchParams) returns (binds: seq<Value>)
    ensures binds == Values(MassPriceFilters(p))
  {
    var f1, f2, f3 := DecFilter(MassGCol, Le, p.maxMassG), DecFilter(PriceCol, Ge, p.minPrice), DecFilter(PriceCol, Le, p.maxPrice);
    binds := BindDec([], p.maxMassG, [], f1);
    assert [] + f1 == f1;
    binds := BindDec(binds, p.minPrice, f1, f2);
    binds := BindDec(binds, p.maxPrice, f1 + f2, f3);
  }

  // ---------------------------------------------------------------------
  // Search lemmas

  lemma SortedTail(gs: seq<Good>)
    requires gs != []
    ensures GoodsSorted(gs) ==> GoodsSorted(gs[1..])
  {
    if GoodsSorted(gs) {
      forall i, j | 0 <= i < j < |gs[1..]| ensures gs[1..][i].goodsId < gs[1..][j].goodsId {
        assert gs[1..][i] == gs[i + 1] && gs[1..][j] == gs[j + 1];
      }
    }
  }

  /** Putting the head back in front of a filtered tail keeps the key order. */
  lemma SortedCons(gs: seq<Good>, rest: seq<Good>)
    requires gs != []
    requires forall g :: g in rest ==> g in gs[1..]
    requires GoodsSorted(gs) ==> GoodsSorted(rest)
    ensures GoodsSorted(gs) ==> GoodsSorted([gs[0]] + rest)
  {
    if GoodsSorted(gs) {
      var r := [gs[0]] + rest;
      forall i, j | 0 <= i < j < |r| ensures r[i].goodsId < r[j].goodsId {
        if i == 0 {
          assert r[j] == rest[j - 1];
          assert rest[j - 1] in gs[1..];
          var t :| 0 <= t < |gs[1..]| && gs[1..][t] == rest[j - 1];
          assert gs[1..][t] == gs[t + 1];
        } else {
          assert r[i] == rest[i - 1] && r[j] == rest[j - 1];
        }
      }
    }
  }

  predicate IdentityMatches(p: GoodsSearchParams, g: Good) {
    && (p.goodsId.Some? ==> g.goodsId == p.goodsId.value)
    && (p.materialCode.Some? ==> PatternMatches(g.materialCode, p.materialCode.value))
    && (p.goodsName.Some? ==> PatternMatches(g.goodsName, p.goodsName.value))
  }

  predicate MeasuresMatch(p: GoodsSearchParams, g: Good) {
    && (p.price.Some? ==> g.price == p.price.value)
    && (p.volumnL.Some? ==> g.volumnL == p.volumnL.value)
    && (p.massG.Some? ==> g.massG == p.massG.value)
  }

  predicate VolumeMassInRange(p: GoodsSearchParams, g: Good) {
    && (p.minVolumnL.Some? ==> g.volumnL >= p.minVolumnL.value)
    && (p.maxVolumnL.Some? ==> g.volumnL <= p.maxVolumnL.value)
    && (p.minMassG.Some? ==> g.massG >= p.minMassG.value)
  }

  predicate MassPriceInRange(p: GoodsSearchParams, g: Good) {
    && (p.maxMassG.Some? ==> g.massG <= p.maxMassG.value)
    && (p.minPrice.Some? ==> g.price >= p.minPrice.value)
    && (p.maxPrice.Some? ==> g.price <= p.maxPrice.value)
  }

  lemma IdentityMeaning(p: GoodsSearchParams, row: Row)
    ensures AllHold(IdentityFilters(p), row) <==> IdentityMatches(p, GoodOf(row))
  {
    var f1 := IntFilter(GoodsIdCol, Eq, p.goodsId);
    var f2 := f1 + PatternFilter(MaterialCodeCol, p.materialCode);
    AllHoldConcat(f1, PatternFilter(MaterialCodeCol, p.materialCode), row);
    AllHoldConcat(f2, PatternFilter(GoodsNameCol, p.goodsName), row);
  }

  lemma MeasuresMeaning(p: GoodsSearchParams, row: Row)
    ensures AllHold(ExactFilters(p), row) <==> MeasuresMatch(p, GoodOf(row))
  {
    var f1 := DecFilter(PriceCol, Eq, p.price);
    var f2 := f1 + DecFilter(VolumnLCol, Eq, p.volumnL);
    AllHoldConcat(f1, DecFilter(VolumnLCol, Eq, p.volumnL), row);
    AllHoldConcat(f2, DecFilter(MassGCol, Eq, p.massG), row);
  }

  lemma VolumeMassMeaning(p: GoodsSearchParams, row: Row)
    ensures AllHold(VolumeMassFilters(p), row) <==> VolumeMassInRange(p, GoodOf(row))
  {
    var f1 := DecFilter(VolumnLCol, Ge, p.minVolumnL);
    var f2 := f1 + DecFilter(VolumnLCol, Le, p.maxVolumnL);
    AllHoldConcat(f1, DecFilter(VolumnLCol, Le, p.maxVolumnL), row);
    AllHoldConcat(f2, DecFilter(MassGCol, Ge, p.minMassG), row);
  }

  lemma MassPriceMeaning(p: GoodsSearchParams, row: Row)
    ensures AllHold(MassPriceFilters(p), row) <==> MassPriceInRange(p, GoodOf(row))
  {
    var f1 := DecFilter(MassGCol, Le, p.maxMassG);
    var f2 := f1 + DecFilter(PriceCol, Ge, p.minPrice);
    AllHoldConcat(f1, DecFilter(PriceCol, Ge, p.minPrice), row);
    AllHoldConcat(f2, DecFilter(PriceCol, Le, p.maxPrice), row);
  }

  /** The compiled goods filters hold on a row exactly when its good matches every present field. */
  lemma GoodsFiltersMeaning(p: GoodsSearchParams, row: Row)
    ensures AllHold(GoodsFilters(p), row) <==> MatchesGoods(p, GoodOf(row))
  {
    var f3 := IdentityFilters(p);
    var f6 := f3 + ExactFilters(p);
    var f9 := f6 + VolumeMassFilters(p);
    IdentityMeaning(p, row);
    MeasuresMeaning(p, row);
    VolumeMassMeaning(p, row);
    MassPriceMeaning(p, row);
    AllHoldConcat(f3, ExactFilters(p), row);
    AllHoldConcat(f6, VolumeMassFilters(p), row);
    AllHoldConcat(f9, MassPriceFilters(p), row);
  }

  /** Running the compiled query selects exactly the matching goods, in the same order. */
  lemma {:induction false} SelectCompiled(gs: seq<Good>, p: GoodsSearchParams)
    ensures SelectGoods(gs, Number(GoodsFilters(p), 0), Values(GoodsFilters(p))) == MatchingGoods(gs, p)
  {
    if gs != [] {
      SelectCompiled(gs[1..], p);
      CompiledMeansFilters(GoodsFilters(p), GoodsRow(gs[0]));
      GoodsFiltersMeaning(p, GoodsRow(gs[0]));
    }
  }

  /** Every get-all search returns the whole table, whatever else it asks for. */
  lemma GetAllIgnoresOtherFields(gs: seq<Good>, p: GoodsSearchParams, q: GoodsSearchParams)
    requires p.IsGetAll() && q.IsGetAll()
    ensures SearchResult(gs, p) == SearchResult(gs, q) == gs
  {
  }

  /** Range bounds are inclusive: a good is found by its own value as minimum and as maximum. */
  lemma RangesAreInclusive(g: Good)
    ensures MatchesGoods(NewSearchParams().(minPrice := Some(g.price), maxPrice := Some(g.price)), g)
    ensures MatchesGoods(NewSearchParams().(minMassG := Some(g.massG), maxMassG := Some(g.massG)), g)
    ensures MatchesGoods(NewSearchParams().(minVolumnL := Some(g.volumnL), maxVolumnL := Some(g.volumnL)), g)
  {
  }

  /** For a validated search text (no backslash, not `*`), the text filter is a case-insensitive substring test. */
  lemma PatternMatchIsSubstring(column: string, v: string)
    requires v != "*" && '\\' !in v
    ensures PatternMatches(column, v) <==> ContainsCI(column, v)
  {
    SearchPatternMeansSubstring(v, column);
  }

  // ---------------------------------------------------------------------
  // Rows of a table

  /** Every row of `r` is a row of `gs`. */
  predicate RowsOf(r: seq<Good>, gs: seq<Good>) {
    forall j :: 0 <= j < |r| ==> r[j] in gs
  }

  /** A key-ordered selection of rows of a table with unique codes has unique codes. */
  lemma SelectionKeepsUniqueCodes(gs: seq<Good>, r: seq<Good>)
    requires UniqueCodes(gs) && GoodsSorted(r) && RowsOf(r, gs)
    ensures UniqueCodes(r)
  {
    forall i, j | 0 <= i < j < |r| ensures r[i].materialCode != r[j].materialCode {
      var a :| 0 <= a < |gs| && gs[a] == r[i];
      var b :| 0 <= b < |gs| && gs[b] == r[j];
      assert a != b;
      if a < b {
        assert gs[a].materialCode != gs[b].materialCode;
      } else {
        assert gs[b].materialCode != gs[a].materialCode;
      }
    }
  }

  lemma SortedRowMatchesKey(gs: seq<Good>, g: Good)
    requires GoodsSorted(gs) && g in gs
    ensures IndexOfGood(gs, g.goodsId).Some? && gs[IndexOfGood(gs, g.goodsId).value] == g
  {
    var a :| 0 <= a < |gs| && gs[a] == g;
    var k := IndexOfGood(gs, g.goodsId).value;
    assert a == k;
  }

  // ---------------------------------------------------------------------
  // Insert

  /** The row `INSERT INTO goods ... RETURNING ...` creates under key `id`; the unit codes default to 0. */
  function NewGood(id: int, req: CreateGoodRequest): Good {
    Good(id, req.materialCode, req.goodsName, req.description, req.price, req.volumnL, req.massG,
      req.massBase.GetOr(0), req.volumnBase.GetOr(0))
  }

  /** `insert`: the stored row with the same material code, or else a new row under the next key. */
  function InsertGood(gs: seq<Good>, nextId: int, req: CreateGoodRequest): (r: (seq<Good>, Good)) {
    match FindGoodByCode(gs, req.materialCode)
      case Some(existing) => (gs, existing)
      case None => (gs + [NewGood(nextId, req)], NewGood(nextId, req))
  }

  lemma {:induction false} FindCodeAfterAppend(gs: seq<Good>, g: Good)
    requires forall k :: 0 <= k < |gs| ==> gs[k].materialCode != g.materialCode
    ensures FindGoodByCode(gs + [g], g.materialCode) == Some(g)
  {
    if gs == [] {
      assert gs + [g] == [g];
    } else {
      assert (gs + [g])[1..] == gs[1..] + [g];
      FindCodeAfterAppend(gs[1..], g);
    }
  }

  /**
   * The stored row wins: with a known code nothing changes and the stored
   * row comes back; with a new code exactly one row is added, under the
   * next key, carrying the request's fields and unit codes defaulted to 0.
   */
  lemma InsertOutcome(gs: seq<Good>, nextId: int, req: CreateGoodRequest)
    ensures var (gs', g) := InsertGood(gs, nextId, req);
      && g.materialCode == req.materialCode
      && (FindGoodByCode(gs, req.materialCode).Some? ==> gs' == gs && g in gs)
      && (FindGoodByCode(gs, req.materialCode).None? ==>
            gs' == gs + [g] && g.goodsId == nextId && g.goodsName == req.goodsName
            && g.price == req.price && g.volumnL == req.volumnL && g.massG == req.massG
            && g.description == req.description
            && g.massBase == (if req.massBase.Some? then req.massBase.value else 0)
            && g.volumnBase == (if req.volumnBase.Some? then req.volumnBase.value else 0))
  {
  }

  /** A second insert with the same material code returns the first one's row and changes nothing. */
  lemma InsertIsIdempotent(gs: seq<Good>, nextId: int, req: CreateGoodRequest, nextId2: int, req2: CreateGoodRequest)
    requires req2.materialCode == req.materialCode
    ensures var first := InsertGood(gs, nextId, req);
      InsertGood(first.0, nextId2, req2) == first
  {
    if FindGoodByCode(gs, req.materialCode).None? {
      FindCodeAfterAppend(gs, NewGood(nextId, req));
    }
  }

  /** Insert keeps keys ascending and codes unique, and afterwards the code finds the returned row. */
  lemma InsertKeepsTableValid(gs: seq<Good>, nextId: int, req: CreateGoodRequest)
    requires GoodsSorted(gs) && UniqueCodes(gs)
    requires forall k :: 0 <= k < |gs| ==> gs[k].goodsId < nextId
    ensures var (gs', g) := InsertGood(gs, nextId, req);
      GoodsSorted(gs') && UniqueCodes(gs') && FindGoodByCode(gs', req.materialCode) == Some(g)
  {
    match FindGoodByCode(gs, req.materialCode)
      case Some(existing) =>
        var k :| 0 <= k < |gs| && gs[k] == existing;
        CodeLookupIsUnique(gs, k);
      case None =>
        FindCodeAfterAppend(gs, NewGood(nextId, req));
  }

  /** Storing a good with a new code under the next key keeps the tables valid. */
  lemma AppendGoodKeepsTables(gs: seq<Good>, inv: seq<InventoryItem>, nextId: int, nextItem: int, req: CreateGoodRequest)
    requires ValidTables(gs, inv, nextId, nextItem)
    requires FindGoodByCode(gs, req.materialCode).None?
    ensures ValidTables(gs + [NewGood(nextId, req)], inv, nextId + 1, nextItem)
  {
    InsertKeepsTableValid(gs, nextId, req);
    var gs' := gs + [NewGood(nextId, req)];
    forall t | 0 <= t < |inv| ensures HasGood(gs', inv[t].goodsId) {
      var a :| 0 <= a < |gs| && gs[a].goodsId == inv[t].goodsId;
      assert gs'[a] == gs[a];
    }
  }

  // ---------------------------------------------------------------------
  // Update

  /** `SET col = COALESCE($k, col)` for every column but the key. */
  function ApplyGoodsPatch(g: Good, u: UpdateGoodRequest): Good {
    Good(g.goodsId,
      u.materialCode.GetOr(g.materialCode),
      u.goodsName.GetOr(g.goodsName),
      if u.description.Some? then u.description else g.description,
      u.price.GetOr(g.price),
      u.volumnL.GetOr(g.volumnL),
      u.massG.GetOr(g.massG),
      u.massBase.GetOr(g.massBase),
      u.volumnBase.GetOr(g.volumnBase))
  }

  /** Patching leaves the key alone, and patching twice is patching once. */
  lemma PatchKeepsKeyAndIsIdempotent(g: Good, u: UpdateGoodRequest)
    ensures ApplyGoodsPatch(g, u).goodsId == g.goodsId
    ensures ApplyGoodsPatch(ApplyGoodsPatch(g, u), u) == ApplyGoodsPatch(g, u)
  {
  }

  /** Present fields replace the stored values; absent fields keep them. */
  lemma PatchFieldByField(g: Good, u: UpdateGoodRequest)
    ensures var r := ApplyGoodsPatch(g, u);
      && (u.materialCode.None? ==> r.materialCode == g.materialCode)
      && (u.materialCode.Some? ==> r.materialCode == u.materialCode.value)
      && (u.goodsName.None? ==> r.goodsName == g.goodsName)
      && (u.goodsName.Some? ==> r.goodsName == u.goodsName.value)
      && (u.description.None? ==> r.description == g.description)
      && (u.description.Some? ==> r.description == u.description)
      && (u.price.None? ==> r.price == g.price)
      && (u.price.Some? ==> r.price == u.price.value)
      && (u.volumnL.None? ==> r.volumnL == g.volumnL)
      && (u.volumnL.Some? ==> r.volumnL == u.volumnL.value)
      && (u.massG.None? ==> r.massG == g.massG)
      && (u.massG.Some? ==> r.massG == u.massG.value)
      && (u.massBase.None? ==> r.massBase == g.massBase)
      && (u.massBase.Some? ==> r.massBase == u.massBase.value)
      && (u.volumnBase.None? ==> r.volumnBase == g.volumnBase)
      && (u.volumnBase.Some? ==> r.volumnBase == u.volumnBase.value)
  {
  }

  /** Setting the material code would collide with another good's (SQLSTATE 23505). */
  predicate PatchConflicts(gs: seq<Good>, id: int, u: UpdateGoodRequest) {
    u.materialCode.Some? && CodeTakenByOther(gs, id, u.materialCode.value)
  }

  /** `UPDATE goods SET ... WHERE goods_id = id RETURNING ...` fetched with `fetch_one`. */
  function UpdateGoodRow(gs: seq<Good>, id: int, u: UpdateGoodRequest): (seq<Good>, Result<Good, DbError>) {
    match IndexOfGood(gs, id)
      case None => (gs, Err(RowNotFound))
      case Some(k) =>
        if PatchConflicts(gs, id, u) then (gs, Err(Database(Some(UniqueViolation))))
        else (gs[k := ApplyGoodsPatch(gs[k], u)], Ok(ApplyGoodsPatch(gs[k], u)))
  }

  /** The `update` loop from match `m[0]` on, `done` being the rows already returned; it stops at the first error. */
  function UpdateFrom(gs: seq<Good>, m: seq<Good>, u: UpdateGoodRequest, done: seq<Good>): (seq<Good>, Result<seq<Good>, DbError>)
    decreases |m|
  {
    if m == [] then (gs, Ok(done))
    else
      var (gs1, row) := UpdateGoodRow(gs, m[0].goodsId, u);
      if row.Err? then (gs1, Err(row.error)) else UpdateFrom(gs1, m[1..], u, done + [row.value])
  }

  /** The table with every row whose key is listed patched. */
  function PatchMatched(gs: seq<Good>, ids: seq<int>, u: UpdateGoodRequest): (r: seq<Good>)
    ensures |r| == |gs|
    ensures forall k :: 0 <= k < |gs| ==> r[k] == if gs[k].goodsId in ids then ApplyGoodsPatch(gs[k], u) else gs[k]
  {
    seq(|gs|, k requires 0 <= k < |gs| => if gs[k].goodsId in ids then ApplyGoodsPatch(gs[k], u) else gs[k])
  }

  function PatchedRows(m: seq<Good>, u: UpdateGoodRequest): (r: seq<Good>)
    ensures |r| == |m| && forall k :: 0 <= k < |m| ==> r[k] == ApplyGoodsPatch(m[k], u)
  {
    seq(|m|, k requires 0 <= k < |m| => ApplyGoodsPatch(m[k], u))
  }

  lemma GoodsIdsCons(m: seq<Good>)
    requires m != []
    ensures GoodsIds(m) == [m[0].goodsId] + GoodsIds(m[1..])
  {
    var l, r := GoodsIds(m), [m[0].goodsId] + GoodsIds(m[1..]);
    forall k | 0 <= k < |l| ensures l[k] == r[k] {
      if k > 0 {
        assert r[k] == GoodsIds(m[1..])[k - 1] == m[1..][k - 1].goodsId;
      }
    }
  }

  lemma GoodsIdsSnoc(m: seq<Good>, i: nat)
    requires i < |m|
    ensures GoodsIds(m[..i + 1]) == GoodsIds(m[..i]) + [m[i].goodsId]
  {
    var l, r := GoodsIds(m[..i + 1]), GoodsIds(m[..i]) + [m[i].goodsId];
    forall k | 0 <= k < |l| ensures l[k] == r[k] {
      if k < i {
        assert r[k] == GoodsIds(m[..i])[k] == m[..i][k].goodsId;
      }
    }
  }

  /** Patching one row in place is patching the rows with its key, since keys are unique. */
  lemma PatchOneRow(gs: seq<Good>, k: nat, u: UpdateGoodRequest)
    requires GoodsSorted(gs) && k < |gs|
    ensures gs[k := ApplyGoodsPatch(gs[k], u)] == PatchMatched(gs, [gs[k].goodsId], u)
  {
    var l, r := gs[k := ApplyGoodsPatch(gs[k], u)], PatchMatched(gs, [gs[k].goodsId], u);
    forall i | 0 <= i < |gs| ensures l[i] == r[i] {
      if i < k {
        assert gs[i].goodsId < gs[k].goodsId;
      } else if k < i {
        assert gs[k].goodsId < gs[i].goodsId;
      }
    }
  }

  /** Patching is idempotent, so two patch passes are one pass over both key lists. */
  lemma PatchTwice(gs: seq<Good>, a: seq<int>, b: seq<int>, u: UpdateGoodRequest)
    ensures PatchMatched(PatchMatched(gs, a, u), b, u) == PatchMatched(gs, a + b, u)
  {
    var l, r := PatchMatched(PatchMatched(gs, a, u), b, u), PatchMatched(gs, a + b, u);
    forall i | 0 <= i < |gs| ensures l[i] == r[i] {
      PatchKeepsKeyAndIsIdempotent(gs[i], u);
    }
  }

  lemma PatchedTableKeepsShape(gs: seq<Good>, ids: seq<int>, u: UpdateGoodRequest)
    ensures GoodsIds(PatchMatched(gs, ids, u)) == GoodsIds(gs)
    ensures GoodsSorted(gs) ==> GoodsSorted(PatchMatched(gs, ids, u))
  {
    forall i | 0 <= i < |gs| ensures PatchMatched(gs, ids, u)[i].goodsId == gs[i].goodsId {
      PatchKeepsKeyAndIsIdempotent(gs[i], u);
    }
  }

  /**
   * Without a new material code the loop never fails: every matched row
   * is patched, the patched rows come back in match order, and no other
   * row changes.
   */
  lemma {:induction false} UpdateWithoutCodeSucceeds(gs: seq<Good>, m: seq<Good>, u: UpdateGoodRequest, done: seq<Good>)
    requires u.materialCode.None?
    requires GoodsSorted(gs) && GoodsSorted(m) && RowsOf(m, gs)
    ensures UpdateFrom(gs, m, u, done) == (PatchMatched(gs, GoodsIds(m), u), Ok(done + PatchedRows(m, u)))
    decreases |m|
  {
    if m == [] {
      assert PatchMatched(gs, [], u) == gs;
      assert done + PatchedRows(m, u) == done;
    } else {
      var gs1 := PatchMatched(gs, [m[0].goodsId], u);
      UpdateHeadWithoutCode(gs, m, u, done);
      UpdateWithoutCodeSucceeds(gs1, m[1..], u, done + [ApplyGoodsPatch(m[0], u)]);
      UpdateHeadThenRest(gs, m, u, done);
    }
  }

  /** Patching the first match and then the rest is patching all matches, and the rows returned add up. */
  lemma UpdateHeadThenRest(gs: seq<Good>, m: seq<Good>, u: UpdateGoodRequest, done: seq<Good>)
    requires m != []
    ensures PatchMatched(PatchMatched(gs, [m[0].goodsId], u), GoodsIds(m[1..]), u) == PatchMatched(gs, GoodsIds(m), u)
    ensures done + [ApplyGoodsPatch(m[0], u)] + PatchedRows(m[1..], u) == done + PatchedRows(m, u)
  {
    PatchTwice(gs, [m[0].goodsId], GoodsIds(m[1..]), u);
    GoodsIdsCons(m);
    assert [ApplyGoodsPatch(m[0], u)] + PatchedRows(m[1..], u) == PatchedRows(m, u);
  }

  /** One turn of the loop without a new code: the first match is patched and the rest remain rows of the table. */
  lemma UpdateHeadWithoutCode(gs: seq<Good>, m: seq<Good>, u: UpdateGoodRequest, done: seq<Good>)
    requires u.materialCode.None? && m != []
    requires GoodsSorted(gs) && GoodsSorted(m) && RowsOf(m, gs)
    ensures var gs1 := PatchMatched(gs, [m[0].goodsId], u);
      && GoodsSorted(gs1) && GoodsSorted(m[1..]) && RowsOf(m[1..], gs1)
      && UpdateFrom(gs, m, u, done) == UpdateFrom(gs1, m[1..], u, done + [ApplyGoodsPatch(m[0], u)])
  {
    SortedRowMatchesKey(gs, m[0]);
    var k := IndexOfGood(gs, m[0].goodsId).value;
    PatchOneRow(gs, k, u);
    PatchedTableKeepsShape(gs, [m[0].goodsId], u);
    SortedTail(m);
    var gs1 := PatchMatched(gs, [m[0].goodsId], u);
    forall j | 0 <= j < |m[1..]| ensures m[1..][j] in gs1 {
      assert m[1..][j] == m[j + 1];
      var a :| 0 <= a < |gs| && gs[a] == m[j + 1];
      assert m[0].goodsId < m[j + 1].goodsId;
      assert gs1[a] == gs[a];
    }
  }

  /**
   * With a new material code the loop fails with a unique violation
   * exactly when the code already belongs to another good or two or more
   * goods match (the second would collide with the first); when it fails
   * on the second row the first stays patched.
   */
  lemma UpdateWithCode(gs: seq<Good>, m: seq<Good>, u: UpdateGoodRequest, done: seq<Good>)
    requires u.materialCode.Some?
    requires GoodsSorted(gs) && GoodsSorted(m) && RowsOf(m, gs)
    ensures var (gs', r) := UpdateFrom(gs, m, u, done);
      && (r.Err? <==> m != [] && (|m| >= 2 || CodeTakenByOther(gs, m[0].goodsId, u.materialCode.value)))
      && (r.Err? ==> r.error == Database(Some(UniqueViolation)))
      && (r.Err? && CodeTakenByOther(gs, m[0].goodsId, u.materialCode.value) ==> gs' == gs)
      && (r.Err? && !CodeTakenByOther(gs, m[0].goodsId, u.materialCode.value) ==>
            gs' == PatchMatched(gs, [m[0].goodsId], u))
      && (r.Ok? ==> gs' == PatchMatched(gs, GoodsIds(m), u) && r.value == done + PatchedRows(m, u))
  {
    if m == [] {
      assert PatchMatched(gs, [], u) == gs;
      assert done + PatchedRows(m, u) == done;
    } else {
      SortedRowMatchesKey(gs, m[0]);
      var k := IndexOfGood(gs, m[0].goodsId).value;
      var code := u.materialCode.value;
      if !CodeTakenByOther(gs, m[0].goodsId, code) {
        var gs1 := gs[k := ApplyGoodsPatch(gs[k], u)];
        PatchOneRow(gs, k, u);
        if |m| == 1 {
          assert m[1..] == [];
          assert GoodsIds(m) == [m[0].goodsId];
          assert PatchedRows(m, u) == [ApplyGoodsPatch(m[0], u)];
        } else {
          assert m[0].goodsId < m[1].goodsId;
          var b :| 0 <= b < |gs| && gs[b] == m[1];
          assert gs1[b] == gs[b];
          assert HasGood(gs1, m[1].goodsId);
          assert gs1[k].goodsId != m[1].goodsId && gs1[k].materialCode == code;
          assert CodeTakenByOther(gs1, m[1].goodsId, code);
        }
      }
    }
  }

  // ---------------------------------------------------------------------
  // Delete

  /** `DELETE FROM goods WHERE goods_id = $1` for each listed key: the other rows, in order. */
  function Without(gs: seq<Good>, ids: seq<int>): (r: seq<Good>)
    ensures forall g :: g in r <==> g in gs && g.goodsId !in ids
    ensures GoodsSorted(gs) ==> GoodsSorted(r)
  {
    if gs == [] then []
    else
      var rest := Without(gs[1..], ids);
      SortedTail(gs);
      SortedCons(gs, rest);
      if gs[0].goodsId in ids then rest else [gs[0]] + rest
  }

  /** Position of the first match that inventory still references, or `|m|` when there is none. */
  function FirstReferenced(m: seq<Good>, inv: seq<InventoryItem>): (k: nat)
    ensures k <= |m|
    ensures forall j :: 0 <= j < k ==> CountRefs(inv, m[j].goodsId) == 0
    ensures k < |m| ==> CountRefs(inv, m[k].goodsId) > 0
  {
    if m == [] then 0
    else if CountRefs(inv, m[0].goodsId) > 0 then 0
    else 1 + FirstReferenced(m[1..], inv)
  }

  /**
   * The `delete` loop as written, from match `m[0]` on: a referenced good
   * ends the call with `RowNotFound`, and the goods deleted before it stay
   * deleted.
   */
  function DeleteFrom(gs: seq<Good>, inv: seq<InventoryItem>, m: seq<Good>, done: seq<int>)
    : (seq<Good>, Result<seq<int>, DbError>)
    decreases |m|
  {
    if m == [] then (gs, Ok(done))
    else if CountRefs(inv, m[0].goodsId) > 0 then (gs, Err(RowNotFound))
    else DeleteFrom(Without(gs, [m[0].goodsId]), inv, m[1..], done + [m[0].goodsId])
  }

  lemma {:induction false} WithoutTwice(gs: seq<Good>, a: seq<int>, b: seq<int>)
    ensures Without(Without(gs, a), b) == Without(gs, a + b)
  {
    if gs != [] {
      WithoutTwice(gs[1..], a, b);
    }
  }

  lemma {:induction false} WithoutNothing(gs: seq<Good>)
    ensures Without(gs, []) == gs
  {
    if gs != [] {
      WithoutNothing(gs[1..]);
      assert [gs[0]] + gs[1..] == gs;
    }
  }

  /**
   * What `delete` leaves and returns: the matches before the first
   * referenced one are deleted; it succeeds, returning every matched key,
   * exactly when no match is referenced, and otherwise fails with
   * `RowNotFound`.
   */
  lemma {:induction false} DeleteOutcome(gs: seq<Good>, inv: seq<InventoryItem>, m: seq<Good>, done: seq<int>)
    ensures DeleteFrom(gs, inv, m, done).0 == Without(gs, GoodsIds(m[..FirstReferenced(m, inv)]))
    ensures DeleteFrom(gs, inv, m, done).1.Ok? <==> FirstReferenced(m, inv) == |m|
    ensures DeleteFrom(gs, inv, m, done).1.Ok? ==> DeleteFrom(gs, inv, m, done).1.value == done + GoodsIds(m)
    ensures DeleteFrom(gs, inv, m, done).1.Err? ==> DeleteFrom(gs, inv, m, done).1.error == RowNotFound
    decreases |m|
  {
    if m == [] {
      WithoutNothing(gs);
      assert GoodsIds(m[..0]) == [];
    } else if CountRefs(inv, m[0].goodsId) > 0 {
      WithoutNothing(gs);
      assert GoodsIds(m[..0]) == [];
    } else {
      var x := m[0].goodsId;
      DeleteOutcome(Without(gs, [x]), inv, m[1..], done + [x]);
      DeleteStep(gs, inv, m, done);
    }
  }

  /** One unreferenced match deleted: the keys deleted so far and the keys returned both grow by its key. */
  lemma DeleteStep(gs: seq<Good>, inv: seq<InventoryItem>, m: seq<Good>, done: seq<int>)
    requires m != [] && CountRefs(inv, m[0].goodsId) == 0
    ensures var x, k' := m[0].goodsId, FirstReferenced(m[1..], inv);
      && FirstReferenced(m, inv) == k' + 1
      && Without(Without(gs, [x]), GoodsIds(m[1..][..k'])) == Without(gs, GoodsIds(m[..k' + 1]))
      && done + [x] + GoodsIds(m[1..]) == done + GoodsIds(m)
  {
    var x, k' := m[0].goodsId, FirstReferenced(m[1..], inv);
    WithoutTwice(gs, [x], GoodsIds(m[1..][..k']));
    assert m[..k' + 1] != [] && m[..k' + 1][0] == m[0] && m[..k' + 1][1..] == m[1..][..k'];
    GoodsIdsCons(m[..k' + 1]);
    GoodsIdsCons(m);
    assert done + [x] + GoodsIds(m[1..]) == done + ([x] + GoodsIds(m[1..]));
  }

  /** A blocked delete leaves the referenced good, and every later match, in the table. */
  lemma BlockedDeleteKeepsReferencedGood(gs: seq<Good>, inv: seq<InventoryItem>, m: seq<Good>)
    requires GoodsSorted(m) && RowsOf(m, gs)
    ensures var k := FirstReferenced(m, inv);
      forall j :: k <= j < |m| ==> m[j] in DeleteFrom(gs, inv, m, []).0
  {
    DeleteOutcome(gs, inv, m, []);
    var k := FirstReferenced(m, inv);
    forall j | k <= j < |m| ensures m[j].goodsId !in GoodsIds(m[..k]) {
      forall i | 0 <= i < k ensures GoodsIds(m[..k])[i] != m[j].goodsId {
        assert m[i].goodsId < m[j].goodsId;
      }
    }
  }

  /** Only unreferenced goods are deleted, so every inventory row still finds its good. */
  lemma DeleteKeepsReferences(gs: seq<Good>, inv: seq<InventoryItem>, m: seq<Good>)
    requires ReferencesExist(inv, gs)
    ensures ReferencesExist(inv, DeleteFrom(gs, inv, m, []).0)
  {
    DeleteOutcome(gs, inv, m, []);
    var k := FirstReferenced(m, inv);
    var ids := GoodsIds(m[..k]);
    forall i | 0 <= i < |ids| ensures CountRefs(inv, ids[i]) == 0 {
      assert ids[i] == m[i].goodsId;
    }
    WithoutUnreferencedKeepsReferences(gs, inv, ids);
  }

  /**
   * The all-or-nothing delete: check every match first, and delete
   * nothing unless none is referenced.
   */
  function DeleteAllOrNothing(gs: seq<Good>, inv: seq<InventoryItem>, m: seq<Good>)
    : (r: (seq<Good>, Result<seq<int>, DbError>))
    ensures r.1.Err? ==> r.0 == gs
  {
    if FirstReferenced(m, inv) < |m| then (gs, Err(RowNotFound))
    else (Without(gs, GoodsIds(m)), Ok(GoodsIds(m)))
  }

  /** The atomic delete reports what the loop reports, and differs only in what a blocked call leaves behind. */
  lemma AtomicDeleteAgrees(gs: seq<Good>, inv: seq<InventoryItem>, m: seq<Good>)
    ensures DeleteAllOrNothing(gs, inv, m).1 == DeleteFrom(gs, inv, m, []).1
    ensures DeleteAllOrNothing(gs, inv, m).1.Ok? ==> DeleteAllOrNothing(gs, inv, m).0 == DeleteFrom(gs, inv, m, []).0
    ensures DeleteAllOrNothing(gs, inv, m).1.Err? ==> DeleteAllOrNothing(gs, inv, m).0 == gs
  {
    var loop := DeleteFrom(gs, inv, m, []);
    DeleteOutcome(gs, inv, m, []);
    var ids := GoodsIds(m);
    if FirstReferenced(m, inv) == |m| {
      assert m[..|m|] == m;
      assert [] + ids == ids;
      assert loop.1.Ok? && loop.1.value == ids;
      assert loop == (Without(gs, ids), Ok(ids));
      assert DeleteAllOrNothing(gs, inv, m) == (Without(gs, ids), Ok(ids));
    } else {
      assert loop.1 == Err(RowNotFound);
      assert DeleteAllOrNothing(gs, inv, m) == (gs, Err(RowNotFound));
    }
  }

  /**
   * Found: two matches, the second still in stock. The loop deletes the
   * first and then fails, so the call reports an error yet has changed
   * the table.
   */
  lemma PartialDeleteWitness()
    ensures var g1 := Good(1, "MC1", "A", None, 1.0, 1.0, 1.0, 0, 0);
      var g2 := Good(2, "MC2", "B", None, 1.0, 1.0, 1.0, 0, 0);
      var inv := [InventoryItem(1, 2, 5, None)];
      DeleteFrom([g1, g2], inv, [g1, g2], []) == ([g2], Err(RowNotFound))
      && DeleteAllOrNothing([g1, g2], inv, [g1, g2]) == ([g1, g2], Err(RowNotFound))
  {
    var g1 := Good(1, "MC1", "A", None, 1.0, 1.0, 1.0, 0, 0);
    var g2 := Good(2, "MC2", "B", None, 1.0, 1.0, 1.0, 0, 0);
    var inv := [InventoryItem(1, 2, 5, None)];
    assert CountRefs(inv, 1) == 0 && CountRefs(inv, 2) == 1;
    assert [g1, g2][1..] == [g2] && [g2][1..] == [];
    assert Without([g2], [1]) == [g2];
    assert Without([g1, g2], [1]) == [g2];
  }

  // ---------------------------------------------------------------------
  // The repository

  /** A unique-code table patched at one non-conflicting row stays a valid table with the same keys. */
  lemma PatchRowKeepsTable(gs: seq<Good>, k: nat, u: UpdateGoodRequest)
    requires GoodsSorted(gs) && UniqueCodes(gs) && k < |gs|
    requires !PatchConflicts(gs, gs[k].goodsId, u)
    ensures var gs' := gs[k := ApplyGoodsPatch(gs[k], u)];
      GoodsSorted(gs') && UniqueCodes(gs') && GoodsIds(gs') == GoodsIds(gs)
  {
    var gs' := gs[k := ApplyGoodsPatch(gs[k], u)];
    forall i, j | 0 <= i < j < |gs'| ensures gs'[i].materialCode != gs'[j].materialCode {
      if u.materialCode.Some? && (i == k || j == k) {
        var o := if i == k then j else i;
        assert gs[o].goodsId != gs[k].goodsId;
      }
    }
  }

  lemma SameIdsSameKeys(gs: seq<Good>, gs': seq<Good>, id: int)
    requires GoodsIds(gs') == GoodsIds(gs)
    ensures HasGood(gs', id) <==> HasGood(gs, id)
  {
    if HasGood(gs, id) {
      var k :| 0 <= k < |gs| && gs[k].goodsId == id;
      assert GoodsIds(gs)[k] == id;
    }
    if HasGood(gs', id) {
      var k :| 0 <= k < |gs'| && gs'[k].goodsId == id;
      assert GoodsIds(gs')[k] == id;
    }
  }

  /**
   * One pass of the `update` loop with no error: the tables stay valid and
   * the rest of the loop runs on the patched table.
   */
  lemma UpdateStepKeepsTables(gs: seq<Good>, inv: seq<InventoryItem>, nextId: int, nextItem: int,
                              ms: seq<Good>, u: UpdateGoodRequest, done: seq<Good>)
    requires ValidTables(gs, inv, nextId, nextItem) && ms != []
    requires IndexOfGood(gs, ms[0].goodsId).Some? && !PatchConflicts(gs, ms[0].goodsId, u)
    ensures var k := IndexOfGood(gs, ms[0].goodsId).value;
      var gs' := gs[k := ApplyGoodsPatch(gs[k], u)];
      && ValidTables(gs', inv, nextId, nextItem)
      && UpdateFrom(gs, ms, u, done) == UpdateFrom(gs', ms[1..], u, done + [ApplyGoodsPatch(gs[k], u)])
  {
    var k := IndexOfGood(gs, ms[0].goodsId).value;
    var gs' := gs[k := ApplyGoodsPatch(gs[k], u)];
    PatchRowKeepsTable(gs, k, u);
    forall t | 0 <= t < |inv| ensures HasGood(gs', inv[t].goodsId) {
      SameIdsSameKeys(gs, gs', inv[t].goodsId);
    }
    forall j | 0 <= j < |gs'| ensures 1 <= gs'[j].goodsId < nextId {
      assert GoodsIds(gs')[j] == GoodsIds(gs)[j];
    }
  }

  /** `GoodsTable`: the goods repository over one database. */
  class GoodsTable {
    const db: Database

    constructor (db: Database)
      ensures this.db == db
    {
      this.db := db;
    }

    /** `search`: the whole table for a get-all search, else the compiled, bound query's rows. */
    method Search(p: GoodsSearchParams) returns (r: seq<Good>)
      requires db.Valid()
      ensures r == SearchResult(db.goods, p)
      ensures GoodsSorted(r) && RowsOf(r, db.goods)
    {
      if p.IsGetAll() {
        r := GetAll();
        return;
      }
      var query, conds := CompileGoodsSearch(p);
      var binds := BindGoodsSearch(p);
      r := SelectGoods(db.goods, conds, binds);
      SelectCompiled(db.goods, p);
    }

    /** `get_all`: every good in key order. */
    method GetAll() returns (r: seq<Good>)
      requires db.Valid()
      ensures r == db.goods && GoodsSorted(r)
    {
      r := db.goods;
    }

    /** `get_by_id`: the good with this key, if any. */
    method GetById(id: int) returns (r: Option<Good>)
      ensures r == FindGoodById(db.goods, id)
    {
      var k := IndexOfGood(db.goods, id);
      if k.None? {
        r := None;
      } else {
        r := Some(db.goods[k.value]);
      }
    }

    /** `get_by_material_code`: the good with this code, if any. */
    method GetByMaterialCode(code: string) returns (r: Option<Good>)
      ensures r == FindGoodByCode(db.goods, code)
    {
      r := FindGoodByCode(db.goods, code);
    }

    /** `insert`: get-or-create on the material code. */
    method Insert(req: CreateGoodRequest) returns (g: Good)
      requires db.Valid()
      modifies db
      ensures db.Valid()
      ensures (db.goods, g) == InsertGood(old(db.goods), old(db.nextGoodsId), req)
      ensures db.nextGoodsId == if db.goods == old(db.goods) then old(db.nextGoodsId) else old(db.nextGoodsId) + 1
      ensures db.inventory == old(db.inventory) && db.nextItemId == old(db.nextItemId)
    {
      var existing := GetByMaterialCode(req.materialCode);
      if existing.Some? {
        g := existing.value;
        return;
      }
      AppendGoodKeepsTables(db.goods, db.inventory, db.nextGoodsId, db.nextItemId, req);
      g := NewGood(db.nextGoodsId, req);
      db.goods := db.goods + [g];
      db.nextGoodsId := db.nextGoodsId + 1;
    }

    /** `update`: patch every match in key order, stopping at the first failing statement. */
    method Update(p: GoodsSearchParams, u: UpdateGoodRequest) returns (r: Result<seq<Good>, DbError>)
      requires db.Valid()
      modifies db
      ensures db.Valid()
      ensures (db.goods, r) == UpdateFrom(old(db.goods), SearchResult(old(db.goods), p), u, [])
      ensures db.inventory == old(db.inventory)
      ensures db.nextGoodsId == old(db.nextGoodsId) && db.nextItemId == old(db.nextItemId)
    {
      var m := Search(p);
      if m == [] {
        r := Ok([]);
        return;
      }
      r := UpdateMatches(m, u);
    }

    /** The loop of `update` over the matches `m`, then the read-back of the first updated row. */
    method UpdateMatches(m: seq<Good>, u: UpdateGoodRequest) returns (r: Result<seq<Good>, DbError>)
      requires db.Valid() && m != []
      modifies db
      ensures db.Valid()
      ensures (db.goods, r) == UpdateFrom(old(db.goods), m, u, [])
      ensures db.inventory == old(db.inventory)
      ensures db.nextGoodsId == old(db.nextGoodsId) && db.nextItemId == old(db.nextItemId)
    {
      var updated: seq<Good> := [];
      var i := 0;
      while i < |m|
        invariant 0 <= i <= |m|
        invariant db.Valid()
        invariant UpdateFrom(old(db.goods), m, u, []) == UpdateFrom(db.goods, m[i..], u, updated)
        invariant |updated| == i
        invariant db.inventory == old(db.inventory)
        invariant db.nextGoodsId == old(db.nextGoodsId) && db.nextItemId == old(db.nextItemId)
      {
        assert m[i..][1..] == m[i + 1..];
        var k := IndexOfGood(db.goods, m[i].goodsId);
        if k.None? {
          r := Err(RowNotFound);
          return;
        }
        if u.materialCode.Some? && CodeTakenByOther(db.goods, m[i].goodsId, u.materialCode.value) {
          r := Err(Database(Some(UniqueViolation)));
          return;
        }
        var row := ApplyGoodsPatch(db.goods[k.value], u);
        UpdateStepKeepsTables(db.goods, db.inventory, db.nextGoodsId, db.nextItemId, m[i..], u, updated);
        db.goods := db.goods[k.value := row];
        updated := updated + [row];
        i := i + 1;
      }
      assert m[|m|..] == [];
      var verification := GetById(updated[0].goodsId);
      r := Ok(updated);
    }

    /** `delete`: delete every unreferenced match in key order; a referenced one ends the call. */
    method Delete(p: GoodsSearchParams) returns (r: Result<seq<int>, DbError>)
      requires db.Valid()
      modifies db
      ensures db.Valid()
      ensures (db.goods, r) == DeleteFrom(old(db.goods), old(db.inventory), SearchResult(old(db.goods), p), [])
      ensures db.inventory == old(db.inventory)
      ensures db.nextGoodsId == old(db.nextGoodsId) && db.nextItemId == old(db.nextItemId)
    {
      var m := Search(p);
      if m == [] {
        r := Ok([]);
        return;
      }
      r := DeleteMatches(m);
    }

    /** The loop of `delete` over the matches `m`. */
    method DeleteMatches(m: seq<Good>) returns (r: Result<seq<int>, DbError>)
      requires db.Valid()
      modifies db
      ensures db.Valid()
      ensures (db.goods, r) == DeleteFrom(old(db.goods), old(db.inventory), m, [])
      ensures db.inventory == old(db.inventory)
      ensures db.nextGoodsId == old(db.nextGoodsId) && db.nextItemId == old(db.nextItemId)
    {
      var deleted: seq<int> := [];
      var i := 0;
      while i < |m|
        invariant 0 <= i <= |m|
        invariant db.Valid()
        invariant DeleteFrom(old(db.goods), db.inventory, m, []) == DeleteFrom(db.goods, db.inventory, m[i..], deleted)
        invariant db.inventory == old(db.inventory)
        invariant db.nextGoodsId == old(db.nextGoodsId) && db.nextItemId == old(db.nextItemId)
      {
        assert m[i..][1..] == m[i + 1..];
        var count := CountRefs(db.inventory, m[i].goodsId);
        if count > 0 {
          r := Err(RowNotFound);
          return;
        }
        DeleteUnreferencedKeepsTable(db.goods, db.inventory, m[i].goodsId, db.nextGoodsId, db.nextItemId);
        db.goods := Without(db.goods, [m[i].goodsId]);
        deleted := deleted + [m[i].goodsId];
        i := i + 1;
      }
      assert m[|m|..] == [];
      r := Ok(deleted);
    }

    /** The corrected delete: check every match, then delete all of them or none. */
    method DeleteAtomic(p: GoodsSearchParams) returns (r: Result<seq<int>, DbError>)
      requires db.Valid()
      modifies db
      ensures db.Valid()
      ensures (db.goods, r) == DeleteAllOrNothing(old(db.goods), old(db.inventory), SearchResult(old(db.goods), p))
      ensures db.inventory == old(db.inventory)
      ensures db.nextGoodsId == old(db.nextGoodsId) && db.nextItemId == old(db.nextItemId)
    {
      var m := Search(p);
      var k := FirstReferencedMatch(m);
      if k < |m| {
        r := Err(RowNotFound);
        return;
      }
      var deleted := DeleteUnreferenced(m);
      r := Ok(deleted);
    }

    /** Counts the inventory rows of each match in turn and stops at the first match that has some. */
    method FirstReferencedMatch(m: seq<Good>) returns (k: nat)
      ensures k == FirstReferenced(m, db.inventory)
    {
      k := 0;
      while k < |m|
        invariant k <= |m|
        invariant forall j :: 0 <= j < k ==> CountRefs(db.inventory, m[j].goodsId) == 0
      {
        var count := CountRefs(db.inventory, m[k].goodsId);
        if count > 0 {
          FirstReferencedIsBelow(m, db.inventory, k);
          return;
        }
        k := k + 1;
      }
      FirstReferencedIsBelow(m, db.inventory, |m|);
    }

    /** Deletes every match, none of which is referenced. */
    method DeleteUnreferenced(m: seq<Good>) returns (deleted: seq<int>)
      requires db.Valid()
      requires FirstReferenced(m, db.inventory) == |m|
      modifies db
      ensures db.Valid()
      ensures deleted == GoodsIds(m) && db.goods == Without(old(db.goods), deleted)
      ensures db.inventory == old(db.inventory)
      ensures db.nextGoodsId == old(db.nextGoodsId) && db.nextItemId == old(db.nextItemId)
    {
      WithoutNothing(db.goods);
      deleted := [];
      var i := 0;
      while i < |m|
        invariant 0 <= i <= |m|
        invariant db.Valid()
        invariant db.goods == Without(old(db.goods), deleted)
        invariant deleted == GoodsIds(m[..i])
        invariant db.inventory == old(db.inventory)
        invariant db.nextGoodsId == old(db.nextGoodsId) && db.nextItemId == old(db.nextItemId)
      {
        DeleteUnreferencedKeepsTable(db.goods, db.inventory, m[i].goodsId, db.nextGoodsId, db.nextItemId);
        WithoutTwice(old(db.goods), deleted, [m[i].goodsId]);
        db.goods := Without(db.goods, [m[i].goodsId]);
        GoodsIdsSnoc(m, i);
        deleted := deleted + [m[i].goodsId];
        i := i + 1;
      }
      assert m[..|m|] == m;
    }
  }

  /** When `k` matches are unreferenced the first referenced one is at `k` or later, and exactly `k` when `m[k]` is referenced. */
  lemma {:induction false} FirstReferencedIsBelow(m: seq<Good>, inv: seq<InventoryItem>, k: nat)
    requires k <= |m|
    requires forall j :: 0 <= j < k ==> CountRefs(inv, m[j].goodsId) == 0
    ensures k == |m| ==> FirstReferenced(m, inv) == |m|
    ensures k < |m| && CountRefs(inv, m[k].goodsId) > 0 ==> FirstReferenced(m, inv) == k
  {
    if k > 0 {
      FirstReferencedIsBelow(m[1..], inv, k - 1);
    }
  }

  /** Deleting a good no inventory row references keeps the tables valid. */
  lemma DeleteUnreferencedKeepsTable(gs: seq<Good>, inv: seq<InventoryItem>, id: int, nextId: int, nextItem: int)
    requires ValidTables(gs, inv, nextId, nextItem)
    requires CountRefs(inv, id) == 0
    ensures ValidTables(Without(gs, [id]), inv, nextId, nextItem)
  {
    var gs' := Without(gs, [id]);
    assert RowsOf(gs', gs);
    SelectionKeepsUniqueCodes(gs, gs');
    WithoutKeepsReferences(gs, inv, id);
    WithoutKeepsKeyBounds(gs, id, nextId);
  }

  lemma WithoutKeepsReferences(gs: seq<Good>, inv: seq<InventoryItem>, id: int)
    requires ReferencesExist(inv, gs) && CountRefs(inv, id) == 0
    ensures ReferencesExist(inv, Without(gs, [id]))
  {
    WithoutUnreferencedKeepsReferences(gs, inv, [id]);
  }

  /** Removing goods no inventory row references keeps every reference. */
  lemma WithoutUnreferencedKeepsReferences(gs: seq<Good>, inv: seq<InventoryItem>, ids: seq<int>)
    requires ReferencesExist(inv, gs)
    requires forall i :: 0 <= i < |ids| ==> CountRefs(inv, ids[i]) == 0
    ensures ReferencesExist(inv, Without(gs, ids))
  {
    var gs' := Without(gs, ids);
    forall t | 0 <= t < |inv| ensures HasGood(gs', inv[t].goodsId) {
      var a :| 0 <= a < |gs| && gs[a].goodsId == inv[t].goodsId;
      assert CountRefs(inv, gs[a].goodsId) > 0;
      assert gs[a].goodsId !in ids;
      assert gs[a] in gs';
      var b :| 0 <= b < |gs'| && gs'[b] == gs[a];
    }
  }

  lemma WithoutKeepsKeyBounds(gs: seq<Good>, id: int, nextId: int)
    requires forall k :: 0 <= k < |gs| ==> 1 <= gs[k].goodsId < nextId
    ensures var gs' := Without(gs, [id]); forall k :: 0 <= k < |gs'| ==> 1 <= gs'[k].goodsId < nextId
  {
    var gs' := Without(gs, [id]);
    forall k | 0 <= k < |gs'| ensures 1 <= gs'[k].goodsId < nextId {
      assert gs'[k] in gs;
    }
  }
}
