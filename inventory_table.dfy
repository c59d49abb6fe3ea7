/**
 * src/tables/inventory_table.rs: the inventory repository. Every row it
 * returns comes from `inventory INNER JOIN goods`; searching compiles the
 * inventory fields first and the embedded goods fields after them; insert
 * resolves the good, then is get-or-create on (goods_id, expired_date);
 * update patches both tables item by item; delete removes inventory rows
 * only.
 */
module Inventory {
  import opened Wrappers
  import opened Store
  import opened Filter
  import opened Goods

  datatype InventorySearchParams = InventorySearchParams(
    itemId: Option<int>,
    quantity: Option<int>,
    minQuantity: Option<int>,
    maxQuantity: Option<int>,
    expiredDate: Option<int>,
    minExpiredDate: Option<int>,
    maxExpiredDate: Option<int>,
    goodsParams: GoodsSearchParams)
  {
    /** `is_get_all` is the embedded goods filter's. */
    predicate IsGetAll() {
      goodsParams.IsGetAll()
    }
  }

  /** `InventorySearchParams::new`: nothing constrained, so nothing is compiled. */
  function NewInventorySearchParams(): (p: InventorySearchParams)
    ensures !p.IsGetAll() && InventoryFilters(p) == []
  {
    InventorySearchParams(None, None, None, None, None, None, None, Goods.NewSearchParams())
  }

  datatype CreateInventoryRequest = CreateInventoryRequest(
    goodsId: Option<int>,
    materialCode: Option<string>,
    goodsName: Option<string>,
    description: Option<seq<string>>,
    price: Option<real>,
    volumnL: Option<real>,
    massG: Option<real>,
    massBase: Option<int>,
    volumnBase: Option<int>,
    quantity: int,
    expiredDate: Option<int>)

  datatype UpdateInventoryRequest = UpdateInventoryRequest(
    materialCode: Option<string>,
    goodsName: Option<string>,
    description: Option<seq<string>>,
    price: Option<real>,
    volumnL: Option<real>,
    massG: Option<real>,
    massBase: Option<int>,
    volumnBase: Option<int>,
    quantity: Option<int>,
    expiredDate: Option<int>)
  {
    predicate HasGoodsFields() {
      materialCode.Some? || goodsName.Some? || description.Some? || price.Some?
      || volumnL.Some? || massG.Some? || massBase.Some? || volumnBase.Some?
    }

    predicate HasItemFields() {
      quantity.Some? || expiredDate.Some?
    }

    /** The goods half of the patch, as the goods repository's patch type. */
    function GoodsPatch(): UpdateGoodRequest {
      UpdateGoodRequest(materialCode, goodsName, description, price, volumnL, massG, massBase, volumnBase)
    }
  }

  // ---------------------------------------------------------------------
  // Search

  /** The inventory filters: item_id, quantity, min/max quantity, expired_date, min/max expired_date. */
  function ItemFilters(p: InventorySearchParams): seq<Filter> {
    KeyFilters(p) + ExpiryFilters(p)
  }

  /** item_id, quantity, min/max quantity */
  function KeyFilters(p: InventorySearchParams): seq<Filter> {
    IntFilter(ItemIdCol, Eq, p.itemId) + IntFilter(QuantityCol, Eq, p.quantity)
    + IntFilter(QuantityCol, Ge, p.minQuantity) + IntFilter(QuantityCol, Le, p.maxQuantity)
  }

  /** expired_date, min/max expired_date */
  function ExpiryFilters(p: InventorySearchParams): seq<Filter> {
    TimeFilter(ExpiredDateCol, Eq, p.expiredDate) + TimeFilter(ExpiredDateCol, Ge, p.minExpiredDate)
    + TimeFilter(ExpiredDateCol, Le, p.maxExpiredDate)
  }

  /**
   * What a non-get-all search compiles: the inventory filters, then the
   * goods filters in the goods repository's order.
   */
  function InventoryFilters(p: InventorySearchParams): seq<Filter> {
    ItemFilters(p) + GoodsFilters(p.goodsParams)
  }

  /** The inventory fields a row must satisfy; a NULL expiry satisfies no date condition. */
  predicate MatchesItem(p: InventorySearchParams, w: InventoryItemWithGoods) {
    && (p.itemId.Some? ==> w.itemId == p.itemId.value)
    && (p.quantity.Some? ==> w.quantity == p.quantity.value)
    && (p.minQuantity.Some? ==> w.quantity >= p.minQuantity.value)
    && (p.maxQuantity.Some? ==> w.quantity <= p.maxQuantity.value)
    && (p.expiredDate.Some? ==> w.expiredDate == Some(p.expiredDate.value))
    && (p.minExpiredDate.Some? ==> w.expiredDate.Some? && w.expiredDate.value >= p.minExpiredDate.value)
    && (p.maxExpiredDate.Some? ==> w.expiredDate.Some? && w.expiredDate.value <= p.maxExpiredDate.value)
  }

  /** A joined row is found when its inventory half and its goods half both match. */
  predicate MatchesInventory(p: InventorySearchParams, w: InventoryItemWithGoods) {
    MatchesItem(p, w) && MatchesGoods(p.goodsParams, GoodOf(JoinedRow(w)))
  }

  predicate JoinedSorted(ws: seq<InventoryItemWithGoods>) {
    forall i, j :: 0 <= i < j < |ws| ==> ws[i].itemId < ws[j].itemId
  }

  /** `inventory i INNER JOIN goods g ON i.goods_id = g.goods_id`, in inventory (item key) order. */
  function Joined(items: seq<InventoryItem>, gs: seq<Good>): (r: seq<InventoryItemWithGoods>)
    ensures |r| <= |items|
    ensures ReferencesExist(items, gs) ==>
      |r| == |items| && forall k :: 0 <= k < |items| ==> r[k] == Join(items[k], FindGoodById(gs, items[k].goodsId).value)
  {
    if items == [] then []
    else
      var head := match FindGoodById(gs, items[0].goodsId)
        case None => []
        case Some(g) => [Join(items[0], g)];
      var rest := Joined(items[1..], gs);
      JoinedTail(items, gs, head, rest);
      head + rest
  }

  lemma JoinedTail(items: seq<InventoryItem>, gs: seq<Good>, head: seq<InventoryItemWithGoods>, rest: seq<InventoryItemWithGoods>)
    requires items != []
    requires head == match FindGoodById(gs, items[0].goodsId) case None => [] case Some(g) => [Join(items[0], g)]
    requires ReferencesExist(items[1..], gs) ==>
      |rest| == |items[1..]| && forall k :: 0 <= k < |items[1..]| ==> rest[k] == Join(items[1..][k], FindGoodById(gs, items[1..][k].goodsId).value)
    ensures ReferencesExist(items, gs) ==>
      |head + rest| == |items| && forall k :: 0 <= k < |items| ==> (head + rest)[k] == Join(items[k], FindGoodById(gs, items[k].goodsId).value)
  {
    if ReferencesExist(items, gs) {
      assert ReferencesExist(items[1..], gs) by {
        forall k | 0 <= k < |items[1..]| ensures HasGood(gs, items[1..][k].goodsId) {
          assert items[1..][k] == items[k + 1];
        }
      }
      assert HasGood(gs, items[0].goodsId);
      forall k | 0 <= k < |items| ensures (head + rest)[k] == Join(items[k], FindGoodById(gs, items[k].goodsId).value) {
        if k > 0 {
          assert items[1..][k - 1] == items[k];
        }
      }
    }
  }

  /** The joined rows of a valid store are in ascending item key order, one per inventory row. */
  lemma JoinedIsSorted(items: seq<InventoryItem>, gs: seq<Good>)
    requires ItemsSorted(items) && ReferencesExist(items, gs)
    ensures JoinedSorted(Joined(items, gs))
  {
  }

  function MatchingInventory(ws: seq<InventoryItemWithGoods>, p: InventorySearchParams): (r: seq<InventoryItemWithGoods>)
    ensures forall w :: w in r <==> w in ws && MatchesInventory(p, w)
    ensures JoinedSorted(ws) ==> JoinedSorted(r)
  {
    if ws == [] then []
    else
      var rest := MatchingInventory(ws[1..], p);
      JoinedSortedCons(ws, rest);
      if MatchesInventory(p, ws[0]) then [ws[0]] + rest else rest
  }

  lemma JoinedSortedCons(ws: seq<InventoryItemWithGoods>, rest: seq<InventoryItemWithGoods>)
    requires ws != []
    requires forall w :: w in rest ==> w in ws[1..]
    requires JoinedSorted(ws[1..]) ==> JoinedSorted(rest)
    ensures JoinedSorted(ws) ==> JoinedSorted(rest) && JoinedSorted([ws[0]] + rest)
  {
    if JoinedSorted(ws) {
      assert JoinedSorted(ws[1..]) by {
        forall i, j | 0 <= i < j < |ws[1..]| ensures ws[1..][i].itemId < ws[1..][j].itemId {
          assert ws[1..][i] == ws[i + 1] && ws[1..][j] == ws[j + 1];
        }
      }
      var r := [ws[0]] + rest;
      forall i, j | 0 <= i < j < |r| ensures r[i].itemId < r[j].itemId {
        if i == 0 {
          assert r[j] == rest[j - 1];
          assert rest[j - 1] in ws[1..];
          var t :| 0 <= t < |ws[1..]| && ws[1..][t] == rest[j - 1];
          assert ws[1..][t] == ws[t + 1];
        } else {
          assert r[i] == rest[i - 1] && r[j] == rest[j - 1];
        }
      }
    }
  }

  /** The query engine over joined rows: keep the rows on which every condition holds. */
  function SelectJoined(ws: seq<InventoryItemWithGoods>, conds: seq<Cond>, binds: seq<Value>): seq<InventoryItemWithGoods> {
    if ws == [] then []
    else
      var head := if EvalAll(conds, binds, JoinedRow(ws[0])) then [ws[0]] else [];
      head + SelectJoined(ws[1..], conds, binds)
  }

  /** What `search` returns: the whole join for a get-all search, else the matching joined rows. */
  function InventorySearchResult(items: seq<InventoryItem>, gs: seq<Good>, p: InventorySearchParams): (r: seq<InventoryItemWithGoods>)
    ensures p.IsGetAll() ==> r == Joined(items, gs)
    ensures !p.IsGetAll() ==> forall w :: w in r <==> w in Joined(items, gs) && MatchesInventory(p, w)
  {
    if p.IsGetAll() then Joined(items, gs) else MatchingInventory(Joined(items, gs), p)
  }

  const InventoryColumns: string :=
    "i.item_id, i.goods_id, i.quantity, i.expired_date, g.material_code, g.goods_name, g.description, g.price, g.volumn_l, g.mass_g, g.mass_base, g.volumn_base"
  const InventorySearchBase: string :=
    "SELECT " + InventoryColumns + " FROM inventory i INNER JOIN goods g ON i.goods_id = g.goods_id WHERE 1=1"
  const InventoryOrderBy: string := " ORDER BY i.item_id ASC"

  /**
   * The query-building half of `search`: the inventory conditions, then
   * the goods conditions with `i.`/`g.` prefixes, the k-th carrying `$k`.
   */
  method CompileInventorySearch(p: InventorySearchParams) returns (query: string, conds: seq<Cond>)
    requires !p.IsGetAll()
    ensures conds == Number(InventoryFilters(p), 0)
    ensures query == InventorySearchBase + ConditionsSql(conds, true) + InventoryOrderBy
  {
    var itemConds, bindCount := PushItemConditions(p);
    var goodsConds, total := PushGoodsConditions(p.goodsParams, bindCount);
    NumberJoin(itemConds, goodsConds, ItemFilters(p), GoodsFilters(p.goodsParams), 0, bindCount);
    conds := itemConds + goodsConds;
    query := InventorySearchBase + ConditionsSql(conds, true) + InventoryOrderBy;
  }

  /** The inventory conditions, `$1` onward. */
  method PushItemConditions(p: InventorySearchParams) returns (conds: seq<Cond>, bindCount: nat)
    ensures conds == Number(ItemFilters(p), 0) && bindCount == |ItemFilters(p)|
  {
    var c1, n1 := PushKeyConditions(p);
    var c2, n2 := PushExpiryConditions(p, n1);
    NumberJoin(c1, c2, KeyFilters(p), ExpiryFilters(p), 0, n1);
    conds, bindCount := c1 + c2, n2;
  }

  /** The item_id and quantity conditions. */
  method PushKeyConditions(p: InventorySearchParams) returns (conds: seq<Cond>, bindCount: nat)
    ensures conds == Number(KeyFilters(p), 0) && bindCount == |KeyFilters(p)|
  {
    var f1, f2 := IntFilter(ItemIdCol, Eq, p.itemId), IntFilter(QuantityCol, Eq, p.quantity);
    var f3, f4 := IntFilter(QuantityCol, Ge, p.minQuantity), IntFilter(QuantityCol, Le, p.maxQuantity);
    conds, bindCount := PushCondition([], 0, p.itemId.Some?, ItemIdCol, Eq, 0, [], f1);
    assert [] + f1 == f1;
    conds, bindCount := PushCondition(conds, bindCount, p.quantity.Some?, QuantityCol, Eq, 0, f1, f2);
    conds, bindCount := PushCondition(conds, bindCount, p.minQuantity.Some?, QuantityCol, Ge, 0, f1 + f2, f3);
    conds, bindCount := PushCondition(conds, bindCount, p.maxQuantity.Some?, QuantityCol, Le, 0, f1 + f2 + f3, f4);
  }

  /** The expiry date conditions, numbered after `start` earlier ones. */
  method PushExpiryConditions(p: InventorySearchParams, start: nat) returns (conds: seq<Cond>, bindCount: nat)
    ensures conds == Number(ExpiryFilters(p), start) && bindCount == start + |ExpiryFilters(p)|
  {
    var f1, f2 := TimeFilter(ExpiredDateCol, Eq, p.expiredDate), TimeFilter(ExpiredDateCol, Ge, p.minExpiredDate);
    var f3 := TimeFilter(ExpiredDateCol, Le, p.maxExpiredDate);
    conds, bindCount := PushCondition([], start, p.expiredDate.Some?, ExpiredDateCol, Eq, start, [], f1);
    assert [] + f1 == f1;
    conds, bindCount := PushCondition(conds, bindCount, p.minExpiredDate.Some?, ExpiredDateCol, Ge, start, f1, f2);
    conds, bindCount := PushCondition(conds, bindCount, p.maxExpiredDate.Some?, ExpiredDateCol, Le, start, f1 + f2, f3);
  }

  /** The binding half of `search`: the inventory values, then the goods values. */
  method BindInventorySearch(p: InventorySearchParams) returns (binds: seq<Value>)
    requires !p.IsGetAll()
    ensures binds == Values(InventoryFilters(p))
  {
    var itemBinds := BindItemValues(p);
    var goodsBinds := BindGoodsSearch(p.goodsParams);
    ValuesAppend(ItemFilters(p), GoodsFilters(p.goodsParams));
    binds := itemBinds + goodsBinds;
  }

  /** The inventory values, in condition order. */
  method BindItemValues(p: InventorySearchParams) returns (binds: seq<Value>)
    ensures binds == Values(ItemFilters(p))
  {
    var b1 := BindKeys(p);
    var b2 := BindExpiry(p);
    ValuesAppend(KeyFilters(p), ExpiryFilters(p));
    binds := b1 + b2;
  }

  method BindKeys(p: InventorySearchParams) returns (binds: seq<Value>)
    ensures binds == Values(KeyFilters(p))
  {
    var f1, f2 := IntFilter(ItemIdCol, Eq, p.itemId), IntFilter(QuantityCol, Eq, p.quantity);
    var f3, f4 := IntFilter(QuantityCol, Ge, p.minQuantity), IntFilter(QuantityCol, Le, p.maxQuantity);
    binds := BindInt([], p.itemId, [], f1);
    assert [] + f1 == f1;
    binds := BindInt(binds, p.quantity, f1, f2);
    binds := BindInt(binds, p.minQuantity, f1 + f2, f3);
    binds := BindInt(binds, p.maxQuantity, f1 + f2 + f3, f4);
  }

  method BindExpiry(p: InventorySearchParams) returns (binds: seq<Value>)
    ensures binds == Values(ExpiryFilters(p))
  {
    var f1, f2 := TimeFilter(ExpiredDateCol, Eq, p.expiredDate), TimeFilter(ExpiredDateCol, Ge, p.minExpiredDate);
    var f3 := TimeFilter(ExpiredDateCol, Le, p.maxExpiredDate);
    binds := BindTime([], p.expiredDate, [], f1);
    assert [] + f1 == f1;
    binds := BindTime(binds, p.minExpiredDate, f1, f2);
    binds := BindTime(binds, p.maxExpiredDate, f1 + f2, f3);
  }

  // ---------------------------------------------------------------------
  // Search lemmas

  predicate KeysMatch(p: InventorySearchParams, w: InventoryItemWithGoods) {
    && (p.itemId.Some? ==> w.itemId == p.itemId.value)
    && (p.quantity.Some? ==> w.quantity == p.quantity.value)
    && (p.minQuantity.Some? ==> w.quantity >= p.minQuantity.value)
    && (p.maxQuantity.Some? ==> w.quantity <= p.maxQuantity.value)
  }

  predicate ExpiryMatches(p: InventorySearchParams, w: InventoryItemWithGoods) {
    && (p.expiredDate.Some? ==> w.expiredDate == Some(p.expiredDate.value))
    && (p.minExpiredDate.Some? ==> w.expiredDate.Some? && w.expiredDate.value >= p.minExpiredDate.value)
    && (p.maxExpiredDate.Some? ==> w.expiredDate.Some? && w.expiredDate.value <= p.maxExpiredDate.value)
  }

  lemma KeysMeaning(p: InventorySearchParams, w: InventoryItemWithGoods)
    ensures AllHold(KeyFilters(p), JoinedRow(w)) <==> KeysMatch(p, w)
  {
    var row := JoinedRow(w);
    var f1 := IntFilter(ItemIdCol, Eq, p.itemId);
    var f2 := f1 + IntFilter(QuantityCol, Eq, p.quantity);
    var f3 := f2 + IntFilter(QuantityCol, Ge, p.minQuantity);
    AllHoldConcat(f1, IntFilter(QuantityCol, Eq, p.quantity), row);
    AllHoldConcat(f2, IntFilter(QuantityCol, Ge, p.minQuantity), row);
    AllHoldConcat(f3, IntFilter(QuantityCol, Le, p.maxQuantity), row);
  }

  lemma ExpiryMeaning(p: InventorySearchParams, w: InventoryItemWithGoods)
    ensures AllHold(ExpiryFilters(p), JoinedRow(w)) <==> ExpiryMatches(p, w)
  {
    var row := JoinedRow(w);
    var f1 := TimeFilter(ExpiredDateCol, Eq, p.expiredDate);
    var f2 := f1 + TimeFilter(ExpiredDateCol, Ge, p.minExpiredDate);
    AllHoldConcat(f1, TimeFilter(ExpiredDateCol, Ge, p.minExpiredDate), row);
    AllHoldConcat(f2, TimeFilter(ExpiredDateCol, Le, p.maxExpiredDate), row);
  }

  /** The compiled filters hold on a joined row exactly when both halves match. */
  lemma InventoryFiltersMeaning(p: InventorySearchParams, w: InventoryItemWithGoods)
    ensures AllHold(InventoryFilters(p), JoinedRow(w)) <==> MatchesInventory(p, w)
  {
    KeysMeaning(p, w);
    ExpiryMeaning(p, w);
    AllHoldConcat(KeyFilters(p), ExpiryFilters(p), JoinedRow(w));
    AllHoldConcat(ItemFilters(p), GoodsFilters(p.goodsParams), JoinedRow(w));
    GoodsFiltersMeaning(p.goodsParams, JoinedRow(w));
  }

  /** Running the compiled query over the join selects exactly the matching rows, in the same order. */
  lemma {:induction false} SelectJoinedCompiled(ws: seq<InventoryItemWithGoods>, p: InventorySearchParams)
    ensures SelectJoined(ws, Number(InventoryFilters(p), 0), Values(InventoryFilters(p))) == MatchingInventory(ws, p)
  {
    if ws != [] {
      SelectJoinedCompiled(ws[1..], p);
      CompiledMeansFilters(InventoryFilters(p), JoinedRow(ws[0]));
      InventoryFiltersMeaning(p, ws[0]);
    }
  }

  /** Every get-all search returns the whole join, whatever inventory fields it also sets. */
  lemma InventoryGetAllIgnoresOtherFields(items: seq<InventoryItem>, gs: seq<Good>, p: InventorySearchParams, q: InventorySearchParams)
    requires p.IsGetAll() && q.IsGetAll()
    ensures InventorySearchResult(items, gs, p) == InventorySearchResult(items, gs, q) == Joined(items, gs)
  {
  }

  /** A dated filter never finds a row without an expiry date. */
  lemma UndatedRowsFailDateFilters(p: InventorySearchParams, w: InventoryItemWithGoods)
    requires w.expiredDate.None?
    requires p.expiredDate.Some? || p.minExpiredDate.Some? || p.maxExpiredDate.Some?
    ensures !AllHold(InventoryFilters(p), JoinedRow(w))
  {
    InventoryFiltersMeaning(p, w);
  }

  // ---------------------------------------------------------------------
  // Rows of the inventory table

  lemma ItemsSortedTail(items: seq<InventoryItem>)
    requires items != []
    ensures ItemsSorted(items) ==> ItemsSorted(items[1..])
  {
    if ItemsSorted(items) {
      forall i, j | 0 <= i < j < |items[1..]| ensures items[1..][i].itemId < items[1..][j].itemId {
        assert items[1..][i] == items[i + 1] && items[1..][j] == items[j + 1];
      }
    }
  }

  /** Putting the head back in front of a filtered tail keeps the key order. */
  lemma ItemsSortedCons(items: seq<InventoryItem>, rest: seq<InventoryItem>)
    requires items != []
    requires forall it :: it in rest ==> it in items[1..]
    requires ItemsSorted(items) ==> ItemsSorted(rest)
    ensures ItemsSorted(items) ==> ItemsSorted([items[0]] + rest)
  {
    if ItemsSorted(items) {
      var r := [items[0]] + rest;
      forall i, j | 0 <= i < j < |r| ensures r[i].itemId < r[j].itemId {
        if i == 0 {
          assert r[j] == rest[j - 1];
          assert rest[j - 1] in items[1..];
          var t :| 0 <= t < |items[1..]| && items[1..][t] == rest[j - 1];
          assert items[1..][t] == items[t + 1];
        } else {
          assert r[i] == rest[i - 1] && r[j] == rest[j - 1];
        }
      }
    }
  }

  /** With ascending keys, looking up a row's key finds that row. */
  lemma ItemKeyIndex(items: seq<InventoryItem>, k: nat)
    requires ItemsSorted(items) && k < |items|
    ensures IndexOfItem(items, items[k].itemId) == Some(k)
  {
    var a := IndexOfItem(items, items[k].itemId).value;
    assert a == k;
  }

  /** The item keys of some joined rows, in row order. */
  function RowItemIds(ws: seq<InventoryItemWithGoods>): (r: seq<int>)
    ensures |r| == |ws| && forall k :: 0 <= k < |ws| ==> r[k] == ws[k].itemId
  {
    seq(|ws|, k requires 0 <= k < |ws| => ws[k].itemId)
  }

  /** The goods keys of some joined rows, in row order. */
  function RowGoodsIds(ws: seq<InventoryItemWithGoods>): (r: seq<int>)
    ensures |r| == |ws| && forall k :: 0 <= k < |ws| ==> r[k] == ws[k].goodsId
  {
    seq(|ws|, k requires 0 <= k < |ws| => ws[k].goodsId)
  }

  // ---------------------------------------------------------------------
  // get_by_item_id

  /** `get_by_item_id`: the joined row of item `id`; `fetch_one` fails with `RowNotFound` when the join has none. */
  function GetByItemIdFrom(items: seq<InventoryItem>, gs: seq<Good>, id: int): (r: Result<InventoryItemWithGoods, DbError>)
    ensures r.Err? ==> r.error == RowNotFound
    ensures r.Ok? ==> r.value.itemId == id && HasItem(items, id) && HasGood(gs, r.value.goodsId)
    ensures ReferencesExist(items, gs) ==> (r.Ok? <==> HasItem(items, id))
  {
    match IndexOfItem(items, id)
      case None => Err(RowNotFound)
      case Some(k) =>
        match FindGoodById(gs, items[k].goodsId)
          case None => Err(RowNotFound)
          case Some(g) => Ok(Join(items[k], g))
  }

  /** Reading one item back gives the same row as the full join lists for it. */
  lemma GetByItemIdAgreesWithJoin(items: seq<InventoryItem>, gs: seq<Good>, k: nat)
    requires ItemsSorted(items) && ReferencesExist(items, gs) && k < |items|
    ensures GetByItemIdFrom(items, gs, items[k].itemId) == Ok(Joined(items, gs)[k])
  {
    ItemKeyIndex(items, k);
  }

  // ---------------------------------------------------------------------
  // Insert

  const MissingCodeMessage: string := "material_code is required for new goods"
  const MissingGoodsMessage: string := "Either goods_id, material_code, or complete goods information is required"

  /** goods_name, price, volumn_l and mass_g are all given. */
  predicate HasFullDetails(req: CreateInventoryRequest) {
    req.goodsName.Some? && req.price.Some? && req.volumnL.Some? && req.massG.Some?
  }

  /**
   * The good a new item attaches to. An explicit goods_id wins and must
   * exist (`exists_by_id`); otherwise a material code must name a good
   * (`get_id_by_string`). The full-details branch is reached only when the
   * material code is absent, so its `ok_or_else` on that code always fails
   * and the goods row it would insert never is.
   */
  function ResolveGoods(gs: seq<Good>, req: CreateInventoryRequest): (r: Result<int, DbError>)
    ensures r.Ok? ==> HasGood(gs, r.value)
  {
    if req.goodsId.Some? then
      if HasGood(gs, req.goodsId.value) then Ok(req.goodsId.value) else Err(RowNotFound)
    else if req.materialCode.Some? then
      match FindGoodByCode(gs, req.materialCode.value)
        case Some(g) =>
          assert exists k :: 0 <= k < |gs| && gs[k] == g;
          Ok(g.goodsId)
        case None => Err(RowNotFound)
    else if HasFullDetails(req) then
      Err(ColumnNotFound(MissingCodeMessage))
    else
      Err(ColumnNotFound(MissingGoodsMessage))
  }

  /** The read-back row with the created flag; a failed read-back stays an error. */
  function Flagged(r: Result<InventoryItemWithGoods, DbError>, created: bool): (f: Result<(InventoryItemWithGoods, bool), DbError>)
    ensures f.Ok? <==> r.Ok?
    ensures f.Ok? ==> f.value == (r.value, created)
    ensures f.Err? ==> f.error == r.error
  {
    match r
      case Ok(w) => Ok((w, created))
      case Err(e) => Err(e)
  }

  /** The row `INSERT INTO inventory ... RETURNING ...` creates under key `id`. */
  function NewItem(id: int, goodsId: int, req: CreateInventoryRequest): InventoryItem {
    InventoryItem(id, goodsId, req.quantity, req.expiredDate)
  }

  /**
   * `insert`: resolve the good, then get-or-create on (goods_id,
   * expired_date); the flag is true when a row was created.
   */
  function InsertItem(items: seq<InventoryItem>, gs: seq<Good>, nextItem: int, req: CreateInventoryRequest)
    : (seq<InventoryItem>, Result<(InventoryItemWithGoods, bool), DbError>)
  {
    match ResolveGoods(gs, req)
      case Err(e) => (items, Err(e))
      case Ok(id) =>
        match FindItemByKey(items, id, req.expiredDate)
          case Some(existing) => (items, Flagged(GetByItemIdFrom(items, gs, existing.itemId), false))
          case None =>
            var items' := items + [NewItem(nextItem, id, req)];
            (items', Flagged(GetByItemIdFrom(items', gs, nextItem), true))
  }

  /**
   * An explicit goods_id decides the resolution on its own: a material code
   * next to it changes nothing, and an unknown id is `RowNotFound` even if
   * the code names a good.
   */
  lemma GoodsIdTakesPrecedence(gs: seq<Good>, req: CreateInventoryRequest, req2: CreateInventoryRequest)
    requires req.goodsId.Some? && req2.goodsId == req.goodsId
    ensures ResolveGoods(gs, req) == ResolveGoods(gs, req2)
    ensures ResolveGoods(gs, req).Ok? <==> HasGood(gs, req.goodsId.value)
    ensures ResolveGoods(gs, req).Ok? ==> ResolveGoods(gs, req).value == req.goodsId.value
    ensures ResolveGoods(gs, req).Err? ==> ResolveGoods(gs, req).error == RowNotFound
  {
  }

  /** Without a goods_id, a material code resolves to the one good carrying exactly that code, or to `RowNotFound`. */
  lemma MaterialCodeResolves(gs: seq<Good>, req: CreateInventoryRequest, k: nat)
    requires req.goodsId.None? && req.materialCode.Some? && UniqueCodes(gs)
    ensures ResolveGoods(gs, req).Ok? <==> exists j :: 0 <= j < |gs| && gs[j].materialCode == req.materialCode.value
    ensures ResolveGoods(gs, req).Err? ==> ResolveGoods(gs, req).error == RowNotFound
    ensures k < |gs| && gs[k].materialCode == req.materialCode.value ==> ResolveGoods(gs, req) == Ok(gs[k].goodsId)
  {
    if k < |gs| && gs[k].materialCode == req.materialCode.value {
      CodeLookupIsUnique(gs, k);
    }
  }

  /**
   * With neither goods_id nor material_code the insert always fails and
   * changes nothing, full goods details or not: no good and no item is
   * ever created on that path.
   */
  lemma NoGoodsReferenceNeverInserts(items: seq<InventoryItem>, gs: seq<Good>, nextItem: int, req: CreateInventoryRequest)
    requires req.goodsId.None? && req.materialCode.None?
    ensures InsertItem(items, gs, nextItem, req).0 == items
    ensures InsertItem(items, gs, nextItem, req).1.Err?
    ensures InsertItem(items, gs, nextItem, req).1.error
      == ColumnNotFound(if HasFullDetails(req) then MissingCodeMessage else MissingGoodsMessage)
  {
  }

  lemma {:induction false} FindKeyAfterAppend(items: seq<InventoryItem>, it: InventoryItem)
    requires FindItemByKey(items, it.goodsId, it.expiredDate).None?
    ensures FindItemByKey(items + [it], it.goodsId, it.expiredDate) == Some(it)
  {
    if items == [] {
      assert items + [it] == [it];
    } else {
      assert (items + [it])[1..] == items[1..] + [it];
      FindKeyAfterAppend(items[1..], it);
    }
  }

  /** A valid table with a row appended under the next key is a valid table with the key bumped. */
  lemma AppendItemKeepsTables(items: seq<InventoryItem>, gs: seq<Good>, nextGoods: int, nextItem: int, it: InventoryItem)
    requires ValidTables(gs, items, nextGoods, nextItem)
    requires it.itemId == nextItem && HasGood(gs, it.goodsId)
    ensures ValidTables(gs, items + [it], nextGoods, nextItem + 1)
    ensures ItemsSorted(items + [it]) && IndexOfItem(items + [it], nextItem) == Some(|items|)
  {
    var items' := items + [it];
    assert forall k :: 0 <= k < |items| ==> items'[k] == items[k];
    ItemKeyIndex(items', |items|);
  }

  /**
   * What insert does: a failed resolution changes nothing; an item with the
   * same good and the same expiry (a missing one matching only a missing
   * one) comes back unchanged with flag false; otherwise exactly one item is
   * appended under the next key, carrying the request's quantity and
   * expiry, and comes back joined to its good with flag true.
   */
  lemma InsertItemOutcome(items: seq<InventoryItem>, gs: seq<Good>, nextGoods: int, nextItem: int, req: CreateInventoryRequest)
    requires ValidTables(gs, items, nextGoods, nextItem)
    ensures var (items', r) := InsertItem(items, gs, nextItem, req);
      && (ResolveGoods(gs, req).Err? ==> items' == items && r == Err(ResolveGoods(gs, req).error))
      && (ResolveGoods(gs, req).Ok? ==>
            var id := ResolveGoods(gs, req).value;
            var g := FindGoodById(gs, id).value;
            var existing := FindItemByKey(items, id, req.expiredDate);
            && FindGoodById(gs, id).Some? && r.Ok?
            && (existing.Some? ==> items' == items && r.value == (Join(existing.value, g), false))
            && (existing.None? ==> items' == items + [NewItem(nextItem, id, req)]
                                   && r.value == (Join(NewItem(nextItem, id, req), g), true)))
  {
    match ResolveGoods(gs, req)
      case Err(e) =>
      case Ok(id) =>
        match FindItemByKey(items, id, req.expiredDate)
          case Some(existing) =>
            var k :| 0 <= k < |items| && items[k] == existing;
            ItemKeyIndex(items, k);
          case None =>
            AppendItemKeepsTables(items, gs, nextGoods, nextItem, NewItem(nextItem, id, req));
  }

  /** Insert keeps the tables valid, bumps the key only when it created a row, and never creates a duplicate (goods_id, expired_date). */
  lemma InsertItemKeepsTables(items: seq<InventoryItem>, gs: seq<Good>, nextGoods: int, nextItem: int, req: CreateInventoryRequest)
    requires ValidTables(gs, items, nextGoods, nextItem)
    ensures var (items', r) := InsertItem(items, gs, nextItem, req);
      && ValidTables(gs, items', nextGoods, if items' == items then nextItem else nextItem + 1)
      && (items' == items || |items'| == |items| + 1)
      && (NoDuplicateKeys(items) ==> NoDuplicateKeys(items'))
  {
    match ResolveGoods(gs, req)
      case Err(e) =>
      case Ok(id) =>
        match FindItemByKey(items, id, req.expiredDate)
          case Some(existing) =>
          case None =>
            var it := NewItem(nextItem, id, req);
            AppendItemKeepsTables(items, gs, nextGoods, nextItem, it);
            var items' := items + [it];
            assert items' != items;
            if NoDuplicateKeys(items) {
              forall i, j | 0 <= i < j < |items'|
                ensures items'[i].goodsId != items'[j].goodsId || items'[i].expiredDate != items'[j].expiredDate
              {
                if j == |items| {
                  assert items'[i] == items[i];
                }
              }
            }
  }

  /**
   * Insert is idempotent on its key: once an insert succeeded, a second
   * one resolving to the same good with the same expiry returns the same
   * row (whatever quantity it asks for) with flag false and changes
   * nothing.
   */
  lemma InsertItemIsIdempotent(items: seq<InventoryItem>, gs: seq<Good>, nextGoods: int, nextItem: int,
                               req: CreateInventoryRequest, nextItem2: int, req2: CreateInventoryRequest)
    requires ValidTables(gs, items, nextGoods, nextItem)
    requires ResolveGoods(gs, req2) == ResolveGoods(gs, req) && req2.expiredDate == req.expiredDate
    ensures var (items1, r1) := InsertItem(items, gs, nextItem, req);
      r1.Ok? ==> InsertItem(items1, gs, nextItem2, req2) == (items1, Ok((r1.value.0, false)))
  {
    InsertItemOutcome(items, gs, nextGoods, nextItem, req);
    match ResolveGoods(gs, req)
      case Err(e) =>
      case Ok(id) =>
        match FindItemByKey(items, id, req.expiredDate)
          case Some(existing) =>
          case None =>
            FindKeyAfterAppend(items, NewItem(nextItem, id, req));
  }

  // ---------------------------------------------------------------------
  // Update

  /** `SET quantity = COALESCE($2, quantity), expired_date = COALESCE($3, expired_date)`. */
  function PatchItem(item: InventoryItem, u: UpdateInventoryRequest): InventoryItem {
    InventoryItem(item.itemId, item.goodsId, u.quantity.GetOr(item.quantity),
      if u.expiredDate.Some? then u.expiredDate else item.expiredDate)
  }

  /**
   * The inventory patch keeps the keys, replaces present fields and keeps
   * absent ones, is idempotent and is the identity without inventory
   * fields; an expiry once set can never be cleared.
   */
  lemma ItemPatchMeaning(item: InventoryItem, u: UpdateInventoryRequest)
    ensures var r := PatchItem(item, u);
      && r.itemId == item.itemId && r.goodsId == item.goodsId
      && (u.quantity.None? ==> r.quantity == item.quantity)
      && (u.quantity.Some? ==> r.quantity == u.quantity.value)
      && (u.expiredDate.None? ==> r.expiredDate == item.expiredDate)
      && (u.expiredDate.Some? ==> r.expiredDate == u.expiredDate)
      && (item.expiredDate.Some? ==> r.expiredDate.Some?)
      && PatchItem(r, u) == r
      && (!u.HasItemFields() ==> r == item)
  {
  }

  /** Without goods fields the goods half of the patch changes no good. */
  lemma NoGoodsFieldsNoGoodsChange(g: Good, u: UpdateInventoryRequest)
    requires !u.HasGoodsFields()
    ensures ApplyGoodsPatch(g, u.GoodsPatch()) == g
  {
  }

  /** `UPDATE goods ... WHERE goods_id = $1` run with `execute`: the row with that key, if any, patched. */
  function PatchGoodsRow(gs: seq<Good>, id: int, gp: UpdateGoodRequest): (r: seq<Good>)
    ensures |r| == |gs|
    ensures forall j :: 0 <= j < |gs| ==> r[j] == gs[j] || r[j] == ApplyGoodsPatch(gs[j], gp)
    ensures forall j :: 0 <= j < |gs| && gs[j].goodsId != id ==> r[j] == gs[j]
    ensures GoodsSorted(gs) ==>
      forall j :: 0 <= j < |gs| ==> r[j] == if gs[j].goodsId == id then ApplyGoodsPatch(gs[j], gp) else gs[j]
  {
    match IndexOfGood(gs, id)
      case None => gs
      case Some(k) => gs[k := ApplyGoodsPatch(gs[k], gp)]
  }

  /** `UPDATE inventory ... WHERE item_id = $1`: the row with that key, if any, patched. */
  function PatchItemRow(items: seq<InventoryItem>, id: int, u: UpdateInventoryRequest): (r: seq<InventoryItem>)
    ensures |r| == |items|
    ensures forall j :: 0 <= j < |items| ==> r[j] == items[j] || r[j] == PatchItem(items[j], u)
    ensures forall j :: 0 <= j < |items| && items[j].itemId != id ==> r[j] == items[j]
    ensures ItemsSorted(items) ==>
      forall j :: 0 <= j < |items| ==> r[j] == if items[j].itemId == id then PatchItem(items[j], u) else items[j]
  {
    match IndexOfItem(items, id)
      case None => items
      case Some(k) => items[k := PatchItem(items[k], u)]
  }

  /** The goods statement of this pass would set a material code another good carries (SQLSTATE 23505). */
  predicate StepConflicts(gs: seq<Good>, w: InventoryItemWithGoods, u: UpdateInventoryRequest) {
    u.HasGoodsFields() && HasGood(gs, w.goodsId) && PatchConflicts(gs, w.goodsId, u.GoodsPatch())
  }

  /**
   * One pass of the `update` loop for the matched row `w`: in one
   * transaction the goods statement when some goods field is given, then
   * the inventory statement when quantity or expired_date is; a failing
   * statement rolls the pass back. Then the row is read back.
   */
  function UpdateItemStep(items: seq<InventoryItem>, gs: seq<Good>, w: InventoryItemWithGoods, u: UpdateInventoryRequest)
    : (seq<InventoryItem>, seq<Good>, Result<InventoryItemWithGoods, DbError>)
  {
    if StepConflicts(gs, w, u) then (items, gs, Err(Database(Some(UniqueViolation))))
    else
      var gs' := if u.HasGoodsFields() then PatchGoodsRow(gs, w.goodsId, u.GoodsPatch()) else gs;
      var items' := if u.HasItemFields() then PatchItemRow(items, w.itemId, u) else items;
      (items', gs', GetByItemIdFrom(items', gs', w.itemId))
  }

  /** The `update` loop from match `m[0]` on, `done` being the rows already read back; it stops at the first error. */
  function UpdateItemsFrom(items: seq<InventoryItem>, gs: seq<Good>, m: seq<InventoryItemWithGoods>,
                           u: UpdateInventoryRequest, done: seq<InventoryItemWithGoods>)
    : (seq<InventoryItem>, seq<Good>, Result<seq<InventoryItemWithGoods>, DbError>)
    decreases |m|
  {
    if m == [] then (items, gs, Ok(done))
    else
      var step := UpdateItemStep(items, gs, m[0], u);
      if step.2.Err? then (step.0, step.1, Err(step.2.error))
      else UpdateItemsFrom(step.0, step.1, m[1..], u, done + [step.2.value])
  }

  /** The table with every row whose key is listed patched. */
  function PatchItemsMatched(items: seq<InventoryItem>, ids: seq<int>, u: UpdateInventoryRequest): (r: seq<InventoryItem>)
    ensures |r| == |items|
    ensures forall k :: 0 <= k < |items| ==> r[k] == if items[k].itemId in ids then PatchItem(items[k], u) else items[k]
  {
    seq(|items|, k requires 0 <= k < |items| => if items[k].itemId in ids then PatchItem(items[k], u) else items[k])
  }

  /** Patching one row in place is patching the rows with its key, since keys are unique. */
  lemma PatchOneItem(items: seq<InventoryItem>, k: nat, u: UpdateInventoryRequest)
    requires ItemsSorted(items) && k < |items|
    ensures items[k := PatchItem(items[k], u)] == PatchItemsMatched(items, [items[k].itemId], u)
  {
    var l, r := items[k := PatchItem(items[k], u)], PatchItemsMatched(items, [items[k].itemId], u);
    forall i | 0 <= i < |items| ensures l[i] == r[i] {
      if i < k {
        assert items[i].itemId < items[k].itemId;
      } else if k < i {
        assert items[k].itemId < items[i].itemId;
      }
    }
  }

  lemma PatchItemsTwice(items: seq<InventoryItem>, a: seq<int>, b: seq<int>, u: UpdateInventoryRequest)
    ensures PatchItemsMatched(PatchItemsMatched(items, a, u), b, u) == PatchItemsMatched(items, a + b, u)
  {
    var l, r := PatchItemsMatched(PatchItemsMatched(items, a, u), b, u), PatchItemsMatched(items, a + b, u);
    forall i | 0 <= i < |items| ensures l[i] == r[i] {
      ItemPatchMeaning(items[i], u);
    }
  }

  /** A patch with no goods field patches nothing. */
  lemma PatchNothing(gs: seq<Good>, ids: seq<int>, u: UpdateInventoryRequest)
    requires !u.HasGoodsFields()
    ensures PatchMatched(gs, ids, u.GoodsPatch()) == gs
  {
  }

  /** `w` is a row of the inventory table: same item key, same good. */
  predicate RowOf(w: InventoryItemWithGoods, items: seq<InventoryItem>) {
    exists j :: 0 <= j < |items| && items[j].itemId == w.itemId && items[j].goodsId == w.goodsId
  }

  predicate MatchesAreRows(m: seq<InventoryItemWithGoods>, items: seq<InventoryItem>) {
    forall t :: 0 <= t < |m| ==> RowOf(m[t], items)
  }

  lemma RowIdsCons(m: seq<InventoryItemWithGoods>)
    requires m != []
    ensures RowItemIds(m) == [m[0].itemId] + RowItemIds(m[1..])
    ensures RowGoodsIds(m) == [m[0].goodsId] + RowGoodsIds(m[1..])
  {
    RowItemIdsCons(m);
    RowGoodsIdsCons(m);
  }

  lemma RowItemIdsCons(m: seq<InventoryItemWithGoods>)
    requires m != []
    ensures RowItemIds(m) == [m[0].itemId] + RowItemIds(m[1..])
  {
    var l, r := RowItemIds(m), [m[0].itemId] + RowItemIds(m[1..]);
    forall k | 0 <= k < |l| ensures l[k] == r[k] {
      if k > 0 {
        assert r[k] == RowItemIds(m[1..])[k - 1] == m[1..][k - 1].itemId;
      }
    }
  }

  lemma RowGoodsIdsCons(m: seq<InventoryItemWithGoods>)
    requires m != []
    ensures RowGoodsIds(m) == [m[0].goodsId] + RowGoodsIds(m[1..])
  {
    var l, r := RowGoodsIds(m), [m[0].goodsId] + RowGoodsIds(m[1..]);
    forall k | 0 <= k < |l| ensures l[k] == r[k] {
      if k > 0 {
        assert r[k] == RowGoodsIds(m[1..])[k - 1] == m[1..][k - 1].goodsId;
      }
    }
  }

  /** Two tables with the same keys in the same places, the same references and unique codes are both valid or neither. */
  lemma SameKeysKeepTables(gs: seq<Good>, items: seq<InventoryItem>, gs': seq<Good>, items': seq<InventoryItem>,
                           nextGoods: int, nextItem: int)
    requires ValidTables(gs, items, nextGoods, nextItem)
    requires GoodsIds(gs') == GoodsIds(gs) && UniqueCodes(gs')
    requires |items'| == |items|
    requires forall j :: 0 <= j < |items| ==> items'[j].itemId == items[j].itemId && items'[j].goodsId == items[j].goodsId
    ensures ValidTables(gs', items', nextGoods, nextItem)
  {
    forall j | 0 <= j < |gs| ensures gs'[j].goodsId == gs[j].goodsId {
      assert GoodsIds(gs')[j] == GoodsIds(gs)[j];
    }
    forall t | 0 <= t < |items'| ensures HasGood(gs', items'[t].goodsId) {
      assert HasGood(gs, items[t].goodsId);
      SameIdsSameKeys(gs, gs', items[t].goodsId);
    }
  }

  /**
   * One pass of the update loop on a valid store: the transaction fails
   * exactly when a new material code belongs to another good, and then
   * leaves both tables as they were (the quantity change is rolled back
   * too); otherwise the item row and its good are patched and the row read
   * back is the join of the two patched rows, and the tables stay valid.
   */
  lemma UpdateItemStepOutcome(items: seq<InventoryItem>, gs: seq<Good>, nextGoods: int, nextItem: int,
                              w: InventoryItemWithGoods, u: UpdateInventoryRequest, k: nat)
    requires ValidTables(gs, items, nextGoods, nextItem)
    requires k < |items| && items[k].itemId == w.itemId && items[k].goodsId == w.goodsId
    ensures HasGood(gs, w.goodsId)
    ensures StepConflicts(gs, w, u) <==> u.materialCode.Some? && CodeTakenByOther(gs, w.goodsId, u.materialCode.value)
    ensures StepConflicts(gs, w, u) ==> UpdateItemStep(items, gs, w, u) == (items, gs, Err(Database(Some(UniqueViolation))))
    ensures !StepConflicts(gs, w, u) ==>
      var step := UpdateItemStep(items, gs, w, u);
      && step.0 == items[k := PatchItem(items[k], u)]
      && step.1 == PatchMatched(gs, [w.goodsId], u.GoodsPatch())
      && step.2 == Ok(Join(PatchItem(items[k], u), ApplyGoodsPatch(FindGoodById(gs, w.goodsId).value, u.GoodsPatch())))
      && ValidTables(step.1, step.0, nextGoods, nextItem)
  {
    assert HasGood(gs, items[k].goodsId);
    if !StepConflicts(gs, w, u) {
      StepReadsBackJoin(items, gs, nextGoods, nextItem, w, u, k);
    }
  }

  /** The two patches of a pass that does not conflict, and the validity of the tables they leave. */
  lemma StepPatchesTables(items: seq<InventoryItem>, gs: seq<Good>, nextGoods: int, nextItem: int,
                          w: InventoryItemWithGoods, u: UpdateInventoryRequest, k: nat)
    requires ValidTables(gs, items, nextGoods, nextItem)
    requires k < |items| && items[k].itemId == w.itemId && items[k].goodsId == w.goodsId
    requires !StepConflicts(gs, w, u)
    ensures var step := UpdateItemStep(items, gs, w, u);
      && step.0 == items[k := PatchItem(items[k], u)]
      && step.1 == PatchMatched(gs, [w.goodsId], u.GoodsPatch())
      && ValidTables(step.1, step.0, nextGoods, nextItem)
  {
    assert HasGood(gs, items[k].goodsId);
    var gp := u.GoodsPatch();
    var j := IndexOfGood(gs, w.goodsId).value;
    var gs1 := gs[j := ApplyGoodsPatch(gs[j], gp)];
    PatchOneRow(gs, j, gp);
    PatchRowKeepsTable(gs, j, gp);
    PatchKeepsKeyAndIsIdempotent(gs[j], gp);
    var items1 := items[k := PatchItem(items[k], u)];
    ItemKeyIndex(items, k);
    SameKeysKeepTables(gs, items, gs1, items1, nextGoods, nextItem);
    if !u.HasGoodsFields() {
      PatchNothing(gs, [w.goodsId], u);
    }
    if !u.HasItemFields() {
      ItemPatchMeaning(items[k], u);
    }
  }

  /** A pass that does not conflict reads back the join of the patched item and its patched good. */
  lemma StepReadsBackJoin(items: seq<InventoryItem>, gs: seq<Good>, nextGoods: int, nextItem: int,
                          w: InventoryItemWithGoods, u: UpdateInventoryRequest, k: nat)
    requires ValidTables(gs, items, nextGoods, nextItem)
    requires k < |items| && items[k].itemId == w.itemId && items[k].goodsId == w.goodsId
    requires !StepConflicts(gs, w, u)
    ensures var step := UpdateItemStep(items, gs, w, u);
      && step.0 == items[k := PatchItem(items[k], u)]
      && step.1 == PatchMatched(gs, [w.goodsId], u.GoodsPatch())
      && step.2 == Ok(Join(PatchItem(items[k], u), ApplyGoodsPatch(FindGoodById(gs, w.goodsId).value, u.GoodsPatch())))
      && ValidTables(step.1, step.0, nextGoods, nextItem)
  {
    StepPatchesTables(items, gs, nextGoods, nextItem, w, u, k);
    assert HasGood(gs, items[k].goodsId);
    var gp := u.GoodsPatch();
    var j := IndexOfGood(gs, w.goodsId).value;
    var gs1 := gs[j := ApplyGoodsPatch(gs[j], gp)];
    PatchOneRow(gs, j, gp);
    PatchKeepsKeyAndIsIdempotent(gs[j], gp);
    var items1 := items[k := PatchItem(items[k], u)];
    ItemKeyIndex(items, k);
    SortedRowMatchesKey(gs1, gs1[j]);
    ItemKeyIndex(items1, k);
  }

  /**
   * Without a new material code the update loop never fails on rows of
   * the tables: every matched item is patched, every matched item's good
   * is patched, nothing else changes, and one row is read back per match,
   * in match order.
   */
  lemma {:induction false} UpdateWithoutCodeSucceeds(items: seq<InventoryItem>, gs: seq<Good>, nextGoods: int, nextItem: int,
                                                     m: seq<InventoryItemWithGoods>, u: UpdateInventoryRequest,
                                                     done: seq<InventoryItemWithGoods>)
    requires u.materialCode.None?
    requires ValidTables(gs, items, nextGoods, nextItem) && MatchesAreRows(m, items)
    ensures UpdateItemsFrom(items, gs, m, u, done).2.Ok?
    ensures RowItemIds(UpdateItemsFrom(items, gs, m, u, done).2.value) == RowItemIds(done) + RowItemIds(m)
    ensures UpdateItemsFrom(items, gs, m, u, done).0 == PatchItemsMatched(items, RowItemIds(m), u)
    ensures UpdateItemsFrom(items, gs, m, u, done).1 == PatchMatched(gs, RowGoodsIds(m), u.GoodsPatch())
    ensures ValidTables(UpdateItemsFrom(items, gs, m, u, done).1, UpdateItemsFrom(items, gs, m, u, done).0, nextGoods, nextItem)
    decreases |m|
  {
    if m == [] {
      assert PatchItemsMatched(items, [], u) == items;
      assert PatchMatched(gs, [], u.GoodsPatch()) == gs;
      assert RowItemIds(done) + RowItemIds(m) == RowItemIds(done);
    } else {
      var k := UpdateHeadWithoutCode(items, gs, nextGoods, nextItem, m, u, done);
      var step := UpdateItemStep(items, gs, m[0], u);
      var row := step.2.value;
      UpdateWithoutCodeSucceeds(step.0, step.1, nextGoods, nextItem, m[1..], u, done + [row]);
      PatchesCompose(items, gs, k, m, u);
      RowIdsCompose(done, row, m, RowItemIds(UpdateItemsFrom(step.0, step.1, m[1..], u, done + [row]).2.value));
    }
  }

  /**
   * One turn of the update loop without a new code: the first match's
   * transaction succeeds, patches its item (at position `k`) and its good,
   * keeps the tables valid and leaves the other matches rows of the table.
   */
  lemma UpdateHeadWithoutCode(items: seq<InventoryItem>, gs: seq<Good>, nextGoods: int, nextItem: int,
                              m: seq<InventoryItemWithGoods>, u: UpdateInventoryRequest,
                              done: seq<InventoryItemWithGoods>) returns (k: nat)
    requires u.materialCode.None? && m != []
    requires ValidTables(gs, items, nextGoods, nextItem) && MatchesAreRows(m, items)
    ensures k < |items| && items[k].itemId == m[0].itemId
    ensures var step := UpdateItemStep(items, gs, m[0], u);
      && step.2.Ok? && step.2.value.itemId == m[0].itemId
      && step.0 == items[k := PatchItem(items[k], u)]
      && step.1 == PatchMatched(gs, [m[0].goodsId], u.GoodsPatch())
      && ValidTables(step.1, step.0, nextGoods, nextItem) && MatchesAreRows(m[1..], step.0)
      && UpdateItemsFrom(items, gs, m, u, done) == UpdateItemsFrom(step.0, step.1, m[1..], u, done + [step.2.value])
  {
    assert RowOf(m[0], items);
    k :| 0 <= k < |items| && items[k].itemId == m[0].itemId && items[k].goodsId == m[0].goodsId;
    UpdateItemStepOutcome(items, gs, nextGoods, nextItem, m[0], u, k);
    var step := UpdateItemStep(items, gs, m[0], u);
    PatchAtKeepsKeys(items, k, u);
    MatchesAreRowsKept(m, items, step.0);
  }

  lemma PatchAtKeepsKeys(items: seq<InventoryItem>, k: nat, u: UpdateInventoryRequest)
    requires k < |items|
    ensures var items' := items[k := PatchItem(items[k], u)];
      |items'| == |items| && forall j :: 0 <= j < |items| ==> items'[j].itemId == items[j].itemId && items'[j].goodsId == items[j].goodsId
  {
  }

  /** Patching the first match and then the rest is patching all matches. */
  lemma PatchesCompose(items: seq<InventoryItem>, gs: seq<Good>, k: nat, m: seq<InventoryItemWithGoods>, u: UpdateInventoryRequest)
    requires ItemsSorted(items) && k < |items| && m != [] && items[k].itemId == m[0].itemId
    ensures PatchItemsMatched(items[k := PatchItem(items[k], u)], RowItemIds(m[1..]), u) == PatchItemsMatched(items, RowItemIds(m), u)
    ensures PatchMatched(PatchMatched(gs, [m[0].goodsId], u.GoodsPatch()), RowGoodsIds(m[1..]), u.GoodsPatch())
      == PatchMatched(gs, RowGoodsIds(m), u.GoodsPatch())
  {
    PatchOneItem(items, k, u);
    PatchItemsTwice(items, [m[0].itemId], RowItemIds(m[1..]), u);
    PatchTwice(gs, [m[0].goodsId], RowGoodsIds(m[1..]), u.GoodsPatch());
    RowIdsCons(m);
  }

  lemma RowIdsCompose(done: seq<InventoryItemWithGoods>, row: InventoryItemWithGoods, m: seq<InventoryItemWithGoods>, ids: seq<int>)
    requires m != [] && row.itemId == m[0].itemId
    requires ids == RowItemIds(done + [row]) + RowItemIds(m[1..])
    ensures ids == RowItemIds(done) + RowItemIds(m)
  {
    RowIdsCons(m);
    assert RowItemIds(done + [row]) == RowItemIds(done) + [row.itemId];
  }

  /** Whatever the patch and whatever fails, the update never removes an item and never clears an expiry date. */
  lemma {:induction false} UpdateNeverClearsExpiry(items: seq<InventoryItem>, gs: seq<Good>, m: seq<InventoryItemWithGoods>,
                                                   u: UpdateInventoryRequest, done: seq<InventoryItemWithGoods>)
    ensures |UpdateItemsFrom(items, gs, m, u, done).0| == |items|
    ensures forall j :: 0 <= j < |items| ==>
      var it := UpdateItemsFrom(items, gs, m, u, done).0[j];
      it.itemId == items[j].itemId && (items[j].expiredDate.Some? ==> it.expiredDate.Some?)
    decreases |m|
  {
    if m != [] {
      var step := UpdateItemStep(items, gs, m[0], u);
      forall j | 0 <= j < |items| ensures step.0[j].itemId == items[j].itemId && (items[j].expiredDate.Some? ==> step.0[j].expiredDate.Some?) {
        ItemPatchMeaning(items[j], u);
      }
      if step.2.Ok? {
        UpdateNeverClearsExpiry(step.0, step.1, m[1..], u, done + [step.2.value]);
      }
    }
  }

  // ---------------------------------------------------------------------
  // Delete

  /** `DELETE FROM inventory WHERE item_id = $1` for each listed key: the other rows, in order. */
  function ItemsWithout(items: seq<InventoryItem>, ids: seq<int>): (r: seq<InventoryItem>)
    ensures forall it :: it in r <==> it in items && it.itemId !in ids
    ensures ItemsSorted(items) ==> ItemsSorted(r)
  {
    if items == [] then []
    else
      var rest := ItemsWithout(items[1..], ids);
      ItemsSortedTail(items);
      ItemsSortedCons(items, rest);
      if items[0].itemId in ids then rest else [items[0]] + rest
  }

  lemma {:induction false} ItemsWithoutTwice(items: seq<InventoryItem>, a: seq<int>, b: seq<int>)
    ensures ItemsWithout(ItemsWithout(items, a), b) == ItemsWithout(items, a + b)
  {
    if items != [] {
      ItemsWithoutTwice(items[1..], a, b);
    }
  }

  lemma ItemsWithoutNothing(items: seq<InventoryItem>)
    ensures ItemsWithout(items, []) == items
  {
  }

  /**
   * What `delete` does to the tables: the matched items are gone, every
   * other item stays, the goods are untouched and the tables stay valid;
   * the keys come back in ascending order.
   */
  lemma DeleteItemsOutcome(items: seq<InventoryItem>, gs: seq<Good>, nextGoods: int, nextItem: int, m: seq<InventoryItemWithGoods>)
    requires ValidTables(gs, items, nextGoods, nextItem) && JoinedSorted(m)
    ensures var items' := ItemsWithout(items, RowItemIds(m));
      && ValidTables(gs, items', nextGoods, nextItem)
      && (forall t :: 0 <= t < |m| ==> !HasItem(items', m[t].itemId))
      && (forall j :: 0 <= j < |items| && items[j].itemId !in RowItemIds(m) ==> items[j] in items')
      && (forall i, j :: 0 <= i < j < |m| ==> RowItemIds(m)[i] < RowItemIds(m)[j])
  {
    var items' := ItemsWithout(items, RowItemIds(m));
    forall t, a | 0 <= t < |m| && 0 <= a < |items'| ensures items'[a].itemId != m[t].itemId {
      assert RowItemIds(m)[t] == m[t].itemId;
      assert items'[a] in items';
    }
    forall t | 0 <= t < |items'| ensures HasGood(gs, items'[t].goodsId) && 1 <= items'[t].itemId < nextItem {
      assert items'[t] in items;
    }
  }

  // ---------------------------------------------------------------------
  // The repository

  /** The rows a valid store's join returns are rows of its inventory table. */
  lemma JoinedRowsAreRows(items: seq<InventoryItem>, gs: seq<Good>, m: seq<InventoryItemWithGoods>)
    requires ReferencesExist(items, gs)
    requires forall w :: w in m ==> w in Joined(items, gs)
    ensures MatchesAreRows(m, items)
  {
    var ws := Joined(items, gs);
    forall t | 0 <= t < |m| ensures RowOf(m[t], items) {
      assert m[t] in m;
      assert m[t] in ws;
      var j :| 0 <= j < |ws| && ws[j] == m[t];
      assert HasGood(gs, items[j].goodsId);
      assert ws[j] == Join(items[j], FindGoodById(gs, items[j].goodsId).value);
      assert items[j].itemId == m[t].itemId && items[j].goodsId == m[t].goodsId;
    }
  }

  /** `InventoryTable`: the inventory repository over one database. */
  class InventoryTable {
    const db: Database

    constructor (db: Database)
      ensures this.db == db
    {
      this.db := db;
    }

    /** `search`: the whole join for a get-all search, else the compiled, bound query's rows. */
    method Search(p: InventorySearchParams) returns (r: seq<InventoryItemWithGoods>)
      requires db.Valid()
      ensures r == InventorySearchResult(db.inventory, db.goods, p)
      ensures JoinedSorted(r) && MatchesAreRows(r, db.inventory)
    {
      JoinedIsSorted(db.inventory, db.goods);
      if p.IsGetAll() {
        r := GetAll();
      } else {
        var query, conds := CompileInventorySearch(p);
        var binds := BindInventorySearch(p);
        var ws := Joined(db.inventory, db.goods);
        r := SelectJoined(ws, conds, binds);
        SelectJoinedCompiled(ws, p);
      }
      JoinedRowsAreRows(db.inventory, db.goods, r);
    }

    /** `get_all`: the whole join in item key order, one row per item. */
    method GetAll() returns (r: seq<InventoryItemWithGoods>)
      requires db.Valid()
      ensures r == Joined(db.inventory, db.goods)
      ensures |r| == |db.inventory| && JoinedSorted(r)
    {
      JoinedIsSorted(db.inventory, db.goods);
      r := Joined(db.inventory, db.goods);
    }

    /** `get_by_item_id`: the joined row of one item. */
    method GetByItemId(id: int) returns (r: Result<InventoryItemWithGoods, DbError>)
      ensures r == GetByItemIdFrom(db.inventory, db.goods, id)
    {
      var k := IndexOfItem(db.inventory, id);
      if k.None? {
        r := Err(RowNotFound);
        return;
      }
      var item := db.inventory[k.value];
      var g := FindGoodById(db.goods, item.goodsId);
      if g.None? {
        r := Err(RowNotFound);
        return;
      }
      r := Ok(Join(item, g.value));
    }

    /** `insert`: resolve the good, then get-or-create on (goods_id, expired_date). */
    method Insert(req: CreateInventoryRequest) returns (r: Result<(InventoryItemWithGoods, bool), DbError>)
      requires db.Valid()
      modifies db
      ensures db.Valid()
      ensures (db.inventory, r) == InsertItem(old(db.inventory), old(db.goods), old(db.nextItemId), req)
      ensures db.nextItemId == if db.inventory == old(db.inventory) then old(db.nextItemId) else old(db.nextItemId) + 1
      ensures db.goods == old(db.goods) && db.nextGoodsId == old(db.nextGoodsId)
    {
      var resolved := Resolve(req);
      if resolved.Err? {
        r := Err(resolved.error);
        return;
      }
      var goodsId := resolved.value;
      var existing := FindItemByKey(db.inventory, goodsId, req.expiredDate);
      if existing.Some? {
        var w := GetByItemId(existing.value.itemId);
        r := Flagged(w, false);
        return;
      }
      var item := NewItem(db.nextItemId, goodsId, req);
      InsertItemKeepsTables(db.inventory, db.goods, db.nextGoodsId, db.nextItemId, req);
      db.inventory := db.inventory + [item];
      db.nextItemId := db.nextItemId + 1;
      var w := GetByItemId(item.itemId);
      r := Flagged(w, true);
    }

    /** The goods resolution of `insert`: by goods_id, else by material_code, else by the full details. */
    method Resolve(req: CreateInventoryRequest) returns (r: Result<int, DbError>)
      ensures r == ResolveGoods(db.goods, req)
    {
      if req.goodsId.Some? {
        var known := HasGood(db.goods, req.goodsId.value);
        if !known {
          return Err(RowNotFound);
        }
        r := Ok(req.goodsId.value);
      } else if req.materialCode.Some? {
        var found := FindGoodByCode(db.goods, req.materialCode.value);
        if found.None? {
          return Err(RowNotFound);
        }
        r := Ok(found.value.goodsId);
      } else if HasFullDetails(req) {
        // the material code is absent here, so `ok_or_else` on it fails
        r := Err(ColumnNotFound(MissingCodeMessage));
      } else {
        r := Err(ColumnNotFound(MissingGoodsMessage));
      }
    }

    /** `update`: one transaction per match in item key order, stopping at the first error. */
    method Update(p: InventorySearchParams, u: UpdateInventoryRequest) returns (r: Result<seq<InventoryItemWithGoods>, DbError>)
      requires db.Valid()
      modifies db
      ensures db.Valid()
      ensures (db.inventory, db.goods, r) == UpdateItemsFrom(old(db.inventory), old(db.goods), InventorySearchResult(old(db.inventory), old(db.goods), p), u, [])
      ensures db.nextGoodsId == old(db.nextGoodsId) && db.nextItemId == old(db.nextItemId)
    {
      var m := Search(p);
      if m == [] {
        r := Ok([]);
        return;
      }
      r := UpdateMatches(m, u);
    }

    /** The loop of `update` over the matches `m`. */
    method UpdateMatches(m: seq<InventoryItemWithGoods>, u: UpdateInventoryRequest) returns (r: Result<seq<InventoryItemWithGoods>, DbError>)
      requires db.Valid() && MatchesAreRows(m, db.inventory)
      modifies db
      ensures db.Valid()
      ensures (db.inventory, db.goods, r) == UpdateItemsFrom(old(db.inventory), old(db.goods), m, u, [])
      ensures db.nextGoodsId == old(db.nextGoodsId) && db.nextItemId == old(db.nextItemId)
    {
      var updated: seq<InventoryItemWithGoods> := [];
      var i := 0;
      while i < |m|
        invariant 0 <= i <= |m|
        invariant db.Valid() && MatchesAreRows(m[i..], db.inventory)
        invariant UpdateItemsFrom(old(db.inventory), old(db.goods), m, u, []) == UpdateItemsFrom(db.inventory, db.goods, m[i..], u, updated)
        invariant db.nextGoodsId == old(db.nextGoodsId) && db.nextItemId == old(db.nextItemId)
      {
        assert m[i..][1..] == m[i + 1..];
        ghost var before := db.inventory;
        assert m[i..][0] == m[i] && RowOf(m[i..][0], db.inventory);
        var row := UpdateOne(m[i], u);
        if row.Err? {
          r := Err(row.error);
          return;
        }
        MatchesAreRowsKept(m[i..], before, db.inventory);
        updated := updated + [row.value];
        i := i + 1;
      }
      assert m[|m|..] == [];
      r := Ok(updated);
    }

    /**
     * One pass of the `update` loop: the two statements run on a copy of
     * the tables that is committed only when neither fails; then the row
     * is read back.
     */
    method UpdateOne(w: InventoryItemWithGoods, u: UpdateInventoryRequest) returns (row: Result<InventoryItemWithGoods, DbError>)
      requires db.Valid() && RowOf(w, db.inventory)
      modifies db
      ensures db.Valid()
      ensures (db.inventory, db.goods, row) == UpdateItemStep(old(db.inventory), old(db.goods), w, u)
      ensures |db.inventory| == |old(db.inventory)|
      ensures forall j :: 0 <= j < |db.inventory| ==>
        db.inventory[j].itemId == old(db.inventory)[j].itemId && db.inventory[j].goodsId == old(db.inventory)[j].goodsId
      ensures db.nextGoodsId == old(db.nextGoodsId) && db.nextItemId == old(db.nextItemId)
    {
      var conflict, goods, inventory := RunPass(w, u);
      if conflict {
        // the transaction is dropped, so nothing of this pass is kept
        row := Err(Database(Some(UniqueViolation)));
        return;
      }
      ghost var step := UpdateItemStep(db.inventory, db.goods, w, u);
      assert step.0 == inventory && step.1 == goods;
      StepKeepsTables(db.inventory, db.goods, db.nextGoodsId, db.nextItemId, w, u);
      Commit(goods, inventory);
      row := GetByItemId(w.itemId);
    }

    /** `tx.commit()`: the pass's copy of the tables becomes the store's. */
    method Commit(goods: seq<Good>, inventory: seq<InventoryItem>)
      requires ValidTables(goods, inventory, db.nextGoodsId, db.nextItemId)
      modifies db
      ensures db.Valid() && db.goods == goods && db.inventory == inventory
      ensures db.nextGoodsId == old(db.nextGoodsId) && db.nextItemId == old(db.nextItemId)
    {
      db.goods, db.inventory := goods, inventory;
    }

    /**
     * The two statements of one pass run on a copy of the tables: the goods
     * statement when some goods field is given, then the inventory
     * statement when quantity or expired_date is. `conflict` reports the
     * unique violation that aborts the pass.
     */
    method RunPass(w: InventoryItemWithGoods, u: UpdateInventoryRequest)
      returns (conflict: bool, goods: seq<Good>, inventory: seq<InventoryItem>)
      ensures conflict == StepConflicts(db.goods, w, u)
      ensures !conflict ==> goods == (if u.HasGoodsFields() then PatchGoodsRow(db.goods, w.goodsId, u.GoodsPatch()) else db.goods)
      ensures !conflict ==> inventory == (if u.HasItemFields() then PatchItemRow(db.inventory, w.itemId, u) else db.inventory)
    {
      var gp := u.GoodsPatch();
      goods, inventory := db.goods, db.inventory;
      conflict := false;
      if u.HasGoodsFields() {
        var g := IndexOfGood(goods, w.goodsId);
        if g.Some? {
          if gp.materialCode.Some? && CodeTakenByOther(goods, w.goodsId, gp.materialCode.value) {
            conflict := true;
            return;
          }
          goods := goods[g.value := ApplyGoodsPatch(goods[g.value], gp)];
        }
      }
      if u.HasItemFields() {
        var j := IndexOfItem(inventory, w.itemId);
        if j.Some? {
          inventory := inventory[j.value := PatchItem(inventory[j.value], u)];
        }
      }
    }

    /** `delete`: delete every match in item key order and return their keys; goods are not touched. */
    method Delete(p: InventorySearchParams) returns (deleted: seq<int>)
      requires db.Valid()
      modifies db
      ensures db.Valid()
      ensures deleted == RowItemIds(InventorySearchResult(old(db.inventory), old(db.goods), p))
      ensures db.inventory == ItemsWithout(old(db.inventory), deleted)
      ensures db.goods == old(db.goods)
      ensures db.nextGoodsId == old(db.nextGoodsId) && db.nextItemId == old(db.nextItemId)
    {
      var m := Search(p);
      deleted := DeleteMatches(m);
    }

    /** The loop of `delete` over the matches `m`. */
    method DeleteMatches(m: seq<InventoryItemWithGoods>) returns (deleted: seq<int>)
      requires db.Valid() && JoinedSorted(m)
      modifies db
      ensures db.Valid()
      ensures deleted == RowItemIds(m) && db.inventory == ItemsWithout(old(db.inventory), deleted)
      ensures db.goods == old(db.goods)
      ensures db.nextGoodsId == old(db.nextGoodsId) && db.nextItemId == old(db.nextItemId)
    {
      DeleteItemsOutcome(db.inventory, db.goods, db.nextGoodsId, db.nextItemId, m);
      ItemsWithoutNothing(db.inventory);
      deleted := [];
      var i := 0;
      while i < |m|
        invariant 0 <= i <= |m|
        invariant db.inventory == ItemsWithout(old(db.inventory), deleted)
        invariant deleted == RowItemIds(m[..i])
        invariant db.goods == old(db.goods)
        invariant db.nextGoodsId == old(db.nextGoodsId) && db.nextItemId == old(db.nextItemId)
      {
        ItemsWithoutTwice(old(db.inventory), deleted, [m[i].itemId]);
        db.inventory := ItemsWithout(db.inventory, [m[i].itemId]);
        assert RowItemIds(m[..i + 1]) == RowItemIds(m[..i]) + [m[i].itemId];
        deleted := deleted + [m[i].itemId];
        i := i + 1;
      }
      assert m[..|m|] == m;
    }
  }

  /** A pass of the update loop that does not conflict keeps the tables valid and every item's keys in place. */
  lemma StepKeepsTables(items: seq<InventoryItem>, gs: seq<Good>, nextGoods: int, nextItem: int,
                        w: InventoryItemWithGoods, u: UpdateInventoryRequest)
    requires ValidTables(gs, items, nextGoods, nextItem) && RowOf(w, items) && !StepConflicts(gs, w, u)
    ensures var step := UpdateItemStep(items, gs, w, u);
      && ValidTables(step.1, step.0, nextGoods, nextItem)
      && |step.0| == |items|
      && forall j :: 0 <= j < |items| ==> step.0[j].itemId == items[j].itemId && step.0[j].goodsId == items[j].goodsId
  {
    var k :| 0 <= k < |items| && items[k].itemId == w.itemId && items[k].goodsId == w.goodsId;
    StepPatchesTables(items, gs, nextGoods, nextItem, w, u, k);
    PatchAtKeepsKeys(items, k, u);
  }

  /** Patches that keep every key and reference in place keep the remaining matches rows of the table. */
  lemma MatchesAreRowsKept(m: seq<InventoryItemWithGoods>, items: seq<InventoryItem>, items': seq<InventoryItem>)
    requires m != [] && MatchesAreRows(m, items) && |items'| == |items|
    requires forall j :: 0 <= j < |items| ==> items'[j].itemId == items[j].itemId && items'[j].goodsId == items[j].goodsId
    ensures MatchesAreRows(m[1..], items')
  {
    forall t | 0 <= t < |m[1..]| ensures RowOf(m[1..][t], items') {
      assert m[1..][t] == m[t + 1] && RowOf(m[t + 1], items);
      var j :| 0 <= j < |items| && items[j].itemId == m[t + 1].itemId && items[j].goodsId == m[t + 1].goodsId;
      assert items'[j].itemId == items[j].itemId && items'[j].goodsId == items[j].goodsId;
    }
  }
}
