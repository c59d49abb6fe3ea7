/**
 * Request-side checking: the raw query-string parameters of the two
 * collections, their validation into search parameters, the `validate`
 * rules of the four body types, and the reading of a query map into the
 * raw parameter records.
 */
module Request {
  import opened Wrappers
  import opened StdStr
  import opened Validation
  import opened Goods
  import opened Inventory

  // ---------------------------------------------------------------------
  // Raw query parameters

  /** `GoodsQueryParams`: every field is the raw text of one query key. */
  datatype GoodsQueryParams = GoodsQueryParams(
    goodsId: Option<string>,
    materialCode: Option<string>,
    goodsName: Option<string>,
    price: Option<string>,
    volumnL: Option<string>,
    massG: Option<string>,
    minVolumnL: Option<string>,
    maxVolumnL: Option<string>,
    minMassG: Option<string>,
    maxMassG: Option<string>,
    minPrice: Option<string>,
    maxPrice: Option<string>)
  {
    /** `has_any_params` */
    predicate HasAnyParams() {
      goodsId.Some? || materialCode.Some? || goodsName.Some? || price.Some?
      || volumnL.Some? || massG.Some? || minVolumnL.Some? || maxVolumnL.Some?
      || minMassG.Some? || maxMassG.Some? || minPrice.Some? || maxPrice.Some?
    }
  }

  /** `InventoryQueryParams`: seven item keys, then the twelve goods keys. */
  datatype InventoryQueryParams = InventoryQueryParams(
    itemId: Option<string>,
    quantity: Option<string>,
    minQuantity: Option<string>,
    maxQuantity: Option<string>,
    expiredDate: Option<string>,
    minExpiredDate: Option<string>,
    maxExpiredDate: Option<string>,
    goodsId: Option<string>,
    materialCode: Option<string>,
    goodsName: Option<string>,
    price: Option<string>,
    volumnL: Option<string>,
    massG: Option<string>,
    minVolumnL: Option<string>,
    maxVolumnL: Option<string>,
    minMassG: Option<string>,
    maxMassG: Option<string>,
    minPrice: Option<string>,
    maxPrice: Option<string>)
  {
    /** `has_any_params` */
    predicate HasAnyParams() {
      itemId.Some? || quantity.Some? || minQuantity.Some? || maxQuantity.Some?
      || expiredDate.Some? || minExpiredDate.Some? || maxExpiredDate.Some?
      || goodsId.Some? || materialCode.Some? || goodsName.Some? || price.Some?
      || volumnL.Some? || massG.Some? || minVolumnL.Some? || maxVolumnL.Some?
      || minMassG.Some? || maxMassG.Some? || minPrice.Some? || maxPrice.Some?
    }

    /** The goods half, handed on to the goods validation unchanged. */
    function GoodsPart(): GoodsQueryParams {
      GoodsQueryParams(goodsId, materialCode, goodsName, price, volumnL, massG,
                       minVolumnL, maxVolumnL, minMassG, maxMassG, minPrice, maxPrice)
    }
  }

  /** The query keys of the goods parameters, in field order. */
  const GoodsKeys: seq<string> := [
    "goods_id", "material_code", "goods_name", "price", "volumn_l", "mass_g",
    "min_volumn_l", "max_volumn_l", "min_mass_g", "max_mass_g", "min_price", "max_price"
  ]

  /** The query keys of the inventory parameters, in field order. */
  const InventoryKeys: seq<string> := [
    "item_id", "quantity", "min_quantity", "max_quantity",
    "expired_date", "min_expired_date", "max_expired_date"
  ] + GoodsKeys

  /** The fields of a goods query, in the order of `GoodsKeys`. */
  function GoodsFields(q: GoodsQueryParams): (fs: seq<Option<string>>)
    ensures |fs| == |GoodsKeys|
  {
    [q.goodsId, q.materialCode, q.goodsName, q.price, q.volumnL, q.massG,
     q.minVolumnL, q.maxVolumnL, q.minMassG, q.maxMassG, q.minPrice, q.maxPrice]
  }

  /** The fields of an inventory query, in the order of `InventoryKeys`. */
  function InventoryFields(q: InventoryQueryParams): (fs: seq<Option<string>>)
    ensures |fs| == |InventoryKeys|
  {
    [q.itemId, q.quantity, q.minQuantity, q.maxQuantity,
     q.expiredDate, q.minExpiredDate, q.maxExpiredDate] + GoodsFields(q.GoodsPart())
  }

  /** Some field of the list is present. */
  predicate AnyPresent(fs: seq<Option<string>>) {
    exists i :: 0 <= i < |fs| && fs[i].Some?
  }

  // ---------------------------------------------------------------------
  // Reading the query map

  /** `params.get(key).cloned()` */
  function Lookup(m: map<string, string>, key: string): Option<string> {
    if key in m then Some(m[key]) else None
  }

  /** `extract_goods_query_params` */
  function ExtractGoodsQueryParams(m: map<string, string>): GoodsQueryParams {
    GoodsQueryParams(
      Lookup(m, "goods_id"), Lookup(m, "material_code"), Lookup(m, "goods_name"),
      Lookup(m, "price"), Lookup(m, "volumn_l"), Lookup(m, "mass_g"),
      Lookup(m, "min_volumn_l"), Lookup(m, "max_volumn_l"),
      Lookup(m, "min_mass_g"), Lookup(m, "max_mass_g"),
      Lookup(m, "min_price"), Lookup(m, "max_price"))
  }

  /** `extract_inventory_query_params` */
  function ExtractInventoryQueryParams(m: map<string, string>): InventoryQueryParams {
    InventoryQueryParams(
      Lookup(m, "item_id"), Lookup(m, "quantity"),
      Lookup(m, "min_quantity"), Lookup(m, "max_quantity"),
      Lookup(m, "expired_date"), Lookup(m, "min_expired_date"), Lookup(m, "max_expired_date"),
      Lookup(m, "goods_id"), Lookup(m, "material_code"), Lookup(m, "goods_name"),
      Lookup(m, "price"), Lookup(m, "volumn_l"), Lookup(m, "mass_g"),
      Lookup(m, "min_volumn_l"), Lookup(m, "max_volumn_l"),
      Lookup(m, "min_mass_g"), Lookup(m, "max_mass_g"),
      Lookup(m, "min_price"), Lookup(m, "max_price"))
  }

  // ---------------------------------------------------------------------
  // validate_and_parse

  /** One optional integer field: absent stays absent, present must parse. */
  function ParseOptInteger(s: Option<string>, name: string, parsers: Parsers): Result<Option<int>, string> {
    if s.None? then Ok(None)
    else
      var v :- ParseSafeInteger(s.value, name, parsers);
      Ok(Some(v))
  }

  /** One optional decimal field. */
  function ParseOptDecimal(s: Option<string>, name: string, parsers: Parsers): Result<Option<real>, string> {
    if s.None? then Ok(None)
    else
      var v :- ParseSafeDecimal(s.value, name, parsers);
      Ok(Some(v))
  }

  /** One optional timestamp field. */
  function ParseOptDatetime(s: Option<string>, name: string, parsers: Parsers): Result<Option<int>, string> {
    if s.None? then Ok(None)
    else
      var v :- ParseSafeDatetime(s.value, name, parsers);
      Ok(Some(v))
  }

  /** One optional text field: checked, then kept verbatim. */
  function CheckOptString(s: Option<string>, name: string): Result<Option<string>, string> {
    if s.None? then Ok(None)
    else
      var _ :- ValidateSafeString(s.value, name);
      Ok(s)
  }

  /** `goods_id`, `material_code` and `goods_name`, onto `sp`. */
  function ParseGoodsIdentity(q: GoodsQueryParams, parsers: Parsers, sp: GoodsSearchParams): Result<GoodsSearchParams, string> {
    var goodsId :- ParseOptInteger(q.goodsId, "goods_id", parsers);
    var materialCode :- CheckOptString(q.materialCode, "material_code");
    var goodsName :- CheckOptString(q.goodsName, "goods_name");
    Ok(sp.(goodsId := goodsId, materialCode := materialCode, goodsName := goodsName))
  }

  /** `price`, `volumn_l` and `mass_g`, onto `sp`. */
  function ParseGoodsExact(q: GoodsQueryParams, parsers: Parsers, sp: GoodsSearchParams): Result<GoodsSearchParams, string> {
    var price :- ParseOptDecimal(q.price, "price", parsers);
    var volumnL :- ParseOptDecimal(q.volumnL, "volumn_l", parsers);
    var massG :- ParseOptDecimal(q.massG, "mass_g", parsers);
    Ok(sp.(price := price, volumnL := volumnL, massG := massG))
  }

  /** The volume and mass bounds, onto `sp`. */
  function ParseGoodsBounds(q: GoodsQueryParams, parsers: Parsers, sp: GoodsSearchParams): Result<GoodsSearchParams, string> {
    var minVolumnL :- ParseOptDecimal(q.minVolumnL, "min_volumn_l", parsers);
    var maxVolumnL :- ParseOptDecimal(q.maxVolumnL, "max_volumn_l", parsers);
    var minMassG :- ParseOptDecimal(q.minMassG, "min_mass_g", parsers);
    var maxMassG :- ParseOptDecimal(q.maxMassG, "max_mass_g", parsers);
    Ok(sp.(minVolumnL := minVolumnL, maxVolumnL := maxVolumnL, minMassG := minMassG, maxMassG := maxMassG))
  }

  /** The price bounds, onto `sp`. */
  function ParseGoodsPriceBounds(q: GoodsQueryParams, parsers: Parsers, sp: GoodsSearchParams): Result<GoodsSearchParams, string> {
    var minPrice :- ParseOptDecimal(q.minPrice, "min_price", parsers);
    var maxPrice :- ParseOptDecimal(q.maxPrice, "max_price", parsers);
    Ok(sp.(minPrice := minPrice, maxPrice := maxPrice))
  }

  /**
   * `GoodsQueryParams::validate_and_parse`: the fields are checked in
   * declaration order and the first failure is the answer.
   */
  function ParseGoodsQuery(q: GoodsQueryParams, parsers: Parsers): Result<GoodsSearchParams, string> {
    var sp1 :- ParseGoodsIdentity(q, parsers, NewSearchParams());
    var sp2 :- ParseGoodsExact(q, parsers, sp1);
    var sp3 :- ParseGoodsBounds(q, parsers, sp2);
    ParseGoodsPriceBounds(q, parsers, sp3)
  }

  /** `item_id`, `quantity` and its bounds, onto `sp`. */
  function ParseItemQuantities(q: InventoryQueryParams, parsers: Parsers, sp: InventorySearchParams): Result<InventorySearchParams, string> {
    var itemId :- ParseOptInteger(q.itemId, "item_id", parsers);
    var quantity :- ParseOptInteger(q.quantity, "quantity", parsers);
    var minQuantity :- ParseOptInteger(q.minQuantity, "min_quantity", parsers);
    var maxQuantity :- ParseOptInteger(q.maxQuantity, "max_quantity", parsers);
    Ok(sp.(itemId := itemId, quantity := quantity, minQuantity := minQuantity, maxQuantity := maxQuantity))
  }

  /** `expired_date` and its bounds, onto `sp`. */
  function ParseItemExpiry(q: InventoryQueryParams, parsers: Parsers, sp: InventorySearchParams): Result<InventorySearchParams, string> {
    var expiredDate :- ParseOptDatetime(q.expiredDate, "expired_date", parsers);
    var minExpiredDate :- ParseOptDatetime(q.minExpiredDate, "min_expired_date", parsers);
    var maxExpiredDate :- ParseOptDatetime(q.maxExpiredDate, "max_expired_date", parsers);
    Ok(sp.(expiredDate := expiredDate, minExpiredDate := minExpiredDate, maxExpiredDate := maxExpiredDate))
  }

  /**
   * `InventoryQueryParams::validate_and_parse`: the seven item fields
   * first, then the goods half through the goods validation.
   */
  function ParseInventoryQuery(q: InventoryQueryParams, parsers: Parsers): Result<InventorySearchParams, string> {
    var sp1 :- ParseItemQuantities(q, parsers, NewInventorySearchParams());
    var sp2 :- ParseItemExpiry(q, parsers, sp1);
    var goodsParams :- ParseGoodsQuery(q.GoodsPart(), parsers);
    Ok(sp2.(goodsParams := goodsParams))
  }

  /**
   * `GoodsQueryParams::validate_and_parse` as written: a mutable record
   * filled in field by field, each `?` an early return.
   */
  method ValidateAndParseGoods(q: GoodsQueryParams, parsers: Parsers) returns (r: Result<GoodsSearchParams, string>)
    ensures r == ParseGoodsQuery(q, parsers)
  {
    var sp := NewSearchParams();
    sp :- ParseGoodsIdentityFields(q, parsers, sp);
    sp :- ParseGoodsExactFields(q, parsers, sp);
    sp :- ParseGoodsBoundsFields(q, parsers, sp);
    sp :- ParseGoodsPriceFields(q, parsers, sp);
    r := Ok(sp);
  }

  method ParseGoodsIdentityFields(q: GoodsQueryParams, parsers: Parsers, sp0: GoodsSearchParams)
    returns (r: Result<GoodsSearchParams, string>)
    requires sp0.goodsId.None? && sp0.materialCode.None? && sp0.goodsName.None?
    ensures r == ParseGoodsIdentity(q, parsers, sp0)
  {
    var sp := sp0;
    if q.goodsId.Some? {
      var v :- ParseSafeInteger(q.goodsId.value, "goods_id", parsers);
      sp := sp.(goodsId := Some(v));
    }
    if q.materialCode.Some? {
      var _ :- ValidateSafeString(q.materialCode.value, "material_code");
      sp := sp.(materialCode := q.materialCode);
    }
    if q.goodsName.Some? {
      var _ :- ValidateSafeString(q.goodsName.value, "goods_name");
      sp := sp.(goodsName := q.goodsName);
    }
    r := Ok(sp);
  }

  method ParseGoodsExactFields(q: GoodsQueryParams, parsers: Parsers, sp0: GoodsSearchParams)
    returns (r: Result<GoodsSearchParams, string>)
    requires sp0.price.None? && sp0.volumnL.None? && sp0.massG.None?
    ensures r == ParseGoodsExact(q, parsers, sp0)
  {
    var sp := sp0;
    if q.price.Some? {
      var v :- ParseSafeDecimal(q.price.value, "price", parsers);
      sp := sp.(price := Some(v));
    }
    if q.volumnL.Some? {
      var v :- ParseSafeDecimal(q.volumnL.value, "volumn_l", parsers);
      sp := sp.(volumnL := Some(v));
    }
    if q.massG.Some? {
      var v :- ParseSafeDecimal(q.massG.value, "mass_g", parsers);
      sp := sp.(massG := Some(v));
    }
    r := Ok(sp);
  }

  method ParseGoodsBoundsFields(q: GoodsQueryParams, parsers: Parsers, sp0: GoodsSearchParams)
    returns (r: Result<GoodsSearchParams, string>)
    requires sp0.minVolumnL.None? && sp0.maxVolumnL.None? && sp0.minMassG.None? && sp0.maxMassG.None?
    ensures r == ParseGoodsBounds(q, parsers, sp0)
  {
    var sp := sp0;
    if q.minVolumnL.Some? {
      var v :- ParseSafeDecimal(q.minVolumnL.value, "min_volumn_l", parsers);
      sp := sp.(minVolumnL := Some(v));
    }
    if q.maxVolumnL.Some? {
      var v :- ParseSafeDecimal(q.maxVolumnL.value, "max_volumn_l", parsers);
      sp := sp.(maxVolumnL := Some(v));
    }
    if q.minMassG.Some? {
      var v :- ParseSafeDecimal(q.minMassG.value, "min_mass_g", parsers);
      sp := sp.(minMassG := Some(v));
    }
    if q.maxMassG.Some? {
      var v :- ParseSafeDecimal(q.maxMassG.value, "max_mass_g", parsers);
      sp := sp.(maxMassG := Some(v));
    }
    r := Ok(sp);
  }

  method ParseGoodsPriceFields(q: GoodsQueryParams, parsers: Parsers, sp0: GoodsSearchParams)
    returns (r: Result<GoodsSearchParams, string>)
    requires sp0.minPrice.None? && sp0.maxPrice.None?
    ensures r == ParseGoodsPriceBounds(q, parsers, sp0)
  {
    var sp := sp0;
    if q.minPrice.Some? {
      var v :- ParseSafeDecimal(q.minPrice.value, "min_price", parsers);
      sp := sp.(minPrice := Some(v));
    }
    if q.maxPrice.Some? {
      var v :- ParseSafeDecimal(q.maxPrice.value, "max_price", parsers);
      sp := sp.(maxPrice := Some(v));
    }
    r := Ok(sp);
  }

  /**
   * `InventoryQueryParams::validate_and_parse` as written: the item fields
   * one by one, then the goods half handed to the goods method.
   */
  method ValidateAndParseInventory(q: InventoryQueryParams, parsers: Parsers)
    returns (r: Result<InventorySearchParams, string>)
    ensures r == ParseInventoryQuery(q, parsers)
  {
    var sp := NewInventorySearchParams();
    sp :- ParseItemQuantityFields(q, parsers, sp);
    sp :- ParseItemExpiryFields(q, parsers, sp);
    var goodsParams :- ValidateAndParseGoods(q.GoodsPart(), parsers);
    sp := sp.(goodsParams := goodsParams);
    r := Ok(sp);
  }

  method ParseItemQuantityFields(q: InventoryQueryParams, parsers: Parsers, sp0: InventorySearchParams)
    returns (r: Result<InventorySearchParams, string>)
    requires sp0.itemId.None? && sp0.quantity.None? && sp0.minQuantity.None? && sp0.maxQuantity.None?
    ensures r == ParseItemQuantities(q, parsers, sp0)
  {
    var sp := sp0;
    if q.itemId.Some? {
      var v :- ParseSafeInteger(q.itemId.value, "item_id", parsers);
      sp := sp.(itemId := Some(v));
    }
    if q.quantity.Some? {
      var v :- ParseSafeInteger(q.quantity.value, "quantity", parsers);
      sp := sp.(quantity := Some(v));
    }
    if q.minQuantity.Some? {
      var v :- ParseSafeInteger(q.minQuantity.value, "min_quantity", parsers);
      sp := sp.(minQuantity := Some(v));
    }
    if q.maxQuantity.Some? {
      var v :- ParseSafeInteger(q.maxQuantity.value, "max_quantity", parsers);
      sp := sp.(maxQuantity := Some(v));
    }
    r := Ok(sp);
  }

  method ParseItemExpiryFields(q: InventoryQueryParams, parsers: Parsers, sp0: InventorySearchParams)
    returns (r: Result<InventorySearchParams, string>)
    requires sp0.expiredDate.None? && sp0.minExpiredDate.None? && sp0.maxExpiredDate.None?
    ensures r == ParseItemExpiry(q, parsers, sp0)
  {
    var sp := sp0;
    if q.expiredDate.Some? {
      var v :- ParseSafeDatetime(q.expiredDate.value, "expired_date", parsers);
      sp := sp.(expiredDate := Some(v));
    }
    if q.minExpiredDate.Some? {
      var v :- ParseSafeDatetime(q.minExpiredDate.value, "min_expired_date", parsers);
      sp := sp.(minExpiredDate := Some(v));
    }
    if q.maxExpiredDate.Some? {
      var v :- ParseSafeDatetime(q.maxExpiredDate.value, "max_expired_date", parsers);
      sp := sp.(maxExpiredDate := Some(v));
    }
    r := Ok(sp);
  }

  // ---------------------------------------------------------------------
  // What validate_and_parse means, field by field

  /** The parser's reading of an optional field. */
  function Read<T>(s: Option<string>, parse: string -> Option<T>): Option<T> {
    if s.None? then None else parse(s.value)
  }

  /** The verdict on one integer field, without its value. */
  function IntegerCheck(s: Option<string>, name: string, parsers: Parsers): Result<(), string> {
    if s.None? then Ok(()) else
    match ParseSafeInteger(s.value, name, parsers)
      case Ok(_) => Ok(())
      case Err(e) => Err(e)
  }

  function DecimalCheck(s: Option<string>, name: string, parsers: Parsers): Result<(), string> {
    if s.None? then Ok(()) else
    match ParseSafeDecimal(s.value, name, parsers)
      case Ok(_) => Ok(())
      case Err(e) => Err(e)
  }

  function DatetimeCheck(s: Option<string>, name: string, parsers: Parsers): Result<(), string> {
    if s.None? then Ok(()) else
    match ParseSafeDatetime(s.value, name, parsers)
      case Ok(_) => Ok(())
      case Err(e) => Err(e)
  }

  function StringCheck(s: Option<string>, name: string): Result<(), string> {
    if s.None? then Ok(()) else ValidateSafeString(s.value, name)
  }

  /** The error of the first failing verdict, if any. */
  function FirstError(cs: seq<Result<(), string>>): (e: Option<string>)
    ensures e.None? <==> forall i :: 0 <= i < |cs| ==> cs[i].Ok?
  {
    if |cs| == 0 then None
    else if cs[0].Err? then Some(cs[0].error)
    else FirstError(cs[1..])
  }

  /** The error `FirstError` picks is that of a failing verdict with only passes before it. */
  lemma {:induction false} FirstErrorIsFirst(cs: seq<Result<(), string>>)
    requires FirstError(cs).Some?
    ensures exists k :: 0 <= k < |cs| && cs[k] == Err(FirstError(cs).value)
                        && forall i :: 0 <= i < k ==> cs[i].Ok?
  {
    if cs[0].Ok? {
      FirstErrorIsFirst(cs[1..]);
      var k :| 0 <= k < |cs[1..]| && cs[1..][k] == Err(FirstError(cs[1..]).value)
               && forall i :: 0 <= i < k ==> cs[1..][i].Ok?;
      assert cs[k + 1] == cs[1..][k];
      assert forall i :: 0 <= i < k + 1 ==> cs[i].Ok? by {
        forall i | 0 <= i < k + 1 ensures cs[i].Ok? {
          if i > 0 { assert cs[i] == cs[1..][i - 1]; }
        }
      }
    }
  }

  /** The first error of a concatenation is the first list's, if it has one. */
  lemma {:induction false} FirstErrorAppend(a: seq<Result<(), string>>, b: seq<Result<(), string>>)
    ensures FirstError(a + b) == if FirstError(a).Some? then FirstError(a) else FirstError(b)
    decreases |a|
  {
    if |a| == 0 {
      assert a + b == b;
    } else {
      assert (a + b)[0] == a[0];
      assert (a + b)[1..] == a[1..] + b;
      FirstErrorAppend(a[1..], b);
    }
  }

  /** A verdict list read front to back. */
  lemma FirstErrorCons(c: Result<(), string>, cs: seq<Result<(), string>>)
    ensures FirstError([c] + cs) == if c.Err? then Some(c.error) else FirstError(cs)
  {
    assert ([c] + cs)[1..] == cs;
  }

  function GoodsIdentityChecks(q: GoodsQueryParams, parsers: Parsers): seq<Result<(), string>> {
    [IntegerCheck(q.goodsId, "goods_id", parsers),
     StringCheck(q.materialCode, "material_code"),
     StringCheck(q.goodsName, "goods_name")]
  }

  function GoodsExactChecks(q: GoodsQueryParams, parsers: Parsers): seq<Result<(), string>> {
    [DecimalCheck(q.price, "price", parsers),
     DecimalCheck(q.volumnL, "volumn_l", parsers),
     DecimalCheck(q.massG, "mass_g", parsers)]
  }

  function GoodsBoundsChecks(q: GoodsQueryParams, parsers: Parsers): seq<Result<(), string>> {
    [DecimalCheck(q.minVolumnL, "min_volumn_l", parsers),
     DecimalCheck(q.maxVolumnL, "max_volumn_l", parsers),
     DecimalCheck(q.minMassG, "min_mass_g", parsers),
     DecimalCheck(q.maxMassG, "max_mass_g", parsers)]
  }

  function GoodsPriceChecks(q: GoodsQueryParams, parsers: Parsers): seq<Result<(), string>> {
    [DecimalCheck(q.minPrice, "min_price", parsers),
     DecimalCheck(q.maxPrice, "max_price", parsers)]
  }

  /** The per-field verdicts of a goods query, in checking order. */
  function GoodsChecks(q: GoodsQueryParams, parsers: Parsers): seq<Result<(), string>> {
    GoodsIdentityChecks(q, parsers) + GoodsExactChecks(q, parsers)
    + GoodsBoundsChecks(q, parsers) + GoodsPriceChecks(q, parsers)
  }

  function ItemQuantityChecks(q: InventoryQueryParams, parsers: Parsers): seq<Result<(), string>> {
    [IntegerCheck(q.itemId, "item_id", parsers),
     IntegerCheck(q.quantity, "quantity", parsers),
     IntegerCheck(q.minQuantity, "min_quantity", parsers),
     IntegerCheck(q.maxQuantity, "max_quantity", parsers)]
  }

  function ItemExpiryChecks(q: InventoryQueryParams, parsers: Parsers): seq<Result<(), string>> {
    [DatetimeCheck(q.expiredDate, "expired_date", parsers),
     DatetimeCheck(q.minExpiredDate, "min_expired_date", parsers),
     DatetimeCheck(q.maxExpiredDate, "max_expired_date", parsers)]
  }

  /** The per-field verdicts of an inventory query, in checking order. */
  function InventoryChecks(q: InventoryQueryParams, parsers: Parsers): seq<Result<(), string>> {
    ItemQuantityChecks(q, parsers) + ItemExpiryChecks(q, parsers) + GoodsChecks(q.GoodsPart(), parsers)
  }

  /** What a parse group answers, against its verdicts and its readings. */
  predicate GroupAnswers<T(==)>(r: Result<T, string>, cs: seq<Result<(), string>>, parsed: T) {
    && (r.Err? <==> FirstError(cs).Some?)
    && (r.Err? ==> r.error == FirstError(cs).value)
    && (r.Ok? ==> r.value == parsed)
  }

  lemma ParseGoodsIdentityMeaning(q: GoodsQueryParams, parsers: Parsers, sp: GoodsSearchParams)
    ensures GroupAnswers(ParseGoodsIdentity(q, parsers, sp), GoodsIdentityChecks(q, parsers),
                         sp.(goodsId := Read(q.goodsId, parsers.i32), materialCode := q.materialCode,
                             goodsName := q.goodsName))
  {
    var cs := GoodsIdentityChecks(q, parsers);
    FirstErrorCons(cs[0], cs[1..]);
    FirstErrorCons(cs[1], cs[2..]);
    FirstErrorCons(cs[2], []);
    assert cs == [cs[0]] + cs[1..] && cs[1..] == [cs[1]] + cs[2..] && cs[2..] == [cs[2]] + [];
  }

  lemma ParseGoodsExactMeaning(q: GoodsQueryParams, parsers: Parsers, sp: GoodsSearchParams)
    ensures GroupAnswers(ParseGoodsExact(q, parsers, sp), GoodsExactChecks(q, parsers),
                         sp.(price := Read(q.price, parsers.decimal), volumnL := Read(q.volumnL, parsers.decimal),
                             massG := Read(q.massG, parsers.decimal)))
  {
    var cs := GoodsExactChecks(q, parsers);
    FirstErrorCons(cs[0], cs[1..]);
    FirstErrorCons(cs[1], cs[2..]);
    FirstErrorCons(cs[2], []);
    assert cs == [cs[0]] + cs[1..] && cs[1..] == [cs[1]] + cs[2..] && cs[2..] == [cs[2]] + [];
  }

  lemma ParseGoodsBoundsMeaning(q: GoodsQueryParams, parsers: Parsers, sp: GoodsSearchParams)
    ensures GroupAnswers(ParseGoodsBounds(q, parsers, sp), GoodsBoundsChecks(q, parsers),
                         sp.(minVolumnL := Read(q.minVolumnL, parsers.decimal),
                             maxVolumnL := Read(q.maxVolumnL, parsers.decimal),
                             minMassG := Read(q.minMassG, parsers.decimal),
                             maxMassG := Read(q.maxMassG, parsers.decimal)))
  {
    var cs := GoodsBoundsChecks(q, parsers);
    FirstErrorCons(cs[0], cs[1..]);
    FirstErrorCons(cs[1], cs[2..]);
    FirstErrorCons(cs[2], cs[3..]);
    FirstErrorCons(cs[3], []);
    assert cs == [cs[0]] + cs[1..] && cs[1..] == [cs[1]] + cs[2..] && cs[2..] == [cs[2]] + cs[3..]
           && cs[3..] == [cs[3]] + [];
  }

  lemma ParseGoodsPriceMeaning(q: GoodsQueryParams, parsers: Parsers, sp: GoodsSearchParams)
    ensures GroupAnswers(ParseGoodsPriceBounds(q, parsers, sp), GoodsPriceChecks(q, parsers),
                         sp.(minPrice := Read(q.minPrice, parsers.decimal), maxPrice := Read(q.maxPrice, parsers.decimal)))
  {
    var cs := GoodsPriceChecks(q, parsers);
    FirstErrorCons(cs[0], cs[1..]);
    FirstErrorCons(cs[1], []);
    assert cs == [cs[0]] + cs[1..] && cs[1..] == [cs[1]] + [];
  }

  lemma ParseItemQuantitiesMeaning(q: InventoryQueryParams, parsers: Parsers, sp: InventorySearchParams)
    ensures GroupAnswers(ParseItemQuantities(q, parsers, sp), ItemQuantityChecks(q, parsers),
                         sp.(itemId := Read(q.itemId, parsers.i32), quantity := Read(q.quantity, parsers.i32),
                             minQuantity := Read(q.minQuantity, parsers.i32),
                             maxQuantity := Read(q.maxQuantity, parsers.i32)))
  {
    var cs := ItemQuantityChecks(q, parsers);
    FirstErrorCons(cs[0], cs[1..]);
    FirstErrorCons(cs[1], cs[2..]);
    FirstErrorCons(cs[2], cs[3..]);
    FirstErrorCons(cs[3], []);
    assert cs == [cs[0]] + cs[1..] && cs[1..] == [cs[1]] + cs[2..] && cs[2..] == [cs[2]] + cs[3..]
           && cs[3..] == [cs[3]] + [];
  }

  lemma ParseItemExpiryMeaning(q: InventoryQueryParams, parsers: Parsers, sp: InventorySearchParams)
    ensures GroupAnswers(ParseItemExpiry(q, parsers, sp), ItemExpiryChecks(q, parsers),
                         sp.(expiredDate := Read(q.expiredDate, parsers.datetime),
                             minExpiredDate := Read(q.minExpiredDate, parsers.datetime),
                             maxExpiredDate := Read(q.maxExpiredDate, parsers.datetime)))
  {
    var cs := ItemExpiryChecks(q, parsers);
    FirstErrorCons(cs[0], cs[1..]);
    FirstErrorCons(cs[1], cs[2..]);
    FirstErrorCons(cs[2], []);
    assert cs == [cs[0]] + cs[1..] && cs[1..] == [cs[1]] + cs[2..] && cs[2..] == [cs[2]] + [];
  }

  /** The record a goods query parses to when every field passes. */
  function ReadGoodsQuery(q: GoodsQueryParams, parsers: Parsers): GoodsSearchParams {
    GoodsSearchParams(
      Read(q.goodsId, parsers.i32), q.materialCode, q.goodsName,
      Read(q.price, parsers.decimal), Read(q.volumnL, parsers.decimal), Read(q.massG, parsers.decimal),
      Read(q.minVolumnL, parsers.decimal), Read(q.maxVolumnL, parsers.decimal),
      Read(q.minMassG, parsers.decimal), Read(q.maxMassG, parsers.decimal),
      Read(q.minPrice, parsers.decimal), Read(q.maxPrice, parsers.decimal))
  }

  /**
   * A goods query fails exactly when some field's verdict fails, with the
   * first failing field's message; otherwise absent fields stay absent,
   * the text fields are kept verbatim and every number is the parser's reading.
   */
  lemma ParseGoodsQueryMeaning(q: GoodsQueryParams, parsers: Parsers)
    ensures GroupAnswers(ParseGoodsQuery(q, parsers), GoodsChecks(q, parsers), ReadGoodsQuery(q, parsers))
  {
    var a, b, c, d := GoodsIdentityChecks(q, parsers), GoodsExactChecks(q, parsers),
                      GoodsBoundsChecks(q, parsers), GoodsPriceChecks(q, parsers);
    FirstErrorAppend(a, b);
    FirstErrorAppend(a + b, c);
    FirstErrorAppend(a + b + c, d);
    var sp0 := NewSearchParams();
    ParseGoodsIdentityMeaning(q, parsers, sp0);
    var r1 := ParseGoodsIdentity(q, parsers, sp0);
    if r1.Ok? {
      ParseGoodsExactMeaning(q, parsers, r1.value);
      var r2 := ParseGoodsExact(q, parsers, r1.value);
      if r2.Ok? {
        ParseGoodsBoundsMeaning(q, parsers, r2.value);
        var r3 := ParseGoodsBounds(q, parsers, r2.value);
        if r3.Ok? {
          ParseGoodsPriceMeaning(q, parsers, r3.value);
        }
      }
    }
  }

  /**
   * An inventory query fails exactly when some field fails, item fields
   * first; otherwise the numbers are the parser's readings and the goods
   * half is what the goods validation makes of the same twelve fields.
   */
  lemma ParseInventoryQueryMeaning(q: InventoryQueryParams, parsers: Parsers)
    ensures GroupAnswers(ParseInventoryQuery(q, parsers), InventoryChecks(q, parsers),
                         InventorySearchParams(
                           Read(q.itemId, parsers.i32), Read(q.quantity, parsers.i32),
                           Read(q.minQuantity, parsers.i32), Read(q.maxQuantity, parsers.i32),
                           Read(q.expiredDate, parsers.datetime), Read(q.minExpiredDate, parsers.datetime),
                           Read(q.maxExpiredDate, parsers.datetime), ReadGoodsQuery(q.GoodsPart(), parsers)))
    ensures ParseInventoryQuery(q, parsers).Ok? ==>
              ParseInventoryQuery(q, parsers).value.goodsParams == ParseGoodsQuery(q.GoodsPart(), parsers).value
  {
    var a, b, c := ItemQuantityChecks(q, parsers), ItemExpiryChecks(q, parsers), GoodsChecks(q.GoodsPart(), parsers);
    FirstErrorAppend(a, b);
    FirstErrorAppend(a + b, c);
    var sp0 := NewInventorySearchParams();
    ParseItemQuantitiesMeaning(q, parsers, sp0);
    var r1 := ParseItemQuantities(q, parsers, sp0);
    if r1.Ok? {
      ParseItemExpiryMeaning(q, parsers, r1.value);
      ParseGoodsQueryMeaning(q.GoodsPart(), parsers);
    }
  }

  // ---------------------------------------------------------------------
  // validate on the four request bodies

  const PriceMessage: string := "Price cannot be negative"
  const VolumeMessage: string := "Volume must be positive"
  const MassMessage: string := "Mass must be positive"
  const QuantityMessage: string := "Quantity cannot be negative"
  const EmptyPatchMessage: string := "At least one field must be provided for update"
  const IdentifyGoodsMessage: string :=
    "Either goods_id, material_code, or complete goods information (goods_name, price, volumn_l, mass_g) is required"

  /** The field name `format!("description[{}]", i)` gives the i-th line. */
  function DescriptionField(i: nat): string {
    "description[" + NatToString(i) + "]"
  }

  /** The description loop, from line `from` on: the first unsafe line fails. */
  function ValidateDescriptionFrom(desc: seq<string>, from: nat): Result<(), string>
    decreases |desc| - from
  {
    if from >= |desc| then Ok(())
    else
      var _ :- ValidateSafeString(desc[from], DescriptionField(from));
      ValidateDescriptionFrom(desc, from + 1)
  }

  /** An optional description: absent passes, present is checked line by line. */
  function ValidateDescription(desc: Option<seq<string>>): Result<(), string> {
    if desc.None? then Ok(()) else ValidateDescriptionFrom(desc.value, 0)
  }

  /** Every line of a present description is a safe string. */
  predicate DescriptionSafe(desc: Option<seq<string>>) {
    desc.Some? ==> forall i :: 0 <= i < |desc.value| ==> IsSafeString(desc.value[i])
  }

  /**
   * The description loop passes exactly when every line from `from` on is
   * safe, and otherwise fails with the message for the first unsafe line.
   */
  lemma {:induction false} ValidateDescriptionFromMeaning(desc: seq<string>, from: nat)
    requires from <= |desc|
    ensures ValidateDescriptionFrom(desc, from).Ok? <==> forall i :: from <= i < |desc| ==> IsSafeString(desc[i])
    ensures ValidateDescriptionFrom(desc, from).Err? ==>
              exists k :: from <= k < |desc| && !IsSafeString(desc[k])
                && (forall i :: from <= i < k ==> IsSafeString(desc[i]))
                && ValidateDescriptionFrom(desc, from).error == ValidateSafeString(desc[k], DescriptionField(k)).error
    decreases |desc| - from
  {
    if from < |desc| {
      var line := ValidateSafeString(desc[from], DescriptionField(from));
      ValidateDescriptionFromMeaning(desc, from + 1);
      if line.Err? {
        assert ValidateDescriptionFrom(desc, from) == Err(line.error);
        assert !IsSafeString(desc[from]);
      } else {
        assert ValidateDescriptionFrom(desc, from) == ValidateDescriptionFrom(desc, from + 1);
        assert IsSafeString(desc[from]);
        if ValidateDescriptionFrom(desc, from + 1).Err? {
          var k :| from + 1 <= k < |desc| && !IsSafeString(desc[k])
                   && (forall i :: from + 1 <= i < k ==> IsSafeString(desc[i]))
                   && ValidateDescriptionFrom(desc, from + 1).error
                      == ValidateSafeString(desc[k], DescriptionField(k)).error;
          assert forall i :: from <= i < k ==> IsSafeString(desc[i]);
        }
      }
    }
  }

  /** The `for (i, item) in desc.iter().enumerate()` loop with its early return. */
  method CheckDescription(desc: seq<string>) returns (r: Result<(), string>)
    ensures r == ValidateDescriptionFrom(desc, 0)
  {
    var i := 0;
    while i < |desc|
      invariant 0 <= i <= |desc|
      invariant ValidateDescriptionFrom(desc, 0) == ValidateDescriptionFrom(desc, i)
    {
      var _ :- ValidateSafeString(desc[i], DescriptionField(i));
      i := i + 1;
    }
    r := Ok(());
  }

  /** `CreateGoodRequest::validate` */
  function ValidateCreateGood(req: CreateGoodRequest): Result<(), string> {
    var _ :- ValidateSafeString(req.materialCode, "material_code");
    var _ :- ValidateSafeString(req.goodsName, "goods_name");
    var _ :- ValidateDescription(req.description);
    if req.price < 0.0 then Err(PriceMessage)
    else if req.volumnL <= 0.0 then Err(VolumeMessage)
    else if req.massG <= 0.0 then Err(MassMessage)
    else Ok(())
  }

  /** The numeric checks shared by the patch and create-item bodies. */
  function ValidateOptMeasures(price: Option<real>, volumnL: Option<real>, massG: Option<real>): Result<(), string> {
    if price.Some? && price.value < 0.0 then Err(PriceMessage)
    else if volumnL.Some? && volumnL.value <= 0.0 then Err(VolumeMessage)
    else if massG.Some? && massG.value <= 0.0 then Err(MassMessage)
    else Ok(())
  }

  /** No field of a goods patch is present. */
  predicate EmptyGoodsPatch(u: UpdateGoodRequest) {
    u.materialCode.None? && u.goodsName.None? && u.description.None? && u.price.None?
    && u.volumnL.None? && u.massG.None? && u.massBase.None? && u.volumnBase.None?
  }

  /** `UpdateGoodRequest::validate` */
  function ValidateUpdateGood(u: UpdateGoodRequest): Result<(), string> {
    if EmptyGoodsPatch(u) then Err(EmptyPatchMessage)
    else
      var _ :- StringCheck(u.materialCode, "material_code");
      var _ :- StringCheck(u.goodsName, "goods_name");
      var _ :- ValidateDescription(u.description);
      ValidateOptMeasures(u.price, u.volumnL, u.massG)
  }

  /** The body names a good, or carries enough to describe a new one. */
  predicate IdentifiesGoods(req: CreateInventoryRequest) {
    req.goodsId.Some? || req.materialCode.Some?
    || (req.goodsName.Some? && req.price.Some? && req.volumnL.Some? && req.massG.Some?)
  }

  /** `CreateInventoryRequest::validate` */
  function ValidateCreateInventory(req: CreateInventoryRequest): Result<(), string> {
    if !IdentifiesGoods(req) then Err(IdentifyGoodsMessage)
    else if req.quantity < 0 then Err(QuantityMessage)
    else
      var _ :- StringCheck(req.materialCode, "material_code");
      var _ :- StringCheck(req.goodsName, "goods_name");
      var _ :- ValidateDescription(req.description);
      ValidateOptMeasures(req.price, req.volumnL, req.massG)
  }

  /** No field of an item patch is present. */
  predicate EmptyItemPatch(u: UpdateInventoryRequest) {
    !u.HasGoodsFields() && !u.HasItemFields()
  }

  /** `UpdateInventoryRequest::validate` */
  function ValidateUpdateInventory(u: UpdateInventoryRequest): Result<(), string> {
    if EmptyItemPatch(u) then Err(EmptyPatchMessage)
    else
      var _ :- StringCheck(u.materialCode, "material_code");
      var _ :- StringCheck(u.goodsName, "goods_name");
      var _ :- ValidateDescription(u.description);
      var _ :- ValidateOptMeasures(u.price, u.volumnL, u.massG);
      if u.quantity.Some? && u.quantity.value < 0 then Err(QuantityMessage) else Ok(())
  }

  // ---------------------------------------------------------------------
  // Lemmas

  /** `has_any_params` is true exactly when some field of the record is present. */
  lemma GoodsHasAnyParams(q: GoodsQueryParams)
    ensures q.HasAnyParams() <==> AnyPresent(GoodsFields(q))
  {
    var fs := GoodsFields(q);
    if q.HasAnyParams() {
      if q.goodsId.Some? { assert fs[0].Some?; }
      else if q.materialCode.Some? { assert fs[1].Some?; }
      else if q.goodsName.Some? { assert fs[2].Some?; }
      else if q.price.Some? { assert fs[3].Some?; }
      else if q.volumnL.Some? { assert fs[4].Some?; }
      else if q.massG.Some? { assert fs[5].Some?; }
      else if q.minVolumnL.Some? { assert fs[6].Some?; }
      else if q.maxVolumnL.Some? { assert fs[7].Some?; }
      else if q.minMassG.Some? { assert fs[8].Some?; }
      else if q.maxMassG.Some? { assert fs[9].Some?; }
      else if q.minPrice.Some? { assert fs[10].Some?; }
      else { assert fs[11].Some?; }
    }
  }

  /** The same for the nineteen inventory fields. */
  lemma InventoryHasAnyParams(q: InventoryQueryParams)
    ensures q.HasAnyParams() <==> AnyPresent(InventoryFields(q))
  {
    var fs := InventoryFields(q);
    var gs := GoodsFields(q.GoodsPart());
    GoodsHasAnyParams(q.GoodsPart());
    assert forall i :: 0 <= i < |gs| ==> fs[7 + i] == gs[i];
    if q.HasAnyParams() {
      if q.itemId.Some? { assert fs[0].Some?; }
      else if q.quantity.Some? { assert fs[1].Some?; }
      else if q.minQuantity.Some? { assert fs[2].Some?; }
      else if q.maxQuantity.Some? { assert fs[3].Some?; }
      else if q.expiredDate.Some? { assert fs[4].Some?; }
      else if q.minExpiredDate.Some? { assert fs[5].Some?; }
      else if q.maxExpiredDate.Some? { assert fs[6].Some?; }
      else {
        assert q.GoodsPart().HasAnyParams();
        var i :| 0 <= i < |gs| && gs[i].Some?;
        assert fs[7 + i].Some?;
      }
    } else {
      forall i | 0 <= i < |fs| ensures fs[i].None? {
        if i >= 7 { assert fs[i] == gs[i - 7]; }
      }
    }
  }

  /** Each extracted field holds the map's value under its own key. */
  lemma ExtractGoodsReadsOwnKeys(m: map<string, string>)
    ensures forall i :: 0 <= i < |GoodsKeys| ==>
              GoodsFields(ExtractGoodsQueryParams(m))[i] == Lookup(m, GoodsKeys[i])
  {
  }

  /** Keys that are not goods parameters change nothing. */
  lemma ExtractGoodsIgnoresOtherKeys(m: map<string, string>, key: string, v: string)
    requires key !in GoodsKeys
    ensures ExtractGoodsQueryParams(m[key := v]) == ExtractGoodsQueryParams(m)
  {
    assert forall i :: 0 <= i < |GoodsKeys| ==> GoodsKeys[i] != key;
  }

  /** The same for the inventory keys. */
  lemma ExtractInventoryIgnoresOtherKeys(m: map<string, string>, key: string, v: string)
    requires key !in InventoryKeys
    ensures ExtractInventoryQueryParams(m[key := v]) == ExtractInventoryQueryParams(m)
  {
    assert forall i :: 0 <= i < |InventoryKeys| ==> InventoryKeys[i] != key;
  }

  /** The goods half of an extracted inventory query is the extracted goods query. */
  lemma ExtractInventoryGoodsPart(m: map<string, string>)
    ensures ExtractInventoryQueryParams(m).GoodsPart() == ExtractGoodsQueryParams(m)
  {
  }

  /** An extracted goods query has a parameter exactly when the map holds a goods key. */
  lemma ExtractGoodsHasAnyParams(m: map<string, string>)
    ensures ExtractGoodsQueryParams(m).HasAnyParams() <==> exists i :: 0 <= i < |GoodsKeys| && GoodsKeys[i] in m
  {
    var fs := GoodsFields(ExtractGoodsQueryParams(m));
    GoodsHasAnyParams(ExtractGoodsQueryParams(m));
    ExtractGoodsReadsOwnKeys(m);
    assert forall i :: 0 <= i < |GoodsKeys| ==> (fs[i].Some? <==> GoodsKeys[i] in m);
  }

  /** A new good passes exactly when its text is safe and its measures are in range. */
  lemma ValidateCreateGoodMeaning(req: CreateGoodRequest)
    ensures ValidateCreateGood(req).Ok? <==>
              && IsSafeString(req.materialCode) && IsSafeString(req.goodsName)
              && DescriptionSafe(req.description)
              && req.price >= 0.0 && req.volumnL > 0.0 && req.massG > 0.0
    ensures IsSafeString(req.materialCode) && IsSafeString(req.goodsName) && DescriptionSafe(req.description) ==>
              && (req.price < 0.0 ==> ValidateCreateGood(req) == Err(PriceMessage))
              && (req.price >= 0.0 && req.volumnL <= 0.0 ==> ValidateCreateGood(req) == Err(VolumeMessage))
              && (req.price >= 0.0 && req.volumnL > 0.0 && req.massG <= 0.0 ==> ValidateCreateGood(req) == Err(MassMessage))
  {
    if req.description.Some? {
      ValidateDescriptionFromMeaning(req.description.value, 0);
    }
  }

  /** A goods patch passes exactly when it sets something and what it sets is valid. */
  lemma ValidateUpdateGoodMeaning(u: UpdateGoodRequest)
    ensures EmptyGoodsPatch(u) ==> ValidateUpdateGood(u) == Err(EmptyPatchMessage)
    ensures ValidateUpdateGood(u).Ok? <==>
              && !EmptyGoodsPatch(u)
              && (u.materialCode.Some? ==> IsSafeString(u.materialCode.value))
              && (u.goodsName.Some? ==> IsSafeString(u.goodsName.value))
              && DescriptionSafe(u.description)
              && (u.price.Some? ==> u.price.value >= 0.0)
              && (u.volumnL.Some? ==> u.volumnL.value > 0.0)
              && (u.massG.Some? ==> u.massG.value > 0.0)
  {
    if u.description.Some? {
      ValidateDescriptionFromMeaning(u.description.value, 0);
    }
  }

  /**
   * A new item passes exactly when it can name its good, its quantity is
   * not negative, and the goods fields it carries are valid; naming comes
   * first, then quantity.
   */
  lemma ValidateCreateInventoryMeaning(req: CreateInventoryRequest)
    ensures !IdentifiesGoods(req) ==> ValidateCreateInventory(req) == Err(IdentifyGoodsMessage)
    ensures IdentifiesGoods(req) && req.quantity < 0 ==> ValidateCreateInventory(req) == Err(QuantityMessage)
    ensures ValidateCreateInventory(req).Ok? <==>
              && IdentifiesGoods(req)
              && req.quantity >= 0
              && (req.materialCode.Some? ==> IsSafeString(req.materialCode.value))
              && (req.goodsName.Some? ==> IsSafeString(req.goodsName.value))
              && DescriptionSafe(req.description)
              && (req.price.Some? ==> req.price.value >= 0.0)
              && (req.volumnL.Some? ==> req.volumnL.value > 0.0)
              && (req.massG.Some? ==> req.massG.value > 0.0)
  {
    if req.description.Some? {
      ValidateDescriptionFromMeaning(req.description.value, 0);
    }
  }

  /**
   * An item patch passes exactly when it sets something and what it sets is
   * valid; a patch of quantity or expiry alone is enough.
   */
  lemma ValidateUpdateInventoryMeaning(u: UpdateInventoryRequest)
    ensures EmptyItemPatch(u) ==> ValidateUpdateInventory(u) == Err(EmptyPatchMessage)
    ensures ValidateUpdateInventory(u).Ok? <==>
              && !EmptyItemPatch(u)
              && (u.materialCode.Some? ==> IsSafeString(u.materialCode.value))
              && (u.goodsName.Some? ==> IsSafeString(u.goodsName.value))
              && DescriptionSafe(u.description)
              && (u.price.Some? ==> u.price.value >= 0.0)
              && (u.volumnL.Some? ==> u.volumnL.value > 0.0)
              && (u.massG.Some? ==> u.massG.value > 0.0)
              && (u.quantity.Some? ==> u.quantity.value >= 0)
  {
    if u.description.Some? {
      ValidateDescriptionFromMeaning(u.description.value, 0);
    }
  }

  /**
   * Validation lets through a new item described only by its goods
   * details, and the store then always refuses it: that path never has a
   * material code to create the good under.
   */
  lemma ValidatedDetailsOnlyInsertFails(gs: seq<Store.Good>, req: CreateInventoryRequest)
    requires ValidateCreateInventory(req).Ok?
    requires req.goodsId.None? && req.materialCode.None?
    ensures ResolveGoods(gs, req) == Err(Store.ColumnNotFound(MissingCodeMessage))
  {
  }
}
