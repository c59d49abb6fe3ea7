/**
 * The two tables the repositories work on, held in memory: `goods` and
 * `inventory` in ascending key order, with the store-assigned next keys.
 * The row types are `Good` (src/tables/goods_table.rs) and `InventoryItem`
 * and `InventoryItemWithGoods` (src/tables/inventory_table.rs).
 */
module Store {
  import opened Wrappers

  /** The `sqlx::Error` variants the core produces or inspects. */
  datatype DbError =
    | RowNotFound
    | ColumnNotFound(message: string)
    | Database(code: Option<string>)

  /** SQLSTATE of a unique-constraint violation. */
  const UniqueViolation: string := "23505"

  datatype Good = Good(
    goodsId: int,
    materialCode: string,
    goodsName: string,
    description: Option<seq<string>>,
    price: real,
    volumnL: real,
    massG: real,
    massBase: int,
    volumnBase: int)

  datatype InventoryItem = InventoryItem(
    itemId: int,
    goodsId: int,
    quantity: int,
    expiredDate: Option<int>)

  /** A row of `inventory INNER JOIN goods`. */
  datatype InventoryItemWithGoods = InventoryItemWithGoods(
    itemId: int,
    goodsId: int,
    materialCode: string,
    goodsName: string,
    description: Option<seq<string>>,
    price: real,
    volumnL: real,
    massG: real,
    massBase: int,
    volumnBase: int,
    quantity: int,
    expiredDate: Option<int>)

  function Join(item: InventoryItem, g: Good): (w: InventoryItemWithGoods)
    requires item.goodsId == g.goodsId
    ensures w.itemId == item.itemId && w.quantity == item.quantity && w.expiredDate == item.expiredDate
    ensures w.goodsId == g.goodsId && w.materialCode == g.materialCode && w.goodsName == g.goodsName
    ensures w.description == g.description && w.price == g.price && w.volumnL == g.volumnL
    ensures w.massG == g.massG && w.massBase == g.massBase && w.volumnBase == g.volumnBase
  {
    InventoryItemWithGoods(item.itemId, g.goodsId, g.materialCode, g.goodsName, g.description,
      g.price, g.volumnL, g.massG, g.massBase, g.volumnBase, item.quantity, item.expiredDate)
  }

  // ---------------------------------------------------------------------
  // Table shapes

  predicate GoodsSorted(gs: seq<Good>) {
    forall i, j :: 0 <= i < j < |gs| ==> gs[i].goodsId < gs[j].goodsId
  }

  predicate ItemsSorted(items: seq<InventoryItem>) {
    forall i, j :: 0 <= i < j < |items| ==> items[i].itemId < items[j].itemId
  }

  /** The UNIQUE constraint on `goods.material_code`. */
  predicate UniqueCodes(gs: seq<Good>) {
    forall i, j :: 0 <= i < j < |gs| ==> gs[i].materialCode != gs[j].materialCode
  }

  predicate HasGood(gs: seq<Good>, id: int) {
    exists k :: 0 <= k < |gs| && gs[k].goodsId == id
  }

  predicate HasItem(items: seq<InventoryItem>, id: int) {
    exists k :: 0 <= k < |items| && items[k].itemId == id
  }

  /** The foreign key `inventory.goods_id -> goods`. */
  predicate ReferencesExist(items: seq<InventoryItem>, gs: seq<Good>) {
    forall k :: 0 <= k < |items| ==> HasGood(gs, items[k].goodsId)
  }

  /** Some good other than `id` already carries `code`. */
  predicate CodeTakenByOther(gs: seq<Good>, id: int, code: string) {
    exists k :: 0 <= k < |gs| && gs[k].goodsId != id && gs[k].materialCode == code
  }

  function GoodsIds(gs: seq<Good>): (r: seq<int>)
    ensures |r| == |gs| && forall k :: 0 <= k < |gs| ==> r[k] == gs[k].goodsId
  {
    seq(|gs|, k requires 0 <= k < |gs| => gs[k].goodsId)
  }

  function ItemIds(items: seq<InventoryItem>): (r: seq<int>)
    ensures |r| == |items| && forall k :: 0 <= k < |items| ==> r[k] == items[k].itemId
  {
    seq(|items|, k requires 0 <= k < |items| => items[k].itemId)
  }

  // ---------------------------------------------------------------------
  // Lookups (`WHERE key = $1` with `fetch_optional`)

  /** Position of the good with key `id`, the first one in table order. */
  function IndexOfGood(gs: seq<Good>, id: int): (r: Option<nat>)
    ensures r.Some? <==> HasGood(gs, id)
    ensures r.Some? ==> r.value < |gs| && gs[r.value].goodsId == id
    ensures r.Some? ==> forall j :: 0 <= j < r.value ==> gs[j].goodsId != id
  {
    if gs == [] then None
    else if gs[0].goodsId == id then Some(0)
    else match IndexOfGood(gs[1..], id)
      case None => None
      case Some(k) => Some(k + 1)
  }

  function FindGoodById(gs: seq<Good>, id: int): (r: Option<Good>)
    ensures r.Some? <==> HasGood(gs, id)
    ensures r.Some? ==> r.value in gs && r.value.goodsId == id
  {
    match IndexOfGood(gs, id)
      case None => None
      case Some(k) => Some(gs[k])
  }

  function FindGoodByCode(gs: seq<Good>, code: string): (r: Option<Good>)
    ensures r.Some? <==> exists k :: 0 <= k < |gs| && gs[k].materialCode == code
    ensures r.Some? ==> r.value in gs && r.value.materialCode == code
  {
    if gs == [] then None
    else if gs[0].materialCode == code then Some(gs[0])
    else FindGoodByCode(gs[1..], code)
  }

  /** Position of the inventory row with key `id`. */
  function IndexOfItem(items: seq<InventoryItem>, id: int): (r: Option<nat>)
    ensures r.Some? <==> HasItem(items, id)
    ensures r.Some? ==> r.value < |items| && items[r.value].itemId == id
    ensures r.Some? ==> forall j :: 0 <= j < r.value ==> items[j].itemId != id
  {
    if items == [] then None
    else if items[0].itemId == id then Some(0)
    else match IndexOfItem(items[1..], id)
      case None => None
      case Some(k) => Some(k + 1)
  }

  /**
   * `WHERE goods_id = $1 AND expired_date = $2`, or `... AND expired_date IS NULL`
   * when no date is given: a missing date matches only a missing date.
   * The query has no `ORDER BY`, so with several matches the database may
   * return any of them; this model returns the first in key order.
   */
  function FindItemByKey(items: seq<InventoryItem>, goodsId: int, expired: Option<int>): (r: Option<InventoryItem>)
    ensures r.Some? <==> exists k :: 0 <= k < |items| && items[k].goodsId == goodsId && items[k].expiredDate == expired
    ensures r.Some? ==> r.value in items && r.value.goodsId == goodsId && r.value.expiredDate == expired
  {
    if items == [] then None
    else if items[0].goodsId == goodsId && items[0].expiredDate == expired then Some(items[0])
    else FindItemByKey(items[1..], goodsId, expired)
  }

  /** `count_by_foreign_key(pool, "inventory", "goods_id", id)` */
  function CountRefs(items: seq<InventoryItem>, goodsId: int): (r: nat)
    ensures r == 0 <==> forall k :: 0 <= k < |items| ==> items[k].goodsId != goodsId
  {
    if items == [] then 0
    else (if items[0].goodsId == goodsId then 1 else 0) + CountRefs(items[1..], goodsId)
  }

  /** At most one inventory row per (goods_id, expired_date), a missing date being its own value. */
  predicate NoDuplicateKeys(items: seq<InventoryItem>) {
    forall i, j :: 0 <= i < j < |items| ==>
      items[i].goodsId != items[j].goodsId || items[i].expiredDate != items[j].expiredDate
  }

  // ---------------------------------------------------------------------
  // The database

  /** Keys ascending and below the next key, material codes unique, every item's good present. */
  predicate ValidTables(goods: seq<Good>, inventory: seq<InventoryItem>, nextGoodsId: int, nextItemId: int) {
    && 1 <= nextGoodsId && 1 <= nextItemId
    && GoodsSorted(goods) && ItemsSorted(inventory)
    && (forall k :: 0 <= k < |goods| ==> 1 <= goods[k].goodsId < nextGoodsId)
    && (forall k :: 0 <= k < |inventory| ==> 1 <= inventory[k].itemId < nextItemId)
    && UniqueCodes(goods)
    && ReferencesExist(inventory, goods)
  }

  class Database {
    var goods: seq<Good>
    var inventory: seq<InventoryItem>
    /** The key the `goods_id` sequence hands out next. */
    var nextGoodsId: int
    /** The key the `item_id` sequence hands out next. */
    var nextItemId: int

    ghost predicate Valid()
      reads this
    {
      ValidTables(goods, inventory, nextGoodsId, nextItemId)
    }

    constructor ()
      ensures Valid()
      ensures goods == [] && inventory == [] && nextGoodsId == 1 && nextItemId == 1
    {
      goods := [];
      inventory := [];
      nextGoodsId := 1;
      nextItemId := 1;
    }
  }

  // ---------------------------------------------------------------------
  // Lemmas

  /** With unique codes, the good carrying a code is the lookup's answer for it. */
  lemma {:induction false} CodeLookupIsUnique(gs: seq<Good>, k: nat)
    requires UniqueCodes(gs) && k < |gs|
    ensures FindGoodByCode(gs, gs[k].materialCode) == Some(gs[k])
  {
    if k > 0 {
      assert gs[0].materialCode != gs[k].materialCode;
      assert UniqueCodes(gs[1..]) by {
        forall i, j | 0 <= i < j < |gs[1..]| ensures gs[1..][i].materialCode != gs[1..][j].materialCode {
          assert gs[1..][i] == gs[i + 1] && gs[1..][j] == gs[j + 1];
        }
      }
      CodeLookupIsUnique(gs[1..], k - 1);
      assert gs[1..][k - 1] == gs[k];
    }
  }
}
