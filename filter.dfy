/**
 * The shared shape of the dynamic search compiler in
 * src/tables/goods_table.rs and src/tables/inventory_table.rs: a filter
 * is a column, a comparison and a value; compiling it emits a condition
 * that names the value only by a `$k` placeholder, and binds the value at
 * position k.
 */
module Filter {
  import opened Wrappers
  import opened StdStr
  import opened Like
  import opened Store
  import opened StringUtils

  /** The closed set of columns a search can constrain. */
  datatype Column =
    | GoodsIdCol | MaterialCodeCol | GoodsNameCol | PriceCol | VolumnLCol | MassGCol
    | ItemIdCol | QuantityCol | ExpiredDateCol

  datatype Op = Eq | Ge | Le | ILikeOp

  /** A bound value: `i32`, `Decimal`, text, or a timestamp. */
  datatype Value = IntV(i: int) | DecV(d: real) | TextV(t: string) | TimeV(ts: int)

  /** A constraint before compilation: the value is still inline. */
  datatype Filter = Filter(column: Column, op: Op, value: Value)

  /** A compiled condition: the value is replaced by placeholder `$placeholder`. */
  datatype Cond = Cond(column: Column, op: Op, placeholder: nat)

  /** A row the engine evaluates conditions on: a goods row, or a row of the inventory/goods join. */
  datatype Row = GoodsRow(g: Good) | JoinedRow(w: InventoryItemWithGoods)

  /** The value of a column in a row; `None` is SQL NULL (or a column the row does not have). */
  function Field(row: Row, c: Column): (r: Option<Value>)
    ensures row.GoodsRow? && c in {ItemIdCol, QuantityCol, ExpiredDateCol} ==> r.None?
  {
    match row
      case GoodsRow(g) =>
        (match c
          case GoodsIdCol => Some(IntV(g.goodsId))
          case MaterialCodeCol => Some(TextV(g.materialCode))
          case GoodsNameCol => Some(TextV(g.goodsName))
          case PriceCol => Some(DecV(g.price))
          case VolumnLCol => Some(DecV(g.volumnL))
          case MassGCol => Some(DecV(g.massG))
          case _ => None)
      case JoinedRow(w) =>
        (match c
          case GoodsIdCol => Some(IntV(w.goodsId))
          case MaterialCodeCol => Some(TextV(w.materialCode))
          case GoodsNameCol => Some(TextV(w.goodsName))
          case PriceCol => Some(DecV(w.price))
          case VolumnLCol => Some(DecV(w.volumnL))
          case MassGCol => Some(DecV(w.massG))
          case ItemIdCol => Some(IntV(w.itemId))
          case QuantityCol => Some(IntV(w.quantity))
          case ExpiredDateCol => if w.expiredDate.Some? then Some(TimeV(w.expiredDate.value)) else None)
  }

  /** The goods columns of a row: the good itself, or the goods half of a joined row. */
  function GoodOf(row: Row): (g: Good)
    ensures row.GoodsRow? ==> g == row.g
  {
    match row
      case GoodsRow(g) => g
      case JoinedRow(w) =>
        Good(w.goodsId, w.materialCode, w.goodsName, w.description, w.price, w.volumnL, w.massG,
          w.massBase, w.volumnBase)
  }

  /** A joined row's goods half is the good it was joined with. */
  lemma GoodOfJoin(item: InventoryItem, g: Good)
    requires item.goodsId == g.goodsId
    ensures GoodOf(JoinedRow(Join(item, g))) == g
  {
  }

  /** `x op v` between two non-NULL values; values of different kinds never compare. */
  predicate Compare(op: Op, x: Value, v: Value) {
    match op
      case Eq => x == v
      case Ge =>
        (x.IntV? && v.IntV? && x.i >= v.i) || (x.DecV? && v.DecV? && x.d >= v.d)
        || (x.TimeV? && v.TimeV? && x.ts >= v.ts)
      case Le =>
        (x.IntV? && v.IntV? && x.i <= v.i) || (x.DecV? && v.DecV? && x.d <= v.d)
        || (x.TimeV? && v.TimeV? && x.ts <= v.ts)
      case ILikeOp => x.TextV? && v.TextV? && ILike(x.t, v.t)
  }

  /** A condition on a NULL column is not true, so the row is not selected. */
  predicate Holds(column: Column, op: Op, v: Value, row: Row) {
    var x := Field(row, column);
    x.Some? && Compare(op, x.value, v)
  }

  /** Every filter holds (conditions are joined with AND only). */
  predicate AllHold(fs: seq<Filter>, row: Row) {
    fs == [] || (Holds(fs[0].column, fs[0].op, fs[0].value, row) && AllHold(fs[1..], row))
  }

  /** `WHERE 1=1 AND c1 AND c2 ...` with `$k` read as the k-th bound value. */
  predicate EvalAll(conds: seq<Cond>, binds: seq<Value>, row: Row) {
    forall k :: 0 <= k < |conds| ==>
      1 <= conds[k].placeholder <= |binds|
      && Holds(conds[k].column, conds[k].op, binds[conds[k].placeholder - 1], row)
  }

  /** Compiles filters in order, numbering placeholders from `start + 1`. */
  function Number(fs: seq<Filter>, start: nat): (r: seq<Cond>)
    ensures |r| == |fs|
    ensures forall k :: 0 <= k < |fs| ==> r[k] == Cond(fs[k].column, fs[k].op, start + k + 1)
  {
    if fs == [] then [] else [Cond(fs[0].column, fs[0].op, start + 1)] + Number(fs[1..], start + 1)
  }

  /** The bind list for the same filters, in the same order. */
  function Values(fs: seq<Filter>): (r: seq<Value>)
    ensures |r| == |fs|
    ensures forall k :: 0 <= k < |fs| ==> r[k] == fs[k].value
  {
    if fs == [] then [] else [fs[0].value] + Values(fs[1..])
  }

  // The filter one optional search field contributes: none when the field is
  // absent, one comparison of the column with its value when present.

  function IntFilter(c: Column, op: Op, o: Option<int>): (r: seq<Filter>)
    ensures o.None? ==> r == []
    ensures o.Some? ==> r == [Filter(c, op, IntV(o.value))]
  {
    if o.Some? then [Filter(c, op, IntV(o.value))] else []
  }

  function DecFilter(c: Column, op: Op, o: Option<real>): (r: seq<Filter>)
    ensures o.None? ==> r == []
    ensures o.Some? ==> r == [Filter(c, op, DecV(o.value))]
  {
    if o.Some? then [Filter(c, op, DecV(o.value))] else []
  }

  function TimeFilter(c: Column, op: Op, o: Option<int>): (r: seq<Filter>)
    ensures o.None? ==> r == []
    ensures o.Some? ==> r == [Filter(c, op, TimeV(o.value))]
  {
    if o.Some? then [Filter(c, op, TimeV(o.value))] else []
  }

  /** A text field is matched with `ILIKE` against `to_search_pattern` of the input. */
  function PatternFilter(c: Column, o: Option<string>): (r: seq<Filter>)
    ensures o.None? ==> r == []
    ensures o.Some? ==> r == [Filter(c, ILikeOp, TextV(ToSearchPattern(o.value)))]
  {
    if o.Some? then [Filter(c, ILikeOp, TextV(ToSearchPattern(o.value)))] else []
  }

  /**
   * `if present { bind_count += 1; conditions.push(...) }`: the step both
   * search compilers repeat per field. `done` are the filters compiled so
   * far, numbered after `start` earlier ones, and `piece` what this field
   * contributes.
   */
  method PushCondition(conds: seq<Cond>, bindCount: nat, present: bool, column: Column, op: Op,
                       ghost start: nat, ghost done: seq<Filter>, ghost piece: seq<Filter>)
    returns (conds': seq<Cond>, bindCount': nat)
    requires conds == Number(done, start) && bindCount == start + |done|
    requires present ==> |piece| == 1 && piece[0].column == column && piece[0].op == op
    requires !present ==> piece == []
    ensures conds' == Number(done + piece, start) && bindCount' == start + |done + piece|
  {
    NumberAppend(done, piece, start);
    conds', bindCount' := conds, bindCount;
    if present {
      bindCount' := bindCount' + 1;
      conds' := conds' + [Cond(column, op, bindCount')];
    }
  }

  // `if let Some(v) = field { sql_query = sql_query.bind(v) }`: the bind list
  // grows by the value exactly when the field is present.

  method BindInt(binds: seq<Value>, o: Option<int>, ghost bound: seq<Filter>, ghost piece: seq<Filter>)
    returns (binds': seq<Value>)
    requires binds == Values(bound)
    requires o.None? ==> piece == []
    requires o.Some? ==> |piece| == 1 && piece[0].value == IntV(o.value)
    ensures binds' == Values(bound + piece)
  {
    ValuesAppend(bound, piece);
    binds' := binds;
    if o.Some? {
      binds' := binds' + [IntV(o.value)];
    }
  }

  method BindDec(binds: seq<Value>, o: Option<real>, ghost bound: seq<Filter>, ghost piece: seq<Filter>)
    returns (binds': seq<Value>)
    requires binds == Values(bound)
    requires o.None? ==> piece == []
    requires o.Some? ==> |piece| == 1 && piece[0].value == DecV(o.value)
    ensures binds' == Values(bound + piece)
  {
    ValuesAppend(bound, piece);
    binds' := binds;
    if o.Some? {
      binds' := binds' + [DecV(o.value)];
    }
  }

  method BindTime(binds: seq<Value>, o: Option<int>, ghost bound: seq<Filter>, ghost piece: seq<Filter>)
    returns (binds': seq<Value>)
    requires binds == Values(bound)
    requires o.None? ==> piece == []
    requires o.Some? ==> |piece| == 1 && piece[0].value == TimeV(o.value)
    ensures binds' == Values(bound + piece)
  {
    ValuesAppend(bound, piece);
    binds' := binds;
    if o.Some? {
      binds' := binds' + [TimeV(o.value)];
    }
  }

  /** A text field is bound as its search pattern, and a `*` is not bound at all. */
  method BindPattern(binds: seq<Value>, o: Option<string>, ghost bound: seq<Filter>, ghost piece: seq<Filter>)
    returns (binds': seq<Value>)
    requires binds == Values(bound)
    requires o.None? || o.value == "*" ==> piece == []
    requires o.Some? && o.value != "*" ==> |piece| == 1 && piece[0].value == TextV(ToSearchPattern(o.value))
    ensures binds' == Values(bound + piece)
  {
    ValuesAppend(bound, piece);
    binds' := binds;
    if o.Some? {
      if o.value != "*" {
        binds' := binds' + [TextV(ToSearchPattern(o.value))];
      }
    }
  }

  // ---------------------------------------------------------------------
  // SQL text

  /** Column names, qualified with the table alias in the inventory join. */
  function ColumnSql(c: Column, joined: bool): string {
    var name := match c
      case GoodsIdCol => "goods_id"
      case MaterialCodeCol => "material_code"
      case GoodsNameCol => "goods_name"
      case PriceCol => "price"
      case VolumnLCol => "volumn_l"
      case MassGCol => "mass_g"
      case ItemIdCol => "item_id"
      case QuantityCol => "quantity"
      case ExpiredDateCol => "expired_date";
    if !joined then name
    else if c in {ItemIdCol, QuantityCol, ExpiredDateCol} then "i." + name
    else "g." + name
  }

  function OpSql(op: Op): string {
    match op
      case Eq => " = "
      case Ge => " >= "
      case Le => " <= "
      case ILikeOp => " ILIKE "
  }

  /** One pushed condition, for example ` AND price >= $3`. */
  function CondSql(c: Cond, joined: bool): string {
    " AND " + ColumnSql(c.column, joined) + OpSql(c.op) + "$" + NatToString(c.placeholder)
  }

  /** `conditions.join("")` */
  function ConditionsSql(conds: seq<Cond>, joined: bool): string {
    if conds == [] then "" else CondSql(conds[0], joined) + ConditionsSql(conds[1..], joined)
  }

  /** The same columns and comparisons, position by position. */
  predicate SameShape(fs1: seq<Filter>, fs2: seq<Filter>) {
    |fs1| == |fs2| && forall k :: 0 <= k < |fs1| ==> fs1[k].column == fs2[k].column && fs1[k].op == fs2[k].op
  }

  // ---------------------------------------------------------------------
  // Lemmas

  predicate EachHolds(fs: seq<Filter>, row: Row) {
    forall k :: 0 <= k < |fs| ==> Holds(fs[k].column, fs[k].op, fs[k].value, row)
  }

  lemma {:induction false} AllHoldAt(fs: seq<Filter>, row: Row)
    ensures AllHold(fs, row) <==> EachHolds(fs, row)
  {
    if fs != [] {
      AllHoldAt(fs[1..], row);
      assert forall k :: 1 <= k < |fs| ==> fs[1..][k - 1] == fs[k];
    }
  }

  /** Evaluating the compiled conditions against their bind list is evaluating the filters. */
  lemma CompiledMeansFilters(fs: seq<Filter>, row: Row)
    ensures EvalAll(Number(fs, 0), Values(fs), row) <==> AllHold(fs, row)
  {
    AllHoldAt(fs, row);
    var conds, binds := Number(fs, 0), Values(fs);
    forall k | 0 <= k < |conds|
      ensures 1 <= conds[k].placeholder <= |binds|
        && (Holds(conds[k].column, conds[k].op, binds[conds[k].placeholder - 1], row)
            <==> Holds(fs[k].column, fs[k].op, fs[k].value, row))
    {
      CompiledAt(fs, k);
    }
    EvalAllByPosition(conds, binds, fs, row);
  }

  /** Conditions that agree with the filters position by position evaluate as the filters do. */
  lemma EvalAllByPosition(conds: seq<Cond>, binds: seq<Value>, fs: seq<Filter>, row: Row)
    requires |conds| == |fs|
    requires forall k :: 0 <= k < |conds| ==>
      (1 <= conds[k].placeholder <= |binds|
       && (Holds(conds[k].column, conds[k].op, binds[conds[k].placeholder - 1], row)
           <==> Holds(fs[k].column, fs[k].op, fs[k].value, row)))
    ensures EvalAll(conds, binds, row) <==> EachHolds(fs, row)
  {
  }

  /** The k-th compiled condition carries `$k+1` and the k-th filter's column and comparison; the k-th bind is its value. */
  lemma CompiledAt(fs: seq<Filter>, k: nat)
    requires k < |fs|
    ensures var c := Number(fs, 0)[k];
      c.column == fs[k].column && c.op == fs[k].op && c.placeholder == k + 1 && Values(fs)[k] == fs[k].value
  {
  }

  lemma {:induction false} AllHoldConcat(a: seq<Filter>, b: seq<Filter>, row: Row)
    ensures AllHold(a + b, row) <==> AllHold(a, row) && AllHold(b, row)
  {
    if a == [] {
      assert a + b == b;
    } else {
      AllHoldConcat(a[1..], b, row);
      assert (a + b)[1..] == a[1..] + b;
    }
  }

  /**
   * Injection safety: the query text is a function of which columns and
   * comparisons are used, never of the values searched for.
   */
  lemma {:induction false} QueryTextIgnoresValues(fs1: seq<Filter>, fs2: seq<Filter>, start: nat, joined: bool)
    requires SameShape(fs1, fs2)
    ensures ConditionsSql(Number(fs1, start), joined) == ConditionsSql(Number(fs2, start), joined)
  {
    if fs1 != [] {
      assert SameShape(fs1[1..], fs2[1..]) by {
        forall k | 0 <= k < |fs1[1..]|
          ensures fs1[1..][k].column == fs2[1..][k].column && fs1[1..][k].op == fs2[1..][k].op
        {
          assert fs1[1..][k] == fs1[k + 1] && fs2[1..][k] == fs2[k + 1];
        }
      }
      QueryTextIgnoresValues(fs1[1..], fs2[1..], start + 1, joined);
      var n1, n2 := Number(fs1, start), Number(fs2, start);
      assert n1[1..] == Number(fs1[1..], start + 1);
      assert n2[1..] == Number(fs2[1..], start + 1);
      assert n1[0] == n2[0];
      assert ConditionsSql(n1, joined) == CondSql(n1[0], joined) + ConditionsSql(n1[1..], joined);
      assert ConditionsSql(n2, joined) == CondSql(n2[0], joined) + ConditionsSql(n2[1..], joined);
    }
  }

  /** Compiling two lists in turn numbers the second after the first. */
  lemma NumberAppend(a: seq<Filter>, b: seq<Filter>, start: nat)
    ensures Number(a + b, start) == Number(a, start) + Number(b, start + |a|)
  {
    var l, r := Number(a + b, start), Number(a, start) + Number(b, start + |a|);
    assert |l| == |r|;
    forall k | 0 <= k < |l| ensures l[k] == r[k] {
      if k < |a| {
        assert (a + b)[k] == a[k];
      } else {
        assert (a + b)[k] == b[k - |a|];
      }
    }
  }

  /** Two compiled runs, the second numbered on from the first, join into one. */
  lemma NumberJoin(ca: seq<Cond>, cb: seq<Cond>, a: seq<Filter>, b: seq<Filter>, start: nat, mid: nat)
    requires ca == Number(a, start) && mid == start + |a| && cb == Number(b, mid)
    ensures ca + cb == Number(a + b, start) && mid + |b| == start + |a + b|
  {
    NumberAppend(a, b, start);
  }

  lemma ValuesAppend(a: seq<Filter>, b: seq<Filter>)
    ensures Values(a + b) == Values(a) + Values(b)
  {
    var l, r := Values(a + b), Values(a) + Values(b);
    assert |l| == |r|;
    forall k | 0 <= k < |l| ensures l[k] == r[k] {
      if k < |a| {
        assert (a + b)[k] == a[k];
      } else {
        assert (a + b)[k] == b[k - |a|];
      }
    }
  }

  /** Numbering equal filter lists from the same start gives the same conditions. */
  lemma NumberOfEqual(conds: seq<Cond>, a: seq<Filter>, b: seq<Filter>, start: nat)
    requires conds == Number(a, start) && a == b
    ensures conds == Number(b, start)
  {
  }

  /** Equal filter lists have the same bind values. */
  lemma ValuesOfEqual(binds: seq<Value>, a: seq<Filter>, b: seq<Filter>)
    requires binds == Values(a) && a == b
    ensures binds == Values(b)
  {
  }
}
