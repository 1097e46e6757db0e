/** The sale routes (routes/sales.js): the single sale, the bulk sale over
    several items in one transaction, the summary aggregate, and the file
    name of the sales report. Money is in integer cents. */
module Sales {
  import opened Common
  import opened UserModel
  import opened InventoryModel
  import opened SaleModel
  import opened CompanyModel
  import opened Db
  import Text

  /** `inventory.update({ quantity: inventory.quantity - q })`: the stock
      goes down by exactly q and nothing else but the save time changes; a
      zero decrement writes nothing. */
  function Decrement(item: Item, q: int, now: int): (r: Item)
    ensures r.quantity == item.quantity - q
    ensures r == item.(quantity := r.quantity, updatedAt := r.updatedAt)
    ensures r.updatedAt == (if q == 0 then item.updatedAt else now)
  {
    SaveItem(item, item.(quantity := item.quantity - q), false, now)
  }

  /** A new sale row and the stock row after its decrement. */
  datatype SaleWrite = SaleWrite(sale: Sale, item: Item)

  // ----- POST /sales -----

  /** The body of a single sale. The description it may carry has no column
      in the Sale table and is dropped. */
  datatype SaleBody = SaleBody(
    inventoryId: JsValue,
    userId: JsValue,
    companyId: JsValue,
    companyName: Option<string>,
    quantity: int,
    unitPrice: int)

  /** The single sale, given the companyId its row receives: resolve the
      user, then the item; refuse when the stock is short; build the row
      with totalPrice = quantity * unitPrice; decrement the stock. Invalid
      rows are refused by the model's validation before anything is written. */
  function SingleSale(users: map<int, User>, inventory: map<int, Item>, body: SaleBody,
                      companyId: Option<int>, now: int): (r: Result<SaleWrite>)
    ensures FindByPk(users, body.userId).Failed? ==> r == Err(Crashed)
    ensures FindByPk(users, body.userId).Missing? ==> r == Err(NotFound(UserRow, None))
    ensures FindByPk(users, body.userId).Found? && FindByPk(inventory, body.inventoryId).Failed? ==> r == Err(Crashed)
    ensures FindByPk(users, body.userId).Found? && FindByPk(inventory, body.inventoryId).Missing? ==>
      r == Err(NotFound(ItemRow, None))
    ensures (FindByPk(users, body.userId).Found? && FindByPk(inventory, body.inventoryId).Found?
             && FindByPk(inventory, body.inventoryId).row.quantity < body.quantity) ==> r == Err(OutOfStock)
    ensures companyId.None? ==> r.Err?
    ensures (FindByPk(users, body.userId).Found? && FindByPk(inventory, body.inventoryId).Found?
             && FindByPk(inventory, body.inventoryId).row.quantity >= body.quantity) ==>
      && (r.Ok? <==> companyId.Some? && body.companyName.Some?
                     && FitsDecimal10_2(body.unitPrice) && FitsDecimal10_2(body.quantity * body.unitPrice))
      && (r.Err? ==> r.error == Rejected)
    ensures r.Ok? ==>
      && FindByPk(users, body.userId).Found? && FindByPk(inventory, body.inventoryId).Found?
      && var user := FindByPk(users, body.userId).row;
      && var item := FindByPk(inventory, body.inventoryId).row;
      && item.quantity >= body.quantity
      && r.value.item == Decrement(item, body.quantity, now)
      && r.value.item.quantity >= 0
      && r.value.sale.totalPrice == body.quantity * body.unitPrice
      && r.value.sale.quantity == body.quantity && r.value.sale.unitPrice == body.unitPrice
      && r.value.sale.totalAmount == 0
      && r.value.sale.inventoryId == ToInteger(body.inventoryId).n
      && r.value.sale.userId == ToInteger(body.userId).n
      && r.value.sale.userFullName == FullName(user)
      && r.value.sale.companyId == companyId.value
      && Some(r.value.sale.companyName) == body.companyName
      && r.value.sale.saleDate == now
      && r.value.sale.status == DEFAULT_SALE_STATUS && r.value.sale.paymentMethod == DEFAULT_PAYMENT_METHOD
  {
    match FindByPk(users, body.userId)
    case Failed => Err(Crashed)
    case Missing => Err(NotFound(UserRow, None))
    case Found(user) =>
      match FindByPk(inventory, body.inventoryId)
      case Failed => Err(Crashed)
      case Missing => Err(NotFound(ItemRow, None))
      case Found(item) =>
        if item.quantity < body.quantity then Err(OutOfStock)
        else
          var totalPrice := body.quantity * body.unitPrice;
          var draft := SaleDraft(Some(ToInteger(body.userId).n), Some(ToInteger(body.inventoryId).n), companyId,
                                 Some(FullName(user)), body.companyName, now, body.quantity, body.unitPrice,
                                 None, totalPrice, None, None);
          match BuildSale(draft)
          case None => Err(Rejected)
          case Some(sale) => Ok(SaleWrite(sale, Decrement(item, body.quantity, now)))
  }

  /** POST /sales as the handler is written: Sale.create is given no
      companyId, a NOT NULL column, so every request that passes the checks
      is refused by validation and rolled back; no sale is ever stored. */
  function SingleSaleAsWritten(users: map<int, User>, inventory: map<int, Item>, body: SaleBody, now: int)
    : (r: Result<SaleWrite>)
    ensures r.Err?
    ensures (FindByPk(users, body.userId).Found? && FindByPk(inventory, body.inventoryId).Found?
             && FindByPk(inventory, body.inventoryId).row.quantity >= body.quantity) ==> r == Err(Rejected)
  {
    SingleSale(users, inventory, body, None, now)
  }

  /** POST /sales with the companyId the body names, read with parseInt as
      the bulk handler reads it. All writes or none. */
  method CreateSale(db: Store, body: SaleBody, now: int) returns (res: Result<Sale>)
    requires db.Valid()
    modifies db
    ensures db.Valid()
    ensures
      var r := SingleSale(old(db.users), old(db.inventory), body, ParseInt(body.companyId), now);
      && (r.Err? ==> res == Err(r.error) && db.Snapshot() == old(db.Snapshot()))
      && (r.Ok? ==>
            && res == Ok(r.value.sale)
            && db.Snapshot() == old(db.Snapshot()).(
                 sales := old(db.sales) + [r.value.sale],
                 inventory := old(db.inventory)[ToInteger(body.inventoryId).n := r.value.item]))
  {
    var r := SingleSale(db.users, db.inventory, body, ParseInt(body.companyId), now);
    if r.Err? {
      return Err(r.error);
    }
    db.sales := db.sales + [r.value.sale];
    db.inventory := db.inventory[ToInteger(body.inventoryId).n := r.value.item];
    res := Ok(r.value.sale);
  }

  // ----- POST /sales/bulk -----

  datatype BulkItem = BulkItem(inventoryId: JsValue, quantity: int, unitPrice: int)

  datatype BulkBody = BulkBody(companyId: JsValue, items: seq<BulkItem>, userId: JsValue, paymentMethod: Option<string>)

  /** What every row of a batch shares: the resolved user and company, the
      requested payment method and the time of the request. companyId is
      `parseInt(companyId)`, None when that is NaN. */
  datatype BulkContext = BulkContext(
    userId: int,
    companyId: Option<int>,
    userFullName: string,
    companyName: string,
    paymentMethod: Option<string>,
    now: int)

  /** The row a batch item produces: its own id, quantity and unit price,
      totalAmount = totalPrice = quantity * unitPrice, status Beklemede, the
      company's name and the requested payment method (Nakit when absent). */
  ghost predicate BulkSaleOf(s: Sale, ctx: BulkContext, it: BulkItem)
  {
    && ToInteger(it.inventoryId).IntValue? && s.inventoryId == ToInteger(it.inventoryId).n
    && s.quantity == it.quantity && s.unitPrice == it.unitPrice
    && s.totalAmount == it.quantity * it.unitPrice && s.totalPrice == it.quantity * it.unitPrice
    && s.status == Beklemede
    && s.userId == ctx.userId && ctx.companyId == Some(s.companyId)
    && s.userFullName == ctx.userFullName && s.companyName == ctx.companyName
    && s.saleDate == ctx.now
    && (ctx.paymentMethod.None? ==> s.paymentMethod == Nakit)
    && (ctx.paymentMethod.Some? ==> s.paymentMethod.Code() == ctx.paymentMethod.value)
  }

  /** One pass of the loop body: find the item (an unconvertible id throws,
      a missing one is named in the answer), check the stock (the answer
      names the item, what is there and what was asked), create the row,
      decrement the stock. */
  function BulkStep(inv: map<int, Item>, ctx: BulkContext, it: BulkItem): (r: Result<SaleWrite>)
    ensures FindByPk(inv, it.inventoryId).Failed? ==> r == Err(Crashed)
    ensures FindByPk(inv, it.inventoryId).Missing? ==> r == Err(NotFound(ItemRow, Some(it.inventoryId)))
    ensures FindByPk(inv, it.inventoryId).Found? && FindByPk(inv, it.inventoryId).row.quantity < it.quantity ==>
      var row := FindByPk(inv, it.inventoryId).row;
      r == Err(InsufficientStock(row.name, row.quantity, it.quantity))
    ensures FindByPk(inv, it.inventoryId).Found? && FindByPk(inv, it.inventoryId).row.quantity >= it.quantity ==>
      && (r.Ok? <==> ctx.companyId.Some? && FitsDecimal10_2(it.unitPrice) && FitsDecimal10_2(it.quantity * it.unitPrice)
                     && (ctx.paymentMethod.Some? ==> ParsePaymentMethod(ctx.paymentMethod.value).Some?))
      && (r.Err? ==> r.error == Rejected)
    ensures r.Ok? ==>
      && FindByPk(inv, it.inventoryId).Found?
      && FindByPk(inv, it.inventoryId).row.quantity >= it.quantity
      && r.value.item == Decrement(FindByPk(inv, it.inventoryId).row, it.quantity, ctx.now)
      && BulkSaleOf(r.value.sale, ctx, it)
  {
    match FindByPk(inv, it.inventoryId)
    case Failed => Err(Crashed)
    case Missing => Err(NotFound(ItemRow, Some(it.inventoryId)))
    case Found(row) =>
      if row.quantity < it.quantity then Err(InsufficientStock(row.name, row.quantity, it.quantity))
      else
        var totalPrice := it.quantity * it.unitPrice;
        var draft := SaleDraft(Some(ctx.userId), Some(ToInteger(it.inventoryId).n), ctx.companyId,
                               Some(ctx.userFullName), Some(ctx.companyName), ctx.now, it.quantity,
                               it.unitPrice, Some(totalPrice), totalPrice, Some(Beklemede.Code()),
                               ctx.paymentMethod);
        match BuildSale(draft)
        case None => Err(Rejected)
        case Some(sale) => Ok(SaleWrite(sale, Decrement(row, it.quantity, ctx.now)))
  }

  /** The loop over the items in input order on the transaction's view of
      the stock: the first failing item ends the batch with its error;
      otherwise the final stock and the rows in input order. */
  function BulkRun(inv: map<int, Item>, ctx: BulkContext, items: seq<BulkItem>)
    : (r: Result<(map<int, Item>, seq<Sale>)>)
    decreases |items|
  {
    if items == [] then Ok((inv, []))
    else
      match BulkStep(inv, ctx, items[0])
      case Err(e) => Err(e)
      case Ok(w) =>
        match BulkRun(inv[ToInteger(items[0].inventoryId).n := w.item], ctx, items[1..])
        case Err(e) => Err(e)
        case Ok(rest) => Ok((rest.0, [w.sale] + rest.1))
  }

  /** The rows created so far put in front of what the rest of the loop returns. */
  function Prepend(done: seq<Sale>, r: Result<(map<int, Item>, seq<Sale>)>): Result<(map<int, Item>, seq<Sale>)>
  {
    match r
    case Err(e) => Err(e)
    case Ok(rest) => Ok((rest.0, done + rest.1))
  }

  /** POST /sales/bulk: the user, then the company, then the loop. */
  function BulkSale(users: map<int, User>, companies: map<int, Company>, inv: map<int, Item>,
                    body: BulkBody, now: int): (r: Result<(map<int, Item>, seq<Sale>)>)
    ensures FindByPk(users, body.userId).Failed? ==> r == Err(Crashed)
    ensures FindByPk(users, body.userId).Missing? ==> r == Err(NotFound(UserRow, None))
    ensures FindByPk(users, body.userId).Found? && FindByPk(companies, body.companyId).Failed? ==> r == Err(Crashed)
    ensures FindByPk(users, body.userId).Found? && FindByPk(companies, body.companyId).Missing? ==>
      r == Err(NotFound(CompanyRow, None))
    ensures FindByPk(users, body.userId).Found? && FindByPk(companies, body.companyId).Found? ==>
      r == BulkRun(inv, ContextOf(FindByPk(users, body.userId).row, FindByPk(companies, body.companyId).row, body, now), body.items)
  {
    match FindByPk(users, body.userId)
    case Failed => Err(Crashed)
    case Missing => Err(NotFound(UserRow, None))
    case Found(user) =>
      match FindByPk(companies, body.companyId)
      case Failed => Err(Crashed)
      case Missing => Err(NotFound(CompanyRow, None))
      case Found(company) => BulkRun(inv, ContextOf(user, company, body, now), body.items)
  }

  /** The shared values of the rows: `userId` as the database reads it (the
      user was found under it, so it is an integer) and `parseInt(companyId)`,
      which is NaN (None) for a blank or bare-sign companyId the company
      lookup still reads as 0. */
  function ContextOf(user: User, company: Company, body: BulkBody, now: int): (ctx: BulkContext)
    ensures ctx.companyId == ParseInt(body.companyId)
    ensures ctx.userFullName == FullName(user) && ctx.companyName == company.name
  {
    var uid := if ToInteger(body.userId).IntValue? then ToInteger(body.userId).n else user.id;
    BulkContext(uid, ParseInt(body.companyId), FullName(user), company.name, body.paymentMethod, now)
  }

  /** A companyId that parseInt reads as NaN puts NaN into the NOT NULL
      companyId of the first row, so a batch whose first item is found with
      enough stock is refused, even though the company lookup found a row. */
  lemma NaNCompanyIsRejected(users: map<int, User>, companies: map<int, Company>, inv: map<int, Item>,
                             body: BulkBody, now: int)
    requires FindByPk(users, body.userId).Found? && FindByPk(companies, body.companyId).Found?
    requires ParseInt(body.companyId).None?
    requires body.items != [] && FindByPk(inv, body.items[0].inventoryId).Found?
    requires FindByPk(inv, body.items[0].inventoryId).row.quantity >= body.items[0].quantity
    ensures BulkSale(users, companies, inv, body, now) == Err(Rejected)
  {
    var ctx := ContextOf(FindByPk(users, body.userId).row, FindByPk(companies, body.companyId).row, body, now);
    BulkRunFirst(inv, ctx, body.items);
  }

  /** A successful batch stores one row per item, in input order, each with
      that item's own values. */
  lemma {:induction false} BulkRunSales(inv: map<int, Item>, ctx: BulkContext, items: seq<BulkItem>)
    requires BulkRun(inv, ctx, items).Ok?
    ensures |BulkRun(inv, ctx, items).value.1| == |items|
    ensures forall k :: 0 <= k < |items| ==> BulkSaleOf(BulkRun(inv, ctx, items).value.1[k], ctx, items[k])
  {
    if items != [] {
      var w := BulkStep(inv, ctx, items[0]).value;
      var inv1 := inv[ToInteger(items[0].inventoryId).n := w.item];
      BulkRunSales(inv1, ctx, items[1..]);
      var sales := BulkRun(inv, ctx, items).value.1;
      assert sales == [w.sale] + BulkRun(inv1, ctx, items[1..]).value.1;
      forall k | 0 <= k < |items| ensures BulkSaleOf(sales[k], ctx, items[k]) {
        if k > 0 { assert items[k] == items[1..][k - 1]; }
      }
    }
  }

  /** The sum of the quantities the batch asks of the item stored under key. */
  function QuantityFor(items: seq<BulkItem>, key: int): int
  {
    if items == [] then 0
    else (if ToInteger(items[0].inventoryId) == IntValue(key) then items[0].quantity else 0) + QuantityFor(items[1..], key)
  }

  /** A batch never asks a negative total of an item when no quantity in it
      is negative. */
  lemma {:induction false} QuantityForNonNegative(items: seq<BulkItem>, key: int)
    requires forall j :: 0 <= j < |items| ==> items[j].quantity >= 0
    ensures QuantityFor(items, key) >= 0
  {
    if items != [] {
      QuantityForNonNegative(items[1..], key);
    }
  }

  /** The success half of the loop: a batch goes through when every item is
      found, every row fits its columns and the payment method is known,
      and each item's stock covers the whole quantity the batch asks of it
      (no quantity being negative). */
  lemma {:induction false} BulkRunSucceeds(inv: map<int, Item>, ctx: BulkContext, items: seq<BulkItem>)
    requires ctx.companyId.Some?
    requires ctx.paymentMethod.Some? ==> ParsePaymentMethod(ctx.paymentMethod.value).Some?
    requires forall j :: 0 <= j < |items| ==>
      && FindByPk(inv, items[j].inventoryId).Found? && items[j].quantity >= 0
      && FitsDecimal10_2(items[j].unitPrice) && FitsDecimal10_2(items[j].quantity * items[j].unitPrice)
    requires forall k :: k in inv ==> inv[k].quantity >= QuantityFor(items, k)
    ensures BulkRun(inv, ctx, items).Ok?
  {
    if items != [] {
      var it := items[0];
      var key := ToInteger(it.inventoryId).n;
      QuantityForNonNegative(items[1..], key);
      assert inv[key].quantity >= it.quantity;
      var w := BulkStep(inv, ctx, it).value;
      var inv1 := inv[key := w.item];
      forall k | k in inv1 ensures inv1[k].quantity >= QuantityFor(items[1..], k) {
        if k != key {
          assert ToInteger(it.inventoryId) != IntValue(k);
        }
      }
      forall j | 0 <= j < |items[1..]|
        ensures FindByPk(inv1, items[1..][j].inventoryId).Found?
      {
        assert items[1..][j] == items[j + 1];
      }
      BulkRunSucceeds(inv1, ctx, items[1..]);
    }
  }

  /** A successful batch keeps the same items under the same keys and lowers
      each item's stock by exactly the quantities asked of it; every other
      column but the save time is untouched. */
  lemma {:induction false} BulkRunStock(inv: map<int, Item>, ctx: BulkContext, items: seq<BulkItem>)
    requires BulkRun(inv, ctx, items).Ok?
    ensures BulkRun(inv, ctx, items).value.0.Keys == inv.Keys
    ensures forall k :: k in inv ==>
      var after := BulkRun(inv, ctx, items).value.0[k];
      && after.quantity == inv[k].quantity - QuantityFor(items, k)
      && after == inv[k].(quantity := after.quantity, updatedAt := after.updatedAt)
  {
    if items != [] {
      var key := ToInteger(items[0].inventoryId).n;
      var w := BulkStep(inv, ctx, items[0]).value;
      var inv1 := inv[key := w.item];
      BulkRunStock(inv1, ctx, items[1..]);
      assert BulkRun(inv, ctx, items).value.0 == BulkRun(inv1, ctx, items[1..]).value.0;
    }
  }

  /** Every pass checks the stock before it decrements it, so a successful
      batch leaves no item it touched below zero, and the rest as they were. */
  lemma {:induction false} BulkRunNeverNegative(inv: map<int, Item>, ctx: BulkContext, items: seq<BulkItem>)
    requires forall k :: k in inv ==> inv[k].quantity >= 0
    requires BulkRun(inv, ctx, items).Ok?
    ensures forall k :: k in BulkRun(inv, ctx, items).value.0 ==> BulkRun(inv, ctx, items).value.0[k].quantity >= 0
  {
    if items != [] {
      var key := ToInteger(items[0].inventoryId).n;
      var w := BulkStep(inv, ctx, items[0]).value;
      var inv1 := inv[key := w.item];
      BulkRunNeverNegative(inv1, ctx, items[1..]);
    }
  }

  /** Rows stored under their own ids stay so through a successful batch. */
  lemma {:induction false} BulkRunKeyed(inv: map<int, Item>, ctx: BulkContext, items: seq<BulkItem>)
    requires forall k :: k in inv ==> inv[k].id == k
    requires BulkRun(inv, ctx, items).Ok?
    ensures BulkRun(inv, ctx, items).value.0.Keys == inv.Keys
    ensures forall k :: k in BulkRun(inv, ctx, items).value.0 ==> BulkRun(inv, ctx, items).value.0[k].id == k
  {
    if items != [] {
      var key := ToInteger(items[0].inventoryId).n;
      var w := BulkStep(inv, ctx, items[0]).value;
      var inv1 := inv[key := w.item];
      BulkRunKeyed(inv1, ctx, items[1..]);
    }
  }

  /** An item the store cannot find anywhere in the batch aborts all of it:
      earlier passes never add keys, so its lookup fails in its turn. */
  lemma {:induction false} BulkRunMissingAborts(inv: map<int, Item>, ctx: BulkContext, items: seq<BulkItem>, j: int)
    requires 0 <= j < |items| && !FindByPk(inv, items[j].inventoryId).Found?
    ensures BulkRun(inv, ctx, items).Err?
  {
    var step := BulkStep(inv, ctx, items[0]);
    if step.Ok? && j > 0 {
      var key := ToInteger(items[0].inventoryId).n;
      var inv1 := inv[key := step.value.item];
      assert items[j] == items[1..][j - 1];
      assert inv1.Keys == inv.Keys;
      BulkRunMissingAborts(inv1, ctx, items[1..], j - 1);
    }
  }

  /** No rows so far change nothing. */
  lemma PrependNothing(r: Result<(map<int, Item>, seq<Sale>)>)
    ensures Prepend([], r) == r
  {
    if r.Ok? {
      assert [] + r.value.1 == r.value.1;
    }
  }

  /** The loop's accounting step: after one more successful pass, the rows
      so far and what remains give the same answer as before. */
  lemma PrependStep(done: seq<Sale>, s: Sale, r: Result<(map<int, Item>, seq<Sale>)>)
    ensures Prepend(done, Prepend([s], r)) == Prepend(done + [s], r)
  {
    if r.Ok? {
      assert done + ([s] + r.value.1) == (done + [s]) + r.value.1;
    }
  }

  /** The first pass of the loop: its error ends the batch, its row goes
      in front of what the rest of the loop returns. */
  lemma BulkRunFirst(inv: map<int, Item>, ctx: BulkContext, items: seq<BulkItem>)
    requires items != []
    ensures BulkStep(inv, ctx, items[0]).Err? ==> BulkRun(inv, ctx, items) == Err(BulkStep(inv, ctx, items[0]).error)
    ensures BulkStep(inv, ctx, items[0]).Ok? ==>
      var w := BulkStep(inv, ctx, items[0]).value;
      BulkRun(inv, ctx, items) == Prepend([w.sale], BulkRun(inv[ToInteger(items[0].inventoryId).n := w.item], ctx, items[1..]))
  {
  }

  /** The loop of the bulk handler over the transaction's view of the
      stock: items in input order, each pass reading the stock the earlier
      passes left, stopping at the first failing item. */
  method RunBatch(inv: map<int, Item>, ctx: BulkContext, items: seq<BulkItem>)
    returns (r: Result<(map<int, Item>, seq<Sale>)>)
    ensures r == BulkRun(inv, ctx, items)
  {
    var work := inv;
    var created: seq<Sale> := [];
    var i := 0;
    assert items[i..] == items;
    PrependNothing(BulkRun(work, ctx, items));
    while i < |items|
      invariant 0 <= i <= |items|
      invariant BulkRun(inv, ctx, items) == Prepend(created, BulkRun(work, ctx, items[i..]))
    {
      var it := items[i];
      assert items[i..][0] == it && items[i..][1..] == items[i + 1..];
      BulkRunFirst(work, ctx, items[i..]);
      var step := BulkStep(work, ctx, it);
      if step.Err? {
        return Err(step.error);
      }
      var key := ToInteger(it.inventoryId).n;
      PrependStep(created, step.value.sale, BulkRun(work[key := step.value.item], ctx, items[i + 1..]));
      work := work[key := step.value.item];
      created := created + [step.value.sale];
      i := i + 1;
    }
    assert items[i..] == [] && created + [] == created;
    r := Ok((work, created));
  }

  /** POST /sales/bulk. The batch runs on a working copy of the stock, the
      transaction's view; it is written back only when every item passed,
      so an error leaves the store as it was. */
  method CreateBulkSale(db: Store, body: BulkBody, now: int) returns (res: Result<seq<Sale>>)
    requires db.Valid()
    modifies db
    ensures db.Valid()
    ensures
      var r := BulkSale(old(db.users), old(db.companies), old(db.inventory), body, now);
      && (r.Err? ==> res == Err(r.error) && db.Snapshot() == old(db.Snapshot()))
      && (r.Ok? ==>
            && res == Ok(r.value.1)
            && db.Snapshot() == old(db.Snapshot()).(inventory := r.value.0, sales := old(db.sales) + r.value.1))
  {
    var user := FindByPk(db.users, body.userId);
    if user.Failed? {
      return Err(Crashed);
    }
    if user.Missing? {
      return Err(NotFound(UserRow, None));
    }
    var company := FindByPk(db.companies, body.companyId);
    if company.Failed? {
      return Err(Crashed);
    }
    if company.Missing? {
      return Err(NotFound(CompanyRow, None));
    }
    var ctx := ContextOf(user.row, company.row, body, now);
    var r := RunBatch(db.inventory, ctx, body.items);
    if r.Err? {
      return Err(r.error);
    }
    BulkRunKeyed(db.inventory, ctx, body.items);
    db.inventory := r.value.0;
    db.sales := db.sales + r.value.1;
    res := Ok(r.value.1);
  }

  // ----- GET /sales/stats/summary -----

  /** The aggregate row: SUM(totalPrice), COUNT(id), SUM(quantity). SQL's SUM
      over no rows is NULL, so the sums are absent for an empty table. */
  datatype SalesSummary = SalesSummary(totalSales: Option<int>, totalTransactions: nat, totalQuantity: Option<int>)

  function TotalPrice(sales: seq<Sale>): int
  {
    if sales == [] then 0 else sales[0].totalPrice + TotalPrice(sales[1..])
  }

  function TotalQuantity(sales: seq<Sale>): int
  {
    if sales == [] then 0 else sales[0].quantity + TotalQuantity(sales[1..])
  }

  function Summary(sales: seq<Sale>): (r: SalesSummary)
    ensures r.totalTransactions == |sales|
    ensures r.totalSales.None? <==> sales == []
    ensures r.totalQuantity.None? <==> sales == []
    ensures r.totalSales.Some? ==> r.totalSales.value == TotalPrice(sales)
    ensures r.totalQuantity.Some? ==> r.totalQuantity.value == TotalQuantity(sales)
  {
    if sales == [] then SalesSummary(None, 0, None)
    else SalesSummary(Some(TotalPrice(sales)), |sales|, Some(TotalQuantity(sales)))
  }

  /** The sums of two runs of rows add up. */
  lemma {:induction false} TotalsAppend(a: seq<Sale>, b: seq<Sale>)
    ensures TotalPrice(a + b) == TotalPrice(a) + TotalPrice(b)
    ensures TotalQuantity(a + b) == TotalQuantity(a) + TotalQuantity(b)
  {
    if a == [] {
      assert a + b == b;
    } else {
      assert (a + b)[0] == a[0] && (a + b)[1..] == a[1..] + b;
      TotalsAppend(a[1..], b);
    }
  }

  /** After rows are appended, the summary counts them and their totals are
      added to the sums. */
  lemma SummaryAfterAppend(sales: seq<Sale>, added: seq<Sale>)
    requires added != []
    ensures Summary(sales + added).totalTransactions == |sales| + |added|
    ensures Summary(sales + added).totalSales == Some(TotalPrice(sales) + TotalPrice(added))
    ensures Summary(sales + added).totalQuantity == Some(TotalQuantity(sales) + TotalQuantity(added))
  {
    TotalsAppend(sales, added);
  }

  // ----- POST /sales/report: the file name -----

  /** `satis-raporu-<company>.pdf` with the Turkish letters of the company
      name dropped, so the name holds none of them. */
  function ReportFileName(companyName: string): (r: string)
    ensures |r| <= |companyName| + 17
    ensures forall i :: 0 <= i < |r| ==> !Text.IsTurkishLetter(r[i])
  {
    "satis-raporu-" + Text.StripTurkishLetters(companyName) + ".pdf"
  }

  /** A company name without Turkish letters is used unchanged. */
  lemma ReportFileNameKeepsPlainNames(companyName: string)
    requires forall i :: 0 <= i < |companyName| ==> !Text.IsTurkishLetter(companyName[i])
    ensures ReportFileName(companyName) == "satis-raporu-" + companyName + ".pdf"
  {
    Text.StripTurkishLettersKeepsAscii(companyName);
  }
}
