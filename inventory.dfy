/** The inventory routes (routes/inventory.js): listing, creation with its
    required-field check and defaults, update, stock setting and delete. */
module Inventory {
  import opened Common
  import opened InventoryModel
  import opened Db
  import SaleModel
  import Listing

  /** The localised names of the required fields, in the order they are checked. */
  const FIELD_LABELS: seq<string> := ["Ürün Adı", "Kategori", "Birim", "Güncelleyen Kullanıcı"]

  /** The position of a fieldName among FIELD_LABELS. */
  function LabelPosition(fieldName: string): nat
  {
    if fieldName == FIELD_LABELS[0] then 0
    else if fieldName == FIELD_LABELS[1] then 1
    else if fieldName == FIELD_LABELS[2] then 2
    else 3
  }

  /** Whether a required field is falsy in the body. */
  predicate FieldMissing(f: ItemFields, fieldName: string)
  {
    || (fieldName == FIELD_LABELS[0] && !Truthy(f.name))
    || (fieldName == FIELD_LABELS[1] && !Truthy(f.category))
    || (fieldName == FIELD_LABELS[2] && !Truthy(f.unit))
    || (fieldName == FIELD_LABELS[3] && !JsTruthy(f.lastUpdatedBy))
  }

  /** The localised names of exactly the falsy required fields, each once,
      in the order name, category, unit, lastUpdatedBy. */
  function MissingFieldNames(f: ItemFields): (r: seq<string>)
    ensures forall fieldName :: fieldName in r <==> fieldName in FIELD_LABELS && FieldMissing(f, fieldName)
    ensures forall i, j :: 0 <= i < j < |r| ==> LabelPosition(r[i]) < LabelPosition(r[j])
  {
    (if !Truthy(f.name) then [FIELD_LABELS[0]] else [])
    + (if !Truthy(f.category) then [FIELD_LABELS[1]] else [])
    + (if !Truthy(f.unit) then [FIELD_LABELS[2]] else [])
    + (if !JsTruthy(f.lastUpdatedBy) then [FIELD_LABELS[3]] else [])
  }

  /** `value || default` for the three defaulted fields. */
  function WithDefaults(f: ItemFields): (g: ItemFields)
    ensures g.quantity == Some(if f.quantity.Some? && f.quantity.value != 0 then f.quantity.value else 0)
    ensures g.price == Some(if f.price.Some? && f.price.value != 0 then f.price.value else 0)
    ensures g.status == Some(if Truthy(f.status) then f.status.value else Aktif.Code())
    ensures g.(quantity := f.quantity, price := f.price, status := f.status) == f
  {
    f.(quantity := Some(if f.quantity.Some? && f.quantity.value != 0 then f.quantity.value else 0),
       price := Some(if f.price.Some? && f.price.value != 0 then f.price.value else 0),
       status := Some(if Truthy(f.status) then f.status.value else Aktif.Code()))
  }

  /** POST /inventory: refused with the missing fields' names when a
      required field is falsy; otherwise the body with its defaults is
      created, quantity 0, price 0 and status Aktif when those are falsy. */
  function CreateItemSpec(id: int, f: ItemFields, now: int): (r: Result<Item>)
    ensures MissingFieldNames(f) != [] <==> r.Err? && r.error.MissingFields?
    ensures r.Err? && r.error.MissingFields? ==> r.error.fields == MissingFieldNames(f)
    ensures r.Err? ==> r.error.MissingFields? || r.error == Rejected
    ensures r.Ok? ==>
      && r.value.id == id && r.value.createdAt == now && r.value.updatedAt == now
      && r.value.name == f.name.value && r.value.category == f.category.value && r.value.unit == f.unit.value
      && r.value.description == f.description
      && ToInteger(f.lastUpdatedBy).IntValue? && r.value.lastUpdatedBy == ToInteger(f.lastUpdatedBy).n
      && r.value.quantity == (if f.quantity.Some? then f.quantity.value else 0)
      && r.value.price == (if f.price.Some? then f.price.value else 0)
      && (Truthy(f.status) ==> ParseItemStatus(f.status.value).Some?)
      && r.value.status == (if Truthy(f.status) then ParseItemStatus(f.status.value).value else Aktif)
  {
    var missing := MissingFieldNames(f);
    if missing != [] then Err(MissingFields(missing))
    else match NewItem(id, WithDefaults(f), now)
      case None => Err(Rejected)
      case Some(item) => Ok(item)
  }

  /** With every required field present, the item is refused only when the
      database cannot store it: a non-integer editor, a status outside the
      enum, or a price too wide. */
  lemma CreateRejectedOnlyWhenInvalid(id: int, f: ItemFields, now: int)
    requires MissingFieldNames(f) == []
    ensures CreateItemSpec(id, f, now).Err? <==>
      || !ToInteger(f.lastUpdatedBy).IntValue?
      || (Truthy(f.status) && ParseItemStatus(f.status.value).None?)
      || (f.price.Some? && !SaleModel.FitsDecimal10_2(f.price.value))
  {
    assert Truthy(f.name) && Truthy(f.category) && Truthy(f.unit) by {
      assert FIELD_LABELS[0] !in MissingFieldNames(f);
      assert FIELD_LABELS[1] !in MissingFieldNames(f);
      assert FIELD_LABELS[2] !in MissingFieldNames(f);
    }
    assert ParseItemStatus(Aktif.Code()) == Some(Aktif);
  }

  /** PUT /inventory/:id on a found item: the present fields are written and
      the row saved; refused when the database cannot store them. updatedAt
      moves when a column changes, or when lastUpdatedBy is sent as a raw
      value other than the stored number. */
  function UpdateItemSpec(item: Item, f: ItemFields, now: int): (r: Result<Item>)
    ensures r.Ok? <==> ApplyItemFields(item, f).Some?
    ensures r.Err? ==> r.error == Rejected
    ensures r.Ok? ==> r.value.id == item.id && r.value.createdAt == item.createdAt
    ensures r.Ok? ==> r.value.(updatedAt := ApplyItemFields(item, f).value.updatedAt) == ApplyItemFields(item, f).value
    ensures r.Ok? ==>
      r.value.updatedAt == (if ApplyItemFields(item, f).value == item && !EditorRawChange(item, f) then item.updatedAt else now)
  {
    match ApplyItemFields(item, f)
    case None => Err(Rejected)
    case Some(next) => Ok(SaveItem(item, next, EditorRawChange(item, f), now))
  }

  /** Sending the same update again changes nothing, not even updatedAt,
      unless lastUpdatedBy is sent as a string. */
  lemma {:induction false} UpdateTwiceIsUpdateOnce(item: Item, f: ItemFields, now: int, later: int)
    requires UpdateItemSpec(item, f, now).Ok?
    requires !f.lastUpdatedBy.Str?
    ensures UpdateItemSpec(UpdateItemSpec(item, f, now).value, f, later) == UpdateItemSpec(item, f, now)
  {
    var once := UpdateItemSpec(item, f, now).value;
    var again := ApplyItemFields(once, f);
    assert again.Some?;
    assert again.value.lastUpdatedBy == once.lastUpdatedBy;
    assert again.value == once;
  }

  /** An editor id sent as a string never equals the stored number, so every
      accepted update carrying one is saved with updatedAt = now, the same
      update repeated included. */
  lemma StringEditorAlwaysSaves(item: Item, f: ItemFields, now: int)
    requires UpdateItemSpec(item, f, now).Ok?
    requires f.lastUpdatedBy.Str?
    ensures UpdateItemSpec(item, f, now).value.updatedAt == now
    ensures UpdateItemSpec(UpdateItemSpec(item, f, now).value, f, now + 1).value.updatedAt == now + 1
  {
  }

  /** The body of PATCH /inventory/:id/stock as the update it makes. */
  function StockFields(quantity: Option<int>): ItemFields
  {
    ItemFields(None, None, None, quantity, None, None, None, Undefined)
  }

  /** PATCH /inventory/:id/stock on a found item: the quantity becomes
      exactly the given value, negative included, and nothing else but
      updatedAt changes; with no quantity the row is untouched. */
  function SetStockSpec(item: Item, quantity: Option<int>, now: int): (r: Result<Item>)
    ensures r.Ok?
    ensures r.value.quantity == (if quantity.Some? then quantity.value else item.quantity)
    ensures r.value.(quantity := item.quantity, updatedAt := item.updatedAt) == item
    ensures r.value.updatedAt == (if quantity.None? || quantity.value == item.quantity then item.updatedAt else now)
  {
    UpdateItemSpec(item, StockFields(quantity), now)
  }

  /** GET /inventory: every item exactly once, most recently updated first. */
  function ListInventory(inventory: map<int, Item>, nextItemId: int): (r: seq<Item>)
    requires forall k :: k in inventory ==> 0 <= k < nextItemId && inventory[k].id == k
    ensures Listing.SortedDesc(r, (x: Item) => x.updatedAt)
    ensures forall x :: x in r <==> x in inventory.Values
    ensures forall x :: multiset(r)[x] == if x.id in inventory && inventory[x.id] == x then 1 else 0
  {
    var r := Listing.Query(inventory, nextItemId, (x: Item) => true, (x: Item) => x.updatedAt);
    assert forall x :: multiset(r)[x] == if x.id in inventory && inventory[x.id] == x then 1 else 0 by {
      forall x ensures multiset(r)[x] == if x.id in inventory && inventory[x.id] == x then 1 else 0 {
        Listing.KeyCountOfKeyedRow(inventory, nextItemId, (x: Item) => x.id, x);
      }
    }
    r
  }

  /** POST /inventory. */
  method CreateItem(db: Store, f: ItemFields, now: int) returns (res: Result<Item>)
    requires db.Valid()
    modifies db
    ensures db.Valid()
    ensures
      var c := CreateItemSpec(old(db.nextItemId), f, now);
      && res == c
      && db.Snapshot() == (if c.Ok? then old(db.Snapshot()).(
                             inventory := old(db.inventory)[old(db.nextItemId) := c.value],
                             nextItemId := old(db.nextItemId) + 1)
                           else old(db.Snapshot()))
  {
    res := CreateItemSpec(db.nextItemId, f, now);
    if res.Ok? {
      db.inventory := db.inventory[db.nextItemId := res.value];
      db.nextItemId := db.nextItemId + 1;
    }
  }

  /** PUT /inventory/:id. */
  method UpdateItem(db: Store, id: string, f: ItemFields, now: int) returns (res: Result<Item>)
    requires db.Valid()
    modifies db
    ensures db.Valid()
    ensures FindByPk(old(db.inventory), Str(id)).Failed? ==> res == Err(Crashed) && db.Snapshot() == old(db.Snapshot())
    ensures FindByPk(old(db.inventory), Str(id)).Missing? ==>
      res == Err(NotFound(ItemRow, None)) && db.Snapshot() == old(db.Snapshot())
    ensures FindByPk(old(db.inventory), Str(id)).Found? ==>
      var item := FindByPk(old(db.inventory), Str(id)).row;
      var u := UpdateItemSpec(item, f, now);
      && res == u
      && db.Snapshot() == old(db.Snapshot()).(
           inventory := if u.Ok? then old(db.inventory)[item.id := u.value] else old(db.inventory))
  {
    var found := FindByPk(db.inventory, Str(id));
    if found.Failed? {
      return Err(Crashed);
    }
    if found.Missing? {
      return Err(NotFound(ItemRow, None));
    }
    res := UpdateItemSpec(found.row, f, now);
    if res.Ok? {
      db.inventory := db.inventory[found.row.id := res.value];
    }
  }

  /** PATCH /inventory/:id/stock. */
  method SetStock(db: Store, id: string, quantity: Option<int>, now: int) returns (res: Result<Item>)
    requires db.Valid()
    modifies db
    ensures db.Valid()
    ensures FindByPk(old(db.inventory), Str(id)).Failed? ==> res == Err(Crashed) && db.Snapshot() == old(db.Snapshot())
    ensures FindByPk(old(db.inventory), Str(id)).Missing? ==>
      res == Err(NotFound(ItemRow, None)) && db.Snapshot() == old(db.Snapshot())
    ensures FindByPk(old(db.inventory), Str(id)).Found? ==>
      var item := FindByPk(old(db.inventory), Str(id)).row;
      var s := SetStockSpec(item, quantity, now);
      && res == s
      && db.Snapshot() == old(db.Snapshot()).(inventory := old(db.inventory)[item.id := s.value])
  {
    var found := FindByPk(db.inventory, Str(id));
    if found.Failed? {
      return Err(Crashed);
    }
    if found.Missing? {
      return Err(NotFound(ItemRow, None));
    }
    res := SetStockSpec(found.row, quantity, now);
    db.inventory := db.inventory[found.row.id := res.value];
  }

  /** DELETE /inventory/:id: the row is removed. */
  method DeleteItem(db: Store, id: string) returns (res: Result<()>)
    requires db.Valid()
    modifies db
    ensures db.Valid()
    ensures FindByPk(old(db.inventory), Str(id)).Failed? ==> res == Err(Crashed) && db.Snapshot() == old(db.Snapshot())
    ensures FindByPk(old(db.inventory), Str(id)).Missing? ==>
      res == Err(NotFound(ItemRow, None)) && db.Snapshot() == old(db.Snapshot())
    ensures FindByPk(old(db.inventory), Str(id)).Found? ==>
      var item := FindByPk(old(db.inventory), Str(id)).row;
      && res == Ok(())
      && item.id !in db.inventory
      && db.Snapshot() == old(db.Snapshot()).(inventory := old(db.inventory) - {item.id})
  {
    var found := FindByPk(db.inventory, Str(id));
    if found.Failed? {
      return Err(Crashed);
    }
    if found.Missing? {
      return Err(NotFound(ItemRow, None));
    }
    db.inventory := db.inventory - {found.row.id};
    res := Ok(());
  }
}
