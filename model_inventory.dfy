/** The Inventory record (models/Inventory.js): status enum, quantity and
    price defaults, required columns; price in integer cents. */
module InventoryModel {
  import opened Common
  import SaleModel

  datatype ItemStatus = Aktif | Pasif | StoktaYok
  {
    function Code(): string
    {
      match this
      case Aktif => "Aktif"
      case Pasif => "Pasif"
      case StoktaYok => "Stokta Yok"
    }
  }

  const DEFAULT_ITEM_STATUS: ItemStatus := Aktif
  const DEFAULT_QUANTITY: int := 0
  const DEFAULT_PRICE: int := 0

  function ParseItemStatus(s: string): (r: Option<ItemStatus>)
    ensures r.Some? ==> r.value.Code() == s
    ensures forall st: ItemStatus :: st.Code() == s ==> r == Some(st)
  {
    if s == "Aktif" then Some(Aktif)
    else if s == "Pasif" then Some(Pasif)
    else if s == "Stokta Yok" then Some(StoktaYok)
    else None
  }

  /** A stored item. name, category, unit and lastUpdatedBy are NOT NULL;
      quantity is an integer with no lower bound. */
  datatype Item = Item(
    id: int,
    name: string,
    description: Option<string>,
    category: string,
    quantity: int,
    unit: string,
    price: int,
    status: ItemStatus,
    lastUpdatedBy: int,
    createdAt: int,
    updatedAt: int)

  /** Item columns as a request body carries them; absent ones are None
      (Undefined for lastUpdatedBy, which may arrive as a number or a string). */
  datatype ItemFields = ItemFields(
    name: Option<string>,
    description: Option<string>,
    category: Option<string>,
    quantity: Option<int>,
    unit: Option<string>,
    price: Option<int>,
    status: Option<string>,
    lastUpdatedBy: JsValue)

  /** Inventory.create(f): refused (None) when a NOT NULL column has no value,
      lastUpdatedBy is not an integer, status is outside its enum or price
      does not fit DECIMAL(10,2); absent quantity, price and status take the
      column defaults 0, 0 and Aktif. */
  function NewItem(id: int, f: ItemFields, now: int): (r: Option<Item>)
    ensures r.Some? <==>
      && f.name.Some? && f.category.Some? && f.unit.Some? && ToInteger(f.lastUpdatedBy).IntValue?
      && (f.status.Some? ==> ParseItemStatus(f.status.value).Some?)
      && (f.price.Some? ==> SaleModel.FitsDecimal10_2(f.price.value))
    ensures r.Some? ==>
      && r.value.id == id && r.value.createdAt == now && r.value.updatedAt == now
      && r.value.name == f.name.value && r.value.category == f.category.value
      && r.value.unit == f.unit.value && r.value.description == f.description
      && r.value.lastUpdatedBy == ToInteger(f.lastUpdatedBy).n
      && r.value.quantity == (if f.quantity.Some? then f.quantity.value else DEFAULT_QUANTITY)
      && r.value.price == (if f.price.Some? then f.price.value else DEFAULT_PRICE)
      && r.value.status == (if f.status.Some? then ParseItemStatus(f.status.value).value else DEFAULT_ITEM_STATUS)
  {
    var editor := ToInteger(f.lastUpdatedBy);
    var status := if f.status.Some? then ParseItemStatus(f.status.value) else Some(DEFAULT_ITEM_STATUS);
    var price := if f.price.Some? then f.price.value else DEFAULT_PRICE;
    if f.name.None? || f.category.None? || f.unit.None? || !editor.IntValue? || status.None? then None
    else if !SaleModel.FitsDecimal10_2(price) then None
    else Some(Item(id, f.name.value, f.description, f.category.value,
                   if f.quantity.Some? then f.quantity.value else DEFAULT_QUANTITY,
                   f.unit.value, price, status.value, editor.n, now, now))
  }

  /** item.update(f): every present field replaces its column; refused (None)
      when lastUpdatedBy is null or not an integer, status is outside its
      enum, or price does not fit. Timestamps are left to SaveItem. */
  function ApplyItemFields(item: Item, f: ItemFields): (r: Option<Item>)
    ensures r.Some? <==>
      && ToInteger(f.lastUpdatedBy) != Unconvertible && f.lastUpdatedBy != Null
      && (f.status.Some? ==> ParseItemStatus(f.status.value).Some?)
      && (f.price.Some? ==> SaleModel.FitsDecimal10_2(f.price.value))
    ensures r.Some? ==>
      && r.value.id == item.id && r.value.createdAt == item.createdAt && r.value.updatedAt == item.updatedAt
      && r.value.name == (if f.name.Some? then f.name.value else item.name)
      && r.value.category == (if f.category.Some? then f.category.value else item.category)
      && r.value.unit == (if f.unit.Some? then f.unit.value else item.unit)
      && r.value.description == (if f.description.Some? then f.description else item.description)
      && r.value.quantity == (if f.quantity.Some? then f.quantity.value else item.quantity)
      && r.value.price == (if f.price.Some? then f.price.value else item.price)
      && r.value.status == (if f.status.Some? then ParseItemStatus(f.status.value).value else item.status)
      && r.value.lastUpdatedBy == (if f.lastUpdatedBy.Undefined? then item.lastUpdatedBy else ToInteger(f.lastUpdatedBy).n)
  {
    var editor := ToInteger(f.lastUpdatedBy);
    var status := if f.status.Some? then ParseItemStatus(f.status.value) else Some(item.status);
    if editor.Unconvertible? || f.lastUpdatedBy == Null || status.None? then None
    else if f.price.Some? && !SaleModel.FitsDecimal10_2(f.price.value) then None
    else Some(item.(
      name := if f.name.Some? then f.name.value else item.name,
      description := if f.description.Some? then f.description else item.description,
      category := if f.category.Some? then f.category.value else item.category,
      quantity := if f.quantity.Some? then f.quantity.value else item.quantity,
      unit := if f.unit.Some? then f.unit.value else item.unit,
      price := if f.price.Some? then f.price.value else item.price,
      status := status.value,
      lastUpdatedBy := if editor.IntValue? then editor.n else item.lastUpdatedBy))
  }

  /** Whether the body's lastUpdatedBy differs from the stored editor as a
      raw value. Sequelize marks a column changed by comparing the value it
      is given, before the database converts it, so the string "5" differs
      from a stored 5. */
  predicate EditorRawChange(item: Item, f: ItemFields)
  {
    !f.lastUpdatedBy.Undefined? && f.lastUpdatedBy != Num(item.lastUpdatedBy)
  }

  /** instance.save(): a row with no changed column is not written, so its
      updatedAt stays; otherwise it gets updatedAt = now. A column is
      changed when its value differs or when it was set to a raw value
      that differs (rawChange) even though it converts to the same one. */
  function SaveItem(before: Item, after: Item, rawChange: bool, now: int): (r: Item)
    ensures r.updatedAt == (if after == before && !rawChange then before.updatedAt else now)
    ensures r.(updatedAt := after.updatedAt) == after
  {
    if after == before && !rawChange then before else after.(updatedAt := now)
  }
}
