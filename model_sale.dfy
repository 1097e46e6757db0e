/** The Sale record (models/Sale.js): status and payment-method validity
    sets, defaults, required columns, and DECIMAL(10,2) money held as
    integer cents. */
module SaleModel {
  import opened Common

  datatype SaleStatus = Beklemede | Onaylandi | IptalEdildi
  {
    function Code(): string
    {
      match this
      case Beklemede => "Beklemede"
      case Onaylandi => "Onaylandı"
      case IptalEdildi => "İptal Edildi"
    }
  }

  const DEFAULT_SALE_STATUS: SaleStatus := Beklemede

  function ParseSaleStatus(s: string): (r: Option<SaleStatus>)
    ensures r.Some? ==> r.value.Code() == s
    ensures forall st: SaleStatus :: st.Code() == s ==> r == Some(st)
  {
    if s == "Beklemede" then Some(Beklemede)
    else if s == "Onaylandı" then Some(Onaylandi)
    else if s == "İptal Edildi" then Some(IptalEdildi)
    else None
  }

  datatype PaymentMethod = Nakit | KrediKarti | HavaleEft | Cek | Vadeli
  {
    function Code(): string
    {
      match this
      case Nakit => "Nakit"
      case KrediKarti => "Kredi Kartı"
      case HavaleEft => "Havale/EFT"
      case Cek => "Çek"
      case Vadeli => "Vadeli"
    }
  }

  const DEFAULT_PAYMENT_METHOD: PaymentMethod := Nakit

  function ParsePaymentMethod(s: string): (r: Option<PaymentMethod>)
    ensures r.Some? ==> r.value.Code() == s
    ensures forall m: PaymentMethod :: m.Code() == s ==> r == Some(m)
  {
    if s == "Nakit" then Some(Nakit)
    else if s == "Kredi Kartı" then Some(KrediKarti)
    else if s == "Havale/EFT" then Some(HavaleEft)
    else if s == "Çek" then Some(Cek)
    else if s == "Vadeli" then Some(Vadeli)
    else None
  }

  /** The column default of quantity, used when a row is built without it. */
  const DEFAULT_SALE_QUANTITY: int := 1

  /** DECIMAL(10,2): ten digits of which two are decimals, so at most
      99,999,999.99, that is 9,999,999,999 cents, either way. */
  const MAX_DECIMAL_10_2_CENTS: int := 9_999_999_999

  predicate FitsDecimal10_2(cents: int)
  {
    -MAX_DECIMAL_10_2_CENTS <= cents <= MAX_DECIMAL_10_2_CENTS
  }

  /** A stored sale; money in cents. companyId, userFullName and companyName
      are NOT NULL like the ids. */
  datatype Sale = Sale(
    userId: int,
    inventoryId: int,
    companyId: int,
    userFullName: string,
    companyName: string,
    saleDate: int,
    quantity: int,
    unitPrice: int,
    totalAmount: int,
    totalPrice: int,
    status: SaleStatus,
    paymentMethod: PaymentMethod)

  /** The values a handler passes to Sale.create, absent ones as None. */
  datatype SaleDraft = SaleDraft(
    userId: Option<int>,
    inventoryId: Option<int>,
    companyId: Option<int>,
    userFullName: Option<string>,
    companyName: Option<string>,
    saleDate: int,
    quantity: int,
    unitPrice: int,
    totalAmount: Option<int>,
    totalPrice: int,
    status: Option<string>,
    paymentMethod: Option<string>)

  /** Sale.create(draft): refused (None) when a NOT NULL column has no value,
      status or paymentMethod is outside its validity set, or an amount does
      not fit DECIMAL(10,2); absent totalAmount, status and paymentMethod take
      0, Beklemede and Nakit. */
  function BuildSale(d: SaleDraft): (r: Option<Sale>)
    ensures r.Some? <==>
      && d.userId.Some? && d.inventoryId.Some? && d.companyId.Some?
      && d.userFullName.Some? && d.companyName.Some?
      && (d.status.Some? ==> ParseSaleStatus(d.status.value).Some?)
      && (d.paymentMethod.Some? ==> ParsePaymentMethod(d.paymentMethod.value).Some?)
      && FitsDecimal10_2(d.unitPrice) && FitsDecimal10_2(d.totalPrice)
      && (d.totalAmount.Some? ==> FitsDecimal10_2(d.totalAmount.value))
    ensures r.Some? ==>
      && r.value.userId == d.userId.value && r.value.inventoryId == d.inventoryId.value
      && r.value.companyId == d.companyId.value
      && r.value.userFullName == d.userFullName.value && r.value.companyName == d.companyName.value
      && r.value.saleDate == d.saleDate && r.value.quantity == d.quantity
      && r.value.unitPrice == d.unitPrice && r.value.totalPrice == d.totalPrice
      && r.value.totalAmount == (if d.totalAmount.Some? then d.totalAmount.value else 0)
      && r.value.status == (if d.status.Some? then ParseSaleStatus(d.status.value).value else DEFAULT_SALE_STATUS)
      && r.value.paymentMethod ==
           (if d.paymentMethod.Some? then ParsePaymentMethod(d.paymentMethod.value).value else DEFAULT_PAYMENT_METHOD)
  {
    if d.userId.None? || d.inventoryId.None? || d.companyId.None? || d.userFullName.None? || d.companyName.None? then None
    else
      var status := if d.status.Some? then ParseSaleStatus(d.status.value) else Some(DEFAULT_SALE_STATUS);
      var payment := if d.paymentMethod.Some? then ParsePaymentMethod(d.paymentMethod.value) else Some(DEFAULT_PAYMENT_METHOD);
      var totalAmount := if d.totalAmount.Some? then d.totalAmount.value else 0;
      if status.None? || payment.None? then None
      else if !FitsDecimal10_2(d.unitPrice) || !FitsDecimal10_2(d.totalPrice) || !FitsDecimal10_2(totalAmount) then None
      else Some(Sale(d.userId.value, d.inventoryId.value, d.companyId.value, d.userFullName.value,
                     d.companyName.value, d.saleDate, d.quantity, d.unitPrice, totalAmount,
                     d.totalPrice, status.value, payment.value))
  }
}
