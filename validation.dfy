/**
 * The order validator of internal/service/service_bruh.go (ValidateOrder and
 * validateItem): a fixed sequence of field checks in which the first failing
 * check decides the result. Each check is named by a constructor, and the
 * source's error messages become these names. The order-level checks are
 * grouped by the part of the order they read, in the order they run: the
 * header fields, the delivery, the payment, and the item list.
 */
module Validation {
  import opened Wrappers
  import opened Orders

  /** The checks of the order's own fields, in run order. */
  datatype HeaderCheck =
    | UidMissing | TrackNumberMissing | EntryMissing | LocaleMissing | CustomerIdMissing
    | DeliveryServiceMissing | ShardkeyMissing | SmIdInvalid

  /** The checks of the delivery, in run order. */
  datatype DeliveryCheck =
    | NameMissing | PhoneMissing | ZipMissing | CityMissing | AddressMissing
    | RegionMissing | EmailMissing

  /** The checks of the payment, in run order. */
  datatype PaymentCheck =
    | TransactionMissing | RequestIdMissing | CurrencyMissing | ProviderMissing
    | AmountInvalid | BankMissing | DeliveryCostInvalid | GoodsTotalInvalid

  /** An order-level check. */
  datatype OrderCheck =
    | HeaderField(header: HeaderCheck)
    | DeliveryField(delivery: DeliveryCheck)
    | PaymentField(payment: PaymentCheck)
    | ItemsEmpty

  /** The per-item checks, in the order validateItem runs them. */
  datatype ItemCheck =
    | ItemNameMissing | ItemChrtIdInvalid | ItemTrackNumberMissing | ItemRidMissing
    | ItemNmIdInvalid | ItemPriceInvalid | ItemSaleInvalid | ItemTotalPriceInvalid
    | ItemStatusInvalid

  /** A validation failure: an order-level check, or a check on the item at `index`. */
  datatype ValidationError =
    | OrderField(check: OrderCheck)
    | ItemField(index: nat, itemCheck: ItemCheck)

  function HeaderRank(c: HeaderCheck): nat {
    match c
    case UidMissing => 0
    case TrackNumberMissing => 1
    case EntryMissing => 2
    case LocaleMissing => 3
    case CustomerIdMissing => 4
    case DeliveryServiceMissing => 5
    case ShardkeyMissing => 6
    case SmIdInvalid => 7
  }

  function DeliveryRank(c: DeliveryCheck): nat {
    match c
    case NameMissing => 0
    case PhoneMissing => 1
    case ZipMissing => 2
    case CityMissing => 3
    case AddressMissing => 4
    case RegionMissing => 5
    case EmailMissing => 6
  }

  function PaymentRank(c: PaymentCheck): nat {
    match c
    case TransactionMissing => 0
    case RequestIdMissing => 1
    case CurrencyMissing => 2
    case ProviderMissing => 3
    case AmountInvalid => 4
    case BankMissing => 5
    case DeliveryCostInvalid => 6
    case GoodsTotalInvalid => 7
  }

  /** The position of an order-level check in the run order: 8 header, 7 delivery, 8 payment checks, then the item list. */
  function Rank(c: OrderCheck): nat {
    match c
    case HeaderField(h) => HeaderRank(h)
    case DeliveryField(d) => 8 + DeliveryRank(d)
    case PaymentField(p) => 15 + PaymentRank(p)
    case ItemsEmpty => 23
  }

  /** The condition a header check demands (the check passes when this holds). */
  predicate HeaderHolds(o: Order, c: HeaderCheck) {
    match c
    case UidMissing => o.orderUid != ""
    case TrackNumberMissing => o.trackNumber != ""
    case EntryMissing => o.entry != ""
    case LocaleMissing => o.locale != ""
    case CustomerIdMissing => o.customerId != ""
    case DeliveryServiceMissing => o.deliveryService != ""
    case ShardkeyMissing => o.shardkey != ""
    case SmIdInvalid => o.smId > 0
  }

  predicate DeliveryHolds(d: Delivery, c: DeliveryCheck) {
    match c
    case NameMissing => d.name != ""
    case PhoneMissing => d.phone != ""
    case ZipMissing => d.zip != ""
    case CityMissing => d.city != ""
    case AddressMissing => d.address != ""
    case RegionMissing => d.region != ""
    case EmailMissing => d.email != ""
  }

  predicate PaymentHolds(p: Payment, c: PaymentCheck) {
    match c
    case TransactionMissing => p.transaction != ""
    case RequestIdMissing => p.requestId != ""
    case CurrencyMissing => p.currency != ""
    case ProviderMissing => p.provider != ""
    case AmountInvalid => p.amount > 0
    case BankMissing => p.bank != ""
    case DeliveryCostInvalid => p.deliveryCost >= 0
    case GoodsTotalInvalid => p.goodsTotal > 0
  }

  /** The condition that order-level check `c` demands of an order. */
  predicate Holds(o: Order, c: OrderCheck) {
    match c
    case HeaderField(h) => HeaderHolds(o, h)
    case DeliveryField(d) => DeliveryHolds(o.delivery, d)
    case PaymentField(p) => PaymentHolds(o.payment, p)
    case ItemsEmpty => |o.items| > 0
  }

  /** The position of an item check in the run order. */
  function ItemRank(c: ItemCheck): nat {
    match c
    case ItemNameMissing => 0
    case ItemChrtIdInvalid => 1
    case ItemTrackNumberMissing => 2
    case ItemRidMissing => 3
    case ItemNmIdInvalid => 4
    case ItemPriceInvalid => 5
    case ItemSaleInvalid => 6
    case ItemTotalPriceInvalid => 7
    case ItemStatusInvalid => 8
  }

  /** The condition that item check `c` demands of an item. */
  predicate ItemHolds(it: Item, c: ItemCheck) {
    match c
    case ItemNameMissing => it.name != ""
    case ItemChrtIdInvalid => it.chrtId > 0
    case ItemTrackNumberMissing => it.trackNumber != ""
    case ItemRidMissing => it.rid != ""
    case ItemNmIdInvalid => it.nmId > 0
    case ItemPriceInvalid => it.price >= 0
    case ItemSaleInvalid => it.sale >= 0
    case ItemTotalPriceInvalid => it.totalPrice >= 0
    case ItemStatusInvalid => it.status >= 0
  }

  /** An item every item check accepts. */
  predicate ItemValid(it: Item) {
    forall c :: ItemHolds(it, c)
  }

  /** An order every order-level check and every item check accepts. */
  ghost predicate OrderValid(o: Order) {
    && (forall c :: Holds(o, c))
    && (forall j :: 0 <= j < |o.items| ==> ItemValid(o.items[j]))
  }

  /** validateItem: the first failing item check, if any. */
  function ValidateItem(it: Item): (r: Option<ItemCheck>)
    ensures r.None? <==> ItemValid(it)
    ensures r.Some? ==> !ItemHolds(it, r.value)
    ensures r.Some? ==> forall c :: ItemRank(c) < ItemRank(r.value) ==> ItemHolds(it, c)
  {
    var r :=
      if it.name == "" then Some(ItemNameMissing)
      else if it.chrtId <= 0 then Some(ItemChrtIdInvalid)
      else if it.trackNumber == "" then Some(ItemTrackNumberMissing)
      else if it.rid == "" then Some(ItemRidMissing)
      else if it.nmId <= 0 then Some(ItemNmIdInvalid)
      else if it.price < 0 then Some(ItemPriceInvalid)
      else if it.sale < 0 then Some(ItemSaleInvalid)
      else if it.totalPrice < 0 then Some(ItemTotalPriceInvalid)
      else if it.status < 0 then Some(ItemStatusInvalid)
      else None;
    assert r.Some? ==> !ItemHolds(it, r.value);
    r
  }

  /** The loop over the items from position `from` on: the first item that fails, with its check. */
  function ValidateItems(items: seq<Item>, from: nat): (r: Option<ValidationError>)
    requires from <= |items|
    decreases |items| - from
    ensures r.None? <==> forall j :: from <= j < |items| ==> ItemValid(items[j])
    ensures r.Some? ==> r.value.ItemField? && from <= r.value.index < |items|
    ensures r.Some? ==> ValidateItem(items[r.value.index]) == Some(r.value.itemCheck)
    ensures r.Some? ==> forall j :: from <= j < r.value.index ==> ItemValid(items[j])
  {
    if from == |items| then None
    else match ValidateItem(items[from])
      case Some(c) => Some(ItemField(from, c))
      case None => ValidateItems(items, from + 1)
  }

  /** The top-level string fields and SmId (service_bruh.go:88-111): the first that fails. */
  function CheckHeader(o: Order): (r: Option<HeaderCheck>)
    ensures r.None? <==> forall c :: HeaderHolds(o, c)
    ensures r.Some? ==> !HeaderHolds(o, r.value)
    ensures r.Some? ==> forall c :: HeaderRank(c) < HeaderRank(r.value) ==> HeaderHolds(o, c)
  {
    var r :=
      if o.orderUid == "" then Some(UidMissing)
      else if o.trackNumber == "" then Some(TrackNumberMissing)
      else if o.entry == "" then Some(EntryMissing)
      else if o.locale == "" then Some(LocaleMissing)
      else if o.customerId == "" then Some(CustomerIdMissing)
      else if o.deliveryService == "" then Some(DeliveryServiceMissing)
      else if o.shardkey == "" then Some(ShardkeyMissing)
      else if o.smId <= 0 then Some(SmIdInvalid)
      else None;
    assert r.Some? ==> !HeaderHolds(o, r.value);
    r
  }

  /** The delivery fields (service_bruh.go:113-133): the first that fails. */
  function CheckDelivery(d: Delivery): (r: Option<DeliveryCheck>)
    ensures r.None? <==> forall c :: DeliveryHolds(d, c)
    ensures r.Some? ==> !DeliveryHolds(d, r.value)
    ensures r.Some? ==> forall c :: DeliveryRank(c) < DeliveryRank(r.value) ==> DeliveryHolds(d, c)
  {
    var r :=
      if d.name == "" then Some(NameMissing)
      else if d.phone == "" then Some(PhoneMissing)
      else if d.zip == "" then Some(ZipMissing)
      else if d.city == "" then Some(CityMissing)
      else if d.address == "" then Some(AddressMissing)
      else if d.region == "" then Some(RegionMissing)
      else if d.email == "" then Some(EmailMissing)
      else None;
    assert r.Some? ==> !DeliveryHolds(d, r.value);
    r
  }

  /** The payment fields (service_bruh.go:135-158): the first that fails. */
  function CheckPayment(p: Payment): (r: Option<PaymentCheck>)
    ensures r.None? <==> forall c :: PaymentHolds(p, c)
    ensures r.Some? ==> !PaymentHolds(p, r.value)
    ensures r.Some? ==> forall c :: PaymentRank(c) < PaymentRank(r.value) ==> PaymentHolds(p, c)
  {
    var r :=
      if p.transaction == "" then Some(TransactionMissing)
      else if p.requestId == "" then Some(RequestIdMissing)
      else if p.currency == "" then Some(CurrencyMissing)
      else if p.provider == "" then Some(ProviderMissing)
      else if p.amount <= 0 then Some(AmountInvalid)
      else if p.bank == "" then Some(BankMissing)
      else if p.deliveryCost < 0 then Some(DeliveryCostInvalid)
      else if p.goodsTotal <= 0 then Some(GoodsTotalInvalid)
      else None;
    assert r.Some? ==> !PaymentHolds(p, r.value);
    r
  }

  /** ValidateOrder: the first failing check of the order, or None when the order is accepted. */
  function ValidateOrder(o: Order): (r: Option<ValidationError>)
    ensures r.None? <==> OrderValid(o)
    ensures r.Some? && r.value.OrderField? ==>
      && !Holds(o, r.value.check)
      && forall c :: Rank(c) < Rank(r.value.check) ==> Holds(o, c)
    ensures r.Some? && r.value.ItemField? ==>
      && (forall c :: Holds(o, c))
      && r.value.index < |o.items|
      && ValidateItem(o.items[r.value.index]) == Some(r.value.itemCheck)
      && forall j :: 0 <= j < r.value.index ==> ItemValid(o.items[j])
  {
    match CheckHeader(o)
    case Some(h) => assert !Holds(o, HeaderField(h)); Some(OrderField(HeaderField(h)))
    case None =>
      match CheckDelivery(o.delivery)
      case Some(d) => assert !Holds(o, DeliveryField(d)); Some(OrderField(DeliveryField(d)))
      case None =>
        match CheckPayment(o.payment)
        case Some(p) => assert !Holds(o, PaymentField(p)); Some(OrderField(PaymentField(p)))
        case None =>
          assert forall c :: c != ItemsEmpty ==> Holds(o, c);
          if |o.items| == 0 then assert !Holds(o, ItemsEmpty); Some(OrderField(ItemsEmpty))
          else ValidateItems(o.items, 0)
  }

  /** An empty identifier is the error reported, whatever else is wrong with the order. */
  lemma UidCheckedFirst(o: Order)
    requires o.orderUid == ""
    ensures ValidateOrder(o) == Some(OrderField(HeaderField(UidMissing)))
  {
  }

  /** An order whose only fault is an empty item list is rejected for exactly that. */
  lemma EmptyItemsRejected(o: Order)
    requires forall c :: c != ItemsEmpty ==> Holds(o, c)
    requires |o.items| == 0
    ensures ValidateOrder(o) == Some(OrderField(ItemsEmpty))
  {
    assert CheckHeader(o).None? by {
      forall c ensures HeaderHolds(o, c) { assert Holds(o, HeaderField(c)); }
    }
    assert CheckDelivery(o.delivery).None? by {
      forall c ensures DeliveryHolds(o.delivery, c) { assert Holds(o, DeliveryField(c)); }
    }
    assert CheckPayment(o.payment).None? by {
      forall c ensures PaymentHolds(o.payment, c) { assert Holds(o, PaymentField(c)); }
    }
  }

  /** Two order-level checks of the same rank are the same check. */
  lemma RankInjective(c: OrderCheck, d: OrderCheck)
    requires Rank(c) == Rank(d)
    ensures c == d
  {
  }

  /** The reported check is determined: it is the least-ranked failing check. */
  lemma FirstFailureUnique(o: Order, c: OrderCheck)
    requires !Holds(o, c)
    requires forall d :: Rank(d) < Rank(c) ==> Holds(o, d)
    ensures ValidateOrder(o) == Some(OrderField(c))
  {
    var r := ValidateOrder(o);
    assert r.Some? && r.value.OrderField?;
    RankInjective(c, r.value.check);
  }
}
