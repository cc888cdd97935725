/** The records of the models package. Times are integers with 0 as Go's zero time;
    prices are reals; ids are the primary keys. */
module Models {
  import opened Common

  datatype User = User(
    id: nat, name: string, email: string, password: string, isAdmin: bool,
    createdAt: int, updatedAt: int)

  datatype Menu = Menu(
    id: nat, name: string, category: string, startDate: int, endDate: int,
    createdAt: int, updatedAt: int)

  datatype Food = Food(
    id: nat, name: string, price: real, image: string,
    createdAt: int, updatedAt: int, foodId: nat, menuId: nat)

  /** The order row. `userId` is the column CreateOrderItem fills in from the
      caller's token; models/orderModel.go itself lacks the field. */
  datatype Order = Order(
    id: nat, orderDate: int, tableId: nat, userId: nat, createdAt: int, updatedAt: int)

  /** `quantity` is the string enum of models/orderItemModel.go ("S", "M", "L"). */
  datatype OrderItem = OrderItem(
    id: nat, quantity: string, unitPrice: real, foodId: nat, orderId: nat,
    createdAt: int, updatedAt: int)

  datatype Table = Table(
    id: nat, numberOfGuests: nat, tableNumber: nat, createdAt: int, updatedAt: int)

  /** Payment method and status are stored as the strings the client sent; the
      `oneof` validation tags decide which of them may be saved. */
  datatype Invoice = Invoice(
    id: nat, orderId: nat, paymentMethod: string, paymentStatus: string,
    paymentDueDate: int, createdAt: int, updatedAt: int)

  /** The constants of the PaymentMethod and PaymentStatus string types. */
  const CardText: string := "card"
  const CashText: string := "cash"
  const PendingText: string := "pending"
  const PaidText: string := "paid"

  /** The closed set of payment methods, and the text each one is stored as. */
  datatype PaymentMethod = Card | Cash {
    function Text(): (s: string)
      ensures s == CardText || s == CashText
    {
      match this
      case Card => CardText
      case Cash => CashText
    }
  }

  datatype PaymentStatus = Pending | Paid {
    function Text(): (s: string)
      ensures s == PendingText || s == PaidText
    {
      match this
      case Pending => PendingText
      case Paid => PaidText
    }
  }

  /** The validator's `oneof` rule: the value equals one of the listed words. */
  predicate OneOf(value: string, words: seq<string>) {
    value in words
  }

  /** The words of `validate:"oneof=card cash"` and `validate:"oneof=pending paid"`. */
  const MethodWords: seq<string> := [CardText, CashText]
  const StatusWords: seq<string> := [PendingText, PaidText]

  function ParsePaymentMethod(s: string): (r: Option<PaymentMethod>)
    ensures r.Some? <==> OneOf(s, MethodWords)
    ensures r.Some? ==> r.value.Text() == s
  {
    if s == CardText then Some(Card) else if s == CashText then Some(Cash) else None
  }

  function ParsePaymentStatus(s: string): (r: Option<PaymentStatus>)
    ensures r.Some? <==> OneOf(s, StatusWords)
    ensures r.Some? ==> r.value.Text() == s
  {
    if s == PendingText then Some(Pending) else if s == PaidText then Some(Paid) else None
  }

  /** The two methods are told apart by their text, and parsing inverts Text. */
  lemma PaymentMethodRoundTrip(m: PaymentMethod)
    ensures ParsePaymentMethod(m.Text()) == Some(m)
    ensures Card.Text() != Cash.Text()
  {
  }

  lemma PaymentStatusRoundTrip(st: PaymentStatus)
    ensures ParsePaymentStatus(st.Text()) == Some(st)
    ensures Pending.Text() != Paid.Text()
  {
  }

  /** validate.Struct on an Invoice: the only tagged fields are the two enums. */
  predicate ValidInvoice(inv: Invoice) {
    OneOf(inv.paymentMethod, MethodWords) && OneOf(inv.paymentStatus, StatusWords)
  }

  /** An invoice passes validation exactly when both strings name an enum value. */
  lemma ValidInvoiceNamesEnums(inv: Invoice)
    ensures ValidInvoice(inv) <==>
      ParsePaymentMethod(inv.paymentMethod).Some? && ParsePaymentStatus(inv.paymentStatus).Some?
  {
  }
}
