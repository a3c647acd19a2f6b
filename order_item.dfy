/** The editable order line (src/components/orders/OrderItem.tsx): a minus button, a typed
    quantity, a plus button and a remove button. Each control computes the quantity it asks
    the parent to set, or the id it asks the parent to remove; nothing is stored here. */
module OrderItemStepper {
  import opened Wrappers
  import opened Domain
  import Text

  /** The arguments of one `onQuantityChange(id, quantity)` call. */
  datatype QuantityRequest = QuantityRequest(id: Id, quantity: int)

  /** The minus button: `Math.max(1, quantity - 1)`. */
  function MinusClicked(item: OrderItem): (r: QuantityRequest)
    ensures r.id == item.id
    ensures r.quantity >= 1
    ensures item.quantity >= 2 ==> r.quantity == item.quantity - 1
    ensures item.quantity <= 2 ==> r.quantity == 1
  {
    QuantityRequest(item.id, if item.quantity - 1 > 1 then item.quantity - 1 else 1)
  }

  /** The plus button: one more than the line holds. */
  function PlusClicked(item: OrderItem): (r: QuantityRequest)
    ensures r.id == item.id && r.quantity == item.quantity + 1
  {
    QuantityRequest(item.id, item.quantity + 1)
  }

  /** Pressing minus after plus asks for the quantity the line had, for any positive quantity. */
  lemma MinusUndoesPlus(item: OrderItem)
    requires item.quantity >= 1
    ensures MinusClicked(item.(quantity := PlusClicked(item).quantity)).quantity == item.quantity
  {
  }

  /** The typed quantity: forwarded only when `parseInt` yields an integer greater than 0. */
  function QuantityTyped(item: OrderItem, text: string): (r: Option<QuantityRequest>)
    ensures r.Some? ==> r.value.id == item.id && r.value.quantity > 0
    ensures r.Some? <==> Text.ParseInt(text).Some? && Text.ParseInt(text).value > 0
    ensures r.Some? ==> r.value.quantity == Text.ParseInt(text).value
  {
    match Text.ParseInt(text)
    case Some(v) => if v > 0 then Some(QuantityRequest(item.id, v)) else None
    case None => None
  }

  /** Typing the decimal digits of a number sets exactly that number when it is positive,
      and fires nothing when it is zero or negative. */
  lemma QuantityTypedDecimal(item: OrderItem, n: int)
    ensures QuantityTyped(item, Text.IntToDecimal(n)) == if n > 0 then Some(QuantityRequest(item.id, n)) else None
  {
    Text.ParseIntDecimal(n);
  }

  /** What the number field may hold around the digits does not matter: leading whitespace
      is skipped and anything after the digits is ignored, so `" 07"` sets 7 and `"3abc"`
      sets 3. */
  lemma QuantityTypedDigits(item: OrderItem, w: string, d: string, rest: string)
    requires forall i :: 0 <= i < |w| ==> Text.IsWhitespace(w[i])
    requires |d| > 0 && forall i :: 0 <= i < |d| ==> Text.IsDigit(d[i])
    requires rest == [] || !Text.IsDigit(rest[0])
    ensures QuantityTyped(item, w + (d + rest))
         == if Text.DigitsValue(d) > 0 then Some(QuantityRequest(item.id, Text.DigitsValue(d))) else None
  {
    Text.ParseIntSkipsWhitespace(w, d + rest);
    Text.ParseIntIgnoresSuffix(d, rest);
  }

  /** Every request the three quantity controls can make asks for a positive quantity. */
  ghost predicate FromStepper(item: OrderItem, r: QuantityRequest)
  {
    r == MinusClicked(item) || r == PlusClicked(item)
    || exists text :: QuantityTyped(item, text) == Some(r)
  }

  lemma StepperRequestsPositive(item: OrderItem, r: QuantityRequest)
    requires item.quantity >= 1
    requires FromStepper(item, r)
    ensures r.id == item.id && r.quantity >= 1
  {
  }

  /** The remove button passes the line's own id. */
  function RemoveClicked(item: OrderItem): Id
  {
    item.id
  }

  /** The amount shown on the line: `price * quantity`, the line's part of the subtotal. */
  function LineTotal(item: OrderItem): (t: real)
    ensures t == LineAmount(item)
    ensures item.price >= 0.0 && item.quantity >= 0 ==> t >= 0.0
  {
    item.price * item.quantity as real
  }
}
