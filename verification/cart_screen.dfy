/** The cart screen: the price of each cart entry and the cart total, the effect that keeps the
    total in step with the cart, the delivery address and its required fields, and the
    checkout that charges the grand total. */
module CartScreen {
  import opened Js
  import opened StoreExtras

  /** A cart entry. Its price and quantity and its product's `productDiscount` are held as the
      text `parseInt` reads them from. */
  datatype CartItem = CartItem(cartItemId: string, price: string, quantity: string, productDiscount: string)

  /** The delivery address. */
  datatype Address = Address(addressLine1: string, addressLine2: string, city: string, state: string, pincode: string)

  /** The five inputs of the address form. */
  datatype AddressField = AddressLine1 | AddressLine2 | City | State | Pincode

  /** The empty address the screen starts with. */
  const NoAddress: Address := Address("", "", "", "", "")

  /** The reply carrying the cart: an exception, or the user's cart. */
  datatype CartReply = CartFailed | CartAnswered(userCart: seq<CartItem>)

  /** The reply carrying an address: an exception, or the address. */
  datatype AddressReply = AddressFailed | AddressAnswered(address: Address)

  /** The body of the order request sent once the payment goes through. */
  datatype OrderRequest = OrderRequest(cartData: seq<CartItem>, cartTotal: Option<int>, shipping: int, address: Address)

  /** What a tap on Buy Now does: ask for an address, or open the payment sheet for an amount
      in paise (None is NaN) with the order to place after it. */
  datatype Checkout = AskForAddress | OpenPayment(amountPaise: Option<int>, order: OrderRequest)

  /** How a checkout ended: the payment sheet failed or was closed, the order request failed,
      the server answered with an error, or the order was placed and the server sent the
      emptied cart. */
  datatype OrderOutcome =
    | PaymentFailed
    | OrderFailed
    | OrderError(error: string)
    | OrderPlaced(userCart: seq<CartItem>)

  // ----- pricing -----

  /** `getProductTotal`. With a positive store-wide discount `d` it is the part of the price
      the discount takes, `price * quantity * d / 100`, and the product's own discount plays
      no part; otherwise it is the price less the product's discount, times the quantity.
      Both are truncated toward zero by `parseInt`; None is NaN. */
  function ProductTotal(item: CartItem, d: int): Option<int> {
    EntryTotal(ParseInt(item.price), ParseInt(item.quantity), ParseInt(item.productDiscount), d)
  }

  /** `getProductTotal` on the numbers `parseInt` read. */
  function EntryTotal(price: Option<int>, quantity: Option<int>, discount: Option<int>, d: int): Option<int> {
    if d > 0 then
      if price.Some? && quantity.Some? then Some(TruncDiv(price.value * quantity.value * d, 100))
      else None
    else if price.Some? && quantity.Some? && discount.Some? then
      Some(TruncDiv(price.value * (100 - discount.value) * quantity.value, 100))
    else None
  }

  /** JavaScript `+` on two numbers, NaN absorbing. */
  function AddTotals(a: Option<int>, b: Option<int>): (s: Option<int>)
    ensures s.Some? <==> a.Some? && b.Some?
    ensures s.Some? ==> s.value == a.value + b.value
  {
    if a.Some? && b.Some? then Some(a.value + b.value) else None
  }

  /** The total of each entry, in cart order. */
  function Totals(items: seq<CartItem>, d: int): (ts: seq<Option<int>>)
    ensures |ts| == |items|
    ensures forall i :: 0 <= i < |items| ==> ts[i] == ProductTotal(items[i], d)
  {
    seq(|items|, i requires 0 <= i < |items| => ProductTotal(items[i], d))
  }

  /** A `reduce` from 0 that adds each number in turn. */
  function Sum(ts: seq<Option<int>>): Option<int> {
    if |ts| == 0 then Some(0) else AddTotals(Sum(ts[..|ts| - 1]), ts[|ts| - 1])
  }

  /** `cartData.reduce((acc, item) => acc + getProductTotal(item), 0)`. */
  function CartTotal(items: seq<CartItem>, d: int): Option<int> {
    Sum(Totals(items, d))
  }

  /** With a positive store-wide discount an entry's total is exactly the truncated discount
      part of its price, whatever the product's own discount. */
  lemma {:induction false} StoreDiscountIgnoresProductDiscount(item: CartItem, d: int, p: int, q: int)
    requires d > 0
    requires ParseInt(item.price) == Some(p) && ParseInt(item.quantity) == Some(q)
    ensures ProductTotal(item, d) == Some(TruncDiv(p * q * d, 100))
    ensures forall pd :: ProductTotal(item.(productDiscount := pd), d) == ProductTotal(item, d)
  {
  }

  /** An entry priced 100, quantity 1, under a 10% store-wide discount costs 10, not the
      90 the price less the discount would be. */
  lemma {:induction false} StoreDiscountExample(item: CartItem)
    requires ParseInt(item.price) == Some(100) && ParseInt(item.quantity) == Some(1)
    ensures ProductTotal(item, 10) == Some(10)
  {
    TenPercentOfHundred(ParseInt(item.productDiscount));
  }

  lemma TenPercentOfHundred(pd: Option<int>)
    ensures EntryTotal(Some(100), Some(1), pd, 10) == Some(10)
  {
  }

  /** Without a store-wide discount, an entry without a product discount costs its price
      times its quantity. */
  lemma {:induction false} UndiscountedEntry(item: CartItem, d: int, p: int, q: int)
    requires d <= 0
    requires ParseInt(item.price) == Some(p) && ParseInt(item.quantity) == Some(q)
    requires ParseInt(item.productDiscount) == Some(0)
    ensures ProductTotal(item, d) == Some(p * q)
  {
    NoDiscounts(p, q, d);
  }

  lemma NoDiscounts(p: int, q: int, d: int)
    requires d <= 0
    ensures EntryTotal(Some(p), Some(q), Some(0), d) == Some(p * q)
  {
    assert p * (100 - 0) * q == (p * q) * 100;
    TimesHundred(p * q);
  }

  lemma TimesHundred(n: int)
    ensures TruncDiv(n * 100, 100) == n
  {
  }

  /** With a non-negative price and quantity and discounts between 0 and 100 percent, an
      entry costs between nothing and its price times its quantity. */
  lemma {:induction false} ProductTotalBounds(item: CartItem, d: int, p: nat, q: nat, pd: int)
    requires ParseInt(item.price) == Some(p) && ParseInt(item.quantity) == Some(q)
    requires ParseInt(item.productDiscount) == Some(pd)
    requires d <= 100 && 0 <= pd <= 100
    ensures ProductTotal(item, d).Some?
    ensures 0 <= ProductTotal(item, d).value <= p * q
  {
    EntryTotalBounds(p, q, pd, d);
  }

  lemma EntryTotalBounds(p: nat, q: nat, pd: int, d: int)
    requires d <= 100 && 0 <= pd <= 100
    ensures EntryTotal(Some(p), Some(q), Some(pd), d).Some?
    ensures 0 <= EntryTotal(Some(p), Some(q), Some(pd), d).value <= p * q
  {
    if d > 0 {
      PartOfHundred(p * q, d);
      assert p * q * d == (p * q) * d;
    } else {
      PartOfHundred(p * q, 100 - pd);
      assert p * (100 - pd) * q == (p * q) * (100 - pd);
    }
  }

  lemma PartOfHundred(n: nat, f: int)
    requires 0 <= f <= 100
    ensures 0 <= TruncDiv(n * f, 100) <= n
  {
    assert 0 <= n * f <= n * 100;
    assert (n * 100) / 100 == n;
    DivMonotone(n * f, n * 100);
  }

  lemma DivMonotone(a: nat, b: nat)
    requires a <= b
    ensures a / 100 <= b / 100
  {
  }

  /** A sum is a number (not NaN) exactly when every term is. */
  lemma {:induction false} SumDefined(ts: seq<Option<int>>)
    ensures Sum(ts).Some? <==> forall i :: 0 <= i < |ts| ==> ts[i].Some?
  {
    if |ts| > 0 {
      var init := ts[..|ts| - 1];
      SumDefined(init);
      assert forall i :: 0 <= i < |init| ==> init[i] == ts[i];
    }
  }

  /** The sum of two sequences joined is the sum of their sums. */
  lemma {:induction false} SumAppend(a: seq<Option<int>>, b: seq<Option<int>>)
    ensures Sum(a + b) == AddTotals(Sum(a), Sum(b))
  {
    if |b| == 0 {
      assert a + b == a;
    } else {
      var init := b[..|b| - 1];
      assert (a + b)[..|a + b| - 1] == a + init;
      assert (a + b)[|a + b| - 1] == b[|b| - 1];
      SumAppend(a, init);
    }
  }

  /** The cart total is a number (not NaN) exactly when every entry's total is. */
  lemma {:induction false} CartTotalDefined(items: seq<CartItem>, d: int)
    ensures CartTotal(items, d).Some? <==> forall i :: 0 <= i < |items| ==> ProductTotal(items[i], d).Some?
  {
    SumDefined(Totals(items, d));
  }

  /** The total of two carts joined is the sum of their totals. */
  lemma {:induction false} CartTotalAppend(a: seq<CartItem>, b: seq<CartItem>, d: int)
    ensures CartTotal(a + b, d) == AddTotals(CartTotal(a, d), CartTotal(b, d))
  {
    TotalsAppend(a, b, d);
    SumAppend(Totals(a, d), Totals(b, d));
  }

  lemma {:induction false} TotalsAppend(a: seq<CartItem>, b: seq<CartItem>, d: int)
    ensures Totals(a + b, d) == Totals(a, d) + Totals(b, d)
  {
    var l, r := Totals(a + b, d), Totals(a, d) + Totals(b, d);
    forall i | 0 <= i < |a + b|
      ensures l[i] == r[i]
    {
      if i < |a| {
        assert (a + b)[i] == a[i];
      } else {
        assert (a + b)[i] == b[i - |a|];
      }
    }
  }

  /** The order of two parts of the cart does not change the total. */
  lemma {:induction false} CartTotalSwap(a: seq<CartItem>, b: seq<CartItem>, d: int)
    ensures CartTotal(a + b, d) == CartTotal(b + a, d)
  {
    CartTotalAppend(a, b, d);
    CartTotalAppend(b, a, d);
  }

  /** An empty cart totals zero. */
  lemma EmptyCartTotal(d: int)
    ensures CartTotal([], d) == Some(0)
  {
  }

  // ----- the address -----

  /** The fields a delivery needs: the first address line, the city and the pincode. */
  predicate AddressComplete(a: Address) {
    a.addressLine1 != "" && a.city != "" && a.pincode != ""
  }

  /** One field of the address. */
  function FieldOf(a: Address, f: AddressField): string {
    match f
    case AddressLine1 => a.addressLine1
    case AddressLine2 => a.addressLine2
    case City => a.city
    case State => a.state
    case Pincode => a.pincode
  }

  /** `setAddress({ ...address, [f]: text })`: the named field becomes `text` and every
      other field keeps its value. */
  function SetAddressField(a: Address, f: AddressField, text: string): (r: Address)
    ensures FieldOf(r, f) == text
    ensures forall g :: g != f ==> FieldOf(r, g) == FieldOf(a, g)
  {
    match f
    case AddressLine1 => a.(addressLine1 := text)
    case AddressLine2 => a.(addressLine2 := text)
    case City => a.(city := text)
    case State => a.(state := text)
    case Pincode => a.(pincode := text)
  }

  /** The second address line and the state are optional: editing them never changes
      whether the address is complete. */
  lemma OptionalFields(a: Address, f: AddressField, text: string)
    requires f == AddressLine2 || f == State
    ensures AddressComplete(SetAddressField(a, f, text)) == AddressComplete(a)
  {
  }

  class Screen {
    /** `cartData`. */
    var cartData: seq<CartItem>
    var loading: bool
    /** `totalAmount`; None is NaN. */
    var totalAmount: Option<int>
    var address: Address
    var addressModalVisible: bool
    var addressLoading: bool
    var extras: Extras

    constructor ()
      ensures cartData == [] && !loading && totalAmount == Some(0)
      ensures address == NoAddress && !addressModalVisible && !addressLoading
      ensures extras == Defaults
    {
      cartData := [];
      loading := false;
      totalAmount := Some(0);
      address := NoAddress;
      addressModalVisible := false;
      addressLoading := false;
      extras := Defaults;
    }

    /** The effect on `[cartData, extras]`: a non-empty cart has its total recomputed; an
        empty cart leaves the total as it was. */
    method RecomputeTotal()
      modifies this`totalAmount
      ensures |cartData| > 0 ==> totalAmount == CartTotal(cartData, extras.allProductsDiscount)
      ensures |cartData| == 0 ==> totalAmount == old(totalAmount)
    {
      if |cartData| > 0 {
        totalAmount := CartTotal(cartData, extras.allProductsDiscount);
      }
    }

    /** `getCardData` with the `getExtras` it awaits. The cart is stored and the effect runs;
        the settings reply then either throws, which skips the rest, or is answered, in which
        case the callback sets the total it computed with the discount its closure saw, in
        the same render as the new settings, and the effect that render triggers recomputes
        it. So the total ends up matching the cart under the current settings. */
    method GetCardData(reply: CartReply, extrasReply: ExtrasReply)
      modifies this`cartData, this`extras, this`totalAmount, this`loading
      ensures !loading
      ensures reply.CartFailed? ==> cartData == old(cartData) && extras == old(extras) && totalAmount == old(totalAmount)
      ensures reply.CartAnswered? ==> cartData == reply.userCart
      ensures reply.CartAnswered? ==> extras == AfterExtrasReply(extrasReply, old(extras))
      ensures reply.CartAnswered? && (|cartData| > 0 || !extrasReply.ExtrasFailed?) ==>
        totalAmount == CartTotal(cartData, extras.allProductsDiscount)
      ensures reply.CartAnswered? && |reply.userCart| == 0 && extrasReply.ExtrasFailed? ==>
        totalAmount == old(totalAmount)
    {
      loading := true;
      var closureDiscount := extras.allProductsDiscount;
      if reply.CartAnswered? {
        cartData := reply.userCart;
        RecomputeTotal();
        if !extrasReply.ExtrasFailed? {
          extras := AfterExtrasReply(extrasReply, extras);
          totalAmount := CartTotal(reply.userCart, closureDiscount);
          if extrasReply.ExtrasAnswered? {
            RecomputeTotal();
          }
        }
      }
      loading := false;
    }

    /** `deleteCartItem`: the cart the server returns replaces the cart and the effect runs;
        so deleting the last entry leaves the old total in place. An exception ends loading. */
    method DeleteCartItem(reply: CartReply)
      modifies this`cartData, this`totalAmount, this`loading
      ensures reply.CartAnswered? ==> cartData == reply.userCart && loading == old(loading)
      ensures reply.CartAnswered? && |reply.userCart| > 0 ==>
        totalAmount == CartTotal(cartData, extras.allProductsDiscount)
      ensures reply.CartAnswered? && |reply.userCart| == 0 ==> totalAmount == old(totalAmount)
      ensures reply.CartFailed? ==> cartData == old(cartData) && totalAmount == old(totalAmount) && !loading
    {
      if reply.CartAnswered? {
        cartData := reply.userCart;
        RecomputeTotal();
      } else {
        loading := false;
      }
    }

    /** The grand total on screen: the cart total plus the delivery charges. */
    function GrandTotal(): (g: Option<int>)
      reads this
      ensures g.Some? <==> totalAmount.Some?
      ensures g.Some? ==> g.value - extras.deliveryCharges == totalAmount.value
    {
      AddTotals(totalAmount, Some(extras.deliveryCharges))
    }

    /** `buyNow`: without the first address line, the city or the pincode it only asks for an
        address; otherwise it opens the payment sheet for 100 times the grand total (in
        paise), with the cart, its total, the delivery charges and the address as the order. */
    function BuyNow(): (c: Checkout)
      reads this
      ensures c.AskForAddress? <==> !AddressComplete(address)
      ensures c.OpenPayment? ==> c.amountPaise.Some? == GrandTotal().Some?
      ensures c.OpenPayment? && c.amountPaise.Some? ==> c.amountPaise.value == 100 * GrandTotal().value
      ensures c.OpenPayment? ==> c.order == OrderRequest(cartData, totalAmount, extras.deliveryCharges, address)
    {
      if address.addressLine1 == "" || address.city == "" || address.pincode == "" then AskForAddress
      else
        var amount := if totalAmount.Some? then Some((totalAmount.value + extras.deliveryCharges) * 100) else None;
        OpenPayment(amount, OrderRequest(cartData, totalAmount, extras.deliveryCharges, address))
    }

    /** The Buy Now button: not loading (a spinner replaces the whole list then), a non-empty
        cart and a complete address. */
    predicate BuyNowShown()
      reads this
    {
      !loading && |cartData| > 0 && address.addressLine1 != "" && address.city != "" && address.pincode != ""
    }

    /** The outcome of a checkout: a placed order replaces the cart with the one the server
        returns and leads to the orders list, the effect leaving the total as it was when that
        cart is empty; a failed order request ends loading; anything else changes nothing. */
    method CompleteOrder(outcome: OrderOutcome) returns (toOrders: bool)
      modifies this`cartData, this`totalAmount, this`loading
      ensures toOrders <==> outcome.OrderPlaced?
      ensures outcome.OrderPlaced? ==> cartData == outcome.userCart
      ensures outcome.OrderPlaced? && |outcome.userCart| > 0 ==>
        totalAmount == CartTotal(cartData, extras.allProductsDiscount)
      ensures outcome.OrderPlaced? && |outcome.userCart| == 0 ==> totalAmount == old(totalAmount)
      ensures !outcome.OrderPlaced? ==> cartData == old(cartData) && totalAmount == old(totalAmount)
      ensures loading == (old(loading) && !outcome.OrderFailed?)
    {
      toOrders := false;
      match outcome
      case OrderPlaced(userCart) =>
        cartData := userCart;
        RecomputeTotal();
        toOrders := true;
      case OrderFailed =>
        loading := false;
      case _ =>
    }

    /** `getUserAddress`: the address the server holds replaces the form; an exception ends
        loading. */
    method GetUserAddress(reply: AddressReply)
      modifies this`address, this`loading
      ensures reply.AddressAnswered? ==> address == reply.address && loading == old(loading)
      ensures reply.AddressFailed? ==> address == old(address) && !loading
    {
      if reply.AddressAnswered? {
        address := reply.address;
      } else {
        loading := false;
      }
    }

    /** A keystroke in one field of the address form. */
    method EditAddress(f: AddressField, text: string)
      modifies this`address
      ensures address == SetAddressField(old(address), f, text)
    {
      address := SetAddressField(address, f, text);
    }

    method OpenAddressModal()
      modifies this`addressModalVisible
      ensures addressModalVisible
    {
      addressModalVisible := true;
    }

    method CloseAddressModal()
      modifies this`addressModalVisible
      ensures !addressModalVisible
    {
      addressModalVisible := false;
    }

    /** `addNewAddress`: a complete address is sent and the modal closes; an incomplete one
        only brings a notice, and the modal stays as it was. */
    method AddNewAddress() returns (sent: bool)
      modifies this`addressModalVisible, this`addressLoading
      ensures sent <==> AddressComplete(address)
      ensures sent ==> !addressModalVisible && addressLoading
      ensures !sent ==> addressModalVisible == old(addressModalVisible) && addressLoading == old(addressLoading)
    {
      sent := |address.addressLine1| > 0 && |address.city| > 0 && |address.pincode| > 0;
      if sent {
        addressLoading := true;
        addressModalVisible := false;
      }
    }

    /** The reply to the saved address: the address the server returns replaces the form;
        saving ends either way. */
    method AddressSaved(reply: AddressReply)
      modifies this`address, this`addressLoading
      ensures !addressLoading
      ensures reply.AddressAnswered? ==> address == reply.address
      ensures reply.AddressFailed? ==> address == old(address)
    {
      addressLoading := false;
      if reply.AddressAnswered? {
        address := reply.address;
      }
    }
  }

  /** The Buy Now button is only on screen when a tap on it opens the payment sheet. */
  lemma ButtonOpensPayment(s: Screen)
    requires s.BuyNowShown()
    ensures s.BuyNow().OpenPayment?
  {
  }

  /** A shown Buy Now button charges 100 times the grand total on screen. */
  lemma ChargedIsGrandTotal(s: Screen)
    requires s.BuyNowShown() && s.totalAmount.Some?
    ensures s.BuyNow().amountPaise == Some(100 * (s.totalAmount.value + s.extras.deliveryCharges))
  {
  }
}
