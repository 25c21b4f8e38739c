/** The product screen: the quantity counter with the total it keeps, the add-to-cart request
    and the buy-now sequence that clears the cart first, and the stock gate on the controls. */
module ProductScreen {
  import opened Js

  /** The product the screen was opened with (`route.params.product`), as far as the screen
      uses it; the price is a whole number of rupees. */
  datatype Product = Product(productName: string, productPrice: int, productStock: string)

  /** A tap on one of the quantity buttons. */
  datatype Tap = Plus | Minus

  /** The requests the screen sends. */
  datatype Request =
    | ClearCartRequest
    | AddToCartRequest(fullproduct: Product, quantity: int, price: int)

  /** The reply to a request: an exception (network, or a body that is not JSON), or a parsed
      body, with or without an `error`. */
  datatype Reply = ReplyFailed | ReplyParsed(error: Option<string>)

  /** What the bottom bar holds. */
  datatype PriceBar = Controls | OutOfStockNotice

  /** The bottom bar: the quantity controls and the two purchase buttons, unless the product
      is out of stock. */
  function PriceBarOf(p: Product): (b: PriceBar)
    ensures b == Controls <==> p.productStock != "OUTOFSTOCK"
  {
    if p.productStock != "OUTOFSTOCK" then Controls else OutOfStockNotice
  }

  /** The quantity after one tap: plus adds one, minus takes one away only from a quantity
      above one. */
  function Step(quantity: int, tap: Tap): int {
    match tap
    case Plus => quantity + 1
    case Minus => if quantity > 1 then quantity - 1 else quantity
  }

  /** The quantity after a series of taps. */
  function AfterTaps(quantity: int, taps: seq<Tap>): int
    decreases |taps|
  {
    if taps == [] then quantity else AfterTaps(Step(quantity, taps[0]), taps[1..])
  }

  /** The number of taps of one kind. */
  function Count(taps: seq<Tap>, t: Tap): nat
    decreases |taps|
  {
    if taps == [] then 0 else (if taps[0] == t then 1 else 0) + Count(taps[1..], t)
  }

  /** Starting at one or more, no series of taps brings the quantity below one, and it never
      rises by more than the number of plus taps nor falls by more than the number of minus
      taps. */
  lemma {:induction false} TapsKeepQuantity(quantity: int, taps: seq<Tap>)
    requires quantity >= 1
    ensures AfterTaps(quantity, taps) >= 1
    ensures quantity - Count(taps, Minus) <= AfterTaps(quantity, taps) <= quantity + Count(taps, Plus)
    decreases |taps|
  {
    if taps != [] {
      TapsKeepQuantity(Step(quantity, taps[0]), taps[1..]);
    }
  }

  /** Without a minus tap, the quantity rises by exactly the number of plus taps. */
  lemma {:induction false} OnlyPlus(quantity: int, taps: seq<Tap>)
    requires Count(taps, Minus) == 0
    ensures AfterTaps(quantity, taps) == quantity + |taps|
    decreases |taps|
  {
    if taps != [] {
      assert taps[0] == Plus;
      OnlyPlus(quantity + 1, taps[1..]);
    }
  }

  class Screen {
    const product: Product
    var quantity: int
    /** `total`, shown as the price. */
    var total: int

    /** The quantity is at least one and the total is the price times the quantity. */
    predicate Valid()
      reads this
    {
      quantity >= 1 && total == product.productPrice * quantity
    }

    /** The screen starts at quantity one with the product's price as its total. */
    constructor (product: Product)
      ensures this.product == product && quantity == 1 && total == product.productPrice
      ensures Valid()
    {
      this.product := product;
      quantity := 1;
      total := product.productPrice;
    }

    /** A tap on plus or minus, followed by the effect on `quantity` that sets the total. */
    method Press(tap: Tap)
      requires Valid()
      modifies this`quantity, this`total
      ensures quantity == Step(old(quantity), tap)
      ensures Valid()
    {
      match tap {
        case Plus =>
          quantity := quantity + 1;
        case Minus =>
          if quantity > 1 {
            quantity := quantity - 1;
          }
      }
      total := product.productPrice * quantity;
    }

    /** The body of the add-to-cart request: the whole product, the quantity, and the unit
        price rather than the total. */
    function AddToCartPayload(): (r: Request)
      reads this
      ensures r.AddToCartRequest? && r.fullproduct == product
      ensures r.quantity == quantity && r.price == product.productPrice
    {
      AddToCartRequest(product, quantity, product.productPrice)
    }

    /** Buy Now: the request that clears the cart and, once its reply has been parsed, the
        add-to-cart request for the current product and quantity. A failed clear sends
        nothing more. */
    function BuyNowRequests(clearReply: Reply): (rs: seq<Request>)
      reads this
      ensures |rs| >= 1 && rs[0] == ClearCartRequest
      ensures |rs| == 2 <==> clearReply.ReplyParsed?
      ensures |rs| <= 2
      ensures |rs| == 2 ==> rs[1] == AddToCartPayload()
    {
      if clearReply.ReplyParsed? then [ClearCartRequest, AddToCartPayload()] else [ClearCartRequest]
    }
  }

  /** After an add-to-cart request the screen moves to the cart whenever the reply is parsed,
      an error in it or not; only an exception keeps the user here. */
  function GoesToCart(reply: Reply): (go: bool)
    ensures go <==> !reply.ReplyFailed?
    ensures reply.ReplyParsed? && reply.error.Some? ==> go
  {
    reply.ReplyParsed?
  }

  /** With more than one item and a non-zero price, the price sent is not the total shown. */
  lemma PayloadIsUnitPrice(s: Screen)
    requires s.Valid() && s.quantity > 1 && s.product.productPrice != 0
    ensures s.AddToCartPayload().price != s.total
  {
    var p, q := s.product.productPrice, s.quantity;
    assert s.total - p == p * (q - 1);
    assert p * (q - 1) != 0;
  }
}
