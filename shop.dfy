/** The shop the bot fronts: catalogue and cart records as the Elastic Path backend returns
    them, the outbound actions the handlers perform, the ways a handler can fail, and the
    backend itself as an oracle that either answers or fails. */
module Shop {
  import opened PyBuiltins
  import opened Telegram

  /** A catalogue entry, as far as the main menu reads it (`product['id']`, `product['name']`). */
  datatype Product = Product(id: string, name: string)

  /** A cart line: name, description, formatted unit price with tax, quantity and formatted
      line price with tax. */
  datatype CartItem = CartItem(name: string, description: string, unitPrice: string, quantity: int, linePrice: string)

  /** The five values `handle_menu` unpacks from `get_product_details`. */
  datatype ProductDetails = ProductDetails(name: string, price: string, stock: string, description: string, imageId: string)

  /** One outbound action, in the order a handler performs them. */
  datatype Effect =
    | ReplyText(chatId: ChatId, text: string, markup: Option<Keyboard>)       // update.message.reply_text
    | SendMessage(chatId: ChatId, text: string, markup: Option<Keyboard>)     // bot.send_message
    | DeleteMessage(chatId: ChatId, messageId: int)                           // bot.delete_message
    | SendPhoto(chatId: ChatId, imagePath: string, caption: string, keyboard: Keyboard)  // bot.send_photo
    | DownloadImage(url: string, path: string)                                // download_image
    | RemoveFile(path: string)                                                // os.remove
    | AddToCart(token: string, cartId: string, productId: string, quantity: int)  // add_product_to_cart

  /** Why a handler raised. */
  datatype Failure =
    | MissingMessage                  // the update has no message, yet the handler reads it
    | MissingCallbackQuery            // the update has no callback query, yet the handler reads it
    | BackendUnavailable(call: string)  // a backend query raised
    | InvalidImageUrl(reason: string)  // urlsplit's ValueError
    | WrongPartCount(parts: nat)      // unpacking `data.split(', ')` into two names
    | InvalidQuantity(reason: string)  // int()'s ValueError
    | ActionFailed(effect: Effect)    // an outbound action raised

  /** The backend and the transport as an oracle: each query answers or fails (None), and
      `accepts` says which outbound actions succeed. */
  datatype Backend = Backend(
    token: Option<string>,
    products: string -> Option<seq<Product>>,
    cartItems: (string, string) -> Option<seq<CartItem>>,
    cartTotal: (string, string) -> Option<string>,
    productDetails: (string, string) -> Option<ProductDetails>,
    imageLink: (string, string) -> Option<string>,
    accepts: Effect -> bool)

  /** What running a handler produced: the actions that succeeded, in order, and either the
      next state it returned or why it raised. */
  datatype Outcome = Outcome(effects: seq<Effect>, result: Result<string, Failure>)

  /** Raising before any further action. */
  function Raise(f: Failure): (o: Outcome)
    ensures o.effects == [] && o.result == Err(f)
  {
    Outcome([], Err(f))
  }

  /** Performing `e` and then continuing with `rest`; an action that fails raises at once,
      so nothing after it happens. */
  function Perform(b: Backend, e: Effect, rest: Outcome): (o: Outcome)
    ensures b.accepts(e) ==> o.effects == [e] + rest.effects && o.result == rest.result
    ensures !b.accepts(e) ==> o.effects == [] && o.result == Err(ActionFailed(e))
  {
    if b.accepts(e) then Outcome([e] + rest.effects, rest.result) else Raise(ActionFailed(e))
  }

  /** Returning `state` once every action has been performed. */
  function Done(state: string): (o: Outcome)
    ensures o.effects == [] && o.result == Ok(state)
  {
    Outcome([], Ok(state))
  }

  /** Performing the actions of `plan` one after the other, as consecutive statements of a
      handler do, and then returning `state`. */
  function Run(b: Backend, plan: seq<Effect>, state: string): (o: Outcome)
    ensures |o.effects| <= |plan| && o.effects == plan[..|o.effects|]
    ensures o.result.Ok? ==> o.result.value == state && o.effects == plan
    ensures o.result.Err? ==> o.result.error.ActionFailed?
    decreases |plan|
  {
    if |plan| == 0 then Done(state) else Perform(b, plan[0], Run(b, plan[1..], state))
  }

  /** The position of the first action of `plan` the backend refuses, or `|plan|`. */
  function FirstRefused(b: Backend, plan: seq<Effect>): (n: nat)
    ensures n <= |plan|
    ensures forall i :: 0 <= i < n ==> b.accepts(plan[i])
    ensures n < |plan| ==> !b.accepts(plan[n])
    decreases |plan|
  {
    if |plan| == 0 || !b.accepts(plan[0]) then 0 else 1 + FirstRefused(b, plan[1..])
  }

  /** The actions performed are those of the plan up to the first refused one; the state is
      returned exactly when none is refused, and otherwise the refused action is the failure. */
  lemma {:induction false} RunStopsAtFirstRefused(b: Backend, plan: seq<Effect>, state: string)
    ensures Run(b, plan, state).effects == plan[..FirstRefused(b, plan)]
    ensures Run(b, plan, state).result ==
      if FirstRefused(b, plan) == |plan| then Ok(state) else Err(ActionFailed(plan[FirstRefused(b, plan)]))
    decreases |plan|
  {
    if |plan| > 0 && b.accepts(plan[0]) {
      RunStopsAtFirstRefused(b, plan[1..], state);
      var n := FirstRefused(b, plan[1..]);
      assert plan[..n + 1] == [plan[0]] + plan[1..][..n];
    }
  }

  /** When every action is accepted, all of them are performed and the state is returned. */
  lemma RunAccepted(b: Backend, plan: seq<Effect>, state: string)
    requires forall i :: 0 <= i < |plan| ==> b.accepts(plan[i])
    ensures Run(b, plan, state) == Outcome(plan, Ok(state))
  {
    RunStopsAtFirstRefused(b, plan, state);
    assert plan[..|plan|] == plan;
  }

  /** A backend that accepts every action performs all of them and returns the state. */
  lemma RunAcceptingAll(b: Backend, plan: seq<Effect>, state: string)
    requires forall e :: b.accepts(e)
    ensures Run(b, plan, state) == Outcome(plan, Ok(state))
  {
    RunAccepted(b, plan, state);
  }

  /** The backend answers every query and accepts every action. */
  ghost predicate Reliable(b: Backend) {
    && b.token.Some?
    && (forall t :: b.products(t).Some?)
    && (forall t, c :: b.cartItems(t, c).Some?)
    && (forall t, c :: b.cartTotal(t, c).Some?)
    && (forall t, p :: b.productDetails(t, p).Some?)
    && (forall t, f :: b.imageLink(t, f).Some?)
    && (forall e :: b.accepts(e))
  }
}
