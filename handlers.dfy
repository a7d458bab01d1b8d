/** The four state handlers of the bot (`start`, `echo`, `handle_menu`, `handle_description`)
    and the main-menu builder they share. Each handler reads the raw update, queries the
    backend in the order the source does and performs its actions one after the other; the
    outcome lists the actions that happened and either the next state or why it raised. */
module Handlers {
  import opened PyBuiltins
  import opened Telegram
  import opened Shop
  import opened Keyboards
  import opened MessageText
  import opened ImageUrls

  const StartState: string := "START"
  const EchoState: string := "ECHO"
  const MenuState: string := "HANDLE_MENU"
  const DescriptionState: string := "HANDLE_DESCRIPTION"

  /** The text sent with the main menu. */
  const ChooseText: string := "Please choose:"

  /** The cart of a chat: the chat id rendered in decimal, as the backend's cart URLs hold it. */
  function CartId(chat: ChatId): string {
    IntToString(chat)
  }

  /** Distinct chats never share a cart. */
  lemma CartIdInjective(c1: ChatId, c2: ChatId)
    ensures CartId(c1) == CartId(c2) <==> c1 == c2
  {
    ParseIntOfIntToString(c1);
    ParseIntOfIntToString(c2);
  }

  /** Every query and every check of a handler comes before its first action: an outcome
      that failed otherwise than on an action performed nothing. */
  predicate BeforeActions(o: Outcome) {
    o.result.Err? && !o.result.error.ActionFailed? ==> o.effects == []
  }

  // ---------------------------------------------------------------------------
  // get_main_menu_keyboard

  /** `get_main_menu_keyboard`: a token, then the catalogue, then the keyboard. */
  function MainMenu(b: Backend): (r: Result<Keyboard, Failure>)
    ensures r.Ok? ==> |r.value| >= 1 && r.value[|r.value| - 1] == [CartButton]
    ensures r.Err? ==> r.error.BackendUnavailable?
  {
    match b.token
    case None => Err(BackendUnavailable("get_authorization_token"))
    case Some(token) =>
      match b.products(token)
      case None => Err(BackendUnavailable("get_products"))
      case Some(products) =>
        MainMenuKeyboardShape(products);
        Ok(MainMenuKeyboard(products))
  }

  /** With a token and a catalogue the main menu is the catalogue's keyboard. */
  lemma MainMenuOfCatalogue(b: Backend)
    requires b.token.Some? && b.products(b.token.value).Some?
    ensures MainMenu(b) == Ok(MainMenuKeyboard(b.products(b.token.value).value))
  {
  }

  // ---------------------------------------------------------------------------
  // start and echo

  /** `start`: reply to the message with the main menu and go to HANDLE_MENU. */
  function Start(u: Update, b: Backend): (o: Outcome)
    ensures o.result.Ok? ==> o.result.value == MenuState
    ensures |o.effects| <= 1
    ensures o.result.Ok? ==> (u.message.Some? && MainMenu(b).Ok? &&
      o.effects == [ReplyText(u.message.value.chatId, ChooseText, Some(MainMenu(b).value))])
    ensures BeforeActions(o)
  {
    match u.message
    case None => Raise(MissingMessage)
    case Some(m) =>
      match MainMenu(b)
      case Err(f) => Raise(f)
      case Ok(keyboard) => Run(b, [ReplyText(m.chatId, ChooseText, Some(keyboard))], MenuState)
  }

  /** `echo`: reply with the message's own text and go to ECHO. */
  function Echo(u: Update, b: Backend): (o: Outcome)
    ensures o.result.Ok? ==> o.result.value == EchoState
    ensures |o.effects| <= 1
    ensures o.result.Ok? ==> (u.message.Some? &&
      o.effects == [ReplyText(u.message.value.chatId, u.message.value.text, None)])
    ensures BeforeActions(o)
  {
    match u.message
    case None => Raise(MissingMessage)
    case Some(m) => Run(b, [ReplyText(m.chatId, m.text, None)], EchoState)
  }

  // ---------------------------------------------------------------------------
  // handle_menu

  /** The actions of the cart view: delete the menu message, then send the listing. */
  function CartViewPlan(q: CallbackQuery, items: seq<CartItem>, total: string): seq<Effect> {
    [DeleteMessage(q.message.chatId, q.message.messageId), SendMessage(q.message.chatId, CartText(items, total), None)]
  }

  /** The file the product image is saved to: the product name and the image's extension,
      inside the image folder. */
  function ImagePath(folder: string, d: ProductDetails, extension: string): (path: string)
    ensures |path| >= |d.name + extension| && path[|path| - |d.name + extension|..] == d.name + extension
  {
    JoinPath(folder, d.name + extension)
  }

  /** The actions of the product view: download the image, delete the menu message, send the
      photo with its caption and the card keyboard, then remove the file. */
  function ProductViewPlan(q: CallbackQuery, d: ProductDetails, link: string, path: string): seq<Effect> {
    [ DownloadImage(link, path),
      DeleteMessage(q.message.chatId, q.message.messageId),
      SendPhoto(q.message.chatId, path, Caption(d), ProductCardKeyboard(q.data)),
      RemoveFile(path) ]
  }

  /** The cart branch of `handle_menu`: the chat's cart items, then its total. */
  function ShowCart(q: CallbackQuery, token: string, b: Backend): (o: Outcome)
    ensures o.result.Ok? ==> o.result.value == MenuState
    ensures o.result.Ok? ==> (
      && b.cartItems(token, CartId(q.message.chatId)).Some?
      && b.cartTotal(token, CartId(q.message.chatId)).Some?
      && o.effects == CartViewPlan(q, b.cartItems(token, CartId(q.message.chatId)).value,
                                      b.cartTotal(token, CartId(q.message.chatId)).value))
    ensures b.cartItems(token, CartId(q.message.chatId)).None? ==> o == Raise(BackendUnavailable("get_cart_items"))
    ensures BeforeActions(o)
  {
    var cart := CartId(q.message.chatId);
    match b.cartItems(token, cart)
    case None => Raise(BackendUnavailable("get_cart_items"))
    case Some(items) =>
      match b.cartTotal(token, cart)
      case None => Raise(BackendUnavailable("get_customers_cart"))
      case Some(total) => Run(b, CartViewPlan(q, items, total), MenuState)
  }

  /** The product branch of `handle_menu`: the product's details, its image link, the image's
      extension, and then the actions of the product view. */
  function ShowProduct(q: CallbackQuery, token: string, b: Backend, folder: string): (o: Outcome)
    ensures o.result.Ok? ==> o.result.value == DescriptionState
    ensures o.result.Ok? ==> (
      && b.productDetails(token, q.data).Some?
      && var d := b.productDetails(token, q.data).value;
      && b.imageLink(token, d.imageId).Some?
      && var link := b.imageLink(token, d.imageId).value;
      && ImageExtension(link).Ok?
      && o.effects == ProductViewPlan(q, d, link, ImagePath(folder, d, ImageExtension(link).value)))
    ensures b.productDetails(token, q.data).None? ==> o == Raise(BackendUnavailable("get_product_details"))
    ensures BeforeActions(o)
  {
    match b.productDetails(token, q.data)
    case None => Raise(BackendUnavailable("get_product_details"))
    case Some(d) =>
      match b.imageLink(token, d.imageId)
      case None => Raise(BackendUnavailable("get_product_image_link"))
      case Some(link) =>
        match ImageExtension(link)
        case Err(reason) => Raise(InvalidImageUrl(reason))
        case Ok(extension) =>
          Run(b, ProductViewPlan(q, d, link, ImagePath(folder, d, extension)), DescriptionState)
  }

  /** `handle_menu`: the token is fetched before the callback query is read; the cart button
      shows the cart and stays in HANDLE_MENU, any other button shows that product's card and
      goes to HANDLE_DESCRIPTION. */
  function HandleMenu(u: Update, b: Backend, folder: string): (o: Outcome)
    ensures o.result.Ok? ==> u.callbackQuery.Some?
    ensures o.result.Ok? ==>
      o.result.value == if u.callbackQuery.value.data == CartDetailsToken then MenuState else DescriptionState
    ensures BeforeActions(o)
  {
    match b.token
    case None => Raise(BackendUnavailable("get_authorization_token"))
    case Some(token) =>
      match u.callbackQuery
      case None => Raise(MissingCallbackQuery)
      case Some(q) =>
        if q.data == CartDetailsToken then ShowCart(q, token, b) else ShowProduct(q, token, b, folder)
  }

  // ---------------------------------------------------------------------------
  // handle_description

  /** `handle_description`: Back sends the main menu and goes to HANDLE_MENU; a Buy button
      is decoded into a product id and a quantity, added to the chat's cart, and the state
      stays HANDLE_DESCRIPTION. */
  function HandleDescription(u: Update, b: Backend): (o: Outcome)
    ensures o.result.Ok? ==> u.callbackQuery.Some?
    ensures o.result.Ok? ==>
      o.result.value == if u.callbackQuery.value.data == MenuReturnToken then MenuState else DescriptionState
    ensures |o.effects| <= 1
    ensures o.result.Ok? && u.callbackQuery.value.data == MenuReturnToken ==>
      && MainMenu(b).Ok?
      && o.effects == [SendMessage(u.callbackQuery.value.message.chatId, ChooseText, Some(MainMenu(b).value))]
    ensures o.result.Ok? && u.callbackQuery.value.data != MenuReturnToken ==>
      && b.token.Some? && ParseQuantityCallback(u.callbackQuery.value.data).Ok?
      && o.effects == [AddToCart(b.token.value, CartId(u.callbackQuery.value.message.chatId),
                                 ParseQuantityCallback(u.callbackQuery.value.data).value.0,
                                 ParseQuantityCallback(u.callbackQuery.value.data).value.1)]
    ensures BeforeActions(o)
  {
    match u.callbackQuery
    case None => Raise(MissingCallbackQuery)
    case Some(q) =>
      var chat := q.message.chatId;
      if q.data == MenuReturnToken then
        match MainMenu(b)
        case Err(f) => Raise(f)
        case Ok(keyboard) => Run(b, [SendMessage(chat, ChooseText, Some(keyboard))], MenuState)
      else
        match b.token
        case None => Raise(BackendUnavailable("get_authorization_token"))
        case Some(token) =>
          match ParseQuantityCallback(q.data)
          case Err(f) => Raise(f)
          case Ok(order) => Run(b, [AddToCart(token, CartId(chat), order.0, order.1)], DescriptionState)
  }

  // ---------------------------------------------------------------------------
  // Order of the checks

  /** `start` and `echo` read the message first: without one they raise before touching the
      backend. */
  lemma MessageReadFirst(u: Update, b: Backend)
    requires u.message.None?
    ensures Start(u, b) == Raise(MissingMessage) && Echo(u, b) == Raise(MissingMessage)
  {
  }

  /** `handle_menu` fetches the token before it reads the callback query: without a token it
      fails on the token even for an update that has no callback query. */
  lemma MenuTokenFirst(u: Update, b: Backend, folder: string)
    requires b.token.None?
    ensures HandleMenu(u, b, folder) == Raise(BackendUnavailable("get_authorization_token"))
  {
  }

  /** `handle_description` reads the callback query first. */
  lemma DescriptionQueryFirst(u: Update, b: Backend)
    requires u.callbackQuery.None?
    ensures HandleDescription(u, b) == Raise(MissingCallbackQuery)
  {
  }

  /** A Buy button whose data does not decode raises before adding anything to the cart. */
  lemma UndecodableOrderAddsNothing(u: Update, b: Backend)
    requires u.callbackQuery.Some? && u.callbackQuery.value.data != MenuReturnToken
    requires b.token.Some? && ParseQuantityCallback(u.callbackQuery.value.data).Err?
    ensures HandleDescription(u, b) == Raise(ParseQuantityCallback(u.callbackQuery.value.data).error)
  {
  }

  // ---------------------------------------------------------------------------
  // Outcomes with a backend that answers and accepts

  /** `start` replies with the catalogue's main menu and goes to HANDLE_MENU. */
  lemma StartReliable(u: Update, b: Backend)
    requires Reliable(b) && u.message.Some?
    ensures Start(u, b) == Outcome(
      [ReplyText(u.message.value.chatId, ChooseText, Some(MainMenuKeyboard(b.products(b.token.value).value)))],
      Ok(MenuState))
  {
    var e := ReplyText(u.message.value.chatId, ChooseText, Some(MainMenuKeyboard(b.products(b.token.value).value)));
    MainMenuOfCatalogue(b);
    RunAcceptingAll(b, [e], MenuState);
  }

  /** `echo` replies with the message's text and goes to ECHO. */
  lemma EchoReliable(u: Update, b: Backend)
    requires Reliable(b) && u.message.Some?
    ensures Echo(u, b) == Outcome([ReplyText(u.message.value.chatId, u.message.value.text, None)], Ok(EchoState))
  {
    RunAcceptingAll(b, [ReplyText(u.message.value.chatId, u.message.value.text, None)], EchoState);
  }

  /** The cart button deletes the menu message and sends the listing of the chat's own cart,
      staying in HANDLE_MENU. */
  lemma CartViewReliable(u: Update, b: Backend, folder: string)
    requires Reliable(b) && u.callbackQuery.Some? && u.callbackQuery.value.data == CartDetailsToken
    ensures HandleMenu(u, b, folder) == Outcome(
      CartViewPlan(u.callbackQuery.value,
        b.cartItems(b.token.value, CartId(u.callbackQuery.value.message.chatId)).value,
        b.cartTotal(b.token.value, CartId(u.callbackQuery.value.message.chatId)).value),
      Ok(MenuState))
  {
    var q := u.callbackQuery.value;
    var cart := CartId(q.message.chatId);
    RunAcceptingAll(b, CartViewPlan(q, b.cartItems(b.token.value, cart).value, b.cartTotal(b.token.value, cart).value), MenuState);
  }

  /** With a working backend, a product button whose image link has a path downloads the
      image, deletes the menu message, sends the photo with its caption and the card
      keyboard, removes the file, and goes to HANDLE_DESCRIPTION. */
  lemma ProductViewReliable(u: Update, b: Backend, folder: string, q: CallbackQuery, d: ProductDetails, link: string)
    requires Reliable(b) && u.callbackQuery == Some(q) && q.data != CartDetailsToken
    requires b.productDetails(b.token.value, q.data) == Some(d) && b.imageLink(b.token.value, d.imageId) == Some(link)
    requires ImageExtension(link).Ok?
    ensures HandleMenu(u, b, folder) ==
      Outcome(ProductViewPlan(q, d, link, ImagePath(folder, d, ImageExtension(link).value)), Ok(DescriptionState))
  {
    ProductButtonShowsProduct(u, b, folder, q);
    ShowProductRunsPlan(q, b.token.value, b, folder, d, link);
    RunAcceptingAll(b, ProductViewPlan(q, d, link, ImagePath(folder, d, ImageExtension(link).value)), DescriptionState);
  }

  /** With a token, the cart button runs the cart branch, whatever the backend answers
      afterwards; `ShowCart`'s contract then says how that branch ends. */
  lemma CartButtonShowsCart(u: Update, b: Backend, folder: string, q: CallbackQuery)
    requires b.token.Some? && u.callbackQuery == Some(q) && q.data == CartDetailsToken
    ensures HandleMenu(u, b, folder) == ShowCart(q, b.token.value, b)
  {
  }

  /** With a token, a button other than the cart button runs the product branch. */
  lemma ProductButtonShowsProduct(u: Update, b: Backend, folder: string, q: CallbackQuery)
    requires b.token.Some? && u.callbackQuery == Some(q) && q.data != CartDetailsToken
    ensures HandleMenu(u, b, folder) == ShowProduct(q, b.token.value, b, folder)
  {
  }

  /** Once the details and the image link are known and the link has a path, the product
      branch performs the actions of the product view. */
  lemma ShowProductRunsPlan(q: CallbackQuery, token: string, b: Backend, folder: string, d: ProductDetails, link: string)
    requires b.productDetails(token, q.data) == Some(d) && b.imageLink(token, d.imageId) == Some(link)
    requires ImageExtension(link).Ok?
    ensures ShowProduct(q, token, b, folder) ==
      Run(b, ProductViewPlan(q, d, link, ImagePath(folder, d, ImageExtension(link).value)), DescriptionState)
  {
  }

  /** A product button whose image link `urlsplit` rejects raises before any action. */
  lemma InvalidImageUrlRaises(u: Update, b: Backend, folder: string, q: CallbackQuery, d: ProductDetails, link: string)
    requires b.token.Some? && u.callbackQuery == Some(q) && q.data != CartDetailsToken
    requires b.productDetails(b.token.value, q.data) == Some(d) && b.imageLink(b.token.value, d.imageId) == Some(link)
    requires ImageExtension(link).Err?
    ensures HandleMenu(u, b, folder) == Raise(InvalidImageUrl(ImageExtension(link).error))
  {
  }

  /** Back sends the main menu and goes to HANDLE_MENU. */
  lemma MenuReturnReliable(u: Update, b: Backend)
    requires Reliable(b) && u.callbackQuery.Some? && u.callbackQuery.value.data == MenuReturnToken
    ensures HandleDescription(u, b) == Outcome(
      [SendMessage(u.callbackQuery.value.message.chatId, ChooseText, Some(MainMenuKeyboard(b.products(b.token.value).value)))],
      Ok(MenuState))
  {
    var e := SendMessage(u.callbackQuery.value.message.chatId, ChooseText, Some(MainMenuKeyboard(b.products(b.token.value).value)));
    MainMenuOfCatalogue(b);
    RunAcceptingAll(b, [e], DescriptionState);
    RunAcceptingAll(b, [e], MenuState);
  }

  // ---------------------------------------------------------------------------
  // From the card to the cart

  /** A Buy button's data is never the Back button's. */
  lemma QuantityCallbackIsNotBack(productId: string, quantity: int)
    ensures QuantityCallback(productId, quantity) != MenuReturnToken
  {
    var data := QuantityCallback(productId, quantity);
    assert data[|productId|] == ',';
    assert ',' !in MenuReturnToken;
  }

  /** Pressing the Buy button of row `i` of the card of `productId` (whose data
      `BuildProductCardKeyboard` and `ProductCardKeyboardShape` give) adds that product, in the button's
      quantity, to the cart of the chat the button was pressed in. */
  lemma BuyButtonAddsToCart(u: Update, b: Backend, productId: string, i: nat)
    requires Reliable(b) && !Contains(productId, ", ") && i < |ItemsQuantities|
    requires u.callbackQuery.Some? && u.callbackQuery.value.data == QuantityCallback(productId, ItemsQuantities[i])
    ensures HandleDescription(u, b) == Outcome(
      [AddToCart(b.token.value, CartId(u.callbackQuery.value.message.chatId), productId, ItemsQuantities[i])],
      Ok(DescriptionState))
  {
    var q := u.callbackQuery.value;
    QuantityCallbackRoundTrip(productId, ItemsQuantities[i]);
    QuantityCallbackIsNotBack(productId, ItemsQuantities[i]);
    RunAcceptingAll(b, [AddToCart(b.token.value, CartId(q.message.chatId), productId, ItemsQuantities[i])], DescriptionState);
  }
}
