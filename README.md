# A verified model of the Telegram seafood shop bot

The bot (`tg_bot.py`) is a chat front for an Elastic Path store. The user sends `/start` and
gets an inline keyboard with one button per catalogue product and a "View shopping cart" button.
A product button replaces the menu with the product's photo. The photo's caption holds the name,
price, stock and description, and its keyboard has Buy 1, Buy 5, Buy 10 and Back. A Buy button
adds that quantity of the product to the chat's cart. The cart button replaces the menu with a
text listing of the cart: one block per line and then the total. Each chat's conversation state
is kept in Redis under the chat id. `handle_users_reply` looks the state up, runs its handler
and stores the state the handler returns.

The model covers:

- **the state machine** (`Dispatcher`): classifying an update, looking up the state, choosing
  the handler, and persisting the state it returns. The session store is a class whose `sessions`
  map `Dispatch` updates in place, and `Dispatch` is proved against the function `DispatchStep`.
- **the four handlers** (`Handlers`): `start`, `echo`, `handle_menu` and `handle_description`,
  over the raw update and a backend oracle. Each handler's outcome is the list of outbound
  actions that happened, in order, plus either the next state or the reason it raised.
- **the keyboards** (`Keyboards`): the main menu, the product card, and the decoding of a Buy
  button's callback data. The loops that build the keyboards are methods proved against their
  specification functions.
- **the texts** (`MessageText`): the cart listing, whose building loop is a method proved
  against `CartText`, and the photo caption. Both are rendered through a model of
  `textwrap.dedent` (`TextWrap`, the CPython 3.12 algorithm).
- **the image extension** (`ImageUrls`): the path component of `urllib.parse.urlsplit`,
  `unquote` with UTF-8 and `errors='replace'`, and POSIX `os.path.splitext` / `os.path.join`.
- **the Python builtins the core relies on** (`PyBuiltins`): `str.find`, `str.rfind`,
  `str.split`, `str.join`, `str(int)` and `int(str)` in base 10 (with the whitespace `int()`
  skips).

The backend and the Telegram transport together are one value, `Shop.Backend`. Each query
(`get_authorization_token`, `get_products`, `get_cart_items`, `get_customers_cart`,
`get_product_details`, `get_product_image_link`) is a function field that answers or fails.
`accepts` says which outbound actions (`reply_text`, `send_message`, `delete_message`,
`send_photo`, `download_image`, `os.remove`, `add_product_to_cart`) succeed. A handler performs
its actions one after the other, so an action that fails raises, and nothing after it happens
(`Shop.Run`).

The model follows the code as it stands:
- the control tokens are `get_cart_details` (the cart button) and `menu_return` (Back);
- viewing the cart returns HANDLE_MENU;
- there are only the states START, ECHO, HANDLE_MENU and HANDLE_DESCRIPTION; the code has
  no cart-view state, no checkout and no e-mail state;
- a chat's cart id is its chat id rendered in decimal (`Handlers.CartId`).

## Model

| member | source | states |
|---|---|---|
| Dispatcher.SessionStore.constructor | tg_bot.py:21 | a new store holds no session; the model starts from an empty store, while the Redis behind `_database` may already hold sessions from earlier runs, which `Dispatch`'s contract covers because it holds for any old store |
| Dispatcher.SessionStore.Dispatch | tg_bot.py:188-219 | the outcome and the new store are those of `DispatchStep` on the old store; a store holding only handler-returned states keeps doing so |
| Dispatcher.DispatchStep | tg_bot.py:188-219 | the store changes only by recording, for the update's chat, the state a successful handler returned; an update is ignored exactly when it has neither a message nor a callback query; every other outcome names the update's chat |
| Dispatcher.Classify | tg_bot.py:190-197 | a message's chat and text take precedence over a callback query's chat and data; the update is ignored only when it has neither |
| Dispatcher.UserState | tg_bot.py:198-201 | `/start` selects START whatever is stored; any other reply selects the chat's stored state, and fails exactly when the chat has none |
| Dispatcher.HandlerFor | tg_bot.py:202-211 | exactly the four states START, ECHO, HANDLE_MENU and HANDLE_DESCRIPTION have a handler, and each selects its own |
| Dispatcher.Settle | tg_bot.py:214-219 | a handler's success is persisted with its returned state, its failure reported as raised; either way with the actions it performed |
| Dispatcher.RunHandler | tg_bot.py:216 | a handler only ever returns ECHO, HANDLE_MENU or HANDLE_DESCRIPTION, never START; a handler that fails other than on an action performed nothing |
| Dispatcher.StartCommandIgnoresStore | tg_bot.py:198-199 | on `/start` the outcome does not depend on the store, and it is `start`'s outcome settled |
| Dispatcher.LookupFailsExactly | tg_bot.py:198-211 | the lookup fails exactly for a non-`/start` reply from a chat without a state or with a state that has no handler; the store is then unchanged |
| Dispatcher.StoredStateSelectsHandler | tg_bot.py:200-215 | a non-`/start` reply runs the handler of the chat's stored state |
| Dispatcher.RaisedHandlerKeepsStore | tg_bot.py:214-219 | a handler that raises leaves the store unchanged; unless an action failed, nothing was performed |
| Dispatcher.OtherChatsUnchanged | tg_bot.py:215-217 | no chat other than the update's own gains, loses or changes its state |
| Dispatcher.StoredStatesStayKnown | tg_bot.py:202-216 | a store holding only states the handlers return keeps doing so, so a chat that has a state never fails on an unknown one |
| Dispatcher.StartConversation | tg_bot.py:41-47 | with a working backend, `/start` in any chat replies with the main menu and stores HANDLE_MENU |
| Dispatcher.BuyOnCard | tg_bot.py:166-185 | with a working backend, a Buy button pressed in HANDLE_DESCRIPTION adds its product and quantity to the chat's cart and keeps HANDLE_DESCRIPTION |
| Dispatcher.QuantityCallbackIsNotStart | tg_bot.py:138 | a Buy button's data is never `/start` |
| Handlers.CartId | tg_bot.py:168 | a chat's cart id is `str(chat_id)`; `CartIdInjective` and `ParseIntOfIntToString` state that it identifies the chat |
| Handlers.CartIdInjective | tg_bot.py:82-84 | two chats share a cart id exactly when they are the same chat |
| Handlers.MainMenu | tg_bot.py:24-38 | the main menu ends with the cart row; it fails only on a backend query |
| Handlers.MainMenuOfCatalogue | tg_bot.py:24-38 | with a token and a catalogue, the main menu is the catalogue's keyboard |
| Handlers.Start | tg_bot.py:41-47 | success means HANDLE_MENU after exactly one reply carrying the main menu to the message's chat |
| Handlers.Echo | tg_bot.py:58-61 | success means ECHO after exactly one reply echoing the message's text |
| Handlers.CartViewPlan | tg_bot.py:105-114 | the cart view's actions: delete the menu message, then send the listing to the chat (no contract; `ShowCart` and `CartViewReliable` state what is performed) |
| Handlers.ImagePath | tg_bot.py:128-131 | the image file's path ends with the product name followed by the extension |
| Handlers.ProductViewPlan | tg_bot.py:132-162 | the product view's actions in source order: download, delete the menu message, send the photo with caption and card keyboard, remove the file (no contract; `ShowProduct` and `ProductViewReliable` state what is performed) |
| Handlers.ShowCart | tg_bot.py:83-115 | success returns HANDLE_MENU after exactly the cart view's actions for the chat's own cart items and total; a failed query performs nothing, and no cart items raises naming `get_cart_items` |
| Handlers.ShowProduct | tg_bot.py:116-163 | success returns HANDLE_DESCRIPTION after exactly the product view's actions for the answered details and image link, whose URL has a path; a failed query or an invalid image URL performs nothing |
| Handlers.HandleMenu | tg_bot.py:79-163 | success needs a callback query, and returns HANDLE_MENU for the cart button and HANDLE_DESCRIPTION otherwise |
| Handlers.HandleDescription | tg_bot.py:166-185 | success needs a callback query; on Back it returns HANDLE_MENU after exactly one message carrying the main menu to the chat; otherwise the data decoded, and it returns HANDLE_DESCRIPTION after exactly one add-to-cart of the decoded id and quantity to the chat's cart |
| Handlers.MessageReadFirst | tg_bot.py:41-61 | `start` and `echo` raise on an update without a message before anything else |
| Handlers.MenuTokenFirst | tg_bot.py:80-82 | `handle_menu` fails on the token before reading the callback query |
| Handlers.DescriptionQueryFirst | tg_bot.py:167 | `handle_description` raises on an update without a callback query |
| Handlers.UndecodableOrderAddsNothing | tg_bot.py:177-184 | callback data that does not decode raises before anything is added to the cart |
| Handlers.StartReliable | tg_bot.py:41-47 | with a working backend, `start` replies with the catalogue's menu and returns HANDLE_MENU |
| Handlers.EchoReliable | tg_bot.py:58-61 | with a working backend, `echo` replies with the text and returns ECHO |
| Handlers.CartViewReliable | tg_bot.py:83-115 | with a working backend, the cart button deletes the menu message, sends the listing of the chat's own cart and total, and returns HANDLE_MENU |
| Handlers.ProductViewReliable | tg_bot.py:116-163 | with a working backend, a product button whose image URL has a path downloads the image, deletes the menu message, sends the photo with the caption and the card keyboard, removes the file and returns HANDLE_DESCRIPTION |
| Handlers.InvalidImageUrlRaises | tg_bot.py:123-127 | with details and an image link answered, an image URL that `urlsplit` rejects raises before any action, whatever else the backend does |
| Handlers.CartButtonShowsCart | tg_bot.py:81-83 | with a token, the cart button runs the cart branch for any backend, so `ShowCart`'s failure and success contracts carry over to `handle_menu` |
| Handlers.ProductButtonShowsProduct | tg_bot.py:81-83 | with a token, any button other than the cart button runs the product branch |
| Handlers.ShowProductRunsPlan | tg_bot.py:116-163 | with the details and the image link answered and a valid URL, the product branch runs exactly the product view's actions |
| Handlers.MenuReturnReliable | tg_bot.py:169-175 | with a working backend, Back sends the main menu and returns HANDLE_MENU |
| Handlers.QuantityCallbackIsNotBack | tg_bot.py:166-178 | a Buy button's data is never `menu_return` |
| Handlers.BuyButtonAddsToCart | tg_bot.py:176-185 | with a working backend, the Buy button of a product id without `", "` adds exactly that id and quantity to the chat's cart |
| Keyboards.MainMenuKeyboard | tg_bot.py:24-38 | one row more than there are products, the last one the cart row |
| Keyboards.MainMenuKeyboardShape | tg_bot.py:24-38 | one row per product in catalogue order, each labelled with its name and carrying its id, then the cart row |
| Keyboards.BuildMainMenuKeyboard | tg_bot.py:27-37 | the loop builds exactly that keyboard |
| Keyboards.ProductRowsInOrder | tg_bot.py:28-33 | row `i` is product `i`'s button |
| Keyboards.QuantityCallback | tg_bot.py:138 | a Buy button's data starts with the product id followed by a comma |
| Keyboards.ProductCardKeyboard | tg_bot.py:133-143 | one row per quantity, then the Back row |
| Keyboards.ProductCardKeyboardShape | tg_bot.py:133-143 | four rows: Buy 1, Buy 5, Buy 10 with data `id, n`, then Back with `menu_return` |
| Keyboards.BuildProductCardKeyboard | tg_bot.py:133-143 | the loop builds exactly that keyboard |
| Keyboards.QuantityRowsInOrder | tg_bot.py:135-139 | row `i` is the Buy row for the `i`-th quantity |
| Keyboards.DecimalLiterals | tg_bot.py:133-137 | the quantities render as `1`, `5` and `10` |
| Keyboards.ParseQuantityCallback | tg_bot.py:178-183 | a decoded order is an id and a tail around the one `", "` in the data, and the quantity is the integer the tail parses to; conversely, data of that shape whose tail is an integer literal always decodes |
| Keyboards.QuantityCallbackRoundTrip | tg_bot.py:178-183 | a Buy button's data decodes to its own id and quantity exactly when the id has no `", "`; otherwise the split yields at least three parts |
| Keyboards.ProductCardCallbacksDecode | tg_bot.py:133-143 | every Buy button of a card decodes to that card's id and its quantity |
| MessageText.ItemBlock | tg_bot.py:94-99 | a cart line's block is the dedented template (no contract; `ItemBlockLayout` states its lines) |
| MessageText.ItemBlocks | tg_bot.py:86-100 | one block per cart line |
| MessageText.CartLines | tg_bot.py:85-104 | one line per cart line, then the total line last |
| MessageText.CartText | tg_bot.py:111 | the lines joined by newlines (no contract; `CartLinesInOrder`, `EmptyCartText` and `CartTextEndsWithTotal` state its shape) |
| MessageText.Caption | tg_bot.py:150-154 | the photo caption is the dedented template (no contract; `CaptionLayout` states its lines) |
| MessageText.RenderCartText | tg_bot.py:85-111 | the loop's lines and joined text are the cart listing `CartText` |
| MessageText.ItemBlocksInOrder | tg_bot.py:86-100 | one block per cart line, in cart order |
| MessageText.CartLinesInOrder | tg_bot.py:85-104 | the listing's lines are the item blocks in order and then the total line, last |
| MessageText.EmptyCartText | tg_bot.py:85-111 | an empty cart is listed as the single line `Total: ...` |
| MessageText.CartTextEndsWithTotal | tg_bot.py:104-111 | a non-empty cart's listing is its blocks joined by newlines, then a newline and the total line |
| MessageText.ItemBlockLayout | tg_bot.py:94-99 | a cart line's block is an empty line, then the name, the description, the unit price, `q pieces in cart for p`, and a final empty line, with the template's indentation removed |
| MessageText.ItemDedentedLines | tg_bot.py:94-99 | the dedented template lines of a cart line, one by one |
| MessageText.CaptionLayout | tg_bot.py:150-154 | the caption is the name, `p per one piece`, `s pieces available on stock` and the description, each after an empty line, with the template's indentation removed |
| MessageText.CaptionDedentedLines | tg_bot.py:150-154 | the dedented template lines of the caption, one by one |
| MessageText.DedentTemplate | tg_bot.py:150-154 | dedenting a template indented by a common prefix, with at least one text line, strips the prefix from every text line and empties the blank ones |
| TextWrap.Dedent | tg_bot.py:94-99 | CPython 3.12's `textwrap.dedent` (no contract; `DedentWithMargin` and `MarginOfLines` state what it removes) |
| TextWrap.DedentWithMargin | tg_bot.py:94-99 | `dedent` removes the margin that the non-blank lines share when one of them is indented by exactly that margin |
| TextWrap.MarginOfLines | tg_bot.py:94-99 | that shared margin is exactly the margin `dedent` computes |
| TextWrap.CommonPrefixIsLongest | tg_bot.py:94-99 | every common prefix of two indents is a prefix of the one the margin step keeps, so it keeps the longest |
| TextWrap.FoldMarginIsCommon | tg_bot.py:94-99 | the computed margin is a prefix of the starting margin and of every indent folded in |
| ImageUrls.ImageExtension | tg_bot.py:71-76 | the result is an extension (empty, or a dot followed by neither dots nor slashes); it fails exactly when `UrlPath` does, that is on a netloc with unbalanced brackets |
| ImageUrls.QueryIgnored | tg_bot.py:72-76 | a query string does not change the path or the extension |
| ImageUrls.FragmentIgnored | tg_bot.py:72-76 | a fragment does not change the path or the extension |
| ImageUrls.UrlPath | tg_bot.py:72 | the path holds neither `?` nor `#` |
| ImageUrls.Unquote | tg_bot.py:73-74 | a path without `%` is returned unchanged |
| ImageUrls.JoinPath | tg_bot.py:128-131 | the joined path ends with the name; it starts with the folder unless the name is absolute or the folder empty, in which case it is the name |
| ImageUrls.SplitExt | tg_bot.py:75 | root and extension put back together give the path |
| ImageUrls.SplitExtIsExtension | tg_bot.py:75 | the extension is empty or a dot followed by neither dots nor slashes |
| ImageUrls.SplitExtFindsExtension | tg_bot.py:75 | an extension is found exactly when the final segment holds a dot after its leading dots |
| PyBuiltins.Split | tg_bot.py:178 | `str.split(sep)` gives at least one part |
| PyBuiltins.SplitJoin | tg_bot.py:178 | joining the parts of a split with the separator gives back the string |
| PyBuiltins.SplitPartsAreFree | tg_bot.py:178 | no part of a split contains the separator |
| PyBuiltins.SplitOfJoin | tg_bot.py:94-99 | splitting parts free of a one-character separator, joined by it, gives back the parts |
| PyBuiltins.SplitAroundCommaSpace | tg_bot.py:178 | `a + ", " + b` splits into `[a, b]` when neither holds `", "`, and into three or more parts when `a` does |
| PyBuiltins.ParseInt | tg_bot.py:183 | `int(s)` in base 10 (no contract; `ParseIntOfIntToString` and `ParseIntKeepsFileSeparator` state how it reads) |
| PyBuiltins.ParseIntKeepsFileSeparator | tg_bot.py:183 | `int()` does not skip U+001C, which `str.isspace()` accepts, so `"\x1c5"` is not a number |
| PyBuiltins.IntToString | tg_bot.py:137-138 | `str(i)`: a minus sign exactly for a negative number, otherwise only decimal digits |
| PyBuiltins.ParseIntOfIntToString | tg_bot.py:183 | `int(str(n)) == n` for every integer (CPython raises beyond 4300 digits) |
| PyBuiltins.IntToStringHasNoCommaSpace | tg_bot.py:138 | a rendered integer never contains `", "` |
| Shop.Run | tg_bot.py:132-162 | the actions performed are a prefix of the plan; success means all of them ran and the state is returned; a failure is a failed action |
| Shop.RunStopsAtFirstRefused | tg_bot.py:132-162 | the actions performed are exactly those before the first refused one, which is the failure; with none refused the state is returned |
| Shop.RunAcceptingAll | tg_bot.py:132-162 | a backend that accepts every action performs the whole plan and the state is returned |
| Shop.RunAccepted | tg_bot.py:132-162 | when every action is accepted, all of them run and the state is returned |
| Shop.Perform | tg_bot.py:106-114 | an accepted action is recorded and the rest follows; a refused one raises at once |

## Left out

- The Elastic Path client (`elastic_path_api.py`) is not part of this model. The backend is an oracle whose queries answer or fail, and token caching and HTTP are not modelled.
- The Telegram transport, the `telegram.ext` dispatcher, `Updater`, polling and the command-line and environment plumbing (lines 222-264) are left out. An exception that leaves `handle_users_reply` is recorded only by how the update ended (`LookupFailed` or `HandlerRaised`); what `telegram.ext` then does with it is not modelled.
- The `except` clause (lines 218-219) calls `traceback.format_exc(err)`, which takes the exception as its `limit` argument and raises `TypeError`, so a handler's failure is never printed and leaves `handle_users_reply` like a lookup failure. The model records the store and the actions as they are (`Dispatcher.RaisedHandlerKeepsStore`), not the second exception or the missing log line.
- `button` (lines 50-55) is never registered as a handler, and it is not modelled.
- The wrong-arity calls of `get_authorization_token` (lines 25, 81 and 177) are not modelled, and the token is simply present or absent. Unpacking `get_product_details` into five names (lines 118-122) is modelled as a record with those five fields.
- Bad response data (missing dictionary keys in the cart items or the cart total) is not modelled: a query either answers with well-formed records or fails.
- `handle_description` passes the chat id as a string to `send_message` (line 168). The model uses the chat itself; the string only matters as the cart id (`Handlers.CartId`).
- Redis stores bytes. `.decode('utf-8')` of a stored state is taken to give back the string that was stored, and connection failures are not modelled.
- File I/O is modelled only as the actions `DownloadImage` and `RemoveFile`, which may fail. A failure of `open(image_filepath, 'rb')` (line 155), which raises before `send_photo`, is counted as a refused `SendPhoto`: either way nothing from that action on happens. The file is not removed when `send_photo` fails, and the model records only the actions that happened, not the leftover file.
- A Telegram callback query from an inline-mode message carries no message, and `query['message']` (lines 82, 145 and 167) would then raise. The model's `Telegram.CallbackQuery` always carries one, because the bot attaches its keyboards only to chat messages, so such a query cannot reach it.
- Concurrency between updates handled by different workers is not modelled: each `Dispatch` is one atomic step.
- The code has no cart-view state, no checkout and no e-mail state, so the model has none either.
- PyBuiltins.ParseInt: accepts ASCII digits only, while Python's `int()` also accepts other Unicode decimal digits. Its whitespace is `int()`'s own (`PyBuiltins.IsIntWhitespace`): tab to carriage return, space, and the non-ASCII characters `str.isspace()` accepts, but not U+001C to U+001F. It also has no digit limit: since 3.11 CPython's `int(str)` and `str(int)` raise `ValueError` beyond `sys.get_int_max_str_digits()` digits (4300 by default), which the bot never reaches, because callback data is at most 64 bytes and chat ids and the quantities 1, 5 and 10 are short.
- `ImageUrls.UrlPath` leaves out `urlsplit`'s checks of bracketed netlocs and its NFKC netloc check, because neither affects the path when the URL is accepted. A URL that only those checks reject is accepted here.
- MessageText.ItemBlockLayout: stated only for fields without a line break, because with one the line structure that `dedent` sees depends on the field's contents.
- MessageText.CaptionLayout: stated only for fields without a line break and a price whose first character is not a space or tab, for the same reason.
- MessageText.CartTextEndsWithTotal: requires a non-empty cart; `MessageText.EmptyCartText` states the empty case.
- Handlers.StartReliable, Handlers.EchoReliable, Handlers.CartViewReliable, Handlers.ProductViewReliable, Handlers.MenuReturnReliable and Handlers.BuyButtonAddsToCart assume a backend that answers and accepts everything. The success paths without that premise are stated by the handlers' own contracts (`Handlers.Start`, `Handlers.Echo`, `Handlers.ShowCart`, `Handlers.ShowProduct` and `Handlers.HandleDescription`), and the failure paths by those contracts and by `Shop.RunStopsAtFirstRefused`.
