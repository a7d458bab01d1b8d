/** `handle_users_reply`: the state machine around the handlers. An update is classified by
    the chat and the text it carries, the chat's state is looked up in the session store
    (`/start` always selects START), the state's handler runs, and the state it returns is
    stored for the chat; a handler that raises leaves the store as it was. */
module Dispatcher {
  import opened PyBuiltins
  import opened Telegram
  import opened Shop
  import opened Keyboards
  import opened Handlers

  /** The command that restarts a conversation whatever its state. */
  const StartCommand: string := "/start"

  /** The entries of `states_functions`. */
  datatype Handler = StartHandler | EchoHandler | MenuHandler | DescriptionHandler

  /** Why the state of a chat could not be turned into a handler: no stored state
      (`db.get` returns None, whose `decode` raises), or a stored state that
      `states_functions` has no entry for (KeyError). */
  datatype LookupError = NoSession | UnknownState(state: string)

  /** How one update ended. A handler's exception enters the `except` clause, which skips
      `db.set`; that clause then raises again itself (`traceback.format_exc(err)` passes the
      exception as the `limit` argument), so both failures end with an exception leaving
      `handle_users_reply`. */
  datatype DispatchOutcome =
    | Ignored                                                  // neither a message nor a callback query
    | LookupFailed(chat: ChatId, error: LookupError)           // raised before any handler ran
    | HandlerRaised(chat: ChatId, effects: seq<Effect>, failure: Failure)  // raised by the handler, store kept
    | Persisted(chat: ChatId, effects: seq<Effect>, state: string)        // `db.set(chat_id, next_state)`

  /** The states a handler can return, and so the states the bot itself ever stores. */
  predicate IsStoredState(state: string) {
    state == EchoState || state == MenuState || state == DescriptionState
  }

  /** Every stored state is one the bot could have stored. */
  ghost predicate StoresOnlyHandlerStates(sessions: map<ChatId, string>) {
    forall chat :: chat in sessions ==> IsStoredState(sessions[chat])
  }

  /** The chat and the user's reply: a message's chat and text take precedence over a
      callback query's chat and data; an update with neither is ignored. */
  function Classify(u: Update): (r: Option<(ChatId, string)>)
    ensures r.Some? <==> u.message.Some? || u.callbackQuery.Some?
    ensures u.message.Some? ==> r == Some((u.message.value.chatId, u.message.value.text))
    ensures u.message.None? && u.callbackQuery.Some? ==>
      r == Some((u.callbackQuery.value.message.chatId, u.callbackQuery.value.data))
  {
    match u.message
    case Some(m) => Some((m.chatId, m.text))
    case None =>
      match u.callbackQuery
      case Some(q) => Some((q.message.chatId, q.data))
      case None => None
  }

  /** `user_state`: START for `/start`, otherwise the chat's stored state. */
  function UserState(sessions: map<ChatId, string>, chat: ChatId, reply: string): (r: Result<string, LookupError>)
    ensures reply == StartCommand ==> r == Ok(StartState)
    ensures reply != StartCommand ==> (r.Ok? <==> chat in sessions)
    ensures reply != StartCommand && chat in sessions ==> r == Ok(sessions[chat])
    ensures r.Err? ==> r.error == NoSession
  {
    if reply == StartCommand then Ok(StartState)
    else if chat in sessions then Ok(sessions[chat])
    else Err(NoSession)
  }

  /** `states_functions[user_state]`. */
  function HandlerFor(state: string): (h: Option<Handler>)
    ensures h.Some? <==> state == StartState || IsStoredState(state)
    ensures state == StartState ==> h == Some(StartHandler)
    ensures state == EchoState ==> h == Some(EchoHandler)
    ensures state == MenuState ==> h == Some(MenuHandler)
    ensures state == DescriptionState ==> h == Some(DescriptionHandler)
  {
    if state == StartState then Some(StartHandler)
    else if state == EchoState then Some(EchoHandler)
    else if state == MenuState then Some(MenuHandler)
    else if state == DescriptionState then Some(DescriptionHandler)
    else None
  }

  /** `state_handler(bot, update)`, with the image folder bound into `handle_menu`. Every
      state a handler returns is one of the stored states; START is never returned. */
  function RunHandler(h: Handler, u: Update, b: Backend, folder: string): (o: Outcome)
    ensures o.result.Ok? ==> IsStoredState(o.result.value) && o.result.value != StartState
    ensures BeforeActions(o)
  {
    match h
    case StartHandler => Start(u, b)
    case EchoHandler => Echo(u, b)
    case MenuHandler => HandleMenu(u, b, folder)
    case DescriptionHandler => HandleDescription(u, b)
  }

  /** The try around the handler: persist the returned state, or keep the store when it
      raised. Either way the actions the handler performed are kept. */
  function Settle(chat: ChatId, o: Outcome): (r: DispatchOutcome)
    ensures r.Persisted? <==> o.result.Ok?
    ensures r.Persisted? ==> r == Persisted(chat, o.effects, o.result.value)
    ensures !r.Persisted? ==> r == HandlerRaised(chat, o.effects, o.result.error)
  {
    match o.result
    case Ok(next) => Persisted(chat, o.effects, next)
    case Err(f) => HandlerRaised(chat, o.effects, f)
  }

  /** One update through `handle_users_reply`: how it ended and the store afterwards. The
      store changes only by recording the returned state of a handler that succeeded. */
  function DispatchStep(sessions: map<ChatId, string>, u: Update, b: Backend, folder: string)
    : (r: (DispatchOutcome, map<ChatId, string>))
    ensures r.0.Persisted? ==> r.1 == sessions[r.0.chat := r.0.state]
    ensures !r.0.Persisted? ==> r.1 == sessions
    ensures r.0.Ignored? <==> Classify(u).None?
    ensures !r.0.Ignored? ==> r.0.chat == Classify(u).value.0
  {
    match Classify(u)
    case None => (Ignored, sessions)
    case Some((chat, reply)) =>
      match UserState(sessions, chat, reply)
      case Err(e) => (LookupFailed(chat, e), sessions)
      case Ok(state) =>
        match HandlerFor(state)
        case None => (LookupFailed(chat, UnknownState(state)), sessions)
        case Some(h) =>
          var outcome := Settle(chat, RunHandler(h, u, b, folder));
          (outcome, if outcome.Persisted? then sessions[chat := outcome.state] else sessions)
  }

  /** The session store (`db`): the state of each chat that has one. */
  class SessionStore {
    var sessions: map<ChatId, string>

    /** A store that holds no session yet. */
    constructor()
      ensures sessions == map[]
    {
      sessions := map[];
    }

    /** `handle_users_reply(bot, update, image_folder_path)`. */
    method Dispatch(u: Update, b: Backend, folder: string) returns (outcome: DispatchOutcome)
      modifies this
      ensures (outcome, sessions) == DispatchStep(old(sessions), u, b, folder)
      ensures old(StoresOnlyHandlerStates(sessions)) ==> StoresOnlyHandlerStates(sessions)
    {
      var userReply: string;
      var chatId: ChatId;
      if u.message.Some? {
        userReply := u.message.value.text;
        chatId := u.message.value.chatId;
      } else if u.callbackQuery.Some? {
        userReply := u.callbackQuery.value.data;
        chatId := u.callbackQuery.value.message.chatId;
      } else {
        return Ignored;
      }
      var userState: string;
      if userReply == StartCommand {
        userState := StartState;
      } else {
        if chatId !in sessions {
          return LookupFailed(chatId, NoSession);
        }
        userState := sessions[chatId];
      }
      var stateHandler := HandlerFor(userState);
      if stateHandler.None? {
        return LookupFailed(chatId, UnknownState(userState));
      }
      var handled := RunHandler(stateHandler.value, u, b, folder);
      match handled.result
      case Ok(nextState) =>
        sessions := sessions[chatId := nextState];
        outcome := Persisted(chatId, handled.effects, nextState);
      case Err(failure) =>
        outcome := HandlerRaised(chatId, handled.effects, failure);
    }
  }

  // ---------------------------------------------------------------------------
  // Properties of the state machine

  /** `/start` runs `start` whatever the store holds, and so never fails on the lookup. */
  lemma StartCommandIgnoresStore(s1: map<ChatId, string>, s2: map<ChatId, string>, u: Update, b: Backend, folder: string)
    requires Classify(u).Some? && Classify(u).value.1 == StartCommand
    ensures DispatchStep(s1, u, b, folder).0 == DispatchStep(s2, u, b, folder).0
    ensures DispatchStep(s1, u, b, folder).0 == Settle(Classify(u).value.0, Start(u, b))
  {
  }

  /** The lookup fails exactly for a reply other than `/start` from a chat that has no
      stored state or whose stored state has no handler; it then runs no handler, performs
      no action and leaves the store unchanged. */
  lemma LookupFailsExactly(sessions: map<ChatId, string>, u: Update, b: Backend, folder: string)
    ensures DispatchStep(sessions, u, b, folder).0.LookupFailed? <==>
      && Classify(u).Some? && Classify(u).value.1 != StartCommand
      && (Classify(u).value.0 !in sessions || HandlerFor(sessions[Classify(u).value.0]).None?)
    ensures DispatchStep(sessions, u, b, folder).0.LookupFailed? ==> DispatchStep(sessions, u, b, folder).1 == sessions
  {
  }

  /** The stored state selects the handler: a reply other than `/start` from a chat whose
      state has a handler runs that handler and settles its outcome. */
  lemma StoredStateSelectsHandler(sessions: map<ChatId, string>, u: Update, b: Backend, folder: string, h: Handler)
    requires Classify(u).Some? && Classify(u).value.1 != StartCommand
    requires Classify(u).value.0 in sessions && HandlerFor(sessions[Classify(u).value.0]) == Some(h)
    ensures DispatchStep(sessions, u, b, folder).0 == Settle(Classify(u).value.0, RunHandler(h, u, b, folder))
  {
  }

  /** A handler that raises skips `db.set`: the store keeps the old state, and the only actions
      that happened are those before the failing one. */
  lemma RaisedHandlerKeepsStore(sessions: map<ChatId, string>, u: Update, b: Backend, folder: string)
    requires DispatchStep(sessions, u, b, folder).0.HandlerRaised?
    ensures DispatchStep(sessions, u, b, folder).1 == sessions
    ensures !DispatchStep(sessions, u, b, folder).0.failure.ActionFailed? ==> DispatchStep(sessions, u, b, folder).0.effects == []
  {
  }

  /** Only the chat the update came from can change its stored state. */
  lemma OtherChatsUnchanged(sessions: map<ChatId, string>, u: Update, b: Backend, folder: string, other: ChatId)
    requires Classify(u).None? || other != Classify(u).value.0
    ensures other in DispatchStep(sessions, u, b, folder).1 <==> other in sessions
    ensures other in sessions ==> DispatchStep(sessions, u, b, folder).1[other] == sessions[other]
  {
  }

  /** A store holding only states the bot returns keeps doing so; in particular START is
      never stored, and the lookup of a chat with a session never fails. */
  lemma StoredStatesStayKnown(sessions: map<ChatId, string>, u: Update, b: Backend, folder: string)
    requires StoresOnlyHandlerStates(sessions)
    ensures StoresOnlyHandlerStates(DispatchStep(sessions, u, b, folder).1)
    ensures DispatchStep(sessions, u, b, folder).0.LookupFailed? ==>
      DispatchStep(sessions, u, b, folder).0.error == NoSession
  {
    var r := DispatchStep(sessions, u, b, folder);
    if r.0.Persisted? {
      forall chat | chat in r.1 ensures IsStoredState(r.1[chat]) {
        if chat != r.0.chat {
          assert r.1[chat] == sessions[chat];
        }
      }
    }
  }

  // ---------------------------------------------------------------------------
  // Conversations with a backend that answers and accepts

  /** `/start` in any chat, whatever its stored state, replies with the main menu and stores
      HANDLE_MENU for that chat. */
  lemma StartConversation(sessions: map<ChatId, string>, m: Message, b: Backend, folder: string)
    requires Reliable(b) && m.text == StartCommand
    ensures DispatchStep(sessions, Update(Some(m), None), b, folder) == (
      Persisted(m.chatId, [ReplyText(m.chatId, ChooseText, Some(MainMenuKeyboard(b.products(b.token.value).value)))], MenuState),
      sessions[m.chatId := MenuState])
  {
    StartReliable(Update(Some(m), None), b);
  }

  /** On a product card, pressing Buy for quantity `ItemsQuantities[i]` adds the product to
      the chat's cart and keeps HANDLE_DESCRIPTION stored. */
  lemma BuyOnCard(sessions: map<ChatId, string>, q: CallbackQuery, b: Backend, folder: string, productId: string, i: nat)
    requires Reliable(b) && !Contains(productId, ", ") && i < |ItemsQuantities|
    requires q.data == QuantityCallback(productId, ItemsQuantities[i])
    requires q.message.chatId in sessions && sessions[q.message.chatId] == DescriptionState
    ensures DispatchStep(sessions, Update(None, Some(q)), b, folder) == (
      Persisted(q.message.chatId,
        [AddToCart(b.token.value, CartId(q.message.chatId), productId, ItemsQuantities[i])], DescriptionState),
      sessions)
  {
    var u := Update(None, Some(q));
    var o := Outcome([AddToCart(b.token.value, CartId(q.message.chatId), productId, ItemsQuantities[i])], Ok(DescriptionState));
    QuantityCallbackIsNotStart(productId, ItemsQuantities[i]);
    StoredStateSelectsHandler(sessions, u, b, folder, DescriptionHandler);
    BuyButtonAddsToCart(u, b, productId, i);
    assert RunHandler(DescriptionHandler, u, b, folder) == o;
    assert DispatchStep(sessions, u, b, folder).0 == Persisted(q.message.chatId, o.effects, DescriptionState);
    assert sessions[q.message.chatId := DescriptionState] == sessions;
  }

  /** A Buy button's data is never `/start`. */
  lemma QuantityCallbackIsNotStart(productId: string, quantity: int)
    ensures QuantityCallback(productId, quantity) != StartCommand
  {
    var data := QuantityCallback(productId, quantity);
    assert data[|productId|] == ',';
    assert ',' !in StartCommand;
  }
}
