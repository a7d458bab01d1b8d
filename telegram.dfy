/** The parts of a Telegram update the bot reads, and the inline keyboards it sends. */
module Telegram {
  import opened PyBuiltins

  type ChatId = int

  /** A text message: the chat it was sent in, its id within that chat, and its text. */
  datatype Message = Message(chatId: ChatId, messageId: int, text: string)

  /** A press on an inline button: the button's callback data and the bot message that
      carried the keyboard. */
  datatype CallbackQuery = CallbackQuery(data: string, message: Message)

  /** An inbound update; each part is absent when the update is of another kind. */
  datatype Update = Update(message: Option<Message>, callbackQuery: Option<CallbackQuery>)

  /** `InlineKeyboardButton(text, callback_data=...)`. */
  datatype Button = Button(text: string, callbackData: string)

  /** `InlineKeyboardMarkup(rows)`: a list of rows of buttons. */
  type Keyboard = seq<seq<Button>>
}
