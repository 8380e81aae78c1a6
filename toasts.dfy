/** The user-visible notifications the pages raise: a level and a text. */
module Toasts {

  datatype Level = Info | Success | Warn | Error

  datatype Toast = Toast(level: Level, text: string)
}
