/** A conversation entry as the store and the tutor service exchange it. */
module Messages {
  import opened Js

  /** `{ id, sender, message, timestamp, userId }`. The sender is a free
      string (`'ai'` or `'user'` in practice; nothing checks it); `userId`
      is `undefined` on entries that were not sent by a user. The timestamp
      is the `Date` as milliseconds. */
  datatype Message = Message(id: int, sender: string, text: string, timestamp: int, userId: Value)
}
