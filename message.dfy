/** The chat `Message` record. */
module MessageRecord {
  import opened Platform

  /** All four properties are `let`s; `id` is initialised to `UUID()` at declaration. */
  datatype Message = Message(id: Uuid, content: string, timestamp: Time, senderName: string)

  /** `Message(content:senderName:)`: its own `UUID()` and the current `Date()`. */
  method NewMessage(content: string, senderName: string, ids: IdSource, now: Time) returns (m: Message)
    requires ids.Valid()
    modifies ids
    ensures ids.Valid() && ids.issued == old(ids.issued) + {m.id}
    ensures m.id == old(ids.upcoming) && m.id !in old(ids.issued)
    ensures m.content == content && m.senderName == senderName && m.timestamp == now
  {
    var id := ids.Next();
    m := Message(id, content, now, senderName);
  }
}
