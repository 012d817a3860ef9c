/** `ChatViewModel`: the chat transcript and the message being typed. */
module ChatRoom {
  import opened Strings
  import opened Platform
  import opened MessageRecord

  /**
   * Nothing is left after trimming `CharacterSet.whitespaces` from both
   * ends: every character is a space or a tab (or another Zs separator);
   * a line break is not whitespace here.
   */
  predicate IsBlank(text: string): (r: bool)
    ensures r <==> forall i :: 0 <= i < |text| ==> IsWhitespace(text[i])
  {
    Trimmed(text, IsWhitespace) == []
  }

  /** Concretely: spaces and tabs are blank, a lone newline is sent. */
  lemma NewlineIsNotBlank()
    ensures IsBlank(" \t ")
    ensures !IsBlank("\n")
  {
    assert !IsWhitespace("\n"[0]);
  }

  class ChatViewModel {
    var messages: seq<Message>
    var currentMessage: string
    /** `UIDevice.current.name`, supplied by the caller. */
    const userName: string

    constructor (deviceName: string)
      ensures messages == [] && currentMessage == "" && userName == deviceName
    {
      messages := [];
      currentMessage := "";
      userName := deviceName;
    }

    /**
     * `sendMessage()`: a blank draft is ignored; otherwise the untrimmed
     * draft is appended under `userName` and the draft is cleared.
     */
    method SendMessage(ids: IdSource, now: Time)
      requires ids.Valid()
      modifies this, ids
      ensures ids.Valid()
      ensures IsBlank(old(currentMessage)) ==>
                && messages == old(messages) && currentMessage == old(currentMessage)
                && ids.upcoming == old(ids.upcoming) && ids.issued == old(ids.issued)
      ensures !IsBlank(old(currentMessage)) ==>
                && messages == old(messages) + [Message(old(ids.upcoming), old(currentMessage), now, userName)]
                && currentMessage == ""
                && old(ids.upcoming) !in old(ids.issued)
                && ids.issued == old(ids.issued) + {old(ids.upcoming)}
    {
      if IsBlank(currentMessage) {
        return;
      }
      var message := NewMessage(currentMessage, userName, ids, now);
      messages := messages + [message];
      currentMessage := "";
    }
  }
}
