/** src/bot/services/changeNameService.ts: the per-chat pending name
    change, kept between two bot messages. */
module ChangeNameService {
  import opened Wrappers

  /** The new first name, once the user has typed it. */
  datatype PendingNameChange = PendingNameChange(firstName: Option<string>)

  class ChangeNameService {
    var pendingNameChanges: map<int, PendingNameChange>

    constructor ()
      ensures pendingNameChanges == map[]
    {
      pendingNameChanges := map[];
    }

    /** `getPendingNameChange`: the chat's pending change, if any. */
    function GetPendingNameChange(chatId: int): (r: Option<PendingNameChange>)
      reads this
      ensures r.Some? <==> chatId in pendingNameChanges
      ensures r.Some? ==> r.value == pendingNameChanges[chatId]
    {
      if chatId in pendingNameChanges then Some(pendingNameChanges[chatId]) else None
    }

    /** `setPendingNameChange`: the whole entry is replaced, not merged
        with the previous one; the other chats keep theirs. */
    method SetPendingNameChange(chatId: int, nameChange: PendingNameChange)
      modifies this
      ensures pendingNameChanges == old(pendingNameChanges)[chatId := nameChange]
      ensures GetPendingNameChange(chatId) == Some(nameChange)
      ensures forall c :: c != chatId ==> GetPendingNameChange(c) == old(GetPendingNameChange(c))
    {
      pendingNameChanges := pendingNameChanges[chatId := nameChange];
    }

    /** `clearPendingNameChange`: the chat's entry is gone, the other chats
        keep theirs, and clearing a chat without an entry changes nothing. */
    method ClearPendingNameChange(chatId: int)
      modifies this
      ensures pendingNameChanges == old(pendingNameChanges) - {chatId}
      ensures GetPendingNameChange(chatId) == None
      ensures forall c :: c != chatId ==> GetPendingNameChange(c) == old(GetPendingNameChange(c))
      ensures chatId !in old(pendingNameChanges) ==> pendingNameChanges == old(pendingNameChanges)
    {
      pendingNameChanges := pendingNameChanges - {chatId};
    }
  }
}
