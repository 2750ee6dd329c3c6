/** src/bot/services/transferService.ts: the per-chat pending transfer
    (who the money goes to, kept between two bot messages) and the
    balance transfer itself. */
module TransferService {
  import opened Wrappers
  import opened Models
  import opened UserService

  datatype PendingTransfer = PendingTransfer(receiverReferralCode: string, receiverId: UserId)

  /** `executeTransfer` on the stored users. Both records are loaded
      before either is saved, so when sender and receiver are the same
      user the receiver's save, made last, wins: that user ends with
      `amount` more, not the same balance. */
  function Transfer(users: map<UserId, User>, senderId: UserId, receiverId: UserId, amount: int): (r: Result<map<UserId, User>>)
    ensures r.Failure? <==> senderId !in users || receiverId !in users || users[senderId].balance < amount
    ensures r.Failure? ==>
      r.error == (if senderId !in users || receiverId !in users then UserNotFound else InsufficientBalance)
    ensures r.Success? && senderId != receiverId ==>
      r.value.Keys == users.Keys &&
      r.value[senderId].balance == users[senderId].balance - amount >= 0 &&
      r.value[receiverId].balance == users[receiverId].balance + amount &&
      r.value[senderId].balance + r.value[receiverId].balance == users[senderId].balance + users[receiverId].balance &&
      forall u :: u in users && u != senderId && u != receiverId ==> r.value[u] == users[u]
    ensures r.Success? && senderId == receiverId ==> BalanceMoved(users, r.value, senderId, amount)
  {
    if senderId !in users || receiverId !in users then Failure(UserNotFound)
    else
      var sender, receiver := users[senderId], users[receiverId];
      if sender.balance < amount then Failure(InsufficientBalance)
      else
        var sender', receiver' := sender.(balance := sender.balance - amount), receiver.(balance := receiver.balance + amount);
        Success(users[senderId := sender'][receiverId := receiver'])
  }

  /** For two different users a transfer is a debit of the sender followed
      by a credit of the receiver. */
  lemma TransferIsDebitThenCredit(users: map<UserId, User>, senderId: UserId, receiverId: UserId, amount: int)
    requires senderId != receiverId && receiverId in users
    ensures var t, d := Transfer(users, senderId, receiverId, amount), Debit(users, senderId, amount);
      t.Success? == d.Success? && (t.Success? ==> Credit(d.value, receiverId, amount) == t)
  {
    var t, d := Transfer(users, senderId, receiverId, amount), Debit(users, senderId, amount);
    if t.Success? {
      var c := Credit(d.value, receiverId, amount);
      assert c.value.Keys == t.value.Keys;
      assert forall u :: u in t.value ==> c.value[u] == t.value[u];
    }
  }

  class TransferService {
    var pendingTransfers: map<int, PendingTransfer>

    constructor ()
      ensures pendingTransfers == map[]
    {
      pendingTransfers := map[];
    }

    /** `getPendingTransfer`: the chat's pending transfer, if any. */
    function GetPendingTransfer(chatId: int): (r: Option<PendingTransfer>)
      reads this
      ensures r.Some? <==> chatId in pendingTransfers
      ensures r.Some? ==> r.value == pendingTransfers[chatId]
    {
      if chatId in pendingTransfers then Some(pendingTransfers[chatId]) else None
    }

    /** `setPendingTransfer`: the chat's entry becomes `transfer`; the
        other chats keep theirs. */
    method SetPendingTransfer(chatId: int, transfer: PendingTransfer)
      modifies this
      ensures pendingTransfers == old(pendingTransfers)[chatId := transfer]
      ensures GetPendingTransfer(chatId) == Some(transfer)
      ensures forall c :: c != chatId ==> GetPendingTransfer(c) == old(GetPendingTransfer(c))
    {
      pendingTransfers := pendingTransfers[chatId := transfer];
    }

    /** `clearPendingTransfer`: the chat's entry is gone; the other chats
        keep theirs. */
    method ClearPendingTransfer(chatId: int)
      modifies this
      ensures pendingTransfers == old(pendingTransfers) - {chatId}
      ensures GetPendingTransfer(chatId) == None
      ensures forall c :: c != chatId ==> GetPendingTransfer(c) == old(GetPendingTransfer(c))
    {
      pendingTransfers := pendingTransfers - {chatId};
    }

    /** `executeTransfer(senderId, receiverId, amount)`: the stored users
        change as `Transfer` says; the saved sender and receiver records
        are returned. */
    method ExecuteTransfer(db: Database, senderId: UserId, receiverId: UserId, amount: int)
      returns (r: Result<(User, User)>)
      modifies db
      ensures var t := Transfer(old(db.users), senderId, receiverId, amount);
        (t.Failure? ==> r == Failure(t.error) && db.users == old(db.users)) &&
        (t.Success? ==>
           db.users == t.value && r.Success? &&
           r.value.0 == old(db.users[senderId]).(balance := old(db.users[senderId]).balance - amount) &&
           r.value.1 == old(db.users[receiverId]).(balance := old(db.users[receiverId]).balance + amount))
      ensures db.games == old(db.games) && db.cards == old(db.cards)
    {
      if senderId !in db.users || receiverId !in db.users {
        return Failure(UserNotFound);
      }
      var sender := db.users[senderId];
      var receiver := db.users[receiverId];
      if sender.balance < amount {
        return Failure(InsufficientBalance);
      }
      sender := sender.(balance := sender.balance - amount);
      receiver := receiver.(balance := receiver.balance + amount);
      db.users := db.users[senderId := sender];
      db.users := db.users[receiverId := receiver];
      return Success((sender, receiver));
    }
  }
}
