/** The user-record operations of src/bot/services/userService.ts:
    creating a user with its defaults, and crediting or debiting a
    balance by id. The `User` collection is the `users` map of a
    `Database`. */
module UserService {
  import opened Wrappers
  import opened Models
  import opened Validators
  import opened Referral

  const UserNotFound: string := "User not found"
  const InsufficientBalance: string := "Insufficient balance"

  /** Only the balance of `userId` differs between `before` and `after`,
      and it moved by `delta`. */
  predicate BalanceMoved(before: map<UserId, User>, after: map<UserId, User>, userId: UserId, delta: int) {
    userId in before && after.Keys == before.Keys &&
    after[userId] == before[userId].(balance := before[userId].balance + delta) &&
    forall u :: u in before && u != userId ==> after[u] == before[u]
  }

  /** `updateUserBalance` on the stored users: "User not found" for an
      unknown id, otherwise the balance moves by `amount`, whatever its
      sign. */
  function Credit(users: map<UserId, User>, userId: UserId, amount: int): (r: Result<map<UserId, User>>)
    ensures r.Failure? <==> userId !in users
    ensures r.Failure? ==> r.error == UserNotFound
    ensures r.Success? ==> BalanceMoved(users, r.value, userId, amount)
  {
    if userId !in users then Failure(UserNotFound)
    else Success(users[userId := users[userId].(balance := users[userId].balance + amount)])
  }

  /** `deductUserBalance` on the stored users: "User not found" for an
      unknown id, "Insufficient balance" when the balance is below
      `amount`, otherwise the balance drops by `amount` and stays
      non-negative. */
  function Debit(users: map<UserId, User>, userId: UserId, amount: int): (r: Result<map<UserId, User>>)
    ensures r.Failure? <==> userId !in users || users[userId].balance < amount
    ensures r.Failure? ==> r.error == (if userId !in users then UserNotFound else InsufficientBalance)
    ensures r.Success? ==> BalanceMoved(users, r.value, userId, -amount) && r.value[userId].balance >= 0
  {
    if userId !in users then Failure(UserNotFound)
    else if users[userId].balance < amount then Failure(InsufficientBalance)
    else Success(users[userId := users[userId].(balance := users[userId].balance - amount)])
  }

  /** Crediting back what was debited restores every record. */
  lemma DebitThenCreditRestores(users: map<UserId, User>, userId: UserId, amount: int)
    requires Debit(users, userId, amount).Success?
    ensures Credit(Debit(users, userId, amount).value, userId, amount) == Success(users)
  {
    var after := Credit(Debit(users, userId, amount).value, userId, amount).value;
    assert after[userId] == users[userId];
    assert after == users;
  }

  /** A debit succeeds on a credited record whenever the record's own
      balance was non-negative, and then restores it. */
  lemma CreditThenDebitRestores(users: map<UserId, User>, userId: UserId, amount: int)
    requires userId in users && users[userId].balance >= 0
    ensures Debit(Credit(users, userId, amount).value, userId, amount) == Success(users)
  {
    var after := Debit(Credit(users, userId, amount).value, userId, amount).value;
    assert after[userId] == users[userId];
    assert after == users;
  }

  /** `updateUserBalance(userId, amount)`: returns the updated record. */
  method UpdateUserBalance(db: Database, userId: UserId, amount: int) returns (r: Result<User>)
    modifies db
    ensures var c := Credit(old(db.users), userId, amount);
      (c.Failure? ==> r == Failure(c.error) && db.users == old(db.users)) &&
      (c.Success? ==> db.users == c.value && r == Success(db.users[userId]))
    ensures db.games == old(db.games) && db.cards == old(db.cards)
  {
    if userId !in db.users {
      return Failure(UserNotFound);
    }
    var user := db.users[userId];
    user := user.(balance := user.balance + amount);
    db.users := db.users[userId := user];
    return Success(user);
  }

  /** `deductUserBalance(userId, amount)`: returns the updated record. */
  method DeductUserBalance(db: Database, userId: UserId, amount: int) returns (r: Result<User>)
    modifies db
    ensures var d := Debit(old(db.users), userId, amount);
      (d.Failure? ==> r == Failure(d.error) && db.users == old(db.users)) &&
      (d.Success? ==> db.users == d.value && r == Success(db.users[userId]))
    ensures db.games == old(db.games) && db.cards == old(db.cards)
  {
    if userId !in db.users {
      return Failure(UserNotFound);
    }
    var user := db.users[userId];
    if user.balance < amount {
      return Failure(InsufficientBalance);
    }
    user := user.(balance := user.balance - amount);
    db.users := db.users[userId := user];
    return Success(user);
  }

  /** `createUser`: the phone is stored normalised with a leading `+`,
      a missing balance becomes 5 and missing demo games 3 (`??` keeps an
      explicit 0), and the record gets a fresh referral code from the
      generator as written, so a free code found only at the tenth attempt
      still makes the call fail. The new document's id `newId` is chosen by
      the store, so it is not taken. */
  method CreateUser(db: Database, newId: UserId, telegramId: int, firstName: string, lastName: Option<string>,
                    phone: string, balance: Option<int>, demoGames: Option<int>,
                    random: nat -> Bytes4, lookup: string -> LookupResult)
    returns (r: Result<User>)
    requires newId !in db.users
    modifies db
    ensures var f := FirstFree(random, lookup, 0, MaxAttempts);
      r.Failure? <==> f.None? || f.value == MaxAttempts - 1
    ensures r.Failure? ==> r.error == Exhausted && db.users == old(db.users)
    ensures r.Success? ==>
      db.users == old(db.users)[newId := r.value] &&
      r.value.telegramId == telegramId && r.value.firstName == firstName && r.value.lastName == lastName &&
      r.value.phone == NormalizePhoneNumber(phone) && StartsWithPlus(r.value.phone) &&
      r.value.balance == (if balance.Some? then balance.value else 5) &&
      r.value.demoGames == (if demoGames.Some? then demoGames.value else 3) &&
      r.value.referralCode == Candidate(random, FirstFree(random, lookup, 0, MaxAttempts).value) &&
      !lookup(r.value.referralCode).Found?
    ensures db.games == old(db.games) && db.cards == old(db.cards)
  {
    var normalizedPhone := NormalizePhoneNumber(phone);
    var referralCode, _ := GenerateReferralCode(random, lookup);
    if referralCode.Failure? {
      return Failure(referralCode.error);
    }
    var user := User(telegramId, firstName, lastName, normalizedPhone,
                     balance.GetOr(5), demoGames.GetOr(3), referralCode.value);
    db.users := db.users[newId := user];
    return Success(user);
  }
}
