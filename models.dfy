/** The stored documents the core reads and writes: users
    (src/models/User.model.ts), games and cards. The Mongo collections
    become the fields of one in-memory `Database` object. */
module Models {
  import opened Wrappers
  import opened WinDetector

  /** A document's `_id`, as the string the services pass around. */
  type UserId = string
  type GameId = string

  datatype User = User(
    telegramId: int,
    firstName: string,
    lastName: Option<string>,
    phone: string,
    balance: int,
    demoGames: int,
    referralCode: string)

  /** The statuses the game engine reads and writes. */
  datatype GameStatus = Waiting | Playing | Finished | Cancelled

  /** One seat: a user playing one card. */
  datatype Player = Player(userId: UserId, cardId: int, markedNumbers: seq<int>, hasWon: bool)

  /** A game document; `gameType` is the stake each player pays. */
  datatype Game = Game(
    status: GameStatus,
    gameType: int,
    players: seq<Player>,
    drawnNumbers: seq<int>,
    prizePool: int,
    winner: Option<UserId>)

  datatype CardRecord = CardRecord(cardId: int, numbers: CardNumbers)

  /** `Card.findOne({cardId})`: the first stored card with that id. */
  function FindCard(cards: seq<CardRecord>, cardId: int): (r: Option<CardNumbers>)
    ensures r.None? <==> forall k :: 0 <= k < |cards| ==> cards[k].cardId != cardId
    ensures r.Some? ==> exists k :: 0 <= k < |cards| && cards[k].cardId == cardId && cards[k].numbers == r.value
  {
    if cards == [] then None
    else if cards[0].cardId == cardId then Some(cards[0].numbers)
    else
      var r := FindCard(cards[1..], cardId);
      assert forall k :: 1 <= k < |cards| ==> cards[k] == cards[1..][k - 1];
      r
  }

  /** `User.findByIdAndUpdate(id, {$inc: {balance: amount}})`: adds
      `amount` to the user's balance; an unknown id changes nothing. */
  function IncBalance(users: map<UserId, User>, id: UserId, amount: int): (r: map<UserId, User>)
    ensures r.Keys == users.Keys
    ensures id in users ==> r[id] == users[id].(balance := users[id].balance + amount)
    ensures forall u :: u in users && u != id ==> r[u] == users[u]
  {
    if id in users then users[id := users[id].(balance := users[id].balance + amount)] else users
  }

  /** Every card has five entries per column, as the generator makes them. */
  predicate CardsShaped(cards: seq<CardRecord>) {
    forall k :: 0 <= k < |cards| ==> Shaped(cards[k].numbers)
  }

  class Database {
    var users: map<UserId, User>
    var games: map<GameId, Game>
    var cards: seq<CardRecord>

    /** Every stored card is shaped. */
    ghost predicate Valid()
      reads this
    {
      CardsShaped(cards)
    }

    constructor ()
      ensures Valid() && users == map[] && games == map[] && cards == []
    {
      users, games, cards := map[], map[], [];
    }
  }
}
