/** The game engine of src/game/gameEngine.ts: one `GameEngine` object per
    game with a countdown counter and two interval-handle slots, the
    operations the timers and the players trigger, and the process-wide
    `activeGames` registry.

    The engine's surroundings are explicit: the Mongo `Game`, `User` and
    `Card` collections are the fields of a `Database`, every
    `getIO().to(...).emit(...)` appends to an `EventLog`, and a
    `setInterval` callback firing is a call of `CountdownTick` or
    `DrawNumber`. */
module GameEngine {
  import opened Wrappers
  import opened WinDetector
  import opened Models
  import opened CardGenerator

  type TimerId = nat

  /** The events broadcast to the room `game-<gameId>`. */
  datatype Event =
    | CountdownTicked(gameId: GameId, seconds: int)
    | CountdownStopped(gameId: GameId)
    | GameCancelled(gameId: GameId)
    | GameStarted(gameId: GameId)
    | NumberDrawn(gameId: GameId, number: int, column: char, drawnNumbers: seq<int>)
    | NumberMarked(gameId: GameId, userId: UserId, cardId: int, number: int)
    | GameWon(gameId: GameId, winnerId: UserId, prize: int, pattern: string)

  class EventLog {
    var emitted: seq<Event>

    constructor ()
      ensures emitted == []
    {
      emitted := [];
    }
  }

  /** The handle an interval slot holds, as a set. */
  function Handles(slot: Option<TimerId>): set<TimerId> {
    if slot.Some? then {slot.value} else {}
  }

  // ----- Seats -------------------------------------------------------------

  predicate Seats(p: Player, userId: UserId, cardId: int) {
    p.userId == userId && p.cardId == cardId
  }

  /** `game.players.find(p => p.userId === userId && p.cardId === cardId)`,
      as the index of the first matching seat. */
  function FindPlayer(players: seq<Player>, userId: UserId, cardId: int, from: nat := 0): (r: Option<nat>)
    requires from <= |players|
    decreases |players| - from
    ensures r.Some? ==> from <= r.value < |players| && Seats(players[r.value], userId, cardId)
    ensures r.Some? ==> forall j :: from <= j < r.value ==> !Seats(players[j], userId, cardId)
    ensures r.None? ==> forall j :: from <= j < |players| ==> !Seats(players[j], userId, cardId)
  {
    if from == |players| then None
    else if Seats(players[from], userId, cardId) then Some(from)
    else FindPlayer(players, userId, cardId, from + 1)
  }

  /** Replacing a seat by one for the same user and card does not change
      which seat `find` picks. */
  lemma FindPlayerAfterUpdate(players: seq<Player>, i: nat, p: Player, userId: UserId, cardId: int)
    requires i < |players| && p.userId == players[i].userId && p.cardId == players[i].cardId
    ensures FindPlayer(players[i := p], userId, cardId) == FindPlayer(players, userId, cardId)
  {
    var players' := players[i := p];
    assert forall j :: 0 <= j < |players| ==>
      (Seats(players'[j], userId, cardId) <==> Seats(players[j], userId, cardId));
  }

  // ----- markNumber --------------------------------------------------------

  /** Whether `markNumber` accepts: the seat exists and the number is not
      yet marked on it. Neither the game's status nor its drawn numbers are
      consulted. */
  predicate Marks(g: Game, userId: UserId, cardId: int, number: int) {
    var i := FindPlayer(g.players, userId, cardId);
    i.Some? && number !in g.players[i.value].markedNumbers
  }

  /** The game after `markNumber`: the number appended to the seat's marks
      when accepted, the same game otherwise. */
  function MarkOn(g: Game, userId: UserId, cardId: int, number: int): (r: Game)
    ensures r.status == g.status && r.gameType == g.gameType && r.drawnNumbers == g.drawnNumbers &&
      r.prizePool == g.prizePool && r.winner == g.winner && |r.players| == |g.players|
    ensures !Marks(g, userId, cardId, number) ==> r == g
    ensures Marks(g, userId, cardId, number) ==>
      number in r.players[FindPlayer(g.players, userId, cardId).value].markedNumbers
  {
    var i := FindPlayer(g.players, userId, cardId);
    if i.Some? && number !in g.players[i.value].markedNumbers then
      var p := g.players[i.value];
      g.(players := g.players[i.value := p.(markedNumbers := p.markedNumbers + [number])])
    else g
  }

  /** Marking adds exactly the marked number to exactly one seat and
      touches nothing else. */
  lemma {:induction false} MarkChangesOneSeat(g: Game, userId: UserId, cardId: int, number: int)
    ensures var g' := MarkOn(g, userId, cardId, number);
      g'.status == g.status && g'.drawnNumbers == g.drawnNumbers && g'.prizePool == g.prizePool &&
      g'.winner == g.winner && |g'.players| == |g.players| &&
      forall j :: 0 <= j < |g.players| ==>
        g'.players[j].userId == g.players[j].userId && g'.players[j].cardId == g.players[j].cardId &&
        g'.players[j].hasWon == g.players[j].hasWon &&
        (forall x :: x in g'.players[j].markedNumbers <==>
           x in g.players[j].markedNumbers ||
           (x == number && Marks(g, userId, cardId, number) && Seats(g.players[j], userId, cardId) &&
            FindPlayer(g.players, userId, cardId) == Some(j)))
  {
    var g' := MarkOn(g, userId, cardId, number);
    if Marks(g, userId, cardId, number) {
      var i := FindPlayer(g.players, userId, cardId).value;
      assert g'.players == g.players[i := g'.players[i]];
      forall j | 0 <= j < |g.players|
        ensures forall x :: x in g'.players[j].markedNumbers <==>
          x in g.players[j].markedNumbers ||
          (x == number && Seats(g.players[j], userId, cardId) && Some(i) == Some(j))
      {
        if j == i {
          assert g'.players[j].markedNumbers == g.players[j].markedNumbers + [number];
        }
      }
    }
  }

  /** Marking the same number twice is the same as marking it once, and
      the second call is refused. */
  lemma {:induction false} MarkIsIdempotent(g: Game, userId: UserId, cardId: int, number: int)
    ensures !Marks(MarkOn(g, userId, cardId, number), userId, cardId, number)
    ensures MarkOn(MarkOn(g, userId, cardId, number), userId, cardId, number) == MarkOn(g, userId, cardId, number)
  {
    var i := FindPlayer(g.players, userId, cardId);
    if i.Some? && number !in g.players[i.value].markedNumbers {
      var p := g.players[i.value];
      FindPlayerAfterUpdate(g.players, i.value, p.(markedNumbers := p.markedNumbers + [number]), userId, cardId);
    }
  }

  /** No seat's marks ever hold a number twice. */
  predicate MarksDistinct(g: Game) {
    forall j :: 0 <= j < |g.players| ==> Distinct(g.players[j].markedNumbers)
  }

  lemma {:induction false} MarkKeepsMarksDistinct(g: Game, userId: UserId, cardId: int, number: int)
    requires MarksDistinct(g)
    ensures MarksDistinct(MarkOn(g, userId, cardId, number))
  {
    var i := FindPlayer(g.players, userId, cardId);
    if i.Some? && number !in g.players[i.value].markedNumbers {
      var m := g.players[i.value].markedNumbers;
      assert Distinct(m + [number]) by {
        forall a, b | 0 <= a < b < |m| + 1 ensures (m + [number])[a] != (m + [number])[b] {
          if b == |m| {
            assert (m + [number])[a] == m[a];
          }
        }
      }
    }
  }

  // ----- drawNumber --------------------------------------------------------

  /** Some number of 1..75 is not drawn yet: otherwise the source's
      rejection loop `do { ... } while (drawnNumbers.includes(n))` never ends. */
  predicate CanDraw(drawn: seq<int>) {
    exists n :: 1 <= n <= 75 && n !in drawn
  }

  /** The drawn numbers so far: all different, all in 1..75. */
  predicate DrawsWellFormed(drawn: seq<int>) {
    Distinct(drawn) && InRange(drawn, 1, 75)
  }

  /** A draw of `n` onto well-formed draws keeps them well-formed and
      lengthens them by one. */
  lemma {:induction false} DrawKeepsWellFormed(drawn: seq<int>, n: int)
    requires DrawsWellFormed(drawn) && 1 <= n <= 75 && n !in drawn
    ensures DrawsWellFormed(drawn + [n]) && |drawn + [n]| == |drawn| + 1
  {
    var d := drawn + [n];
    forall a, b | 0 <= a < b < |d| ensures d[a] != d[b] {
      if b == |drawn| {
        assert d[a] == drawn[a];
      } else {
        assert d[a] == drawn[a] && d[b] == drawn[b];
      }
    }
    forall k | 0 <= k < |d| ensures 1 <= d[k] <= 75 {
      if k < |drawn| {
        assert d[k] == drawn[k];
      }
    }
  }

  function Elements(s: seq<int>): set<int> {
    set x | x in s
  }

  /** The numbers `lo..hi`. */
  function Interval(lo: int, hi: int): set<int>
    decreases hi - lo
  {
    if lo > hi then {} else Interval(lo, hi - 1) + {hi}
  }

  lemma {:induction false} IntervalMembers(lo: int, hi: int, n: int)
    ensures n in Interval(lo, hi) <==> lo <= n <= hi
    decreases hi - lo
  {
    if lo <= hi {
      IntervalMembers(lo, hi - 1, n);
    }
  }

  /** A set of numbers from `lo..hi` has at most `hi - lo + 1` members. */
  lemma {:induction false} IntervalBound(a: set<int>, lo: int, hi: int)
    requires lo <= hi + 1 && a <= Interval(lo, hi)
    ensures |a| <= hi - lo + 1
    decreases hi - lo
  {
    if lo <= hi {
      forall x | x in a - {hi} ensures x in Interval(lo, hi - 1) {
        IntervalMembers(lo, hi, x);
        IntervalMembers(lo, hi - 1, x);
      }
      IntervalBound(a - {hi}, lo, hi - 1);
    }
  }

  lemma {:induction false} IntervalSize(lo: int, hi: int)
    requires lo <= hi + 1
    ensures |Interval(lo, hi)| == hi - lo + 1
    decreases hi - lo
  {
    if lo <= hi {
      IntervalSize(lo, hi - 1);
      IntervalMembers(lo, hi - 1, hi);
    }
  }

  /** A sequence without repetitions has as many distinct values as entries. */
  lemma {:induction false} DistinctElements(s: seq<int>)
    requires Distinct(s)
    ensures |Elements(s)| == |s|
  {
    if s != [] {
      var t := s[1..];
      assert Distinct(t) by {
        forall a, b | 0 <= a < b < |t| ensures t[a] != t[b] {
          assert t[a] == s[a + 1] && t[b] == s[b + 1];
        }
      }
      DistinctElements(t);
      forall j | 0 <= j < |t| ensures t[j] != s[0] {
        assert t[j] == s[j + 1];
      }
      assert s[0] !in Elements(t);
      assert Elements(s) == {s[0]} + Elements(t) by {
        assert s == [s[0]] + t;
      }
    }
  }

  /** The distinct drawn numbers lie in `1..75`. */
  lemma DrawnWithinRange(drawn: seq<int>)
    requires DrawsWellFormed(drawn)
    ensures Elements(drawn) <= Interval(1, 75) && |Elements(drawn)| == |drawn|
  {
    DistinctElements(drawn);
    forall x | x in Elements(drawn) ensures x in Interval(1, 75) {
      IntervalMembers(1, 75, x);
    }
  }

  /** At most 75 numbers are ever drawn, and another draw is possible
      exactly when fewer than 75 are. */
  lemma {:induction false} DrawsBounded(drawn: seq<int>)
    requires DrawsWellFormed(drawn)
    ensures |drawn| <= 75
    ensures CanDraw(drawn) <==> |drawn| < 75
  {
    DrawnWithinRange(drawn);
    IntervalSize(1, 75);
    IntervalBound(Elements(drawn), 1, 75);
    if CanDraw(drawn) {
      RoomLeft(drawn);
    } else {
      NoRoomLeft(drawn);
    }
  }

  lemma RoomLeft(drawn: seq<int>)
    requires DrawsWellFormed(drawn) && CanDraw(drawn)
    ensures |drawn| < 75
  {
    var n :| 1 <= n <= 75 && n !in drawn;
    DrawnWithinRange(drawn);
    IntervalMembers(1, 75, n);
    IntervalBound(Elements(drawn) + {n}, 1, 75);
  }

  lemma NoRoomLeft(drawn: seq<int>)
    requires DrawsWellFormed(drawn) && !CanDraw(drawn)
    ensures |drawn| == 75
  {
    DrawnWithinRange(drawn);
    assert forall x :: 1 <= x <= 75 ==> x in Elements(drawn);
    IntervalFull(Elements(drawn), 1, 75);
  }

  /** A set of numbers from `lo..hi` holding each of them has `hi - lo + 1`
      members. */
  lemma IntervalFull(a: set<int>, lo: int, hi: int)
    requires lo <= hi + 1 && a <= Interval(lo, hi)
    requires forall x :: lo <= x <= hi ==> x in a
    ensures |a| == hi - lo + 1
  {
    IntervalSize(lo, hi);
    forall x | x in Interval(lo, hi) ensures x in a {
      IntervalMembers(lo, hi, x);
    }
    assert a == Interval(lo, hi);
  }

  // ----- startGame ---------------------------------------------------------

  /** How often `userId` sits in `players`. */
  function Occurrences(players: seq<Player>, userId: UserId): nat {
    if players == [] then 0
    else Occurrences(players[..|players| - 1], userId) + (if players[|players| - 1].userId == userId then 1 else 0)
  }

  /** The balances after `for (const player of players) $inc balance by -amount`. */
  function DebitAll(users: map<UserId, User>, players: seq<Player>, amount: int): (r: map<UserId, User>)
    ensures r.Keys == users.Keys
    ensures forall u :: u in users && Occurrences(players, u) == 0 ==> r[u] == users[u]
  {
    if players == [] then users
    else IncBalance(DebitAll(users, players[..|players| - 1], amount), players[|players| - 1].userId, -amount)
  }

  /** Debiting one more seat of the list. */
  lemma DebitAllStep(users: map<UserId, User>, players: seq<Player>, k: nat, amount: int)
    requires k < |players|
    ensures DebitAll(users, players[..k + 1], amount) ==
      IncBalance(DebitAll(users, players[..k], amount), players[k].userId, -amount)
  {
    assert players[..k + 1][..k] == players[..k];
  }

  /** One more seat of `last` debits `u` once more when `u` is `last`. */
  lemma DebitStep(before: map<UserId, User>, u: UserId, last: UserId, amount: int, base: User, k: nat)
    requires u in before && before[u] == base.(balance := base.balance - amount * k)
    ensures IncBalance(before, last, -amount)[u] ==
      base.(balance := base.balance - amount * (k + if last == u then 1 else 0))
  {
    if last == u {
      assert base.balance - amount * k - amount == base.balance - amount * (k + 1);
    }
  }

  /** Each user loses the stake once per seat they hold; unknown users are
      skipped; nothing but balances changes. */
  lemma {:induction false} DebitAllTakesStakePerSeat(users: map<UserId, User>, players: seq<Player>, amount: int, u: UserId)
    ensures DebitAll(users, players, amount).Keys == users.Keys
    ensures u in users ==>
      DebitAll(users, players, amount)[u] == users[u].(balance := users[u].balance - amount * Occurrences(players, u))
  {
    if players != [] {
      var init, last := players[..|players| - 1], players[|players| - 1];
      DebitAllTakesStakePerSeat(users, init, amount, u);
      if u in users {
        DebitStep(DebitAll(users, init, amount), u, last.userId, amount, users[u], Occurrences(init, u));
      }
    }
  }

  /** `startGame` on a stored game: cancelled when nobody is seated,
      playing otherwise. */
  function StartedGame(g: Game): (r: Game)
    ensures r == g.(status := r.status)
    ensures r.status == Cancelled <==> g.players == []
    ensures r.status == Playing <==> g.players != []
  {
    if |g.players| == 0 then g.(status := Cancelled) else g.(status := Playing)
  }

  function GamesAfterStart(games: map<GameId, Game>, gameId: GameId): map<GameId, Game> {
    if gameId in games then games[gameId := StartedGame(games[gameId])] else games
  }

  function UsersAfterStart(users: map<UserId, User>, games: map<GameId, Game>, gameId: GameId): map<UserId, User> {
    if gameId in games && |games[gameId].players| > 0 then DebitAll(users, games[gameId].players, games[gameId].gameType)
    else users
  }

  function EventsAfterStart(games: map<GameId, Game>, gameId: GameId): seq<Event> {
    if gameId !in games then []
    else if |games[gameId].players| == 0 then [GameCancelled(gameId)]
    else [GameStarted(gameId)]
  }

  /** Whether `startGame` sets up the 2-second draw interval. */
  predicate DrawTimerStarts(games: map<GameId, Game>, gameId: GameId) {
    gameId in games && |games[gameId].players| > 0
  }

  /** `startGame` cancels a game nobody sits in and debits nobody;
      otherwise the game is playing and every seated user has paid the
      stake once per seat. */
  lemma StartGameOutcome(users: map<UserId, User>, games: map<GameId, Game>, gameId: GameId, u: UserId)
    requires gameId in games
    ensures var g := games[gameId];
      |g.players| == 0 ==>
        GamesAfterStart(games, gameId)[gameId].status == Cancelled && UsersAfterStart(users, games, gameId) == users
    ensures var g := games[gameId];
      |g.players| > 0 ==>
        GamesAfterStart(games, gameId)[gameId].status == Playing &&
        UsersAfterStart(users, games, gameId).Keys == users.Keys &&
        (u in users ==> UsersAfterStart(users, games, gameId)[u].balance == users[u].balance - g.gameType * Occurrences(g.players, u))
  {
    if |games[gameId].players| > 0 {
      DebitAllTakesStakePerSeat(users, games[gameId].players, games[gameId].gameType, u);
    }
  }

  // ----- checkPlayerWin ----------------------------------------------------

  /** What `checkPlayerWin` finds, in the order it checks. */
  datatype ClaimOutcome =
    | NotActive
    | PlayerMissing
    | CardMissing
    | Invalid
    | Won(seat: nat, result: WinResult)

  function EvaluateClaim(games: map<GameId, Game>, gameId: GameId, cards: seq<CardRecord>, userId: UserId, cardId: int): (o: ClaimOutcome)
    requires CardsShaped(cards)
    ensures o.NotActive? <==> gameId !in games || games[gameId].status != Playing
    ensures o.PlayerMissing? <==>
      gameId in games && games[gameId].status == Playing &&
      FindPlayer(games[gameId].players, userId, cardId).None?
    ensures o.CardMissing? <==>
      gameId in games && games[gameId].status == Playing &&
      FindPlayer(games[gameId].players, userId, cardId).Some? && FindCard(cards, cardId).None?
    ensures o.Won? ==>
      gameId in games && o.seat < |games[gameId].players| &&
      Seats(games[gameId].players[o.seat], userId, cardId) && o.result.HasWon()
    ensures (gameId in games && games[gameId].status == Playing &&
             FindPlayer(games[gameId].players, userId, cardId).Some? && FindCard(cards, cardId).Some?) ==>
      var i := FindPlayer(games[gameId].players, userId, cardId).value;
      var card := FindCard(cards, cardId).value;
      Shaped(card) &&
      var w := CheckWin(card, games[gameId].players[i].markedNumbers);
      (o.Won? <==> w.HasWon()) && (o.Won? ==> o == Won(i, w)) && (o.Invalid? <==> !w.HasWon())
  {
    if gameId !in games || games[gameId].status != Playing then NotActive
    else
      var g := games[gameId];
      match FindPlayer(g.players, userId, cardId)
      case None => PlayerMissing
      case Some(i) =>
        match FindCard(cards, cardId)
        case None => CardMissing
        case Some(card) =>
          var w := CheckWin(card, g.players[i].markedNumbers);
          if w.HasWon() then Won(i, w) else Invalid
  }

  /** `checkPlayerWin`'s reply. */
  datatype ClaimReply = ClaimReply(hasWon: bool, pattern: Option<string>, message: string)

  /** Only an accepted claim replies `hasWon`, and only it names a pattern,
      the one `checkWin` found; the rejections differ in their message. */
  function ReplyFor(o: ClaimOutcome): (r: ClaimReply)
    ensures r.hasWon <==> o.Won?
    ensures r.pattern.Some? <==> o.Won?
    ensures o.Won? ==> r.pattern == Some(o.result.PatternName())
  {
    match o
    case NotActive => ClaimReply(false, None, "Game is not active")
    case PlayerMissing => ClaimReply(false, None, "Player not found in game")
    case CardMissing => ClaimReply(false, None, "Card not found")
    case Invalid => ClaimReply(false, None, "Invalid bingo. Please continue playing.")
    case Won(_, w) => ClaimReply(true, Some(w.PatternName()), "Congratulations! You won!")
  }

  /** A client can tell the outcome from the reply: two outcomes with the
      same reply are of the same kind, and two wins name the same pattern. */
  lemma RepliesTellOutcomesApart(a: ClaimOutcome, b: ClaimOutcome)
    requires ReplyFor(a) == ReplyFor(b)
    ensures a.NotActive? == b.NotActive? && a.PlayerMissing? == b.PlayerMissing?
    ensures a.CardMissing? == b.CardMissing? && a.Invalid? == b.Invalid? && a.Won? == b.Won?
    ensures a.Won? ==> a.result.PatternName() == b.result.PatternName()
  {
  }

  /** The game after an accepted claim by seat `i`: finished, won by that
      seat's user, with that seat flagged and every seat still found where
      it was. */
  function AfterWin(g: Game, i: nat): (r: Game)
    requires i < |g.players|
    ensures r.status == Finished && r.winner == Some(g.players[i].userId)
    ensures r.gameType == g.gameType && r.drawnNumbers == g.drawnNumbers && r.prizePool == g.prizePool
    ensures |r.players| == |g.players| && r.players[i].hasWon
    ensures forall j :: 0 <= j < |g.players| && j != i ==> r.players[j] == g.players[j]
    ensures forall u, c :: FindPlayer(r.players, u, c) == FindPlayer(g.players, u, c)
  {
    forall u, c ensures FindPlayer(g.players[i := g.players[i].(hasWon := true)], u, c) == FindPlayer(g.players, u, c) {
      FindPlayerAfterUpdate(g.players, i, g.players[i].(hasWon := true), u, c);
    }
    g.(status := Finished, winner := Some(g.players[i].userId),
       players := g.players[i := g.players[i].(hasWon := true)])
  }

  /** An accepted claim is backed by a complete pattern on the claimant's
      card and the claimant's own marks. */
  lemma ClaimIsBackedByCard(games: map<GameId, Game>, gameId: GameId, cards: seq<CardRecord>, userId: UserId, cardId: int)
    requires CardsShaped(cards)
    requires EvaluateClaim(games, gameId, cards, userId, cardId).Won?
    ensures var o := EvaluateClaim(games, gameId, cards, userId, cardId);
      games[gameId].status == Playing &&
      exists k :: 0 <= k < |cards| && cards[k].cardId == cardId &&
        CheckWin(cards[k].numbers, games[gameId].players[o.seat].markedNumbers) == o.result
  {
  }

  /** After an accepted claim the game is finished, so the next claim, by
      anyone, is answered "Game is not active". */
  lemma {:induction false} WinSettlesGame(games: map<GameId, Game>, gameId: GameId, cards: seq<CardRecord>,
                                         userId: UserId, cardId: int, otherUser: UserId, otherCard: int)
    requires CardsShaped(cards)
    requires EvaluateClaim(games, gameId, cards, userId, cardId).Won?
    ensures var games' := games[gameId := AfterWin(games[gameId], EvaluateClaim(games, gameId, cards, userId, cardId).seat)];
      games'[gameId].status == Finished && games'[gameId].winner == Some(userId) &&
      EvaluateClaim(games', gameId, cards, otherUser, otherCard) == NotActive
  {
  }

  /** How many seats have `hasWon` set. */
  function CountWinners(players: seq<Player>): nat {
    if players == [] then 0
    else CountWinners(players[..|players| - 1]) + (if players[|players| - 1].hasWon then 1 else 0)
  }

  lemma {:induction false} CountWinnersUpdate(players: seq<Player>, i: nat, p: Player)
    requires i < |players|
    ensures CountWinners(players[i := p]) + (if players[i].hasWon then 1 else 0)
         == CountWinners(players) + (if p.hasWon then 1 else 0)
  {
    var n := |players| - 1;
    if i < n {
      CountWinnersUpdate(players[..n], i, p);
      assert players[i := p][..n] == players[..n][i := p];
    } else {
      assert players[i := p][..n] == players[..n];
    }
  }

  /** A finished game has exactly one seat marked as winner and names its
      user; an unfinished one has none. */
  predicate SingleWinner(g: Game) {
    if g.status == Finished then
      g.winner.Some? && CountWinners(g.players) == 1 &&
      forall j :: 0 <= j < |g.players| && g.players[j].hasWon ==> g.players[j].userId == g.winner.value
    else CountWinners(g.players) == 0
  }

  lemma CountWinnersZero(players: seq<Player>, j: nat)
    requires CountWinners(players) == 0 && j < |players|
    ensures !players[j].hasWon
  {
    CountWinnersUpdate(players, j, players[j].(hasWon := false));
  }

  /** An accepted claim on a game that keeps `SingleWinner` keeps it. */
  lemma {:induction false} WinKeepsSingleWinner(g: Game, i: nat)
    requires i < |g.players| && g.status == Playing && SingleWinner(g)
    ensures SingleWinner(AfterWin(g, i))
  {
    var p := g.players[i].(hasWon := true);
    CountWinnersZero(g.players, i);
    CountWinnersUpdate(g.players, i, p);
    forall j | 0 <= j < |g.players| && AfterWin(g, i).players[j].hasWon
      ensures AfterWin(g, i).players[j].userId == g.players[i].userId
    {
      if j != i {
        CountWinnersZero(g.players, j);
      }
    }
  }

  /** Starting a waiting game keeps `SingleWinner`: nobody has won yet. */
  lemma StartKeepsSingleWinner(g: Game)
    requires g.status == Waiting && SingleWinner(g)
    ensures SingleWinner(StartedGame(g)) && CountWinners(StartedGame(g).players) == 0
  {
  }

  /** A finished game with one winner, seats 0 (the winner) and 1. */
  function FinishedTwoSeatGame(): Game {
    Game(Finished, 10, [Player("a", 1, [], true), Player("b", 2, [], false)], [], 20, Some("a"))
  }

  /** `startGame` does not check the status, so restarting a finished game
      re-opens it with the old winner's `hasWon` still set, and a second
      accepted claim leaves two winners. */
  lemma RestartReopensFinishedGame()
    ensures SingleWinner(FinishedTwoSeatGame())
    ensures StartedGame(FinishedTwoSeatGame()).status == Playing
    ensures !SingleWinner(StartedGame(FinishedTwoSeatGame()))
    ensures CountWinners(AfterWin(StartedGame(FinishedTwoSeatGame()), 1).players) == 2
  {
    var g := FinishedTwoSeatGame();
    var ps := g.players;
    assert ps[..1] == [ps[0]] && [ps[0]][..0] == [];
    assert CountWinners(ps) == 1;
    var ps2 := AfterWin(StartedGame(g), 1).players;
    assert ps2[..1] == [ps2[0]] && [ps2[0]][..0] == [];
    assert CountWinners(ps2) == 2;
  }

  /** Marking never touches `hasWon` or the status, so it keeps `SingleWinner`. */
  lemma {:induction false} MarkKeepsSingleWinner(g: Game, userId: UserId, cardId: int, number: int)
    requires SingleWinner(g)
    ensures SingleWinner(MarkOn(g, userId, cardId, number))
  {
    var i := FindPlayer(g.players, userId, cardId);
    if i.Some? && number !in g.players[i.value].markedNumbers {
      var p := g.players[i.value];
      CountWinnersUpdate(g.players, i.value, p.(markedNumbers := p.markedNumbers + [number]));
    }
  }

  // ----- countdown ---------------------------------------------------------

  /** The broadcasts the countdown still owes when the counter reads
      `from`: one per second, `from` down to 1. */
  function CountdownBroadcasts(gameId: GameId, from: int): seq<Event>
    decreases from
  {
    if from <= 0 then [] else [CountdownTicked(gameId, from)] + CountdownBroadcasts(gameId, from - 1)
  }

  /** From a counter of `from`, exactly `from` broadcasts follow, counting
      down by one from `from`; from 60 that is 60, 59, ..., 1. */
  lemma {:induction false} CountdownCountsDown(gameId: GameId, from: nat)
    ensures |CountdownBroadcasts(gameId, from)| == from
    ensures forall k :: 0 <= k < from ==> CountdownBroadcasts(gameId, from)[k] == CountdownTicked(gameId, from - k)
  {
    if from > 0 {
      CountdownCountsDown(gameId, from - 1);
      var rest := CountdownBroadcasts(gameId, from - 1);
      assert CountdownBroadcasts(gameId, from) == [CountdownTicked(gameId, from)] + rest;
      forall k | 1 <= k < from ensures CountdownBroadcasts(gameId, from)[k] == CountdownTicked(gameId, from - k) {
        assert CountdownBroadcasts(gameId, from)[k] == rest[k - 1];
      }
    }
  }

  // ----- the engine --------------------------------------------------------

  class GameEngine {
    const gameId: GameId
    const db: Database
    const io: EventLog
    /** The draw interval's handle. */
    var intervalId: Option<TimerId>
    /** The countdown interval's handle. */
    var countdownInterval: Option<TimerId>
    var countdown: int
    var isCountingDown: bool
    /** The intervals this engine has set and not cleared; each keeps firing. */
    var liveTimers: set<TimerId>
    /** The next handle `setInterval` hands out. */
    var nextTimer: TimerId

    ghost predicate Valid()
      reads this, db
    {
      db.Valid() && forall h :: h in liveTimers ==> h < nextTimer
    }

    constructor (gameId: GameId, db: Database, io: EventLog)
      requires db.Valid()
      ensures Valid() && this.gameId == gameId && this.db == db && this.io == io
      ensures intervalId == None && countdownInterval == None && countdown == 60 && !isCountingDown
      ensures liveTimers == {}
    {
      this.gameId := gameId;
      this.db := db;
      this.io := io;
      intervalId := None;
      countdownInterval := None;
      countdown := 60;
      isCountingDown := false;
      liveTimers := {};
      nextTimer := 0;
    }

    method SetInterval() returns (h: TimerId)
      requires Valid()
      modifies this
      ensures Valid() && h == old(nextTimer) && h !in old(liveTimers)
      ensures liveTimers == old(liveTimers) + {h} && nextTimer == h + 1
      ensures intervalId == old(intervalId) && countdownInterval == old(countdownInterval)
      ensures countdown == old(countdown) && isCountingDown == old(isCountingDown)
    {
      h := nextTimer;
      nextTimer := nextTimer + 1;
      liveTimers := liveTimers + {h};
    }

    /** `startCountdown`: only for a waiting game; a handle already in the
        slot is overwritten, not cleared. */
    method StartCountdown()
      requires Valid()
      modifies this
      ensures Valid()
      ensures gameId in db.games && db.games[gameId].status == Waiting ==>
        isCountingDown && countdown == 60 &&
        countdownInterval == Some(old(nextTimer)) && liveTimers == old(liveTimers) + {old(nextTimer)} &&
        intervalId == old(intervalId)
      ensures !(gameId in db.games && db.games[gameId].status == Waiting) ==> unchanged(this)
    {
      if gameId !in db.games || db.games[gameId].status != Waiting {
        return;
      }
      isCountingDown := true;
      countdown := 60;
      var h := SetInterval();
      countdownInterval := Some(h);
    }

    /** One firing of the countdown interval: while the counter is positive
        it is broadcast and decremented; at zero or below the interval is
        cleared and the game started. */
    method CountdownTick()
      requires Valid()
      modifies this, db, io
      ensures Valid() && db.cards == old(db.cards)
      ensures old(countdown) > 0 ==>
        io.emitted + CountdownBroadcasts(gameId, countdown) == old(io.emitted) + CountdownBroadcasts(gameId, old(countdown))
      ensures old(countdown) > 0 ==>
        countdown == old(countdown) - 1 && isCountingDown == old(isCountingDown) &&
        io.emitted == old(io.emitted) + [CountdownTicked(gameId, old(countdown))] &&
        db.games == old(db.games) && db.users == old(db.users) &&
        intervalId == old(intervalId) && countdownInterval == old(countdownInterval) && liveTimers == old(liveTimers)
      ensures old(countdown) <= 0 ==>
        countdown == old(countdown) && !isCountingDown && countdownInterval == old(countdownInterval) &&
        db.games == GamesAfterStart(old(db.games), gameId) &&
        db.users == UsersAfterStart(old(db.users), old(db.games), gameId) &&
        io.emitted == old(io.emitted) + EventsAfterStart(old(db.games), gameId) &&
        (DrawTimerStarts(old(db.games), gameId) ==>
          intervalId == Some(old(nextTimer)) &&
          liveTimers == old(liveTimers) - Handles(old(countdownInterval)) + {old(nextTimer)}) &&
        (!DrawTimerStarts(old(db.games), gameId) ==>
          intervalId == old(intervalId) && liveTimers == old(liveTimers) - Handles(old(countdownInterval)))
    {
      if countdown <= 0 {
        liveTimers := liveTimers - Handles(countdownInterval);
        isCountingDown := false;
        StartGame();
        return;
      }
      ghost var owed := CountdownBroadcasts(gameId, countdown - 1);
      assert CountdownBroadcasts(gameId, countdown) == [CountdownTicked(gameId, countdown)] + owed;
      io.emitted := io.emitted + [CountdownTicked(gameId, countdown)];
      countdown := countdown - 1;
      assert io.emitted + owed == old(io.emitted) + ([CountdownTicked(gameId, old(countdown))] + owed);
    }

    /** `stopCountdown`: the countdown slot is cleared and the counter reset;
        `countdown-stopped` is broadcast when the game has no players. */
    method StopCountdown()
      modifies this, io
      ensures countdownInterval == None && !isCountingDown && countdown == 60
      ensures liveTimers == old(liveTimers) - Handles(old(countdownInterval))
      ensures intervalId == old(intervalId) && nextTimer == old(nextTimer)
      ensures io.emitted == old(io.emitted) +
        (if gameId in db.games && |db.games[gameId].players| == 0 then [CountdownStopped(gameId)] else [])
    {
      if countdownInterval.Some? {
        liveTimers := liveTimers - {countdownInterval.value};
        countdownInterval := None;
      }
      isCountingDown := false;
      countdown := 60;
      if gameId in db.games && |db.games[gameId].players| == 0 {
        io.emitted := io.emitted + [CountdownStopped(gameId)];
      }
    }

    /** `startGame`: a missing game is ignored; with no players the game is
        cancelled; otherwise it is playing, every seat is debited the stake
        and the draw interval is set. The status is not checked first. */
    method StartGame()
      requires Valid()
      modifies this, db, io
      ensures Valid() && db.cards == old(db.cards)
      ensures db.games == GamesAfterStart(old(db.games), gameId)
      ensures db.users == UsersAfterStart(old(db.users), old(db.games), gameId)
      ensures io.emitted == old(io.emitted) + EventsAfterStart(old(db.games), gameId)
      ensures countdown == old(countdown) && isCountingDown == old(isCountingDown)
      ensures countdownInterval == old(countdownInterval)
      ensures DrawTimerStarts(old(db.games), gameId) ==>
        intervalId == Some(old(nextTimer)) && liveTimers == old(liveTimers) + {old(nextTimer)}
      ensures !DrawTimerStarts(old(db.games), gameId) ==>
        intervalId == old(intervalId) && liveTimers == old(liveTimers)
    {
      if gameId !in db.games {
        return;
      }
      var game := db.games[gameId];
      if |game.players| == 0 {
        db.games := db.games[gameId := game.(status := Cancelled)];
        io.emitted := io.emitted + [GameCancelled(gameId)];
        return;
      }
      game := game.(status := Playing);
      db.games := db.games[gameId := game];
      DebitSeats(game.players, game.gameType);
      io.emitted := io.emitted + [GameStarted(gameId)];
      var h := SetInterval();
      intervalId := Some(h);
    }

    /** The `for (const player of game.players)` loop of `startGame`:
        every seat's user is debited `amount`, in seat order. */
    method DebitSeats(players: seq<Player>, amount: int)
      modifies db
      ensures db.users == DebitAll(old(db.users), players, amount)
      ensures db.games == old(db.games) && db.cards == old(db.cards)
    {
      for k := 0 to |players|
        invariant db.users == DebitAll(old(db.users), players[..k], amount)
        invariant db.games == old(db.games) && db.cards == old(db.cards)
      {
        DebitAllStep(old(db.users), players, k, amount);
        db.users := IncBalance(db.users, players[k].userId, -amount);
      }
      assert players[..|players|] == players;
    }

    /** One firing of the draw interval (`drawNumber`): a game that is not
        playing stops the engine's timers and draws nothing; otherwise one
        number of 1..75 not drawn yet is appended and broadcast with its
        column. The rejection loop is modelled by its outcome, any undrawn
        number. */
    method DrawNumber()
      requires Valid()
      requires gameId in db.games && db.games[gameId].status == Playing ==> CanDraw(db.games[gameId].drawnNumbers)
      modifies this, db, io
      ensures Valid() && db.cards == old(db.cards) && db.users == old(db.users)
      ensures !(gameId in old(db.games) && old(db.games[gameId]).status == Playing) ==>
        db.games == old(db.games) && io.emitted == old(io.emitted) &&
        intervalId == None && countdownInterval == None &&
        liveTimers == old(liveTimers) - Handles(old(intervalId)) - Handles(old(countdownInterval)) &&
        countdown == old(countdown) && isCountingDown == old(isCountingDown)
      ensures gameId in old(db.games) && old(db.games[gameId]).status == Playing ==>
        var g := old(db.games[gameId]);
        gameId in db.games && |db.games[gameId].drawnNumbers| == |g.drawnNumbers| + 1 &&
        var n := db.games[gameId].drawnNumbers[|g.drawnNumbers|];
        db.games == old(db.games)[gameId := g.(drawnNumbers := g.drawnNumbers + [n])] &&
        1 <= n <= 75 && n !in g.drawnNumbers &&
        io.emitted == old(io.emitted) + [NumberDrawn(gameId, n, ColumnForNumber(n).value, g.drawnNumbers + [n])] &&
        unchanged(this)
    {
      if gameId !in db.games || db.games[gameId].status != Playing {
        StopGame();
        return;
      }
      var game := db.games[gameId];
      var drawnNumber :| 1 <= drawnNumber <= 75 && drawnNumber !in game.drawnNumbers;
      game := game.(drawnNumbers := game.drawnNumbers + [drawnNumber]);
      db.games := db.games[gameId := game];
      var column := ColumnForNumber(drawnNumber).value;
      io.emitted := io.emitted + [NumberDrawn(gameId, drawnNumber, column, game.drawnNumbers)];
    }

    /** `checkPlayerWin`: rejected unless the game is playing, the seat and
        the card exist and the seat's marks complete a pattern; an accepted
        claim stops the timers, finishes the game with the claimant as
        winner and credits the claimant the prize pool. A rejected claim
        changes nothing. */
    method CheckPlayerWin(userId: UserId, cardId: int) returns (reply: ClaimReply)
      requires Valid()
      modifies this, db, io
      ensures Valid() && db.cards == old(db.cards)
      ensures reply == ReplyFor(EvaluateClaim(old(db.games), gameId, old(db.cards), userId, cardId))
      ensures var o := EvaluateClaim(old(db.games), gameId, old(db.cards), userId, cardId);
        o.Won? ==>
          var g := old(db.games[gameId]);
          db.games == old(db.games)[gameId := AfterWin(g, o.seat)] &&
          db.users == IncBalance(old(db.users), userId, g.prizePool) &&
          io.emitted == old(io.emitted) + [GameWon(gameId, userId, g.prizePool, o.result.PatternName())] &&
          intervalId == None && countdownInterval == None &&
          liveTimers == old(liveTimers) - Handles(old(intervalId)) - Handles(old(countdownInterval)) &&
          countdown == old(countdown) && isCountingDown == old(isCountingDown) && nextTimer == old(nextTimer)
      ensures !EvaluateClaim(old(db.games), gameId, old(db.cards), userId, cardId).Won? ==>
        unchanged(this) && unchanged(db) && unchanged(io)
    {
      if gameId !in db.games || db.games[gameId].status != Playing {
        return ReplyFor(NotActive);
      }
      var game := db.games[gameId];
      var seat := FindPlayer(game.players, userId, cardId);
      if seat.None? {
        return ReplyFor(PlayerMissing);
      }
      var i := seat.value;
      var card := FindCard(db.cards, cardId);
      if card.None? {
        return ReplyFor(CardMissing);
      }
      var winResult := CheckWin(card.value, game.players[i].markedNumbers);
      if winResult.HasWon() {
        StopGame();
        var player := game.players[i];
        game := game.(status := Finished, winner := Some(player.userId),
                      players := game.players[i := player.(hasWon := true)]);
        db.games := db.games[gameId := game];
        var prize := game.prizePool;
        db.users := IncBalance(db.users, userId, prize);
        io.emitted := io.emitted + [GameWon(gameId, userId, prize, winResult.PatternName())];
        return ReplyFor(Won(i, winResult));
      }
      return ReplyFor(Invalid);
    }

    /** `markNumber`: false when the game or the seat is missing or the
        number is already marked; otherwise the number is appended to the
        seat's marks and broadcast. */
    method MarkNumber(userId: UserId, cardId: int, number: int) returns (ok: bool)
      modifies db, io
      ensures ok == (gameId in old(db.games) && Marks(old(db.games[gameId]), userId, cardId, number))
      ensures ok ==>
        db.games == old(db.games)[gameId := MarkOn(old(db.games[gameId]), userId, cardId, number)] &&
        io.emitted == old(io.emitted) + [NumberMarked(gameId, userId, cardId, number)]
      ensures !ok ==> db.games == old(db.games) && io.emitted == old(io.emitted)
      ensures db.users == old(db.users) && db.cards == old(db.cards)
    {
      if gameId !in db.games {
        return false;
      }
      var game := db.games[gameId];
      var seat := FindPlayer(game.players, userId, cardId);
      if seat.None? {
        return false;
      }
      var player := game.players[seat.value];
      if number !in player.markedNumbers {
        player := player.(markedNumbers := player.markedNumbers + [number]);
        db.games := db.games[gameId := game.(players := game.players[seat.value := player])];
        io.emitted := io.emitted + [NumberMarked(gameId, userId, cardId, number)];
        return true;
      }
      return false;
    }

    /** `stopGame`: both slots cleared; with empty slots it changes nothing. */
    method StopGame()
      modifies this
      ensures intervalId == None && countdownInterval == None
      ensures liveTimers == old(liveTimers) - Handles(old(intervalId)) - Handles(old(countdownInterval))
      ensures countdown == old(countdown) && isCountingDown == old(isCountingDown) && nextTimer == old(nextTimer)
    {
      if intervalId.Some? {
        liveTimers := liveTimers - {intervalId.value};
        intervalId := None;
      }
      if countdownInterval.Some? {
        liveTimers := liveTimers - {countdownInterval.value};
        countdownInterval := None;
      }
    }
  }

  /** The process-wide `activeGames` map from game id to engine. */
  class Registry {
    const db: Database
    const io: EventLog
    var activeGames: map<GameId, GameEngine>

    /** Every registered engine belongs to its id, shares the store and the
        event log, and is itself valid. */
    ghost predicate Valid()
      reads this, activeGames.Values, db
    {
      forall id :: id in activeGames ==>
        activeGames[id].gameId == id && activeGames[id].db == db && activeGames[id].io == io &&
        activeGames[id].Valid()
    }

    constructor (db: Database, io: EventLog)
      ensures Valid() && this.db == db && this.io == io && activeGames == map[]
    {
      this.db := db;
      this.io := io;
      activeGames := map[];
    }

    /** `getGameEngine`: the registered engine for the id, or a new one,
        registered. */
    method GetGameEngine(gameId: GameId) returns (engine: GameEngine)
      requires Valid() && db.Valid()
      modifies this
      ensures Valid() && engine.Valid()
      ensures engine.gameId == gameId && engine.db == db && engine.io == io
      ensures gameId in old(activeGames) ==> engine == old(activeGames[gameId]) && activeGames == old(activeGames)
      ensures gameId !in old(activeGames) ==>
        fresh(engine) && activeGames == old(activeGames)[gameId := engine] &&
        engine.intervalId == None && engine.countdownInterval == None && engine.liveTimers == {} &&
        engine.countdown == 60 && !engine.isCountingDown
    {
      if gameId !in activeGames {
        var e := new GameEngine(gameId, db, io);
        activeGames := activeGames[gameId := e];
      }
      engine := activeGames[gameId];
    }

    /** `removeGameEngine`: stops and unregisters the engine; an unknown id
        changes nothing. */
    method RemoveGameEngine(gameId: GameId)
      requires Valid()
      modifies this, if gameId in activeGames then {activeGames[gameId]} else {}
      ensures Valid()
      ensures activeGames == old(activeGames) - {gameId}
      ensures gameId in old(activeGames) ==>
        var e := old(activeGames[gameId]);
        e.intervalId == None && e.countdownInterval == None &&
        e.liveTimers == old(e.liveTimers) - Handles(old(e.intervalId)) - Handles(old(e.countdownInterval)) &&
        e.countdown == old(e.countdown) && e.isCountingDown == old(e.isCountingDown) &&
        e.nextTimer == old(e.nextTimer) && e.Valid()
    {
      if gameId in activeGames {
        var engine := activeGames[gameId];
        engine.StopGame();
        activeGames := activeGames - {gameId};
      }
    }
  }
}
