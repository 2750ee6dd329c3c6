/** Card generation (src/game/cardGenerator.ts): five sorted, distinct
    numbers per column, sampled without replacement from the column's range,
    and the one-time creation of the 100-card catalog. */
module CardGenerator {
  import opened Wrappers
  import opened WinDetector
  import opened Models

  predicate Sorted(s: seq<int>) {
    forall i, j :: 0 <= i < j < |s| ==> s[i] <= s[j]
  }

  predicate StrictlyAscending(s: seq<int>) {
    forall i, j :: 0 <= i < j < |s| ==> s[i] < s[j]
  }

  predicate Distinct(s: seq<int>) {
    forall i, j :: 0 <= i < j < |s| ==> s[i] != s[j]
  }

  predicate InRange(s: seq<int>, lo: int, hi: int) {
    forall k :: 0 <= k < |s| ==> lo <= s[k] <= hi
  }

  /** A card as `generateCardNumbers` makes it: in column `k`, five strictly
      ascending numbers from `ColumnLow(k)..ColumnHigh(k)`. */
  predicate WellFormedCard(c: CardNumbers) {
    Shaped(c) &&
    forall k :: 0 <= k < 5 ==>
      StrictlyAscending(Columns(c)[k]) && InRange(Columns(c)[k], ColumnLow(k), ColumnHigh(k))
  }

  function Insert(x: int, s: seq<int>): (r: seq<int>)
    requires Sorted(s)
    ensures |r| == |s| + 1 && multiset(r) == multiset(s) + multiset{x}
    ensures Sorted(r)
  {
    if s == [] then [x]
    else if x <= s[0] then [x] + s
    else
      var rest := Insert(x, s[1..]);
      assert s == [s[0]] + s[1..];
      LowerBoundKept(rest, s[1..], x, s[0]);
      SortedCons(s[0], rest);
      [s[0]] + rest
  }

  lemma SortedCons(h: int, t: seq<int>)
    requires Sorted(t) && forall k :: 0 <= k < |t| ==> h <= t[k]
    ensures Sorted([h] + t)
  {
    var r := [h] + t;
    forall i, j | 0 <= i < j < |r| ensures r[i] <= r[j] {
      assert r[j] == t[j - 1];
      if i > 0 {
        assert r[i] == t[i - 1];
      }
    }
  }

  /** A lower bound of `t` and of `x` bounds every rearrangement of `t`
      with `x` added. */
  lemma LowerBoundKept(r: seq<int>, t: seq<int>, x: int, b: int)
    requires multiset(r) == multiset(t) + multiset{x}
    requires b <= x && forall k :: 0 <= k < |t| ==> b <= t[k]
    ensures forall k :: 0 <= k < |r| ==> b <= r[k]
  {
    forall k | 0 <= k < |r| ensures b <= r[k] {
      var y := r[k];
      assert y in multiset(r);
      if y != x {
        assert y in multiset(t);
        assert y in t;
      }
    }
  }

  /** `numbers.sort((a, b) => a - b)`: the ascending rearrangement of `s`
      (a sorted permutation of integers is unique, so any sorting algorithm
      gives this result). */
  function SortAscending(s: seq<int>): (r: seq<int>)
    ensures Sorted(r) && |r| == |s| && multiset(r) == multiset(s)
  {
    if s == [] then []
    else
      assert s == [s[0]] + s[1..];
      Insert(s[0], SortAscending(s[1..]))
  }

  /** Sorting distinct numbers gives a strictly ascending sequence. */
  lemma {:induction false} SortDistinct(s: seq<int>)
    requires Distinct(s)
    ensures StrictlyAscending(SortAscending(s))
  {
    if s != [] {
      assert s == [s[0]] + s[1..];
      SortDistinct(s[1..]);
      var t := SortAscending(s[1..]);
      assert s[0] !in s[1..] by {
        forall j | 0 <= j < |s[1..]| ensures s[1..][j] != s[0] {
          assert s[1..][j] == s[j + 1];
        }
      }
      assert s[0] !in multiset(t);
      var r := Insert(s[0], t);
      forall i, j | 0 <= i < j < |r| ensures r[i] < r[j] {
        if r[i] == r[j] {
          DistinctOccursOnce(t, r[i]);
          TwoPositions(r, i, j);
        }
      }
    }
  }

  /** A value at two positions of a sequence occurs twice in it. */
  lemma TwoPositions(r: seq<int>, i: nat, j: nat)
    requires i < j < |r| && r[i] == r[j]
    ensures multiset(r)[r[i]] >= 2
  {
    assert r == r[..i] + [r[i]] + r[i + 1..j] + [r[j]] + r[j + 1..];
  }

  /** In a sequence without repetitions every value occurs at most once. */
  lemma {:induction false} DistinctOccursOnce(t: seq<int>, y: int)
    requires Distinct(t)
    ensures multiset(t)[y] <= 1
  {
    if t != [] {
      assert t == [t[0]] + t[1..];
      DistinctOccursOnce(t[1..], y);
      if t[0] == y {
        assert y !in t[1..];
      }
    }
  }

  /** `available.splice(randomIndex, 1)` keeps the pool ascending and in
      range, and removes exactly the picked number. */
  lemma RemoveAt(a: seq<int>, i: int, lo: int, hi: int)
    requires 0 <= i < |a| && StrictlyAscending(a) && InRange(a, lo, hi)
    ensures var rest := a[..i] + a[i + 1..];
      |rest| == |a| - 1 && StrictlyAscending(rest) && InRange(rest, lo, hi) &&
      a[i] !in rest && forall y :: y in rest ==> y in a
  {
    var rest := a[..i] + a[i + 1..];
    assert forall k :: 0 <= k < |rest| ==> rest[k] == if k < i then a[k] else a[k + 1];
    forall k | 0 <= k < |rest| ensures rest[k] != a[i] {
      if k < i { assert a[k] < a[i]; } else { assert a[i] < a[k + 1]; }
    }
  }

  /** `getRandomNumbers(min, max, count)`: `count` times, remove the entry
      at a random index of `available` and keep it; then sort. The index
      `Math.floor(Math.random() * available.length)` is any index of
      `available`. */
  method GetRandomNumbers(min: int, max: int, count: nat) returns (numbers: seq<int>)
    requires count <= max - min + 1
    ensures |numbers| == count
    ensures StrictlyAscending(numbers)
    ensures InRange(numbers, min, max)
  {
    var picked: seq<int> := [];
    var available: seq<int> := seq(max - min + 1, i => min + i);
    for i := 0 to count
      invariant |picked| == i && |available| == max - min + 1 - i
      invariant StrictlyAscending(available) && InRange(available, min, max)
      invariant InRange(picked, min, max) && Distinct(picked)
      invariant forall k :: 0 <= k < |picked| ==> picked[k] !in available
    {
      var randomIndex :| 0 <= randomIndex < |available|;
      var x := available[randomIndex];
      var rest := available[..randomIndex] + available[randomIndex + 1..];
      RemoveAt(available, randomIndex, min, max);
      picked := picked + [x];
      available := rest;
    }
    SortDistinct(picked);
    numbers := SortAscending(picked);
    forall k | 0 <= k < |numbers| ensures min <= numbers[k] <= max {
      assert numbers[k] in multiset(picked);
    }
  }

  /** `generateCardNumbers`: five numbers per column from that column's
      range; every range has 15 members, so generation never fails. */
  method GenerateCardNumbers() returns (c: CardNumbers)
    ensures WellFormedCard(c)
  {
    var b := GetRandomNumbers(1, 15, 5);
    var i := GetRandomNumbers(16, 30, 5);
    var n := GetRandomNumbers(31, 45, 5);
    var g := GetRandomNumbers(46, 60, 5);
    var o := GetRandomNumbers(61, 75, 5);
    c := CardNumbers(b, i, n, g, o);
  }

  /** Every number of a generated card lies in the column the draw
      announces for it. */
  lemma CardColumnsMatchLetters(c: CardNumbers, k: nat, row: nat)
    requires WellFormedCard(c) && k < 5 && row < 5
    ensures ColumnForNumber(Columns(c)[k][row]) == Some(Letters[k])
  {
  }

  /** `initializeCards`: skipped when 100 or more cards are stored;
      otherwise 100 new cards with ids 1..100, in order, are inserted. */
  method InitializeCards(db: Database)
    requires db.Valid()
    modifies db
    ensures db.Valid()
    ensures db.users == old(db.users) && db.games == old(db.games)
    ensures old(|db.cards|) >= 100 ==> db.cards == old(db.cards)
    ensures old(|db.cards|) < 100 ==>
      |db.cards| == old(|db.cards|) + 100 && db.cards[..old(|db.cards|)] == old(db.cards) &&
      forall k :: old(|db.cards|) <= k < |db.cards| ==>
        db.cards[k].cardId == k - old(|db.cards|) + 1 && WellFormedCard(db.cards[k].numbers)
  {
    var count := |db.cards|;
    if count >= 100 {
      return;
    }
    var cards: seq<CardRecord> := [];
    var i := 1;
    while i <= 100
      invariant 1 <= i <= 101 && |cards| == i - 1
      invariant db.cards == old(db.cards) && db.users == old(db.users) && db.games == old(db.games)
      invariant forall k :: 0 <= k < |cards| ==> cards[k].cardId == k + 1 && WellFormedCard(cards[k].numbers)
    {
      var numbers := GenerateCardNumbers();
      cards := cards + [CardRecord(i, numbers)];
      i := i + 1;
    }
    db.cards := db.cards + cards;
  }
}
