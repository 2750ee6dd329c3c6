/** The win evaluator of src/game/winDetector.ts: which pattern, if any, a
    player's marked numbers complete on a card, and the column letter of a
    drawn number. */
module WinDetector {
  import opened Wrappers

  /** A card document's `numbers` field: the five columns B, I, N, G, O,
      each listed from the top row down. */
  datatype CardNumbers = CardNumbers(B: seq<int>, I: seq<int>, N: seq<int>, G: seq<int>, O: seq<int>)

  /** Every column holds five entries, as every generated card does. */
  predicate Shaped(c: CardNumbers) {
    |c.B| == 5 && |c.I| == 5 && |c.N| == 5 && |c.G| == 5 && |c.O| == 5
  }

  datatype LineType = Horizontal | Vertical | Diagonal

  /** `checkWin`'s answer: `{hasWon: false}`, `{pattern: 'corners'}` or a
      `'line'` with its type and index. */
  datatype WinResult = NoWin | Corners | Line(lineType: LineType, lineIndex: nat) {
    predicate HasWon() { !NoWin? }

    /** The `pattern` field of the answer. */
    function PatternName(): string {
      match this
      case NoWin => ""
      case Corners => "corners"
      case Line(_, _) => "line"
    }
  }

  function Columns(c: CardNumbers): (cols: seq<seq<int>>)
    ensures |cols| == 5
  {
    [c.B, c.I, c.N, c.G, c.O]
  }

  function CornerCells(c: CardNumbers): seq<int>
    requires Shaped(c)
  {
    [c.B[0], c.B[4], c.O[0], c.O[4]]
  }

  function Row(c: CardNumbers, i: nat): seq<int>
    requires Shaped(c) && i < 5
  {
    [c.B[i], c.I[i], c.N[i], c.G[i], c.O[i]]
  }

  function Rows(c: CardNumbers): (rows: seq<seq<int>>)
    requires Shaped(c)
    ensures |rows| == 5 && forall i :: 0 <= i < 5 ==> rows[i] == Row(c, i)
  {
    [Row(c, 0), Row(c, 1), Row(c, 2), Row(c, 3), Row(c, 4)]
  }

  /** Diagonal 0 runs from the top left to the bottom right, diagonal 1
      from the bottom left (B[4]) to the top right (O[0]). */
  function DiagonalCells(c: CardNumbers, d: nat): seq<int>
    requires Shaped(c) && d < 2
  {
    if d == 0 then [c.B[0], c.I[1], c.N[2], c.G[3], c.O[4]]
    else [c.B[4], c.I[3], c.N[2], c.G[1], c.O[0]]
  }

  /** `cells.every((num) => marked.includes(num))` */
  predicate AllMarked(cells: seq<int>, marked: seq<int>) {
    forall k :: 0 <= k < |cells| ==> cells[k] in marked
  }

  /** The scan of one of `checkWin`'s `for` loops: the first line, from
      index `from` on, whose cells are all marked. */
  function FirstFullLine(lines: seq<seq<int>>, marked: seq<int>, from: nat): (r: Option<nat>)
    requires from <= |lines|
    decreases |lines| - from
    ensures r.Some? ==> from <= r.value < |lines| && AllMarked(lines[r.value], marked)
    ensures r.Some? ==> forall j :: from <= j < r.value ==> !AllMarked(lines[j], marked)
    ensures r.None? ==> forall j :: from <= j < |lines| ==> !AllMarked(lines[j], marked)
  {
    if from == |lines| then None
    else if AllMarked(lines[from], marked) then Some(from)
    else FirstFullLine(lines, marked, from + 1)
  }

  /** `checkWin`: four corners, then rows 0..4, then columns B..O, then
      diagonal 0, then diagonal 1; the first complete pattern wins. */
  function CheckWin(c: CardNumbers, marked: seq<int>): (r: WinResult)
    requires Shaped(c)
    ensures r.Corners? ==> AllMarked(CornerCells(c), marked)
    ensures r.Line? && r.lineType == Horizontal ==> r.lineIndex < 5 && AllMarked(Row(c, r.lineIndex), marked)
    ensures r.Line? && r.lineType == Vertical ==> r.lineIndex < 5 && AllMarked(Columns(c)[r.lineIndex], marked)
    ensures r.Line? && r.lineType == Diagonal ==> r.lineIndex < 2 && AllMarked(DiagonalCells(c, r.lineIndex), marked)
  {
    if AllMarked(CornerCells(c), marked) then Corners
    else match FirstFullLine(Rows(c), marked, 0)
      case Some(i) => Line(Horizontal, i)
      case None =>
        match FirstFullLine(Columns(c), marked, 0)
        case Some(i) => Line(Vertical, i)
        case None =>
          if AllMarked(DiagonalCells(c, 0), marked) then Line(Diagonal, 0)
          else if AllMarked(DiagonalCells(c, 1), marked) then Line(Diagonal, 1)
          else NoWin
  }

  /** The 13 winning patterns in the order `checkWin` tries them. */
  function Patterns(c: CardNumbers): (ps: seq<seq<int>>)
    requires Shaped(c)
    ensures |ps| == 13
  {
    [CornerCells(c),
     Row(c, 0), Row(c, 1), Row(c, 2), Row(c, 3), Row(c, 4),
     c.B, c.I, c.N, c.G, c.O,
     DiagonalCells(c, 0), DiagonalCells(c, 1)]
  }

  /** The position in `Patterns` of the pattern an answer names; 13 for no win. */
  function Rank(r: WinResult): nat {
    match r
    case NoWin => 13
    case Corners => 0
    case Line(Horizontal, i) => 1 + i
    case Line(Vertical, i) => 6 + i
    case Line(Diagonal, d) => 11 + d
  }

  /** Where each pattern sits in `Patterns`. */
  lemma PatternsLayout(c: CardNumbers)
    requires Shaped(c)
    ensures Patterns(c)[0] == CornerCells(c)
    ensures forall i :: 0 <= i < 5 ==> Patterns(c)[1 + i] == Rows(c)[i] && Patterns(c)[6 + i] == Columns(c)[i]
    ensures Patterns(c)[11] == DiagonalCells(c, 0) && Patterns(c)[12] == DiagonalCells(c, 1)
  {
  }

  /** `checkWin` answers with the first complete pattern in priority order,
      and with no win exactly when none of the 13 is complete. */
  lemma {:induction false} CheckWinIsFirstFullPattern(c: CardNumbers, marked: seq<int>)
    requires Shaped(c)
    ensures Rank(CheckWin(c, marked)) <= 13
    ensures CheckWin(c, marked).HasWon() ==>
      Rank(CheckWin(c, marked)) < 13 && AllMarked(Patterns(c)[Rank(CheckWin(c, marked))], marked)
    ensures forall j :: 0 <= j < Rank(CheckWin(c, marked)) ==> !AllMarked(Patterns(c)[j], marked)
  {
    PatternsLayout(c);
    if !AllMarked(CornerCells(c), marked) && FirstFullLine(Rows(c), marked, 0).None? {
      NoRowFull(c, marked);
      if FirstFullLine(Columns(c), marked, 0).None? {
        NoColumnFull(c, marked);
      }
    }
  }

  lemma NoRowFull(c: CardNumbers, marked: seq<int>)
    requires Shaped(c) && FirstFullLine(Rows(c), marked, 0).None?
    ensures forall j :: 1 <= j < 6 ==> !AllMarked(Patterns(c)[j], marked)
  {
    PatternsLayout(c);
    forall j | 1 <= j < 6 ensures !AllMarked(Patterns(c)[j], marked) {
      assert Patterns(c)[j] == Rows(c)[j - 1];
    }
  }

  lemma NoColumnFull(c: CardNumbers, marked: seq<int>)
    requires Shaped(c) && FirstFullLine(Columns(c), marked, 0).None?
    ensures forall j :: 6 <= j < 11 ==> !AllMarked(Patterns(c)[j], marked)
  {
    PatternsLayout(c);
    forall j | 6 <= j < 11 ensures !AllMarked(Patterns(c)[j], marked) {
      assert Patterns(c)[j] == Columns(c)[j - 6];
    }
  }

  /** If all four corners are marked the answer is `corners`, whatever else is marked. */
  lemma CornersTakePriority(c: CardNumbers, marked: seq<int>)
    requires Shaped(c)
    requires c.B[0] in marked && c.B[4] in marked && c.O[0] in marked && c.O[4] in marked
    ensures CheckWin(c, marked) == Corners
  {
    assert AllMarked(CornerCells(c), marked);
  }

  /** Marking more numbers never undoes a win, and can only move the
      reported pattern earlier in priority order. */
  lemma {:induction false} MoreMarksKeepWin(c: CardNumbers, marked: seq<int>, more: seq<int>)
    requires Shaped(c)
    requires forall x :: x in marked ==> x in more
    requires CheckWin(c, marked).HasWon()
    ensures CheckWin(c, more).HasWon()
    ensures Rank(CheckWin(c, more)) <= Rank(CheckWin(c, marked))
  {
    CheckWinIsFirstFullPattern(c, marked);
    CheckWinIsFirstFullPattern(c, more);
    var k := Rank(CheckWin(c, marked));
    var ps := Patterns(c);
    assert AllMarked(ps[k], marked);
    assert AllMarked(ps[k], more) by {
      forall i | 0 <= i < |ps[k]| ensures ps[k][i] in more {
        var x := ps[k][i];
        assert x in marked;
        assert x in more;
      }
    }
  }

  /** The column letters, in column order. */
  const Letters: string := "BINGO"

  /** Column `k` holds the numbers `ColumnLow(k)..ColumnHigh(k)`. */
  function ColumnLow(k: nat): int { 15 * k + 1 }
  function ColumnHigh(k: nat): int { 15 * k + 15 }

  /** `getColumnForNumber`: the letter of the column whose range holds `n`;
      the source throws `Invalid number` outside 1..75. */
  function ColumnForNumber(n: int): (r: Option<char>)
    ensures r.Some? <==> 1 <= n <= 75
    ensures forall k :: 0 <= k < 5 ==> (r == Some(Letters[k]) <==> ColumnLow(k) <= n <= ColumnHigh(k))
  {
    if 1 <= n <= 15 then Some('B')
    else if 16 <= n <= 30 then Some('I')
    else if 31 <= n <= 45 then Some('N')
    else if 46 <= n <= 60 then Some('G')
    else if 61 <= n <= 75 then Some('O')
    else None
  }
}
