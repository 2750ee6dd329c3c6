/** The input checks of src/bot/utils/validators.ts: the bank transaction
    id pattern and phone-number normalisation. */
module Validators {
  import opened JsString

  predicate IsAsciiAlnum(c: char) {
    ('A' <= c <= 'Z') || ('a' <= c <= 'z') || ('0' <= c <= '9')
  }

  /** What the pattern `^[A-Z0-9]{6,20}$` accepts, on an already trimmed id. */
  predicate MatchesIdPattern(t: string) {
    6 <= |t| <= 20 && forall k :: 0 <= k < |t| ==> IsAsciiAlnum(t[k])
  }

  /** `/^[A-Z0-9]{6,20}$/i.test(transactionId.trim())`: an id is accepted
      exactly when it is whitespace, then 6 to 20 ASCII letters and
      digits, then whitespace. */
  function ValidateTransactionId(transactionId: string): (r: bool)
    ensures r <==> exists i, j :: IdShape(transactionId, i, j)
  {
    TransactionIdShape(transactionId);
    MatchesIdPattern(Trim(transactionId))
  }

  /** The shape of an accepted id: whitespace, then 6 to 20 ASCII letters
      and digits at positions `i..j`, then whitespace. */
  predicate IdShape(s: string, i: int, j: int) {
    0 <= i <= j <= |s| && 6 <= j - i <= 20 &&
    (forall k :: i <= k < j ==> IsAsciiAlnum(s[k])) &&
    AllWhitespace(s[..i]) && AllWhitespace(s[j..])
  }

  /** A string whose ends are not whitespace is its own trim. */
  lemma TrimKeepsSolidString(x: string)
    requires x == [] || (!IsWhitespace(x[0]) && !IsWhitespace(x[|x| - 1]))
    ensures Trim(x) == x
  {
  }

  lemma SliceHasShape(s: string, i: int, j: int, t: string)
    requires 0 <= i <= j <= |s| && t == s[i..j] && AllWhitespace(s[..i]) && AllWhitespace(s[j..])
    requires 6 <= |t| <= 20 && forall k :: 0 <= k < |t| ==> IsAsciiAlnum(t[k])
    ensures IdShape(s, i, j)
  {
    forall k | i <= k < j ensures IsAsciiAlnum(s[k]) {
      assert s[k] == t[k - i];
    }
  }

  lemma AcceptedHasShape(s: string)
    requires MatchesIdPattern(Trim(s))
    ensures exists i, j :: IdShape(s, i, j)
  {
    var t := Trim(s);
    TrimSplitsInput(s);
    var i, j :| 0 <= i <= j <= |s| && t == s[i..j] && AllWhitespace(s[..i]) && AllWhitespace(s[j..]);
    SliceHasShape(s, i, j, t);
  }

  lemma AlnumIsNotWhitespace(c: char)
    requires IsAsciiAlnum(c)
    ensures !IsWhitespace(c)
  {
  }

  lemma AlnumSlice(s: string, i: int, j: int)
    requires 0 <= i <= j <= |s| && forall k :: i <= k < j ==> IsAsciiAlnum(s[k])
    ensures forall k :: 0 <= k < j - i ==> IsAsciiAlnum(s[i..j][k])
  {
  }

  lemma ShapeIsAccepted(s: string, i: int, j: int)
    requires IdShape(s, i, j)
    ensures MatchesIdPattern(Trim(s))
  {
    var x := s[i..j];
    AlnumSlice(s, i, j);
    AlnumIsNotWhitespace(s[i]);
    AlnumIsNotWhitespace(s[j - 1]);
    TrimKeepsSolidString(x);
    var w1, w2 := s[..i], s[j..];
    assert s == w1 + x + w2;
    TrimIgnoresSurroundingWhitespace(w1, x, w2);
  }

  /** The trimmed id matches the pattern exactly when the untrimmed one
      has the shape above. */
  lemma TransactionIdShape(s: string)
    ensures MatchesIdPattern(Trim(s)) <==> exists i, j :: IdShape(s, i, j)
  {
    if MatchesIdPattern(Trim(s)) {
      AcceptedHasShape(s);
    }
    if exists i, j :: IdShape(s, i, j) {
      var i, j :| IdShape(s, i, j);
      ShapeIsAccepted(s, i, j);
    }
  }

  /** ASCII upper-casing, the case folding of the regex's `i` flag for
      the letters the pattern names. */
  function AsciiUpper(c: char): char {
    if 'a' <= c <= 'z' then (c as int - 'a' as int + 'A' as int) as char else c
  }

  /** The verdict depends on letters only up to case: two strings that
      agree once upper-cased get the same answer. */
  lemma {:induction false} TransactionIdIgnoresCase(s: string, t: string)
    requires |s| == |t| && forall k :: 0 <= k < |s| ==> AsciiUpper(s[k]) == AsciiUpper(t[k])
    ensures ValidateTransactionId(s) == ValidateTransactionId(t)
  {
    assert forall k :: 0 <= k < |s| ==> (IsWhitespace(s[k]) <==> IsWhitespace(t[k]));
    assert forall k :: 0 <= k < |s| ==> (IsAsciiAlnum(s[k]) <==> IsAsciiAlnum(t[k]));
    forall i, j | 0 <= i <= j <= |s|
      ensures IdShape(s, i, j) <==> IdShape(t, i, j)
    {
      assert forall k :: 0 <= k < i ==> s[..i][k] == s[k] && t[..i][k] == t[k];
      assert forall k :: 0 <= k < |s| - j ==> s[j..][k] == s[j + k] && t[j..][k] == t[j + k];
    }
    if ValidateTransactionId(s) {
      var i, j :| IdShape(s, i, j);
      assert IdShape(t, i, j);
    }
    if ValidateTransactionId(t) {
      var i, j :| IdShape(t, i, j);
      assert IdShape(s, i, j);
    }
  }

  /** Whitespace around an id never changes the verdict. */
  lemma TransactionIdIgnoresSurroundingWhitespace(w1: string, s: string, w2: string)
    requires AllWhitespace(w1) && AllWhitespace(w2)
    ensures ValidateTransactionId(w1 + s + w2) == ValidateTransactionId(s)
  {
    TrimIgnoresSurroundingWhitespace(w1, s, w2);
  }

  predicate StartsWithPlus(s: string) {
    |s| > 0 && s[0] == '+'
  }

  /** `normalizePhoneNumber`: the number with exactly one leading `+`
      added unless it already starts with one. */
  function NormalizePhoneNumber(phoneNumber: string): (r: string)
    ensures StartsWithPlus(r)
    ensures StartsWithPlus(phoneNumber) ==> r == phoneNumber
    ensures !StartsWithPlus(phoneNumber) ==> |r| == |phoneNumber| + 1 && r[1..] == phoneNumber
  {
    if StartsWithPlus(phoneNumber) then phoneNumber else "+" + phoneNumber
  }

  /** Normalising a normalised number changes nothing. */
  lemma NormalizeIdempotent(phoneNumber: string)
    ensures NormalizePhoneNumber(NormalizePhoneNumber(phoneNumber)) == NormalizePhoneNumber(phoneNumber)
  {
  }
}
