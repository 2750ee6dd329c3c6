/** The `/support` command of src/bot/handlers/supportHandler.ts, without
    its Telegram I/O: the `SUPPORT_USERNAMES` setting is parsed into a list
    of usernames, and the reply is chosen from the outcome. */
module SupportHandler {
  import opened Wrappers
  import opened JsString

  /** The three replies: not configured, configured but empty, or the
      keyboard built from the usernames. */
  datatype SupportReply = NotConfigured | NoChannels | Channels(usernames: seq<string>)

  /** `.map((username) => username.trim())` */
  function TrimAll(xs: seq<string>): (r: seq<string>)
    ensures |r| == |xs| && forall i :: 0 <= i < |xs| ==> r[i] == Trim(xs[i])
  {
    seq(|xs|, i requires 0 <= i < |xs| => Trim(xs[i]))
  }

  /** `a` is `b` with some entries left out, the rest kept in order. */
  predicate IsSubsequence(a: seq<string>, b: seq<string>)
    decreases |b|
  {
    if a == [] then true
    else if b == [] then false
    else (a[0] == b[0] && IsSubsequence(a[1..], b[1..])) || IsSubsequence(a, b[1..])
  }

  /** `.filter((username) => username.length > 0)`: the non-empty entries,
      each as often as it occurs, in their original order. */
  function KeepNonEmpty(xs: seq<string>): (r: seq<string>)
    ensures |r| <= |xs|
    ensures forall i :: 0 <= i < |r| ==> r[i] != []
    ensures IsSubsequence(r, xs)
    ensures multiset(r) == multiset(xs)[[] := 0]
  {
    if xs == [] then []
    else
      var rest := KeepNonEmpty(xs[1..]);
      KeepStep(xs, rest);
      if xs[0] == [] then
        assert rest == [] || rest[0] != xs[0];
        rest
      else
        var r := [xs[0]] + rest;
        assert r[1..] == rest;
        r
  }

  /** One step of the filter, on multisets: the head is kept unless it is empty. */
  lemma KeepStep(xs: seq<string>, rest: seq<string>)
    requires xs != [] && multiset(rest) == multiset(xs[1..])[[] := 0]
    ensures multiset(if xs[0] == [] then rest else [xs[0]] + rest) == multiset(xs)[[] := 0]
  {
    assert xs == [xs[0]] + xs[1..];
    assert multiset(xs) == multiset{xs[0]} + multiset(xs[1..]);
    assert multiset([xs[0]] + rest) == multiset{xs[0]} + multiset(rest);
  }

  /** What the multiset equation says entry by entry: every kept entry
      comes from the input, every non-empty input entry is kept, and an
      input of empty strings only keeps nothing. */
  lemma KeptEntries(xs: seq<string>)
    ensures forall i :: 0 <= i < |KeepNonEmpty(xs)| ==> KeepNonEmpty(xs)[i] in xs
    ensures forall i :: 0 <= i < |xs| && xs[i] != [] ==> xs[i] in KeepNonEmpty(xs)
    ensures (forall i :: 0 <= i < |xs| ==> xs[i] == []) ==> KeepNonEmpty(xs) == []
  {
    var r := KeepNonEmpty(xs);
    forall i | 0 <= i < |r| ensures r[i] in xs {
      assert r[i] in multiset(r);
    }
    forall i | 0 <= i < |xs| && xs[i] != [] ensures xs[i] in r {
      assert xs[i] in multiset(xs);
      assert xs[i] in multiset(r);
    }
  }

  /** No comma, and neither end is whitespace. */
  predicate Clean(x: string) {
    ',' !in x && (x == [] || (!IsWhitespace(x[0]) && !IsWhitespace(x[|x| - 1])))
  }

  /** The parse: split on commas, trim every piece, drop the empty ones.
      Every username is non-empty, holds no comma and neither starts nor
      ends with whitespace; there are at most as many as commas plus one. */
  function ParseSupportUsernames(env: string): (r: seq<string>)
    ensures |r| <= Count(env, ',') + 1
    ensures forall i :: 0 <= i < |r| ==>
      r[i] != [] && ',' !in r[i] && !IsWhitespace(r[i][0]) && !IsWhitespace(r[i][|r[i]| - 1])
  {
    var pieces := Split(env, ',');
    CleanPieces(pieces);
    KeepNonEmpty(TrimAll(pieces))
  }

  /** The trim-and-filter half of the parse, on comma-free pieces. */
  lemma CleanPieces(pieces: seq<string>)
    requires forall j :: 0 <= j < |pieces| ==> ',' !in pieces[j]
    ensures var r := KeepNonEmpty(TrimAll(pieces));
      |r| <= |pieces| &&
      forall i :: 0 <= i < |r| ==>
        r[i] != [] && ',' !in r[i] && !IsWhitespace(r[i][0]) && !IsWhitespace(r[i][|r[i]| - 1])
  {
    var trimmed := TrimAll(pieces);
    TrimmedPiecesAreClean(pieces);
    KeptAreClean(trimmed);
  }

  lemma TrimmedPiecesAreClean(pieces: seq<string>)
    requires forall j :: 0 <= j < |pieces| ==> ',' !in pieces[j]
    ensures forall j :: 0 <= j < |pieces| ==> Clean(TrimAll(pieces)[j])
  {
    forall j | 0 <= j < |pieces| ensures Clean(Trim(pieces[j])) {
      TrimCharsFromInput(pieces[j]);
    }
  }

  lemma KeptAreClean(xs: seq<string>)
    requires forall j :: 0 <= j < |xs| ==> Clean(xs[j])
    ensures forall i :: 0 <= i < |KeepNonEmpty(xs)| ==>
      KeepNonEmpty(xs)[i] != [] && ',' !in KeepNonEmpty(xs)[i] &&
      !IsWhitespace(KeepNonEmpty(xs)[i][0]) && !IsWhitespace(KeepNonEmpty(xs)[i][|KeepNonEmpty(xs)[i]| - 1])
  {
    var r := KeepNonEmpty(xs);
    KeptEntries(xs);
    forall i | 0 <= i < |r|
      ensures r[i] != [] && ',' !in r[i] && !IsWhitespace(r[i][0]) && !IsWhitespace(r[i][|r[i]| - 1])
    {
      var j :| 0 <= j < |xs| && xs[j] == r[i];
      assert Clean(r[i]);
    }
  }

  /** The handler's choice: an unset or empty `SUPPORT_USERNAMES`
      (`process.env.SUPPORT_USERNAMES || ''`) is "not configured"; a
      setting that parses to nothing is "no support channels"; otherwise
      the usernames. */
  function ReplyFor(env: Option<string>): (r: SupportReply)
    ensures r.NotConfigured? <==> env.None? || env.value == []
    ensures r.NoChannels? <==> env.Some? && env.value != [] && ParseSupportUsernames(env.value) == []
    ensures r.Channels? ==> env.Some? && r.usernames == ParseSupportUsernames(env.value) && r.usernames != []
  {
    var supportUsernamesEnv := env.GetOr("");
    if supportUsernamesEnv == [] then NotConfigured
    else
      var supportUsernames := ParseSupportUsernames(supportUsernamesEnv);
      if |supportUsernames| == 0 then NoChannels else Channels(supportUsernames)
  }

  /** A setting made only of commas and whitespace parses to nothing, and
      when it is not empty the reply is "no support channels". */
  lemma {:induction false} CommasAndWhitespaceOnly(env: string)
    requires forall k :: 0 <= k < |env| ==> env[k] == ',' || IsWhitespace(env[k])
    ensures ParseSupportUsernames(env) == []
    ensures env != [] ==> ReplyFor(Some(env)) == NoChannels
  {
    var pieces := Split(env, ',');
    var trimmed := TrimAll(pieces);
    forall i | 0 <= i < |pieces| ensures trimmed[i] == [] {
      forall k | 0 <= k < |pieces[i]| ensures IsWhitespace(pieces[i][k]) {
        var c := pieces[i][k];
        assert c in env && c != ',';
      }
      TrimAllWhitespace(pieces[i]);
    }
    KeptEntries(trimmed);
  }
}
