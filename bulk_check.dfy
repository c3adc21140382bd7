/**
 * The pure steps of a bulk check: cutting the typed text into phone-number tokens,
 * the phone-number pattern, the simulated per-number lookup, and the outcome tallies.
 */
module BulkCheck {
  import opened ResultDisplay

  /** The largest number of tokens one submission may hold. */
  const MaxNumbersBulkCheck: nat := 500

  const InvalidFormatMessage := "Invalid phone number format."
  const FoundMessage := "A Telegram account exists for this number."
  const NotFoundMessage := "No Telegram account found for this number."
  const LookupErrorMessage := "An error occurred while checking this phone number. Please try again."

  /**
   * The random draw of one lookup, as a percentile bucket: the draw r in [0, 1) falls in
   * bucket floor(100 * r), so r < 0.6 is bucket < 60 and r < 0.9 is bucket < 90.
   */
  type Draw = d: int | 0 <= d < 100

  // ---------------------------------------------------------------- tokenizer

  /** The separator class of the split pattern `[\n,;]`. */
  predicate IsSeparator(c: char)
  {
    c == '\n' || c == ',' || c == ';'
  }

  /** What `String.prototype.trim` strips: ECMAScript WhiteSpace and LineTerminator characters. */
  predicate IsWhitespace(c: char)
  {
    c == ' ' || c == '\t' || c == '\n' || c == '\r' || c == '\U{000B}' || c == '\U{000C}'
    || c == '\U{00A0}' || c == '\U{1680}' || ('\U{2000}' <= c <= '\U{200A}')
    || c == '\U{2028}' || c == '\U{2029}' || c == '\U{202F}' || c == '\U{205F}'
    || c == '\U{3000}' || c == '\U{FEFF}'
  }

  predicate SeparatorFree(s: string)
  {
    forall i :: 0 <= i < |s| ==> !IsSeparator(s[i])
  }

  /** No whitespace at either end (vacuous for the empty string). */
  predicate Trimmed(s: string)
  {
    s != [] ==> !IsWhitespace(s[0]) && !IsWhitespace(s[|s| - 1])
  }

  /** Drops the leading run of separators. */
  function SkipSeparators(s: string): (r: string)
    ensures |r| <= |s| && r == s[|s| - |r|..]
    ensures forall i :: 0 <= i < |s| - |r| ==> IsSeparator(s[i])
    ensures r == [] || !IsSeparator(r[0])
  {
    if s != [] && IsSeparator(s[0]) then
      var r := SkipSeparators(s[1..]);
      assert forall i :: 1 <= i < |s| - |r| ==> s[i] == s[1..][i - 1];
      r
    else s
  }

  /**
   * `s.split(/[\n,;]+/)`: the pieces between maximal runs of separators, with an empty
   * piece in front when `s` starts with a separator and one at the end when it ends with one.
   */
  function SplitOnRuns(s: string): (pieces: seq<string>)
    ensures |pieces| >= 1
    ensures forall k :: 0 <= k < |pieces| ==> SeparatorFree(pieces[k])
    decreases |s|
  {
    if s == [] then [""]
    else if IsSeparator(s[0]) then [""] + SplitOnRuns(SkipSeparators(s[1..]))
    else
      var rest := SplitOnRuns(s[1..]);
      [[s[0]] + rest[0]] + rest[1..]
  }

  /** Reference split on every single separator, `s.split(/[\n,;]/)`. */
  function SplitOnEach(s: string): (pieces: seq<string>)
    ensures |pieces| >= 1
  {
    if s == [] then [""]
    else if IsSeparator(s[0]) then [""] + SplitOnEach(s[1..])
    else
      var rest := SplitOnEach(s[1..]);
      [[s[0]] + rest[0]] + rest[1..]
  }

  /** Length of the leading whitespace run. */
  function LeadingWhitespace(s: string): (n: nat)
    ensures n <= |s|
    ensures forall i :: 0 <= i < n ==> IsWhitespace(s[i])
    ensures n < |s| ==> !IsWhitespace(s[n])
  {
    if s != [] && IsWhitespace(s[0]) then 1 + LeadingWhitespace(s[1..]) else 0
  }

  /** Length of the trailing whitespace run. */
  function TrailingWhitespace(s: string): (n: nat)
    ensures n <= |s|
    ensures forall i :: |s| - n <= i < |s| ==> IsWhitespace(s[i])
    ensures n < |s| ==> !IsWhitespace(s[|s| - 1 - n])
  {
    if s != [] && IsWhitespace(s[|s| - 1]) then 1 + TrailingWhitespace(s[..|s| - 1]) else 0
  }

  /**
   * `s.trim()`: the longest slice of `s` with no whitespace at either end; it is empty
   * exactly when `s` is all whitespace, and it keeps `s` free of separators when `s` was.
   */
  function Trim(s: string): (r: string)
    ensures Trimmed(r)
    ensures r == [] <==> forall i :: 0 <= i < |s| ==> IsWhitespace(s[i])
    ensures SeparatorFree(s) ==> SeparatorFree(r)
    ensures Trimmed(s) ==> r == s
  {
    var rest := s[LeadingWhitespace(s)..];
    var r := rest[..|rest| - TrailingWhitespace(rest)];
    assert forall i :: 0 <= i < |r| ==> r[i] == s[LeadingWhitespace(s) + i];
    r
  }

  /**
   * What `Trim` keeps: the slice of `s` that starts right after its leading whitespace and
   * is followed by nothing but whitespace.
   */
  lemma TrimIsSlice(s: string)
    ensures var L, r := LeadingWhitespace(s), Trim(s);
      && L + |r| <= |s| && r == s[L..L + |r|]
      && forall i :: L + |r| <= i < |s| ==> IsWhitespace(s[i])
  {
    var L := LeadingWhitespace(s);
    var rest := s[L..];
    var T := TrailingWhitespace(rest);
    var r := Trim(s);
    assert r == rest[..|rest| - T];
    assert r == s[L..L + |r|];
    forall i | L + |r| <= i < |s|
      ensures IsWhitespace(s[i])
    {
      assert s[i] == rest[i - L];
    }
  }

  /** A leading blank does not change what trimming keeps. */
  lemma TrimSkipsBlank(c: char, s: string)
    requires IsWhitespace(c)
    ensures Trim([c] + s) == Trim(s)
  {
  }

  /** `.map(num => num.trim()).filter(num => num.length > 0)`. */
  function Clean(pieces: seq<string>): (tokens: seq<string>)
    ensures |tokens| <= |pieces|
    ensures forall k :: 0 <= k < |tokens| ==> tokens[k] != [] && Trimmed(tokens[k])
  {
    if pieces == [] then []
    else
      var t := Trim(pieces[0]);
      (if t == [] then [] else [t]) + Clean(pieces[1..])
  }

  /**
   * The tokens of the typed text, in input order: each is non-empty, holds no separator
   * and has no whitespace at either end.
   */
  function Tokenize(input: string): (tokens: seq<string>)
    ensures forall k :: 0 <= k < |tokens| ==>
      tokens[k] != [] && SeparatorFree(tokens[k]) && Trimmed(tokens[k])
  {
    CleanSeparatorFree(SplitOnRuns(input));
    Clean(SplitOnRuns(input))
  }

  lemma {:induction false} CleanSeparatorFree(pieces: seq<string>)
    requires forall k :: 0 <= k < |pieces| ==> SeparatorFree(pieces[k])
    ensures forall k :: 0 <= k < |Clean(pieces)| ==> SeparatorFree(Clean(pieces)[k])
  {
    if pieces != [] {
      CleanSeparatorFree(pieces[1..]);
    }
  }

  lemma CleanCons(p: string, ps: seq<string>)
    ensures Clean([p] + ps) == (if Trim(p) == [] then [] else [Trim(p)]) + Clean(ps)
  {
  }

  /** `.map(num => num.trim())`: every piece trimmed, in order. */
  function TrimAll(pieces: seq<string>): (trimmed: seq<string>)
    ensures |trimmed| == |pieces|
    ensures forall k :: 0 <= k < |pieces| ==> trimmed[k] == Trim(pieces[k])
  {
    seq(|pieces|, k requires 0 <= k < |pieces| => Trim(pieces[k]))
  }

  /** `.filter(num => num.length > 0)`: the non-empty strings, in order. */
  function NonEmpty(ts: seq<string>): (kept: seq<string>)
    ensures |kept| <= |ts|
  {
    if ts == [] then []
    else (if ts[0] == [] then [] else [ts[0]]) + NonEmpty(ts[1..])
  }

  /** Filtering invents nothing and drops only empty strings. */
  lemma {:induction false} NonEmptyContents(ts: seq<string>)
    ensures forall k :: 0 <= k < |NonEmpty(ts)| ==> NonEmpty(ts)[k] != [] && NonEmpty(ts)[k] in ts
    ensures forall j :: 0 <= j < |ts| && ts[j] != [] ==> ts[j] in NonEmpty(ts)
  {
    if ts != [] {
      NonEmptyContents(ts[1..]);
      var head := if ts[0] == [] then [] else [ts[0]];
      assert NonEmpty(ts) == head + NonEmpty(ts[1..]);
      forall k | 0 <= k < |NonEmpty(ts)|
        ensures NonEmpty(ts)[k] != [] && NonEmpty(ts)[k] in ts
      {
        if k >= |head| {
          assert NonEmpty(ts)[k] == NonEmpty(ts[1..])[k - |head|];
        }
      }
      forall j | 0 <= j < |ts| && ts[j] != []
        ensures ts[j] in NonEmpty(ts)
      {
        if j > 0 {
          assert ts[j] == ts[1..][j - 1];
        }
      }
    }
  }

  /** Filtering a concatenation filters each part in turn: order and repeats are kept. */
  lemma {:induction false} NonEmptyAppend(a: seq<string>, b: seq<string>)
    ensures NonEmpty(a + b) == NonEmpty(a) + NonEmpty(b)
  {
    if a == [] {
      assert a + b == b;
    } else {
      assert (a + b)[0] == a[0];
      assert (a + b)[1..] == a[1..] + b;
      NonEmptyAppend(a[1..], b);
    }
  }

  /**
   * Cleaning is exactly map-trim-then-filter: the tokens are the trimmed pieces that are
   * not blank, in the order of their pieces.
   */
  lemma {:induction false} CleanIsTrimThenFilter(pieces: seq<string>)
    ensures Clean(pieces) == NonEmpty(TrimAll(pieces))
  {
    if pieces != [] {
      CleanIsTrimThenFilter(pieces[1..]);
      var trimmed := TrimAll(pieces);
      assert trimmed[0] == Trim(pieces[0]);
      assert trimmed[1..] == TrimAll(pieces[1..]);
    }
  }

  /** Cleaning a concatenation cleans each part in turn: the tokens keep the order of their pieces. */
  lemma {:induction false} CleanAppend(a: seq<string>, b: seq<string>)
    ensures Clean(a + b) == Clean(a) + Clean(b)
  {
    if a == [] {
      assert a + b == b;
    } else {
      assert (a + b)[0] == a[0];
      assert (a + b)[1..] == a[1..] + b;
      CleanAppend(a[1..], b);
    }
  }

  /** A leading run of separators only adds empty pieces, which cleaning drops. */
  lemma {:induction false} SkipSeparatorsClean(s: string)
    ensures Clean(SplitOnEach(SkipSeparators(s))) == Clean(SplitOnEach(s))
    decreases |s|
  {
    if s != [] && IsSeparator(s[0]) {
      SkipSeparatorsClean(s[1..]);
      assert SkipSeparators(s) == SkipSeparators(s[1..]);
      assert SplitOnEach(s) == [""] + SplitOnEach(s[1..]);
      CleanCons("", SplitOnEach(s[1..]));
    }
  }

  lemma {:induction false} RunsAgreeWithEach(s: string)
    ensures SplitOnRuns(s)[0] == SplitOnEach(s)[0]
    ensures Clean(SplitOnRuns(s)[1..]) == Clean(SplitOnEach(s)[1..])
    decreases |s|
  {
    if s == [] {
    } else if IsSeparator(s[0]) {
      var u := SkipSeparators(s[1..]);
      RunsAgreeWithEach(u);
      var R, E := SplitOnRuns(u), SplitOnEach(u);
      assert R == [R[0]] + R[1..];
      assert E == [E[0]] + E[1..];
      CleanCons(R[0], R[1..]);
      CleanCons(E[0], E[1..]);
      SkipSeparatorsClean(s[1..]);
      assert SplitOnRuns(s)[1..] == R;
      assert SplitOnEach(s)[1..] == SplitOnEach(s[1..]);
    } else {
      RunsAgreeWithEach(s[1..]);
    }
  }

  /**
   * Collapsing runs of separators gives the same tokens as splitting on each single
   * separator: the empty pieces between adjacent separators are dropped either way.
   */
  lemma RunsEquivalentToEach(input: string)
    ensures Tokenize(input) == Clean(SplitOnEach(input))
  {
    RunsAgreeWithEach(input);
    var R, E := SplitOnRuns(input), SplitOnEach(input);
    assert R == [R[0]] + R[1..];
    assert E == [E[0]] + E[1..];
    CleanCons(R[0], R[1..]);
    CleanCons(E[0], E[1..]);
  }

  /** Tokens joined by the given separators, one separator between each neighbouring pair. */
  function Join(tokens: seq<string>, seps: seq<char>): (s: string)
    requires |tokens| == |seps| + 1
  {
    if |tokens| == 1 then tokens[0]
    else tokens[0] + [seps[0]] + Join(tokens[1..], seps[1..])
  }

  lemma {:induction false} SplitSeparatorFreePrefix(t: string, rest: string)
    requires SeparatorFree(t)
    ensures SplitOnEach(t + rest) == [t + SplitOnEach(rest)[0]] + SplitOnEach(rest)[1..]
    decreases |t|
  {
    if t != [] {
      assert (t + rest)[0] == t[0];
      assert (t + rest)[1..] == t[1..] + rest;
      SplitSeparatorFreePrefix(t[1..], rest);
      assert [t[0]] + (t[1..] + SplitOnEach(rest)[0]) == t + SplitOnEach(rest)[0];
    } else {
      var e := SplitOnEach(rest);
      assert t + rest == rest;
      assert t + e[0] == e[0];
      assert e == [e[0]] + e[1..];
    }
  }

  /** Splitting on each separator undoes joining separator-free pieces. */
  lemma {:induction false} SplitOnEachJoin(pieces: seq<string>, seps: seq<char>)
    requires |pieces| == |seps| + 1
    requires forall k :: 0 <= k < |seps| ==> IsSeparator(seps[k])
    requires forall k :: 0 <= k < |pieces| ==> SeparatorFree(pieces[k])
    ensures SplitOnEach(Join(pieces, seps)) == pieces
  {
    var t := pieces[0];
    if |pieces| == 1 {
      SplitSeparatorFreePrefix(t, "");
      assert t + "" == t;
    } else {
      var rest := Join(pieces[1..], seps[1..]);
      var u := [seps[0]] + rest;
      assert Join(pieces, seps) == t + u;
      SplitSeparatorFreePrefix(t, u);
      assert u[0] == seps[0] && u[1..] == rest;
      SplitOnEachJoin(pieces[1..], seps[1..]);
      assert SplitOnEach(u) == [""] + pieces[1..];
      assert t + "" == t;
      assert pieces == [t] + pieces[1..];
    }
  }

  /** Cleaning leaves a list of non-empty, already trimmed tokens as it is. */
  lemma {:induction false} CleanKeepsTokens(tokens: seq<string>)
    requires forall k :: 0 <= k < |tokens| ==> tokens[k] != [] && Trimmed(tokens[k])
    ensures Clean(tokens) == tokens
  {
    if tokens != [] {
      CleanKeepsTokens(tokens[1..]);
    }
  }

  /** Pieces none of which is blank clean to their trimmed forms, one token per piece. */
  lemma {:induction false} CleanNonBlankPieces(pieces: seq<string>, tokens: seq<string>)
    requires |pieces| == |tokens|
    requires forall k :: 0 <= k < |pieces| ==> tokens[k] != [] && Trim(pieces[k]) == tokens[k]
    ensures Clean(pieces) == tokens
  {
    if pieces != [] {
      CleanNonBlankPieces(pieces[1..], tokens[1..]);
      assert tokens == [tokens[0]] + tokens[1..];
    }
  }

  /**
   * Tokenizing separator-free pieces joined by any mix of single separators trims each
   * piece and drops the blank ones, keeping the order.
   */
  lemma TokenizeJoin(pieces: seq<string>, seps: seq<char>)
    requires |pieces| == |seps| + 1
    requires forall k :: 0 <= k < |seps| ==> IsSeparator(seps[k])
    requires forall k :: 0 <= k < |pieces| ==> SeparatorFree(pieces[k])
    ensures Tokenize(Join(pieces, seps)) == Clean(pieces)
  {
    RunsEquivalentToEach(Join(pieces, seps));
    SplitOnEachJoin(pieces, seps);
  }

  /**
   * Round trip: well-formed tokens joined by any mix of separators tokenize back to
   * exactly those tokens, whichever separator was used where.
   */
  lemma JoinRoundTrip(tokens: seq<string>, seps: seq<char>)
    requires |tokens| == |seps| + 1
    requires forall k :: 0 <= k < |seps| ==> IsSeparator(seps[k])
    requires forall k :: 0 <= k < |tokens| ==> tokens[k] != [] && SeparatorFree(tokens[k]) && Trimmed(tokens[k])
    ensures Tokenize(Join(tokens, seps)) == tokens
  {
    TokenizeJoin(tokens, seps);
    CleanKeepsTokens(tokens);
  }

  /** Four numbers separated by a comma, a semicolon and a newline are four tokens. */
  lemma MixedSeparatorsExample()
    ensures Tokenize("+1,+2;+3\n+4") == ["+1", "+2", "+3", "+4"]
  {
    var tokens, seps := ["+1", "+2", "+3", "+4"], [',', ';', '\n'];
    JoinRoundTrip(tokens, seps);
    assert Join(tokens, seps) == "+1,+2;+3\n+4";
  }

  /**
   * Three well-formed tokens typed as "a, b, c": the blanks after the commas are trimmed
   * away and the three tokens come back in order (for instance "+123456789, invalid,
   * +447911123456").
   */
  lemma CommaSpaceList(a: string, b: string, c: string)
    requires a != [] && b != [] && c != []
    requires SeparatorFree(a) && SeparatorFree(b) && SeparatorFree(c)
    requires Trimmed(a) && Trimmed(b) && Trimmed(c)
    ensures Tokenize(a + ", " + b + ", " + c) == [a, b, c]
  {
    var pieces, seps := [a, [' '] + b, [' '] + c], [',', ','];
    SpacedJoin(a, b, c);
    assert a + [','] + ([' '] + b) + [','] + ([' '] + c) == a + ", " + b + ", " + c;
    TokenizeJoin(pieces, seps);
    SpacedPiecesClean(a, b, c);
  }

  lemma SpacedJoin(a: string, b: string, c: string)
    requires SeparatorFree(a) && SeparatorFree(b) && SeparatorFree(c)
    ensures SeparatorFree([' '] + b) && SeparatorFree([' '] + c)
    ensures Join([a, [' '] + b, [' '] + c], [',', ',']) == a + [','] + ([' '] + b) + [','] + ([' '] + c)
  {
    assert SeparatorFree([' '] + b) by {
      assert forall i :: 1 <= i < |[' '] + b| ==> ([' '] + b)[i] == b[i - 1];
    }
    assert SeparatorFree([' '] + c) by {
      assert forall i :: 1 <= i < |[' '] + c| ==> ([' '] + c)[i] == c[i - 1];
    }
    var pieces := [a, [' '] + b, [' '] + c];
    assert pieces[1..][1..] == [[' '] + c];
    assert Join(pieces[1..], [',']) == ([' '] + b) + [','] + ([' '] + c);
  }

  lemma SpacedTrim(a: string, b: string, c: string)
    requires Trimmed(a) && Trimmed(b) && Trimmed(c)
    ensures Trim(a) == a && Trim([' '] + b) == b && Trim([' '] + c) == c
  {
    TrimSkipsBlank(' ', b);
    TrimSkipsBlank(' ', c);
  }

  lemma SpacedPiecesClean(a: string, b: string, c: string)
    requires a != [] && b != [] && c != [] && Trimmed(a) && Trimmed(b) && Trimmed(c)
    ensures Clean([a, [' '] + b, [' '] + c]) == [a, b, c]
  {
    var pieces, tokens := [a, [' '] + b, [' '] + c], [a, b, c];
    SpacedTrim(a, b, c);
    CleanNonBlankPieces(pieces, tokens);
  }

  // ---------------------------------------------------------------- validator

  predicate IsAsciiDigit(c: char)
  {
    '0' <= c <= '9'
  }

  /** The digits after an optional leading '+'. */
  function Digits(t: string): (d: string)
    ensures |d| <= |t| <= |d| + 1
  {
    if t != [] && t[0] == '+' then t[1..] else t
  }

  /**
   * `/^\+?[1-9]\d{1,14}$/`: an optional '+', a digit 1-9, then 1 to 14 ASCII digits.
   * The 15-digit cap follows E.164, but the '+' is optional and two digits suffice.
   */
  predicate IsValidPhone(t: string)
    ensures IsValidPhone(t) ==> 2 <= |t| <= 16 && (t[0] == '+' || '1' <= t[0] <= '9')
  {
    var d := Digits(t);
    2 <= |d| <= 15 && '1' <= d[0] <= '9' && forall i :: 1 <= i < |d| ==> IsAsciiDigit(d[i])
  }

  /** A valid number is all digits but for a leading '+', so it is itself a well-formed token. */
  lemma ValidPhoneShape(t: string)
    requires IsValidPhone(t)
    ensures forall i :: 0 <= i < |t| ==> IsAsciiDigit(t[i]) || (i == 0 && t[i] == '+')
    ensures t != [] && SeparatorFree(t) && Trimmed(t)
  {
  }

  /** A single valid number typed on its own is exactly one token, itself. */
  lemma ValidPhoneTokenizesToItself(t: string)
    requires IsValidPhone(t)
    ensures Tokenize(t) == [t]
  {
    ValidPhoneShape(t);
    JoinRoundTrip([t], []);
  }

  // ---------------------------------------------------------------- lookup

  /**
   * The result for one token: a malformed token is an error whatever the draw; a
   * well-formed one is found below bucket 60, not found below 90, a lookup error above.
   * Every result carries its token as its phone number.
   */
  function Classify(token: string, draw: Draw): (r: ResultState)
    ensures r.phoneNumber == Some(token)
    ensures r.status == Found <==> IsValidPhone(token) && draw < 60
    ensures r.status == NotFound <==> IsValidPhone(token) && 60 <= draw < 90
    ensures r.status == Error <==> !IsValidPhone(token) || 90 <= draw
    ensures r.message == InvalidFormatMessage <==> !IsValidPhone(token)
  {
    if !IsValidPhone(token) then
      ResultState(Error, InvalidFormatMessage, Some(token))
    else if draw < 60 then
      ResultState(Found, FoundMessage, Some(token))
    else if draw < 90 then
      ResultState(NotFound, NotFoundMessage, Some(token))
    else
      ResultState(Error, LookupErrorMessage, Some(token))
  }

  /** A malformed token gets the fixed invalid-format error, whatever the draw. */
  lemma InvalidIgnoresDraw(token: string, d1: Draw, d2: Draw)
    requires !IsValidPhone(token)
    ensures Classify(token, d1) == Classify(token, d2) == ResultState(Error, InvalidFormatMessage, Some(token))
  {
  }

  /** How many of the draws below n give the status s for this token. */
  function DrawsGiving(token: string, s: Status, n: nat): (c: nat)
    requires n <= 100
    ensures c <= n
  {
    if n == 0 then 0
    else DrawsGiving(token, s, n - 1) + (if Classify(token, n - 1).status == s then 1 else 0)
  }

  lemma {:induction false} DrawsGivingPrefix(token: string, n: nat)
    requires n <= 100
    ensures IsValidPhone(token) ==>
      && DrawsGiving(token, Found, n) == (if n < 60 then n else 60)
      && DrawsGiving(token, NotFound, n) == (if n < 60 then 0 else if n < 90 then n - 60 else 30)
      && DrawsGiving(token, Error, n) == (if n < 90 then 0 else n - 90)
    ensures !IsValidPhone(token) ==>
      && DrawsGiving(token, Error, n) == n
      && DrawsGiving(token, Found, n) == 0
      && DrawsGiving(token, NotFound, n) == 0
  {
    if n > 0 {
      DrawsGivingPrefix(token, n - 1);
    }
  }

  /**
   * Over the 100 equally likely buckets, a well-formed token is found in 60, not found in
   * 30 and a lookup error in 10; a malformed token is an error in all 100.
   */
  lemma OutcomeSplit(token: string)
    ensures IsValidPhone(token) ==>
      DrawsGiving(token, Found, 100) == 60 && DrawsGiving(token, NotFound, 100) == 30
      && DrawsGiving(token, Error, 100) == 10
    ensures !IsValidPhone(token) ==> DrawsGiving(token, Error, 100) == 100
  {
    DrawsGivingPrefix(token, 100);
  }

  /** The results of the tokens in input order, token i looked up with draw i. */
  function CheckAll(tokens: seq<string>, draws: nat -> Draw): (rs: seq<ResultState>)
    ensures |rs| == |tokens|
    ensures forall i :: 0 <= i < |rs| ==> rs[i].phoneNumber == Some(tokens[i])
    ensures forall i :: 0 <= i < |rs| ==> rs[i].status == Found || rs[i].status == NotFound || rs[i].status == Error
  {
    var rs := seq(|tokens|, i requires 0 <= i < |tokens| => Classify(tokens[i], draws(i)));
    assert forall i :: 0 <= i < |rs| ==> rs[i] == Classify(tokens[i], draws(i));
    rs
  }

  // ---------------------------------------------------------------- tallies

  /** `results.filter(r => r.status === s).length`. */
  function Count(rs: seq<ResultState>, s: Status): (n: nat)
    ensures n <= |rs|
  {
    if rs == [] then 0
    else (if rs[0].status == s then 1 else 0) + Count(rs[1..], s)
  }

  /** Counting over a concatenation adds the counts of its parts. */
  lemma {:induction false} CountAppend(a: seq<ResultState>, b: seq<ResultState>, s: Status)
    ensures Count(a + b, s) == Count(a, s) + Count(b, s)
  {
    if a == [] {
      assert a + b == b;
    } else {
      assert (a + b)[0] == a[0];
      assert (a + b)[1..] == a[1..] + b;
      CountAppend(a[1..], b, s);
    }
  }

  /** When every result is found, not found or an error, the three tallies add up to the total. */
  lemma {:induction false} TalliesPartition(rs: seq<ResultState>)
    requires forall i :: 0 <= i < |rs| ==> rs[i].status == Found || rs[i].status == NotFound || rs[i].status == Error
    ensures Count(rs, Found) + Count(rs, NotFound) + Count(rs, Error) == |rs|
  {
    if rs != [] {
      TalliesPartition(rs[1..]);
    }
  }
}
