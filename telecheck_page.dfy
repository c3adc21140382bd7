/**
 * The bulk-check page: its `results` state and the submit handler that tokenizes the
 * typed text, refuses empty or oversized submissions, looks the numbers up one after
 * another while publishing a progress list, and finally publishes the results newest
 * first together with the outcome tallies.
 */
module TeleCheckPage {
  import opened ResultDisplay
  import opened BulkCheck

  /** What the closing notification of a submission reports. */
  datatype Outcome =
    | NoNumbersEntered
    | TooManyNumbers(entered: nat)
    | BulkCheckComplete(processed: nat, found: nat, notFound: nat, errors: nat)

  function DigitChar(d: nat): (c: char)
    requires d < 10
    ensures IsAsciiDigit(c) && c as int - '0' as int == d
  {
    ('0' as int + d) as char
  }

  /** The value of a string of ASCII digits, read as a decimal number. */
  function DecimalValue(s: string): nat
    requires forall i :: 0 <= i < |s| ==> IsAsciiDigit(s[i])
  {
    if s == [] then 0
    else
      assert IsAsciiDigit(s[|s| - 1]);
      10 * DecimalValue(s[..|s| - 1]) + (s[|s| - 1] as int - '0' as int)
  }

  /** `d` is a non-empty run of ASCII digits whose decimal value is `v`. */
  predicate ReadsAs(d: string, v: nat)
  {
    && d != []
    && (forall i :: 0 <= i < |d| ==> IsAsciiDigit(d[i]))
    && DecimalValue(d) == v
  }

  /** Decimal rendering of a count, as in a template literal. */
  function NatToString(n: nat): string
  {
    if n < 10 then [DigitChar(n)] else NatToString(n / 10) + [DigitChar(n % 10)]
  }

  /** The decimal rendering of a count reads back as that count, and has no leading zero. */
  lemma {:induction false} NatToStringReadsBack(n: nat)
    ensures ReadsAs(NatToString(n), n)
    ensures n > 0 ==> NatToString(n)[0] != '0'
  {
    if n >= 10 {
      NatToStringReadsBack(n / 10);
      var prefix := NatToString(n / 10);
      var s := NatToString(n);
      assert s == prefix + [DigitChar(n % 10)];
      assert s[..|s| - 1] == prefix;
    }
  }

  /** A progress message: a `processing` entry without a phone number. */
  function ProgressEntry(message: string): (r: ResultState)
    ensures IsPlaceholder(r) && r.status == Processing
  {
    ResultState(Processing, message, None)
  }

  /** The banner text once a submission is accepted. */
  function CheckingMessage(n: nat): string
  {
    "Checking " + NatToString(n) + " phone number(s)..."
  }

  /** The progress text after k of n numbers. */
  function CheckedMessage(k: nat, n: nat): string
  {
    "Checked " + NatToString(k) + "/" + NatToString(n) + " numbers..."
  }

  /** The "Checking" banner names the number of tokens in decimal, between fixed words. */
  lemma CheckingMessageReadsBack(n: nat)
    ensures var m := CheckingMessage(n);
      && |m| > 28 && m[..9] == "Checking " && m[|m| - 19..] == " phone number(s)..."
      && ReadsAs(m[9..|m| - 19], n)
  {
    var m := CheckingMessage(n);
    NatToStringReadsBack(n);
    assert m[9..|m| - 19] == NatToString(n);
  }

  /** Both counts of the progress text can be read back, split at its one '/'. */
  lemma CheckedMessageReadsBack(k: nat, n: nat)
    ensures var m := CheckedMessage(k, n);
      && |m| > 21 && m[..8] == "Checked " && m[|m| - 11..] == " numbers..."
      && exists j :: 8 < j < |m| - 11 && m[j] == '/' && ReadsAs(m[8..j], k) && ReadsAs(m[j + 1..|m| - 11], n)
  {
    var a, b := NatToString(k), NatToString(n);
    NatToStringReadsBack(k);
    NatToStringReadsBack(n);
    var m := CheckedMessage(k, n);
    var j := 8 + |a|;
    assert m[j] == '/' && m[8..j] == a && m[j + 1..|m| - 11] == b;
  }

  /** `.slice().reverse()`: the same entries, last one first. */
  function Reverse<T>(s: seq<T>): (r: seq<T>)
    ensures |r| == |s|
    ensures forall i :: 0 <= i < |s| ==> r[i] == s[|s| - 1 - i]
  {
    if s == [] then [] else Reverse(s[1..]) + [s[0]]
  }

  /**
   * The list published after the results `done`: the "Checked" progress entry, then the
   * results newest first (`ProgressListRendering` says how it is rendered).
   */
  function ProgressList(done: seq<ResultState>, n: nat): (l: seq<ResultState>)
    ensures |l| == |done| + 1 && IsPlaceholder(l[0]) && l[0].message == CheckedMessage(|done|, n)
    ensures forall j :: 1 <= j < |l| ==> l[j] == done[|done| - j]
  {
    [ProgressEntry(CheckedMessage(|done|, n))] + Reverse(done)
  }

  /** The progress lists published after each of the first k results. */
  function ProgressLists(all: seq<ResultState>, n: nat, k: nat): (lists: seq<seq<ResultState>>)
    requires k <= |all|
    ensures |lists| == k
  {
    if k == 0 then [] else ProgressLists(all, n, k - 1) + [ProgressList(all[..k], n)]
  }

  /**
   * Every list one submission hands to the display, in order: the cleared list, and, when
   * the submission is accepted, the "Checking" banner, one progress list per number and
   * the final results.
   */
  function Publications(input: string, draws: nat -> Draw): (lists: seq<seq<ResultState>>)
    ensures |lists| >= 1 && lists[0] == []
  {
    var tokens := Tokenize(input);
    var n := |tokens|;
    if n == 0 || n > MaxNumbersBulkCheck then [[]]
    else
      var all := CheckAll(tokens, draws);
      [[], [ProgressEntry(CheckingMessage(n))]] + ProgressLists(all, n, n) + [Reverse(all)]
  }

  function Last<T>(s: seq<T>): T
    requires s != []
  {
    s[|s| - 1]
  }

  /**
   * What the closing notification of a submission reports: no numbers, too many numbers
   * (with how many were entered), or completion with tallies that add up to the count.
   */
  function SubmitOutcome(input: string, draws: nat -> Draw): (o: Outcome)
    ensures o == NoNumbersEntered <==> |Tokenize(input)| == 0
    ensures o.TooManyNumbers? <==> |Tokenize(input)| > MaxNumbersBulkCheck
    ensures o.TooManyNumbers? ==> o.entered == |Tokenize(input)|
    ensures o.BulkCheckComplete? ==>
      o.processed == |Tokenize(input)| && o.found + o.notFound + o.errors == o.processed
  {
    var tokens := Tokenize(input);
    var n := |tokens|;
    if n == 0 then NoNumbersEntered
    else if n > MaxNumbersBulkCheck then TooManyNumbers(n)
    else
      var all := CheckAll(tokens, draws);
      TalliesPartition(all);
      BulkCheckComplete(n, Count(all, Found), Count(all, NotFound), Count(all, Error))
  }

  /** The page's state: the list the display shows, and the history of every list published. */
  class Page {
    var results: seq<ResultState>
    ghost var published: seq<seq<ResultState>>

    constructor ()
      ensures results == [] && published == []
    {
      results := [];
      published := [];
    }

    /** `setResults`: replace the shown list and record it. */
    method SetResults(rs: seq<ResultState>)
      modifies this
      ensures results == rs
      ensures published == old(published) + [rs]
    {
      results := rs;
      published := published + [rs];
    }

    /**
     * `handlePhoneNumberSubmit`, the lookups drawing `draws(i)` for token i. The shown
     * list is cleared first; an empty or oversized submission stops there; otherwise the
     * numbers are checked in input order and the final list holds their results newest first.
     */
    method HandlePhoneNumberSubmit(phoneNumbers: string, draws: nat -> Draw) returns (outcome: Outcome)
      modifies this
      ensures published == old(published) + Publications(phoneNumbers, draws)
      ensures results == Last(Publications(phoneNumbers, draws))
      ensures outcome == SubmitOutcome(phoneNumbers, draws)
      ensures outcome.BulkCheckComplete? ==>
        outcome.found + outcome.notFound + outcome.errors == outcome.processed == |results|
    {
      SetResults([]);
      var numbersToProcess := Tokenize(phoneNumbers);
      var n := |numbersToProcess|;
      if n == 0 || n > MaxNumbersBulkCheck {
        outcome := if n == 0 then NoNumbersEntered else TooManyNumbers(n);
        return;
      }
      var banner := [ProgressEntry(CheckingMessage(n))];
      SetResults(banner);
      var currentResults := CheckEach(numbersToProcess, draws);
      ghost var progress := ProgressLists(currentResults, n, n);
      SetResults(Reverse(currentResults));
      ghost var tail := [[], banner] + progress + [Reverse(currentResults)];
      assert published == old(published) + [[]] + [banner] + progress + [Reverse(currentResults)];
      Regroup(old(published), [], banner, progress, Reverse(currentResults));
      PublicationsAccepted(phoneNumbers, draws);

      var foundCount := Count(currentResults, Found);
      var notFoundCount := Count(currentResults, NotFound);
      var errorCount := Count(currentResults, Error);
      TalliesPartition(currentResults);
      outcome := BulkCheckComplete(n, foundCount, notFoundCount, errorCount);
    }

    /**
     * The loop of the handler: looks the numbers up in input order, and after each one
     * publishes the progress entry followed by the results so far, newest first.
     */
    method CheckEach(numbersToProcess: seq<string>, draws: nat -> Draw) returns (currentResults: seq<ResultState>)
      modifies this
      ensures currentResults == CheckAll(numbersToProcess, draws)
      ensures published == old(published)
        + ProgressLists(CheckAll(numbersToProcess, draws), |numbersToProcess|, |numbersToProcess|)
      ensures numbersToProcess == [] ==> results == old(results)
      ensures numbersToProcess != [] ==> results == ProgressList(currentResults, |numbersToProcess|)
    {
      var n := |numbersToProcess|;
      ghost var all := CheckAll(numbersToProcess, draws);
      currentResults := [];
      var processedCount := 0;
      for i := 0 to n
        invariant processedCount == i == |currentResults|
        invariant currentResults == all[..i]
        invariant published == old(published) + ProgressLists(all, n, i)
        invariant i == 0 ==> results == old(results)
        invariant i > 0 ==> results == ProgressList(currentResults, n)
      {
        var phoneNumber := numbersToProcess[i];
        var singleResult := Classify(phoneNumber, draws(i));
        currentResults := currentResults + [singleResult];
        processedCount := processedCount + 1;
        assert currentResults == all[..i + 1];
        var progressList := ProgressList(currentResults, n);
        assert ProgressLists(all, n, i + 1) == ProgressLists(all, n, i) + [progressList];
        SetResults(progressList);
        AppendOne(old(published), ProgressLists(all, n, i), progressList);
      }
      assert currentResults == all;
    }
  }

  /** Appending one more list to a history extends its last block. */
  lemma AppendOne<T>(a: seq<T>, b: seq<T>, x: T)
    ensures a + b + [x] == a + (b + [x])
  {
  }

  /** Regrouping a history: the lists of one submission form one block. */
  lemma Regroup<T>(a: seq<T>, x: T, y: T, p: seq<T>, z: T)
    ensures a + [x] + [y] + p + [z] == a + ([x, y] + p + [z])
  {
  }

  lemma PublicationsAccepted(input: string, draws: nat -> Draw)
    requires 0 < |Tokenize(input)| <= MaxNumbersBulkCheck
    ensures var tokens := Tokenize(input);
      var n := |tokens|;
      var all := CheckAll(tokens, draws);
      Publications(input, draws)
        == [[], [ProgressEntry(CheckingMessage(n))]] + ProgressLists(all, n, n) + [Reverse(all)]
  {
  }

  /**
   * The shown list ends empty exactly when the submission is refused: no tokens, or more
   * than 500; the refusal publishes nothing but the cleared list.
   */
  lemma RefusedIffEmptyResults(input: string, draws: nat -> Draw)
    ensures var n := |Tokenize(input)|;
      (Last(Publications(input, draws)) == [] <==> n == 0 || n > MaxNumbersBulkCheck)
      && (n == 0 || n > MaxNumbersBulkCheck ==> Publications(input, draws) == [[]])
  {
  }

  /** Reversing a list does not change how many of its results have a given status. */
  lemma {:induction false} CountReverse(rs: seq<ResultState>, s: Status)
    ensures Count(Reverse(rs), s) == Count(rs, s)
  {
    if rs != [] {
      CountReverse(rs[1..], s);
      CountAppend(Reverse(rs[1..]), [rs[0]], s);
      assert [rs[0]][1..] == [];
    }
  }

  /**
   * The closing notification of a completed submission counts the list left on screen:
   * its found, not-found and error tallies are the numbers of final results with that status.
   */
  lemma OutcomeCountsShownResults(input: string, draws: nat -> Draw)
    ensures var o := SubmitOutcome(input, draws);
      var final := Last(Publications(input, draws));
      o.BulkCheckComplete? ==>
        && o.found == Count(final, Found)
        && o.notFound == Count(final, NotFound)
        && o.errors == Count(final, Error)
  {
    var tokens := Tokenize(input);
    var n := |tokens|;
    if 0 < n <= MaxNumbersBulkCheck {
      var all := CheckAll(tokens, draws);
      PublicationsAccepted(input, draws);
      assert Last(Publications(input, draws)) == Reverse(all);
      CountReverse(all, Found);
      CountReverse(all, NotFound);
      CountReverse(all, Error);
    }
  }

  /**
   * The final list of an accepted submission holds one result per token, newest first:
   * entry j is the result of token n-1-j, it carries that token as its number, and no
   * entry is a placeholder.
   */
  lemma FinalResultsNewestFirst(input: string, draws: nat -> Draw)
    requires 0 < |Tokenize(input)| <= MaxNumbersBulkCheck
    ensures var tokens := Tokenize(input);
      var n := |tokens|;
      var final := Last(Publications(input, draws));
      && |final| == n
      && (forall j :: 0 <= j < n ==>
            final[j] == Classify(tokens[n - 1 - j], draws(n - 1 - j))
            && final[j].phoneNumber == Some(tokens[n - 1 - j])
            && HasPhone(final[j]) && !IsPlaceholder(final[j]))
  {
    var tokens := Tokenize(input);
    PublicationsAccepted(input, draws);
    assert Last(Publications(input, draws)) == Reverse(CheckAll(tokens, draws));
  }

  lemma {:induction false} ProgressListsAt(all: seq<ResultState>, n: nat, m: nat, k: nat)
    requires 1 <= k <= m <= |all|
    ensures ProgressLists(all, n, m)[k - 1] == ProgressList(all[..k], n)
  {
    if k < m {
      ProgressListsAt(all, n, m - 1, k);
    }
  }

  /**
   * While a run is in progress, the k-th progress list is the "Checked k/N" entry followed
   * by the first k results newest first, and it renders as exactly those k result cards:
   * the progress entry is never shown beside real results.
   */
  lemma ProgressListRendering(input: string, draws: nat -> Draw, k: nat)
    requires 1 <= k <= |Tokenize(input)| <= MaxNumbersBulkCheck
    ensures var tokens := Tokenize(input);
      var n := |tokens|;
      var done := CheckAll(tokens, draws)[..k];
      var list := Publications(input, draws)[k + 1];
      && list == [ProgressEntry(CheckedMessage(k, n))] + Reverse(done)
      && Render(list) == Stack(AllCards(Reverse(done)))
      && |Render(list).cards| == k
  {
    var tokens := Tokenize(input);
    var all := CheckAll(tokens, draws);
    var done := all[..k];
    ProgressPublished(input, draws, k);
    ResultsCarryNumbers(tokens, draws);
    assert forall i :: 0 <= i < |done| ==> HasPhone(done[i]);
    ProgressListShowsResults(done, |tokens|);
  }

  /** The list published after the k-th number is the progress list over the first k results. */
  lemma ProgressPublished(input: string, draws: nat -> Draw, k: nat)
    requires 1 <= k <= |Tokenize(input)| <= MaxNumbersBulkCheck
    ensures var tokens := Tokenize(input);
      Publications(input, draws)[k + 1] == ProgressList(CheckAll(tokens, draws)[..k], |tokens|)
  {
    var tokens := Tokenize(input);
    var n := |tokens|;
    var all := CheckAll(tokens, draws);
    ProgressListsAt(all, n, n, k);
    PublicationsAccepted(input, draws);
    IndexMiddle([], [ProgressEntry(CheckingMessage(n))], ProgressLists(all, n, n), Reverse(all), k);
  }

  /** Entry k+1 of a history with two lists before the block `p` is entry k-1 of `p`. */
  lemma IndexMiddle<T>(x: T, y: T, p: seq<T>, z: T, k: nat)
    requires 1 <= k <= |p|
    ensures ([x, y] + p + [z])[k + 1] == p[k - 1]
  {
  }

  /** Every result of a run over non-empty tokens carries its token as a (truthy) number. */
  lemma ResultsCarryNumbers(tokens: seq<string>, draws: nat -> Draw)
    requires forall k :: 0 <= k < |tokens| ==> tokens[k] != []
    ensures forall i :: 0 <= i < |tokens| ==> HasPhone(CheckAll(tokens, draws)[i])
  {
  }

  /**
   * A progress list over results that all carry a number renders as exactly those results,
   * newest first, one card each: the progress entry is hidden, and no banner appears.
   */
  lemma ProgressListShowsResults(done: seq<ResultState>, n: nat)
    requires done != []
    requires forall i :: 0 <= i < |done| ==> HasPhone(done[i])
    ensures Render(ProgressList(done, n)) == Stack(AllCards(Reverse(done)))
  {
    var p, rev := ProgressEntry(CheckedMessage(|done|, n)), Reverse(done);
    ReverseKeepsNumbers(done);
    PlaceholderSuppressed(p, rev);
  }

  /** Reversing a list of results that all carry a number keeps that so. */
  lemma ReverseKeepsNumbers(rs: seq<ResultState>)
    requires forall i :: 0 <= i < |rs| ==> HasPhone(rs[i])
    ensures forall j :: 0 <= j < |Reverse(rs)| ==> HasPhone(Reverse(rs)[j])
  {
    var rev := Reverse(rs);
    forall j | 0 <= j < |rev|
      ensures HasPhone(rev[j])
    {
      assert rev[j] == rs[|rs| - 1 - j];
    }
  }

  /** Before the first number is checked, the display shows the lone "Checking N" banner. */
  lemma CheckingBannerShown(input: string, draws: nat -> Draw)
    requires 0 < |Tokenize(input)| <= MaxNumbersBulkCheck
    ensures Render(Publications(input, draws)[1])
      == Banner("Processing...", CheckingMessage(|Tokenize(input)|))
  {
  }

  /**
   * Three tokens typed as "a, b, c" with b malformed: the final list is c's result, the
   * invalid-format error for b, then a's result, and the three tallies add up to 3.
   */
  lemma ThreeNumberRun(a: string, b: string, c: string, draws: nat -> Draw)
    requires a != [] && b != [] && c != []
    requires SeparatorFree(a) && SeparatorFree(b) && SeparatorFree(c)
    requires Trimmed(a) && Trimmed(b) && Trimmed(c)
    requires !IsValidPhone(b)
    ensures var input := a + ", " + b + ", " + c;
      var o := SubmitOutcome(input, draws);
      && Last(Publications(input, draws))
           == [Classify(c, draws(2)), ResultState(Error, InvalidFormatMessage, Some(b)), Classify(a, draws(0))]
      && o.BulkCheckComplete? && o.processed == 3 && o.found + o.notFound + o.errors == 3
  {
    var input := a + ", " + b + ", " + c;
    CommaSpaceList(a, b, c);
    FinalResultsNewestFirst(input, draws);
    var final := Last(Publications(input, draws));
    assert |final| == 3;
    assert final == [final[0], final[1], final[2]];
  }
}
