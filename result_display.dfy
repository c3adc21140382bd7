/**
 * The result list shown under the phone-number form, and the rules that decide
 * which of its entries are rendered and how (the `ResultDisplay` component).
 * Markup, icons and styling are not modelled; a rendering is the list of alert
 * cards with their title, variant, "For number:" line and message.
 */
module ResultDisplay {

  datatype Option<T> = None | Some(value: T)

  /** The status of one result; `Unset` stands for the `null` status. */
  datatype Status = Found | NotFound | Error | Info | Processing | Unset

  /** One entry of the result list; a placeholder has no phone number. */
  datatype ResultState = ResultState(status: Status, message: string, phoneNumber: Option<string>)

  datatype Variant = Default | Destructive

  /** One rendered alert: its title, its variant, the "For number:" line (when present) and the message. */
  datatype Card = Card(title: string, variant: Variant, forNumber: Option<string>, message: string)

  /** What the component renders: nothing, a lone banner, or a stack of cards in list order. */
  datatype Rendering = Nothing | Banner(title: string, message: string) | Stack(cards: seq<Card>)

  /** The truthiness test on `phoneNumber`: an absent number and the empty string are both "no number". */
  predicate HasPhone(r: ResultState)
  {
    r.phoneNumber.Some? && r.phoneNumber.value != ""
  }

  /** An `info` or `processing` entry without a phone number: a progress or information message. */
  predicate IsPlaceholder(r: ResultState)
  {
    (r.status == Info || r.status == Processing) && !HasPhone(r)
  }

  /** Some entry of the list carries a phone number. */
  predicate AnyPhone(rs: seq<ResultState>)
  {
    exists i :: 0 <= i < |rs| && HasPhone(rs[i])
  }

  /** The general case skips a placeholder entry as soon as the list holds a real result. */
  predicate Hidden(r: ResultState, rs: seq<ResultState>)
  {
    IsPlaceholder(r) && AnyPhone(rs)
  }

  /**
   * `getTitle`: total over every status, `null` included; the "Error" and "Processing..."
   * titles belong to exactly one status each.
   */
  function Title(s: Status): (t: string)
    ensures t != ""
    ensures t == "Error" <==> s == Error
    ensures t == "Processing..." <==> s == Processing
  {
    match s
    case Found => "Account Found"
    case NotFound => "Account Not Found"
    case Error => "Error"
    case Info => "Information"
    case Processing => "Processing..."
    case Unset => "Result"
  }

  /** `getAlertVariant`: an error is shown as a destructive alert, everything else as a default one. */
  function AlertVariant(s: Status): (v: Variant)
    ensures v == Destructive <==> s == Error
    ensures v == Default <==> s != Error
  {
    if s == Error then Destructive else Default
  }

  /** The card of one entry; the "For number:" line appears exactly when the entry has a number. */
  function CardOf(r: ResultState): (c: Card)
    ensures c.forNumber.Some? <==> HasPhone(r)
    ensures c.forNumber.Some? ==> c.forNumber == r.phoneNumber
  {
    Card(Title(r.status), AlertVariant(r.status),
         if HasPhone(r) then r.phoneNumber else None, r.message)
  }

  /** The cards of the general case, in list order; `suppress` is whether placeholders are skipped. */
  function Shown(rs: seq<ResultState>, suppress: bool): (cards: seq<Card>)
    ensures |cards| <= |rs|
    ensures !suppress ==> |cards| == |rs|
  {
    if rs == [] then []
    else (if suppress && IsPlaceholder(rs[0]) then [] else [CardOf(rs[0])]) + Shown(rs[1..], suppress)
  }

  /** The component: nothing for an empty list, a banner for a lone placeholder, cards otherwise. */
  function Render(rs: seq<ResultState>): (r: Rendering)
    ensures r.Nothing? <==> rs == []
    ensures r.Banner? <==> |rs| == 1 && IsPlaceholder(rs[0])
    ensures r.Banner? ==> r.title == Title(rs[0].status) && r.message == rs[0].message
    ensures r.Stack? ==> |r.cards| <= |rs|
  {
    if rs == [] then Nothing
    else if |rs| == 1 && IsPlaceholder(rs[0]) then
      Banner(if rs[0].status == Processing then "Processing..." else "Information", rs[0].message)
    else Stack(Shown(rs, AnyPhone(rs)))
  }

  /** The cards of a list whose entries are all shown, one per entry, in list order. */
  function AllCards(rs: seq<ResultState>): (cards: seq<Card>)
    ensures |cards| == |rs|
    ensures forall i :: 0 <= i < |rs| ==> cards[i] == CardOf(rs[i])
  {
    seq(|rs|, i requires 0 <= i < |rs| => CardOf(rs[i]))
  }

  /** Rendering a concatenation renders each part in turn: the general case keeps list order. */
  lemma {:induction false} ShownAppend(a: seq<ResultState>, b: seq<ResultState>, suppress: bool)
    ensures Shown(a + b, suppress) == Shown(a, suppress) + Shown(b, suppress)
  {
    if a == [] {
      assert a + b == b;
    } else {
      assert (a + b)[0] == a[0];
      assert (a + b)[1..] == a[1..] + b;
      ShownAppend(a[1..], b, suppress);
    }
  }

  /**
   * In the general case, entry i is rendered as its own card, between the cards of the
   * entries before it and those after it, unless it is hidden: a placeholder in a list
   * that holds some real result.
   */
  lemma EntryVisibility(rs: seq<ResultState>, i: nat)
    requires i < |rs|
    requires !(|rs| == 1 && IsPlaceholder(rs[0]))
    ensures Render(rs).Stack?
    ensures Render(rs).cards ==
      Shown(rs[..i], AnyPhone(rs))
      + (if Hidden(rs[i], rs) then [] else [CardOf(rs[i])])
      + Shown(rs[i + 1..], AnyPhone(rs))
  {
    var h := AnyPhone(rs);
    assert Render(rs) == Stack(Shown(rs, h));
    ShownSplitAt(rs, i, h);
    assert Shown([rs[i]], h) == (if Hidden(rs[i], rs) then [] else [CardOf(rs[i])]) by {
      assert [rs[i]][1..] == [];
    }
  }

  lemma ShownSplitAt(rs: seq<ResultState>, i: nat, suppress: bool)
    requires i < |rs|
    ensures Shown(rs, suppress) == Shown(rs[..i], suppress) + Shown([rs[i]], suppress) + Shown(rs[i + 1..], suppress)
  {
    var tail := [rs[i]] + rs[i + 1..];
    assert rs == rs[..i] + tail;
    ShownAppend(rs[..i], tail, suppress);
    ShownAppend([rs[i]], rs[i + 1..], suppress);
  }

  /** A list of real results only is rendered card for card, in list order. */
  lemma {:induction false} RealResultsAllShown(rs: seq<ResultState>, suppress: bool)
    requires forall i :: 0 <= i < |rs| ==> HasPhone(rs[i])
    ensures Shown(rs, suppress) == AllCards(rs)
  {
    if rs != [] {
      RealResultsAllShown(rs[1..], suppress);
    }
  }

  /**
   * A placeholder in front of real results is suppressed: exactly the real results are
   * rendered, in list order, and no banner appears.
   */
  lemma PlaceholderSuppressed(p: ResultState, rs: seq<ResultState>)
    requires IsPlaceholder(p)
    requires rs != []
    requires forall i :: 0 <= i < |rs| ==> HasPhone(rs[i])
    ensures Render([p] + rs) == Stack(AllCards(rs))
  {
    var all := [p] + rs;
    assert HasPhone(all[1]);
    assert AnyPhone(all);
    assert all[1..] == rs;
    RealResultsAllShown(rs, true);
  }

  /** Distinct statuses get distinct titles. */
  lemma TitleInjective(a: Status, b: Status)
    requires Title(a) == Title(b)
    ensures a == b
  {
  }

  /** A card is destructive exactly when its title is "Error". */
  lemma DestructiveIffErrorTitle(r: ResultState)
    ensures CardOf(r).variant == Destructive <==> CardOf(r).title == "Error"
  {
  }
}
