/**
 * The star-rating control (RatingControl.swift): an integer rating and a row
 * of `starCount` buttons whose selected flag and accessibility strings are
 * derived from the rating every time it changes. Buttons are value records
 * identified by their position in `ratingButtons`.
 */
module Rating {
  import opened Wrappers

  /** The observable state of one UIButton of the control. */
  datatype Button = Button(accessibilityLabel: string, accessibilityHint: Option<string>,
                           accessibilityValue: Option<string>, isSelected: bool)

  const DefaultStarCount: nat := 5
  const ResetHint := "Tap to reset the rating to zero."

  function DigitChar(d: nat): char
    requires d < 10
  {
    "0123456789"[d]
  }

  function DigitValue(c: char): nat {
    if '0' <= c <= '9' then (c - '0') as nat else 0
  }

  /** Swift's string interpolation of a non-negative Int. */
  function NatToString(n: nat): (s: string)
    ensures |s| >= 1
    ensures forall i :: 0 <= i < |s| ==> '0' <= s[i] <= '9'
    ensures |s| > 1 ==> s[0] != '0'
    decreases n
  {
    if n < 10 then [DigitChar(n)] else NatToString(n / 10) + [DigitChar(n % 10)]
  }

  /** Reading decimal digits back, to show interpolation loses nothing. */
  function ParseDecimal(s: string): nat {
    if s == [] then 0 else 10 * ParseDecimal(s[..|s| - 1]) + DigitValue(s[|s| - 1])
  }

  lemma {:induction false} NatToStringRoundTrip(n: nat)
    ensures ParseDecimal(NatToString(n)) == n
    decreases n
  {
    var s := NatToString(n);
    if n >= 10 {
      NatToStringRoundTrip(n / 10);
      assert s[..|s| - 1] == NatToString(n / 10);
    }
  }

  /** Swift's string interpolation of an Int. */
  function IntToString(n: int): (s: string)
    ensures n < 0 ==> |s| >= 2 && s[0] == '-' && s[1..] == NatToString(-n)
    ensures n >= 0 ==> s == NatToString(n)
    ensures forall i :: (if n < 0 then 1 else 0) <= i < |s| ==> '0' <= s[i] <= '9'
  {
    if n < 0 then "-" + NatToString(-n) else NatToString(n)
  }

  /** The digits between a fixed prefix and suffix read back as the number. */
  lemma DigitsBetween(prefix: string, n: nat, suffix: string)
    ensures var s := prefix + NatToString(n) + suffix;
            ParseDecimal(s[|prefix|..|s| - |suffix|]) == n
  {
    var s := prefix + NatToString(n) + suffix;
    assert s[|prefix|..|s| - |suffix|] == NatToString(n);
    NatToStringRoundTrip(n);
  }

  /** The accessibility label given to the button at `index` when it is created. */
  function Label(index: nat): (s: string)
    ensures |s| > 16 && s[..4] == "Set " && s[|s| - 12..] == " star rating"
    ensures s[4..|s| - 12] == NatToString(index + 1)
    ensures ParseDecimal(s[4..|s| - 12]) == index + 1
  {
    DigitsBetween("Set ", index + 1, " star rating");
    "Set " + NatToString(index + 1) + " star rating"
  }

  /** A freshly created button: labelled, no hint or value, not selected. */
  function NewButton(index: nat): (b: Button)
    ensures b.accessibilityLabel == Label(index)
    ensures b.accessibilityHint.None? && b.accessibilityValue.None? && !b.isSelected
  {
    Button(Label(index), None, None, false)
  }

  /** The hint of the button at `index`: only the star that sets the current rating has one. */
  function HintFor(index: nat, rating: int): (h: Option<string>)
    ensures h.Some? <==> index == rating - 1
    ensures h.Some? ==> h.value == ResetHint
  {
    if rating == index + 1 then Some(ResetHint) else None
  }

  lemma StarsValueNamesRating(rating: int)
    ensures rating >= 2 ==> ParseDecimal(NatToString(rating)) == rating
    ensures rating >= 2 ==> var v := IntToString(rating) + " stars set."; v[..|v| - 11] == NatToString(rating)
  {
    if rating >= 2 {
      NatToStringRoundTrip(rating);
    }
  }

  /** The accessibility value shared by every button. */
  function ValueFor(rating: int): (v: string)
    ensures rating >= 2 ==> |v| > 11 && v[|v| - 11..] == " stars set."
    ensures rating >= 2 ==> v[..|v| - 11] == NatToString(rating)
    ensures rating >= 2 ==> ParseDecimal(v[..|v| - 11]) == rating
  {
    if rating == 0 then "No rating set."
    else if rating == 1 then "1 star set."
    else
      StarsValueNamesRating(rating);
      IntToString(rating) + " stars set."
  }

  /** The state of the button at `index` once the control shows `rating`. */
  function ButtonFor(index: nat, rating: int): (b: Button)
    ensures b.accessibilityLabel == NewButton(index).accessibilityLabel
    ensures b.isSelected <==> index < rating
    ensures b.accessibilityHint.Some? <==> index == rating - 1
    ensures b.accessibilityValue == Some(ValueFor(rating))
  {
    Button(Label(index), HintFor(index, rating), Some(ValueFor(rating)), index < rating)
  }

  /** The rating after tapping the button at `index`: a toggle on that star. */
  function TappedRating(rating: int, index: nat): (r: int)
    ensures r == 0 <==> rating == index + 1
    ensures r != 0 ==> r == index + 1
  {
    if index + 1 == rating then 0 else index + 1
  }

  class RatingControl {
    var ratingButtons: seq<Button>
    var rating: int
    var starCount: nat

    /** Every button exists and shows the current rating. */
    ghost predicate Valid()
      reads this
    {
      && |ratingButtons| == starCount
      && forall i :: 0 <= i < |ratingButtons| ==> ratingButtons[i] == ButtonFor(i, rating)
    }

    /** `init(frame:)` / `init(coder:)`: five stars, rating 0, buttons set up. */
    constructor ()
      ensures Valid()
      ensures rating == 0 && starCount == DefaultStarCount
    {
      ratingButtons := [];
      rating := 0;
      starCount := DefaultStarCount;
      new;
      SetupButtons();
    }

    /** Assigning `rating`: its `didSet` refreshes every button. */
    method SetRating(r: int)
      modifies this
      requires Valid()
      ensures Valid()
      ensures rating == r && starCount == old(starCount)
    {
      rating := r;
      UpdateButtonSelectionStates();
    }

    /** Assigning `starCount`: its `didSet` rebuilds the buttons. */
    method SetStarCount(n: nat)
      modifies this
      ensures Valid()
      ensures starCount == n && rating == old(rating)
    {
      starCount := n;
      SetupButtons();
    }

    /** `setupButtons`: clear the old buttons, create `starCount` new ones, then refresh them. */
    method SetupButtons()
      modifies this`ratingButtons
      ensures Valid()
    {
      ratingButtons := [];
      var index := 0;
      while index < starCount
        invariant 0 <= index <= starCount
        invariant |ratingButtons| == index
        invariant forall i :: 0 <= i < index ==> ratingButtons[i] == NewButton(i)
      {
        ratingButtons := ratingButtons + [NewButton(index)];
        index := index + 1;
      }
      UpdateButtonSelectionStates();
    }

    /**
     * `ratingButtonTapped(button:)` for the button at `index`; a button not in
     * `ratingButtons` is a fatal error, hence the precondition.
     */
    method RatingButtonTapped(index: nat)
      modifies this
      requires Valid()
      requires index < |ratingButtons|
      ensures Valid()
      ensures rating == TappedRating(old(rating), index)
      ensures starCount == old(starCount)
    {
      var selectedRating := index + 1;
      if selectedRating == rating {
        SetRating(0);
      } else {
        SetRating(selectedRating);
      }
    }

    /** `updateButtonSelectionStates`: set hint, value and selection of each button from `rating`. */
    method UpdateButtonSelectionStates()
      modifies this`ratingButtons
      ensures |ratingButtons| == |old(ratingButtons)|
      ensures forall i :: 0 <= i < |ratingButtons| ==>
        ratingButtons[i] == old(ratingButtons[i]).(accessibilityHint := HintFor(i, rating),
                                                   accessibilityValue := Some(ValueFor(rating)),
                                                   isSelected := i < rating)
    {
      var index := 0;
      while index < |ratingButtons|
        invariant 0 <= index <= |ratingButtons| == |old(ratingButtons)|
        invariant forall i :: 0 <= i < index ==>
          ratingButtons[i] == old(ratingButtons[i]).(accessibilityHint := HintFor(i, rating),
                                                     accessibilityValue := Some(ValueFor(rating)),
                                                     isSelected := i < rating)
        invariant forall i :: index <= i < |ratingButtons| ==> ratingButtons[i] == old(ratingButtons[i])
      {
        var hintString := HintFor(index, rating);
        var valueString := ValueFor(rating);
        ratingButtons := ratingButtons[index := ratingButtons[index].(accessibilityHint := hintString,
                                                                      accessibilityValue := Some(valueString),
                                                                      isSelected := index < rating)];
        index := index + 1;
      }
    }
  }

  /** Tapping a star keeps the rating within [0, starCount]. */
  lemma TapKeepsRange(rating: int, index: nat, starCount: nat)
    requires 0 <= rating <= starCount
    requires index < starCount
    ensures 0 <= TappedRating(rating, index) <= starCount
  {
  }

  /** Tapping the same star twice, from a rating other than that star's, resets to 0. */
  lemma TapTwiceResets(rating: int, index: nat)
    requires rating != index + 1
    ensures TappedRating(rating, index) == index + 1
    ensures TappedRating(TappedRating(rating, index), index) == 0
  {
  }

  /** How many buttons are selected. */
  function SelectedCount(bs: seq<Button>): nat {
    if bs == [] then 0
    else SelectedCount(bs[..|bs| - 1]) + (if bs[|bs| - 1].isSelected then 1 else 0)
  }

  /** How many buttons carry a hint. */
  function HintedCount(bs: seq<Button>): nat {
    if bs == [] then 0
    else HintedCount(bs[..|bs| - 1]) + (if bs[|bs| - 1].accessibilityHint.Some? then 1 else 0)
  }

  /** With button i selected iff i < rating, exactly min(rating, count) buttons are selected. */
  lemma {:induction false} SelectedCountIsRating(bs: seq<Button>, rating: int)
    requires rating >= 0
    requires forall i :: 0 <= i < |bs| ==> bs[i] == ButtonFor(i, rating)
    ensures SelectedCount(bs) == if rating < |bs| then rating else |bs|
  {
    if bs != [] {
      var front := bs[..|bs| - 1];
      assert forall i :: 0 <= i < |front| ==> front[i] == bs[i];
      SelectedCountIsRating(front, rating);
    }
  }

  /** Only the button at index rating - 1 carries the reset hint; all others have none. */
  lemma {:induction false} OneHintAtMost(bs: seq<Button>, rating: int)
    requires forall i :: 0 <= i < |bs| ==> bs[i] == ButtonFor(i, rating)
    ensures forall i :: 0 <= i < |bs| ==> (bs[i].accessibilityHint == Some(ResetHint) <==> i == rating - 1)
    ensures forall i :: 0 <= i < |bs| ==> (bs[i].accessibilityHint.None? <==> i != rating - 1)
    ensures HintedCount(bs) == if 1 <= rating <= |bs| then 1 else 0
  {
    if bs != [] {
      var front := bs[..|bs| - 1];
      assert forall i :: 0 <= i < |front| ==> front[i] == bs[i];
      OneHintAtMost(front, rating);
    }
  }

  /** The value strings of the control: the two special cases, then "N stars set.". */
  lemma ValueStrings()
    ensures ValueFor(0) == "No rating set."
    ensures ValueFor(1) == "1 star set."
    ensures forall r :: r >= 2 ==> ValueFor(r) == NatToString(r) + " stars set."
  {
  }
}
