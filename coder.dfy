/**
 * Keyed archiving of a meal (Meal.swift, NSCoding). The coder is a map from
 * key to archived value. `Encode` and `Decode` follow `encode(with:)` and
 * `init?(coder:)` as written, and `Archive` and `Unarchive` lift them to the
 * whole collection, as the meal list saves and loads it. `EncodeFixed`,
 * `DecodeFixed`, `ArchiveFixed` and `UnarchiveFixed` are the corrected
 * counterparts, under which saved meals load back.
 */
module MealCoding {
  import opened Wrappers
  import opened Meals

  /** An archived value: a string, an integer, an image, or an archived nil. */
  datatype Value = Str(s: string) | Int(n: int) | Picture(image: Image) | Null

  type Coder = map<string, Value>

  /** The property keys of Meal.PropertyKey. */
  const FoodOrderedKey := "food ordered"
  const RestaurantNameKey := "Restaurant Name"
  const LocationKey := "location"
  const HoursKey := "hours"
  const FoodieReviewKey := "foodie review"
  const PhotoKey := "photo"
  const RatingKey := "rating"

  /**
   * The result of a decoding initializer: a value, a nil return, or a
   * trap (a failed `as!` force cast or a mistyped integer).
   */
  datatype Outcome<+T> = Built(value: T) | Failed | Trapped

  /** Encoding an optional object: nil is archived as nil. */
  function OptionalString(s: Option<string>): Value {
    if s.Some? then Str(s.value) else Null
  }

  function OptionalImage(p: Option<Image>): Value {
    if p.Some? then Picture(p.value) else Null
  }

  /** `decodeObject(forKey:) as? String`. */
  function StringAt(c: Coder, key: string): (r: Option<string>)
    ensures r.Some? <==> key in c && c[key].Str?
    ensures r.Some? ==> c[key] == Str(r.value)
  {
    if key in c && c[key].Str? then Some(c[key].s) else None
  }

  /** `decodeObject(forKey:) as? UIImage`. */
  function ImageAt(c: Coder, key: string): (r: Option<Image>)
    ensures r.Some? <==> key in c && c[key].Picture?
    ensures r.Some? ==> c[key] == Picture(r.value)
  {
    if key in c && c[key].Picture? then Some(c[key].image) else None
  }

  /**
   * `decodeObject(forKey:) as! String`: a missing key, an archived nil or
   * an object of another type traps.
   */
  function ForcedStringAt(c: Coder, key: string): (r: Outcome<string>)
    ensures !r.Failed?
    ensures r.Built? <==> key in c && c[key].Str?
    ensures r.Built? ==> c[key] == Str(r.value)
  {
    if key in c && c[key].Str? then Built(c[key].s) else Trapped
  }

  /**
   * `decodeInteger(forKey:)`: 0 for a missing key, the stored integer,
   * or a trap when the key holds something else.
   */
  function IntegerAt(c: Coder, key: string): (r: Outcome<int>)
    ensures !r.Failed?
    ensures key !in c ==> r == Built(0)
    ensures key in c ==> (r.Built? <==> c[key].Int?)
    ensures key in c && r.Built? ==> c[key] == Int(r.value)
  {
    if key !in c then Built(0)
    else if c[key].Int? then Built(c[key].n)
    else Trapped
  }

  /** `encode(with:)` as written: six keys, and no entry for the review. */
  function Encode(m: Meal): (c: Coder)
    ensures c.Keys == {FoodOrderedKey, RestaurantNameKey, LocationKey, HoursKey, PhotoKey, RatingKey}
    ensures FoodieReviewKey !in c
    ensures StringAt(c, FoodOrderedKey) == Some(m.foodOrdered)
    ensures ForcedStringAt(c, RestaurantNameKey) == Built(m.restaurantName)
    ensures ForcedStringAt(c, LocationKey) == Built(m.location)
    ensures StringAt(c, HoursKey) == m.hours
    ensures ImageAt(c, PhotoKey) == m.photo
    ensures IntegerAt(c, RatingKey) == Built(m.rating)
  {
    map[FoodOrderedKey := Str(m.foodOrdered),
        RestaurantNameKey := Str(m.restaurantName),
        LocationKey := Str(m.location),
        HoursKey := OptionalString(m.hours),
        PhotoKey := OptionalImage(m.photo),
        RatingKey := Int(m.rating)]
  }

  /** The three guards of `init?(coder:)`: food name, hours and review are archived strings. */
  predicate HasGuardedStrings(c: Coder) {
    && StringAt(c, FoodOrderedKey).Some?
    && StringAt(c, HoursKey).Some?
    && StringAt(c, FoodieReviewKey).Some?
  }

  /** The force casts and the integer read of `init?(coder:)` all succeed. */
  predicate CastsSucceed(c: Coder) {
    && ForcedStringAt(c, RestaurantNameKey).Built?
    && ForcedStringAt(c, LocationKey).Built?
    && IntegerAt(c, RatingKey).Built?
  }

  /**
   * `init?(coder:)` as written: the food name, the hours and the review must
   * all be archived strings (else nil); the restaurant name and location are
   * force-cast; the result goes through the validating initializer.
   */
  function Decode(c: Coder): (r: Outcome<Meal>)
    ensures !HasGuardedStrings(c) ==> r == Failed
    ensures r.Trapped? <==> HasGuardedStrings(c) && !CastsSucceed(c)
    ensures r.Built? <==> && HasGuardedStrings(c) && CastsSucceed(c)
                          && StringAt(c, FoodOrderedKey).value != ""
                          && MinRating <= IntegerAt(c, RatingKey).value <= MaxRating
    ensures r.Built? ==> r.value.Valid()
    ensures r.Built? ==> && Some(r.value.foodOrdered) == StringAt(c, FoodOrderedKey)
                         && r.value.hours == StringAt(c, HoursKey)
                         && r.value.foodieReview == StringAt(c, FoodieReviewKey)
                         && Built(r.value.restaurantName) == ForcedStringAt(c, RestaurantNameKey)
                         && Built(r.value.location) == ForcedStringAt(c, LocationKey)
                         && r.value.photo == ImageAt(c, PhotoKey)
                         && Built(r.value.rating) == IntegerAt(c, RatingKey)
  {
    var foodOrdered := StringAt(c, FoodOrderedKey);
    var hours := StringAt(c, HoursKey);
    var foodieReview := StringAt(c, FoodieReviewKey);
    if foodOrdered.None? || hours.None? || foodieReview.None? then Failed
    else
      var restaurantName := ForcedStringAt(c, RestaurantNameKey);
      var location := ForcedStringAt(c, LocationKey);
      var rating := IntegerAt(c, RatingKey);
      if !restaurantName.Built? || !location.Built? || !rating.Built? then Trapped
      else
        var meal := MakeMeal(restaurantName.value, location.value, hours, foodieReview,
                             foodOrdered.value, ImageAt(c, PhotoKey), rating.value);
        if meal.Some? then Built(meal.value) else Failed
  }

  /** Decoding what `encode(with:)` wrote never yields a meal: the review key is missing. */
  lemma EncodedMealNeverDecodes(m: Meal)
    ensures Decode(Encode(m)) == Failed
  {
    assert StringAt(Encode(m), FoodieReviewKey) == None;
  }

  /** An encoded meal without hours fails on the hours key before the review is read. */
  lemma EncodedMealWithoutHoursFailsOnHours(m: Meal)
    requires m.hours.None?
    ensures StringAt(Encode(m), HoursKey).None? && Decode(Encode(m)) == Failed
  {
  }

  /** The corrected encoder: every property, optional ones archived as nil when absent. */
  function EncodeFixed(m: Meal): (c: Coder)
    ensures c.Keys == {FoodOrderedKey, RestaurantNameKey, LocationKey, HoursKey,
                       FoodieReviewKey, PhotoKey, RatingKey}
    ensures forall k :: k in Encode(m) ==> c[k] == Encode(m)[k]
    ensures OptionalStringAt(c, FoodieReviewKey) == Built(m.foodieReview)
    ensures OptionalStringAt(c, HoursKey) == Built(m.hours)
  {
    Encode(m)[FoodieReviewKey := OptionalString(m.foodieReview)]
  }

  /**
   * `decodeObject(forKey:) as? String` kept optional: nil for a missing key
   * or an archived nil, and a failure for an object of another type.
   */
  function OptionalStringAt(c: Coder, key: string): (r: Outcome<Option<string>>)
    ensures !r.Trapped?
    ensures r == Built(None) <==> key !in c || c[key] == Null
    ensures forall s :: r == Built(Some(s)) <==> key in c && c[key] == Str(s)
  {
    if key !in c || c[key] == Null then Built(None)
    else if c[key].Str? then Built(Some(c[key].s))
    else Failed
  }

  /** The corrected guards: a food-name string, and hours and review absent, nil or strings. */
  predicate HasReadableFields(c: Coder) {
    && StringAt(c, FoodOrderedKey).Some?
    && OptionalStringAt(c, HoursKey).Built?
    && OptionalStringAt(c, FoodieReviewKey).Built?
  }

  /** The corrected decoder: hours and review are optional, as in the record. */
  function DecodeFixed(c: Coder): (r: Outcome<Meal>)
    ensures !HasReadableFields(c) ==> r == Failed
    ensures r.Trapped? <==> HasReadableFields(c) && !CastsSucceed(c)
    ensures r.Built? <==> && HasReadableFields(c) && CastsSucceed(c)
                          && StringAt(c, FoodOrderedKey).value != ""
                          && MinRating <= IntegerAt(c, RatingKey).value <= MaxRating
    ensures r.Built? ==> r.value.Valid()
    ensures r.Built? ==> && Some(r.value.foodOrdered) == StringAt(c, FoodOrderedKey)
                         && Built(r.value.hours) == OptionalStringAt(c, HoursKey)
                         && Built(r.value.foodieReview) == OptionalStringAt(c, FoodieReviewKey)
                         && Built(r.value.restaurantName) == ForcedStringAt(c, RestaurantNameKey)
                         && Built(r.value.location) == ForcedStringAt(c, LocationKey)
                         && r.value.photo == ImageAt(c, PhotoKey)
                         && Built(r.value.rating) == IntegerAt(c, RatingKey)
  {
    var foodOrdered := StringAt(c, FoodOrderedKey);
    var hours := OptionalStringAt(c, HoursKey);
    var foodieReview := OptionalStringAt(c, FoodieReviewKey);
    if foodOrdered.None? || !hours.Built? || !foodieReview.Built? then Failed
    else
      var restaurantName := ForcedStringAt(c, RestaurantNameKey);
      var location := ForcedStringAt(c, LocationKey);
      var rating := IntegerAt(c, RatingKey);
      if !restaurantName.Built? || !location.Built? || !rating.Built? then Trapped
      else
        var meal := MakeMeal(restaurantName.value, location.value, hours.value,
                             foodieReview.value, foodOrdered.value, ImageAt(c, PhotoKey), rating.value);
        if meal.Some? then Built(meal.value) else Failed
  }

  /** The corrected pair round-trips every valid meal, absent optionals included. */
  lemma RoundTripFixed(m: Meal)
    requires m.Valid()
    ensures DecodeFixed(EncodeFixed(m)) == Built(m)
  {
    var c := EncodeFixed(m);
    assert StringAt(c, FoodOrderedKey) == Some(m.foodOrdered);
    assert OptionalStringAt(c, HoursKey) == Built(m.hours);
    assert OptionalStringAt(c, FoodieReviewKey) == Built(m.foodieReview);
    assert ForcedStringAt(c, RestaurantNameKey) == Built(m.restaurantName);
    assert ForcedStringAt(c, LocationKey) == Built(m.location);
    assert ImageAt(c, PhotoKey) == m.photo;
    assert IntegerAt(c, RatingKey) == Built(m.rating);
  }

  /**
   * `archiveRootObject(meals, ...)`: the whole collection, one keyed record
   * per meal written by `encode(with:)`, in order.
   */
  function Archive(meals: seq<Meal>): (a: seq<Coder>)
    ensures |a| == |meals|
    ensures forall i :: 0 <= i < |meals| ==> a[i] == Encode(meals[i])
  {
    seq(|meals|, i requires 0 <= i < |meals| => Encode(meals[i]))
  }

  /** Record k is the first whose decoding does not build a meal. */
  predicate FirstUnbuilt(a: seq<Coder>, k: nat)
    requires k < |a|
  {
    !Decode(a[k]).Built? && forall j :: 0 <= j < k ==> Decode(a[j]).Built?
  }

  /**
   * `unarchiveObject(withFile:) as? [Meal]`: every record must decode through
   * `init?(coder:)`, in order; the first record that fails or traps decides
   * the outcome.
   */
  function Unarchive(a: seq<Coder>): (r: Outcome<seq<Meal>>)
    ensures r.Built? <==> forall i :: 0 <= i < |a| ==> Decode(a[i]).Built?
    ensures r.Built? ==> |r.value| == |a|
    ensures r.Built? ==> forall i :: 0 <= i < |r.value| ==> r.value[i].Valid()
    ensures r.Built? ==> forall i :: 0 <= i < |a| ==> Decode(a[i]) == Built(r.value[i])
  {
    if a == [] then Built([])
    else
      var head := Decode(a[0]);
      if head.Failed? then Failed
      else if head.Trapped? then Trapped
      else
        var rest := Unarchive(a[1..]);
        assert forall i :: 1 <= i < |a| ==> a[i] == a[1..][i - 1];
        if rest.Built? then Built([head.value] + rest.value) else rest
  }

  /**
   * A load that does not build ends as the first record that does not decode:
   * nil when that record's `init?(coder:)` returns nil, a trap when it traps.
   */
  lemma {:induction false} UnarchiveOutcome(a: seq<Coder>)
    ensures Unarchive(a).Failed? <==> exists k :: 0 <= k < |a| && FirstUnbuilt(a, k) && Decode(a[k]).Failed?
    ensures Unarchive(a).Trapped? <==> exists k :: 0 <= k < |a| && FirstUnbuilt(a, k) && Decode(a[k]).Trapped?
  {
    if a != [] {
      if Decode(a[0]).Built? {
        var tail := a[1..];
        UnarchiveOutcome(tail);
        assert !FirstUnbuilt(a, 0);
        forall k | 1 <= k < |a|
          ensures FirstUnbuilt(a, k) <==> FirstUnbuilt(tail, k - 1)
        {
          assert a[k] == tail[k - 1];
          assert forall j :: 1 <= j < k ==> a[j] == tail[j - 1];
        }
        if exists k :: 0 <= k < |tail| && FirstUnbuilt(tail, k) && !Decode(tail[k]).Built? {
          var k :| 0 <= k < |tail| && FirstUnbuilt(tail, k) && !Decode(tail[k]).Built?;
          assert a[k + 1] == tail[k];
          assert FirstUnbuilt(a, k + 1);
        }
      } else {
        assert FirstUnbuilt(a, 0);
        assert forall k :: 0 < k < |a| ==> !FirstUnbuilt(a, k);
      }
    }
  }

  /** A saved non-empty collection never loads back: its first record already fails. */
  lemma ArchivedMealsNeverLoad(meals: seq<Meal>)
    requires |meals| > 0
    ensures Unarchive(Archive(meals)) == Failed
  {
    EncodedMealNeverDecodes(meals[0]);
  }

  /** The corrected collection archiver, one `EncodeFixed` record per meal. */
  function ArchiveFixed(meals: seq<Meal>): (a: seq<Coder>)
    ensures |a| == |meals|
    ensures forall i :: 0 <= i < |meals| ==> a[i] == EncodeFixed(meals[i])
  {
    seq(|meals|, i requires 0 <= i < |meals| => EncodeFixed(meals[i]))
  }

  /** The corrected collection unarchiver, decoding each record with `DecodeFixed`. */
  function UnarchiveFixed(a: seq<Coder>): (r: Outcome<seq<Meal>>)
    ensures r.Built? <==> forall i :: 0 <= i < |a| ==> DecodeFixed(a[i]).Built?
    ensures r.Built? ==> |r.value| == |a|
    ensures r.Built? ==> forall i :: 0 <= i < |r.value| ==> r.value[i].Valid()
    ensures r.Built? ==> forall i :: 0 <= i < |a| ==> DecodeFixed(a[i]) == Built(r.value[i])
  {
    if a == [] then Built([])
    else
      var head := DecodeFixed(a[0]);
      if head.Failed? then Failed
      else if head.Trapped? then Trapped
      else
        var rest := UnarchiveFixed(a[1..]);
        assert forall i :: 1 <= i < |a| ==> a[i] == a[1..][i - 1];
        if rest.Built? then Built([head.value] + rest.value) else rest
  }

  /** With the corrected pair, what is archived unarchives unchanged. */
  lemma {:induction false} ArchiveFixedRoundTrip(meals: seq<Meal>)
    requires forall i :: 0 <= i < |meals| ==> meals[i].Valid()
    ensures UnarchiveFixed(ArchiveFixed(meals)) == Built(meals)
  {
    var a := ArchiveFixed(meals);
    if meals != [] {
      RoundTripFixed(meals[0]);
      assert a[0] == EncodeFixed(meals[0]);
      assert DecodeFixed(a[0]) == Built(meals[0]);
      assert a[1..] == ArchiveFixed(meals[1..]);
      ArchiveFixedRoundTrip(meals[1..]);
      assert UnarchiveFixed(a[1..]) == Built(meals[1..]);
      assert UnarchiveFixed(a) == Built([meals[0]] + meals[1..]);
      assert [meals[0]] + meals[1..] == meals;
    }
  }
}
