/**
 * The meal detail/edit screen (MealViewController.swift): text fields, a
 * photo, a rating control and the save button, and the optional meal handed
 * back to the list. Keyboard, image picker and navigation are not modelled.
 */
module MealEditor {
  import opened Wrappers
  import opened Meals
  import opened Rating

  /** The text fields of the form. */
  datatype TextField = FoodField | RestaurantField | LocationField | HoursField

  const DefaultRestaurant := "Restaurant"
  const DefaultLocation := "Some Location"
  const DefaultHours := "Hours"
  const DefaultReview := "My Expert Foodie Opinion"

  /** `updateSaveButtonState`'s rule: save only with a non-empty food name, nil read as "". */
  function SaveAllowed(foodText: Option<string>): (enabled: bool)
    ensures enabled <==> foodText.Some? && |foodText.value| > 0
  {
    var text := foodText.GetOr("");
    !(text == "")
  }

  /**
   * The meal `prepare(for:sender:)` builds from the form: nil fields take
   * their defaults, a nil food name becomes "", and the initializer decides.
   */
  function MealFromForm(foodText: Option<string>, restaurantText: Option<string>,
                        locationText: Option<string>, hoursText: Option<string>,
                        reviewText: Option<string>, photo: Option<Image>, rating: int): (r: Option<Meal>)
    ensures r.None? <==> !SaveAllowed(foodText) || rating < MinRating || rating > MaxRating
    ensures r.Some? ==> && r.value.Valid()
                        && r.value.foodOrdered == foodText.value
                        && r.value.restaurantName == restaurantText.GetOr(DefaultRestaurant)
                        && r.value.location == locationText.GetOr(DefaultLocation)
                        && r.value.hours == Some(hoursText.GetOr(DefaultHours))
                        && r.value.foodieReview == Some(reviewText.GetOr(DefaultReview))
                        && r.value.photo == photo
                        && r.value.rating == rating
  {
    MakeMeal(restaurantText.GetOr(DefaultRestaurant), locationText.GetOr(DefaultLocation),
             Some(hoursText.GetOr(DefaultHours)), Some(reviewText.GetOr(DefaultReview)),
             foodText.GetOr(""), photo, rating)
  }

  /** An empty form (every field nil) yields no meal, whatever the rating. */
  lemma EmptyFormYieldsNoMeal(photo: Option<Image>, rating: int)
    ensures MealFromForm(None, None, None, None, None, photo, rating) == None
  {
  }

  /** A form with all optional fields nil yields a meal carrying all four defaults. */
  lemma DefaultsFillNilFields(food: string, photo: Option<Image>, rating: int)
    requires food != "" && MinRating <= rating <= MaxRating
    ensures MealFromForm(Some(food), None, None, None, None, photo, rating)
         == Some(Meal(DefaultRestaurant, DefaultLocation, Some(DefaultHours), Some(DefaultReview),
                      food, photo, rating))
  {
  }

  /**
   * Saving right after opening a meal for editing, without touching the form:
   * restaurant, location and hours come back as the food name, and the review
   * is whatever the review view held, because `viewDidLoad` fills those
   * fields from `foodOrdered`.
   */
  lemma ReeditOverwritesWithFoodName(m: Meal, reviewText: Option<string>)
    requires m.Valid()
    ensures MealFromForm(Some(m.foodOrdered), Some(m.foodOrdered), Some(m.foodOrdered),
                         Some(m.foodOrdered), reviewText, m.photo, m.rating)
         == Some(m.(restaurantName := m.foodOrdered, location := m.foodOrdered,
                    hours := Some(m.foodOrdered), foodieReview := Some(reviewText.GetOr(DefaultReview))))
  {
  }

  class MealViewController {
    var foodText: Option<string>
    var restaurantText: Option<string>
    var locationText: Option<string>
    var hoursText: Option<string>
    var reviewText: Option<string>
    var photo: Option<Image>
    var ratingControl: RatingControl
    var meal: Option<Meal>
    var saveEnabled: bool
    var title: Option<string>

    /** The rating control is set up, and any meal held passed validation. */
    ghost predicate Valid()
      reads this, ratingControl
    {
      ratingControl.Valid() && (meal.Some? ==> meal.value.Valid())
    }

    /**
     * The controller as the storyboard creates it (empty fields, a fresh
     * rating control), holding the meal the list passed in, if any.
     */
    constructor (meal: Option<Meal>)
      requires meal.Some? ==> meal.value.Valid()
      ensures Valid() && fresh(ratingControl)
      ensures this.meal == meal
      ensures foodText == restaurantText == locationText == hoursText == reviewText == Some("")
      ensures photo.None? && title.None?
    {
      foodText, restaurantText, locationText, hoursText, reviewText := Some(""), Some(""), Some(""), Some(""), Some("");
      photo := None;
      this.meal := meal;
      saveEnabled := true;
      title := None;
      ratingControl := new RatingControl();
    }

    /** The text of a field. */
    function Text(f: TextField): Option<string>
      reads this
    {
      match f
      case FoodField => foodText
      case RestaurantField => restaurantText
      case LocationField => locationText
      case HoursField => hoursText
    }

    /**
     * `viewDidLoad`: when editing a meal, the title and the food, restaurant,
     * location and hours fields all get its food name, the photo and rating
     * are copied and the review view is left alone; then the save rule runs.
     */
    method ViewDidLoad()
      modifies this, ratingControl
      requires Valid()
      ensures Valid()
      ensures ratingControl == old(ratingControl) && meal == old(meal)
      ensures ratingControl.starCount == old(ratingControl.starCount)
      ensures meal.Some? ==> && title == Some(meal.value.foodOrdered)
                             && foodText == Some(meal.value.foodOrdered)
                             && restaurantText == Some(meal.value.foodOrdered)
                             && locationText == Some(meal.value.foodOrdered)
                             && hoursText == Some(meal.value.foodOrdered)
                             && photo == meal.value.photo
                             && ratingControl.rating == meal.value.rating
      ensures meal.None? ==> && title == old(title) && foodText == old(foodText)
                             && restaurantText == old(restaurantText)
                             && locationText == old(locationText)
                             && hoursText == old(hoursText) && photo == old(photo)
                             && ratingControl.rating == old(ratingControl.rating)
      ensures reviewText == old(reviewText)
      ensures saveEnabled == SaveAllowed(foodText)
      ensures meal.Some? ==> saveEnabled
    {
      if meal.Some? {
        var m := meal.value;
        title := Some(m.foodOrdered);
        foodText := Some(m.foodOrdered);
        restaurantText := Some(m.foodOrdered);
        locationText := Some(m.foodOrdered);
        hoursText := Some(m.foodOrdered);
        photo := m.photo;
        ratingControl.SetRating(m.rating);
        foodText := Some(m.foodOrdered);
      }
      UpdateSaveButtonState();
    }

    /** `textFieldDidBeginEditing`: saving is off while a field is edited. */
    method TextFieldDidBeginEditing(f: TextField)
      modifies this`saveEnabled
      ensures !saveEnabled
    {
      saveEnabled := false;
    }

    /** `textFieldDidEndEditing`: re-apply the save rule; the title becomes the field's text. */
    method TextFieldDidEndEditing(f: TextField)
      modifies this`saveEnabled, this`title
      ensures saveEnabled == SaveAllowed(foodText)
      ensures title == Text(f)
    {
      UpdateSaveButtonState();
      title := Text(f);
    }

    /** `updateSaveButtonState`. */
    method UpdateSaveButtonState()
      modifies this`saveEnabled
      ensures saveEnabled == SaveAllowed(foodText)
    {
      var text := foodText.GetOr("");
      saveEnabled := !(text == "");
    }

    /**
     * `prepare(for:sender:)`: only the save button builds a meal from the
     * form; any other sender leaves `meal` as it was.
     */
    method Prepare(fromSaveButton: bool)
      modifies this`meal
      requires Valid()
      ensures Valid()
      ensures !fromSaveButton ==> meal == old(meal)
      ensures fromSaveButton ==>
        meal == MealFromForm(foodText, restaurantText, locationText, hoursText,
                             reviewText, photo, ratingControl.rating)
      ensures fromSaveButton ==>
        (meal.None? <==> !SaveAllowed(foodText) || ratingControl.rating < MinRating
                                                || ratingControl.rating > MaxRating)
    {
      if !fromSaveButton {
        return;
      }
      var food := foodText.GetOr("");
      var rating := ratingControl.rating;
      meal := MakeMeal(restaurantText.GetOr(DefaultRestaurant), locationText.GetOr(DefaultLocation),
                       Some(hoursText.GetOr(DefaultHours)), Some(reviewText.GetOr(DefaultReview)),
                       food, photo, rating);
    }
  }
}
