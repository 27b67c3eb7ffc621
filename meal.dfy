/**
 * The meal record (Meal.swift): seven stored properties and a failable
 * initializer that rejects an empty food name and a rating outside [0, 5].
 */
module Meals {
  import opened Wrappers

  /** A UIImage; the model keeps only its identity. */
  datatype Image = Image(id: nat)

  const MinRating: int := 0
  const MaxRating: int := 5

  datatype Meal = Meal(
    restaurantName: string,
    location: string,
    hours: Option<string>,
    foodieReview: Option<string>,
    foodOrdered: string,
    photo: Option<Image>,
    rating: int)
  {
    /** What every record built by the initializer satisfies. */
    predicate Valid() {
      foodOrdered != "" && MinRating <= rating <= MaxRating
    }
  }

  /**
   * `init?(restaurantName:location:hours:foodieReview:foodOrdered:photo:rating:)`:
   * nil unless the food name is non-empty and the rating lies in [0, 5];
   * otherwise every argument is stored unchanged.
   */
  function MakeMeal(restaurantName: string, location: string, hours: Option<string>,
                    foodieReview: Option<string>, foodOrdered: string,
                    photo: Option<Image>, rating: int): (r: Option<Meal>)
    ensures r.None? <==> foodOrdered == "" || rating < MinRating || rating > MaxRating
    ensures r.Some? ==> r.value.Valid()
    ensures r.Some? ==> && r.value.restaurantName == restaurantName
                        && r.value.location == location
                        && r.value.hours == hours
                        && r.value.foodieReview == foodieReview
                        && r.value.foodOrdered == foodOrdered
                        && r.value.photo == photo
                        && r.value.rating == rating
  {
    if foodOrdered == "" then None
    else if !(rating >= MinRating && rating <= MaxRating) then None
    else Some(Meal(restaurantName, location, hours, foodieReview, foodOrdered, photo, rating))
  }

  /** A record is valid exactly when the initializer would rebuild it from its own fields. */
  lemma ValidIffRebuildable(m: Meal)
    ensures m.Valid() <==>
      MakeMeal(m.restaurantName, m.location, m.hours, m.foodieReview,
               m.foodOrdered, m.photo, m.rating) == Some(m)
  {
  }
}
