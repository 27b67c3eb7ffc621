# FoodTracker meal journal — a Dafny model

This project models the logic under the UIKit code of a small iPhone meal
journal (FoodTracker). It has four parts:

- **Meal record** (`meal.dfy`, module `Meals`). A value with seven fields. A
  failable initializer rejects an empty `foodOrdered` and a rating outside
  [0, 5].
- **Keyed archiving** (`coder.dfy`, module `MealCoding`). The `NSCoder` is a
  map from property key to archived value. `Encode`/`Decode` follow
  `encode(with:)` and `init?(coder:)` exactly as written. `Archive`/`Unarchive`
  lift them to the whole collection, as the list's file is written and read
  in one piece. `EncodeFixed`/`DecodeFixed` and `ArchiveFixed`/`UnarchiveFixed`
  are the corrected counterparts (see Findings).
- **Rating control** (`rating_control.dfy`, module `Rating`). A class with a
  mutable `rating`, a `starCount` and a `ratingButtons` sequence. Each button
  is a record of accessibility label, hint, value and selected flag. Setting
  the rating refreshes every button in a loop. `setupButtons` clears the
  buttons and rebuilds them in a loop. Tapping star k toggles between k and 0.
- **Meal list** (`meal_table.dfy`, module `MealTable`). A class whose `meals`
  sequence is changed in place by delete, move, update-at-index and append.
  Its `file` field is the archive file, written and read through the coder
  as written. At start it appends the saved meals, or three sample meals if
  the file does not load. Delete and unwind save; move does not. Because the
  coder as written never decodes what it encodes, a saved non-empty list
  never loads again. In this model, where a record that decodes to nil fails
  the whole load, the next launch shows the samples.
- **Edit form** (`meal_editor.dfy`, module `MealEditor`). A class holding the
  text fields, photo, a `RatingControl`, the save-button flag, the title and
  the optional meal. It covers the save-button rule, building a meal from the
  fields with defaults for nil, and filling the fields when an existing meal
  is edited.

Fatal errors in the source are preconditions here. These are:
- a tapped button that is not in `ratingButtons`;
- a negative `starCount`, which traps in the range `0..<starCount`
  (RatingControl.swift:41, 78); `starCount` is a `nat` here;
- an unknown segue identifier;
- a row index out of range;
- a trap while unarchiving.

The source's failable initializers return `Option` (or `Outcome`, which
separates a nil return, `Failed`, from a crash, `Trapped`).

Where the code departs from what the app's design evidently intends, the model follows the code:
- When an existing meal is opened for editing, the restaurant, location and
  hours fields are all filled with `foodOrdered`
  (MealViewController.swift:40-46). The review view is not filled.
  `MealEditor.ReeditOverwritesWithFoodName` proves what that does to a meal
  saved without changes.
- Moving a row does not save.
- A failed construction is nil, not a typed validation error.
- Archiving as written cannot round-trip (see Findings). The list saves and
  loads through it anyway, as the source does; the corrected pair is proved
  to round-trip on its own.

## Model

| member | source | states |
|---|---|---|
| `Meals.MakeMeal` | Meal.swift:41-60 | nil exactly when the food name is empty or the rating is outside [0, 5]; otherwise every field equals its argument, untrimmed, and the record is valid |
| `Meals.ValidIffRebuildable` | Meal.swift:41-60 | a record satisfies the invariants exactly when the initializer rebuilds it unchanged from its own fields |
| `MealCoding.StringAt` | Meal.swift:78-89 | `decodeObject as? String` yields a string exactly when the key holds an archived string |
| `MealCoding.ImageAt` | Meal.swift:93 | `as? UIImage` yields the image exactly when the key holds one, nil otherwise |
| `MealCoding.ForcedStringAt` | Meal.swift:90-98 | `as! String` never returns nil: it yields the string or traps on a missing, nil or non-string value |
| `MealCoding.IntegerAt` | Meal.swift:95 | `decodeInteger` gives 0 for a missing key, the stored integer, and traps on a value of another type |
| `MealCoding.Encode` | Meal.swift:64-71 | writes exactly the keys food ordered, Restaurant Name, location, hours, photo and rating, never foodie review; each of the six reads back as the meal's field |
| `MealCoding.Decode` | Meal.swift:75-99 | nil if food ordered, hours or foodie review is not an archived string; traps exactly when those are present and a force cast or the integer read fails; builds a meal exactly when all reads succeed, the name is non-empty and the rating is in [0, 5]; that meal carries the archived fields |
| `MealCoding.EncodedMealNeverDecodes` | Meal.swift:64-89 | for every meal, decoding what `encode(with:)` wrote fails |
| `MealCoding.EncodedMealWithoutHoursFailsOnHours` | Meal.swift:68-85 | a meal with nil hours already fails at the hours key |
| `MealCoding.EncodeFixed` | Meal.swift:64-71 | the corrected encoder keeps the six entries of `Encode` and adds the review, so hours and review read back as the meal's |
| `MealCoding.OptionalStringAt` | Meal.swift:82-89 | the corrected optional read: nil for a missing key or archived nil, the string for an archived string |
| `MealCoding.DecodeFixed` | Meal.swift:75-99 | the corrected decoder reads hours and review as optional; it traps exactly on a failed force cast or integer, builds a meal exactly when all reads succeed and validation passes, and that meal carries the archived fields |
| `MealCoding.RoundTripFixed` | Meal.swift:64-99 | the corrected pair gives back every valid meal, absent hours, review and photo included |
| `MealCoding.Archive` | MealTableViewController.swift:178-179 | one record per meal, in order, each written by `encode(with:)` |
| `MealCoding.Unarchive` | MealTableViewController.swift:187-189 | loads exactly when every record decodes through `init?(coder:)`; then one valid meal per record, each the record's decoding |
| `MealCoding.UnarchiveOutcome` | MealTableViewController.swift:187-189 | a load that does not build is nil exactly when the first record that does not decode returns nil, and a trap exactly when that record traps |
| `MealCoding.ArchivedMealsNeverLoad` | MealTableViewController.swift:178-189 | unarchiving what was archived fails for every non-empty collection |
| `MealCoding.ArchiveFixed` | MealTableViewController.swift:178-179 | the corrected archiver: one `EncodeFixed` record per meal, in order |
| `MealCoding.UnarchiveFixed` | MealTableViewController.swift:187-189 | the corrected unarchiver: loads exactly when every record decodes with `DecodeFixed`, one valid meal per record |
| `MealCoding.ArchiveFixedRoundTrip` | MealTableViewController.swift:178-189 | with the corrected pair, unarchiving what was archived gives the same collection |
| `Rating.NatToString` | RatingControl.swift:94 | integer interpolation yields one or more decimal digits, with no leading zero |
| `Rating.NatToStringRoundTrip` | RatingControl.swift:94 | reading the interpolated digits back gives the number |
| `Rating.RatingControl.constructor` | RatingControl.swift:49-57 | a new control has five stars, rating 0 and its buttons set up |
| `Rating.RatingControl.SetRating` | RatingControl.swift:26-31 | setting the rating refreshes every button to show it |
| `Rating.RatingControl.SetStarCount` | RatingControl.swift:41-46 | setting the star count rebuilds the buttons for the new count, keeping the rating |
| `Rating.RatingControl.SetupButtons` | RatingControl.swift:61-111 | after it, exactly `starCount` buttons exist, button i labelled "Set (i+1) star rating", each showing the rating |
| `Rating.RatingControl.RatingButtonTapped` | RatingControl.swift:115-131 | tapping button i sets the rating to 0 if it was i+1, to i+1 otherwise; buttons stay consistent |
| `Rating.RatingControl.UpdateButtonSelectionStates` | RatingControl.swift:133-162 | each button keeps its label and gets the hint, value and selected flag derived from the rating |
| `Rating.TapKeepsRange` | RatingControl.swift:121-130 | a tap keeps the rating within [0, starCount] |
| `Rating.TapTwiceResets` | RatingControl.swift:123-130 | tapping a star twice, from another rating, ends at 0 |
| `Rating.SelectedCountIsRating` | RatingControl.swift:158-160 | with the buttons showing a rating r >= 0, exactly min(r, starCount) are selected |
| `Rating.OneHintAtMost` | RatingControl.swift:136-141 | only the button at index rating-1 has the reset hint, all others have none, so at most one hint exists |
| `Rating.ValueStrings` | RatingControl.swift:144-152 | the value reads "No rating set." for 0, "1 star set." for 1 and "N stars set." from 2 up |
| `Rating.IntToString` | RatingControl.swift:151 | interpolating a rating gives its decimal digits, preceded by '-' when it is negative |
| `Rating.Label` | RatingControl.swift:94 | button i's label is "Set ", then the decimal digits of i+1, which read back as i+1, then " star rating" |
| `Rating.NewButton` | RatingControl.swift:79-94 | a new button has its label and UIButton's defaults: no hint, no value, not selected |
| `Rating.HintFor` | RatingControl.swift:136-141 | a hint exists exactly for index rating-1, and it is the reset hint |
| `Rating.ValueFor` | RatingControl.swift:144-152 | from rating 2 up, the value is the rating's decimal digits, which read back as the rating, followed by " stars set." |
| `Rating.ButtonFor` | RatingControl.swift:155-160 | a refreshed button keeps its label, is selected exactly when index < rating, has a hint exactly at rating-1 and the shared value |
| `Rating.TappedRating` | RatingControl.swift:121-130 | the new rating is 0 exactly when the tapped star was the rating, otherwise that star's number |
| `MealTable.RemoveAt` | MealTableViewController.swift:81 | `remove(at:)` drops exactly that element and shifts the later ones down |
| `MealTable.InsertAt` | MealTableViewController.swift:93 | `insert(_:at:)` places the element at the index and shifts the later ones up |
| `MealTable.Moved` | MealTableViewController.swift:92-93 | a move keeps the length and puts the moved meal at the target |
| `MealTable.MovedIsPermutation` | MealTableViewController.swift:90-94 | a move is a permutation with the moved meal at the target and the others in their original order |
| `MealTable.SampleMeals` | MealTableViewController.swift:155-176 | three sample meals, rated 0, 5 and 5, all valid |
| `MealTable.LoadFrom` | MealTableViewController.swift:187-189 | no file means no saved meals; a file loads exactly when every record decodes, one meal per record, each the record's decoding and valid |
| `MealTable.SavedListNeverReloads` | MealTableViewController.swift:178-189 | a file saved from a non-empty list never loads; one saved from an empty list loads as empty |
| `MealTable.RelaunchAfterSave` | MealTableViewController.swift:18-33 | a relaunch over a file saved from a non-empty list shows exactly the three samples |
| `MealTable.UpdateKeepsOthers` | MealTableViewController.swift:137-139 | replacing a row keeps the length and all other rows |
| `MealTable.DeleteKeepsOthers` | MealTableViewController.swift:79-82 | deleting a row removes exactly that meal, and putting it back at the row restores the list |
| `MealTable.MealTableViewController.constructor` | MealTableViewController.swift:16 | the list starts empty over the existing file |
| `MealTable.MealTableViewController.LoadMeals` | MealTableViewController.swift:187-189 | no file loads nothing; the file loads exactly when every record decodes, one meal per record, each the record's decoding and valid |
| `MealTable.MealTableViewController.SaveMeals` | MealTableViewController.swift:178-185 | the file is overwritten with the whole array; unless it was empty, it will not load |
| `MealTable.MealTableViewController.ViewDidLoad` | MealTableViewController.swift:18-33 | appends the saved meals when the file loads, the three samples otherwise; all meals stay valid |
| `MealTable.MealTableViewController.LoadSampleMeals` | MealTableViewController.swift:155-176 | the samples pass validation, so no fatal branch is taken, and they are appended |
| `MealTable.MealTableViewController.NumberOfRows` | MealTableViewController.swift:46-48 | the row count is the number of meals |
| `MealTable.MealTableViewController.CellForRow` | MealTableViewController.swift:51-69 | cell i shows meal i's food name, photo and rating, a non-empty name and a rating in [0, 5] |
| `MealTable.MealTableViewController.CommitEditing` | MealTableViewController.swift:78-87 | a delete removes exactly that row and saves, after which a non-empty list will not load; any other style changes nothing |
| `MealTable.MealTableViewController.MoveRow` | MealTableViewController.swift:90-94 | remove-then-insert, a permutation with the meal at the target, and no save |
| `MealTable.MealTableViewController.PrepareForSegue` | MealTableViewController.swift:105-131 | "AddItem" passes nothing, "ShowDetail" passes the tapped row's meal; other identifiers are excluded as fatal |
| `MealTable.MealTableViewController.UnwindToMealList` | MealTableViewController.swift:134-151 | nil meal: nothing changes; selected row: only that entry is replaced; no selection: appended at the old count; then saved, in a file that will not load |
| `MealEditor.SaveAllowed` | MealViewController.swift:158-162 | saving is allowed exactly when the food text, nil read as "", is non-empty |
| `MealEditor.MealFromForm` | MealViewController.swift:109-119 | nil exactly when saving is not allowed or the rating is out of range; otherwise nil fields carry their defaults and the rest is copied |
| `MealEditor.EmptyFormYieldsNoMeal` | MealViewController.swift:109-119 | an all-nil form never yields a meal |
| `MealEditor.DefaultsFillNilFields` | MealViewController.swift:109-119 | nil fields become "Restaurant", "Some Location", "Hours" and "My Expert Foodie Opinion" |
| `MealEditor.ReeditOverwritesWithFoodName` | MealViewController.swift:38-46 | re-saving an opened meal unchanged replaces its restaurant, location and hours with its food name |
| `MealEditor.MealViewController.constructor` | MealViewController.swift:26 | a new form has empty fields, a fresh rating control and the meal passed in |
| `MealEditor.MealViewController.ViewDidLoad` | MealViewController.swift:31-51 | editing a meal fills title and four fields with its food name, copies photo and rating, leaves the review and the star count; then the save rule holds |
| `MealEditor.MealViewController.TextFieldDidBeginEditing` | MealViewController.swift:65-68 | starting to edit disables save |
| `MealEditor.MealViewController.TextFieldDidEndEditing` | MealViewController.swift:70-73 | finishing re-applies the save rule and titles the screen with that field's text |
| `MealEditor.MealViewController.UpdateSaveButtonState` | MealViewController.swift:158-162 | the save button is enabled exactly when saving is allowed |
| `MealEditor.MealViewController.Prepare` | MealViewController.swift:99-120 | other senders leave the meal unchanged; the save button builds it from the form, nil exactly when validation fails |

## Findings

| source | as written | input that shows it | evidently intended | confidence | as-written member | corrected member |
|---|---|---|---|---|---|---|
| Meal.swift:64-89 | `encode(with:)` never writes the foodie review key, while `init?(coder:)` requires it as a string and also rejects nil hours | any meal, e.g. the sample "Caprese" rated 0 | an archived meal decodes back to itself, with nil hours and review kept nil | high (proved for every meal; not executed) | `MealCoding.EncodedMealNeverDecodes` | `MealCoding.RoundTripFixed` |
| MealTableViewController.swift:178-189 | `saveMeals` archives through that encoder and `loadMeals` through that decoder, so a saved non-empty list never loads back; the next launch shows the samples, or aborts if the unarchiver raises on a nil element | the three samples, delete row 1, relaunch | the saved two meals come back | high that it never loads back (proved for every non-empty list); the relaunch behaviour depends on `NSKeyedUnarchiver`; not executed | `MealTable.RelaunchAfterSave` | `MealCoding.ArchiveFixedRoundTrip` |

The meal list saves and loads through the coder as written, as the source
does. The corrected pair is proved to round-trip on its own, one meal
(`RoundTripFixed`) and a whole collection (`ArchiveFixedRoundTrip`).

## Left out

- Writing the archive file (`NSKeyedArchiver`, `ArchiveURL`, FileManager). The file is the `file` field. A failed write is only logged in the source; in the model the write always succeeds.
- How `NSKeyedUnarchiver` treats an element whose decoder returns nil is not part of this model. `Unarchive` fails the whole load; the source may instead abort.
- `os_log` calls: logging only.
- UIImage: an image is an opaque `Image` token. `UIImage(named:)` results for the sample meals are parameters of `ViewDidLoad`.
- The image picker (`imagePickerController(_:didFinishPickingMediaWithInfo:)`, MealViewController.swift:80-94). Choosing an image only sets the form's photo, which the model leaves as a free field of `MealViewController` that `Prepare` reads. Its `fatalError` on an info dictionary without an image is not modelled.
- `imagePickerControllerDidCancel`, `selectImageFromPhotoLibrary`, `cancel(_:)`, `dismiss`/`present`/`popViewController` and `textFieldShouldReturn`: keyboard and navigation only.
- Table animations (`deleteRows`, `insertRows`, `reloadRows`), `numberOfSections` (always 1), `canEditRowAt`/`canMoveRowAt` (always true), and segue and storyboard plumbing. The selected row and the tapped cell's row are parameters.
- Auto-layout constraints, button images, `starSize` (a `CGSize` of floats) and its `didSet`.
- MealTableViewCell.swift has no logic. A cell is the `Cell` value it displays.
- `didReceiveMemoryWarning`: empty overrides.
- Object identity. Buttons are identified by index, so a tap names an index. Meals are values, so sharing one `Meal` object between the list and the form is not captured. No code mutates a meal after creation.
- Integer width. Swift `Int` is 64-bit; ratings here are unbounded integers, and every rating the source produces lies in [0, starCount].
- The dead `?? 1` on the non-optional `meal.rating` (MealTableViewController.swift:66, MealViewController.swift:45) has no effect and is not modelled.
