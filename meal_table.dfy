/**
 * The meal list screen (MealTableViewController.swift): an ordered array of
 * meals changed in place by delete, move, update and append, loaded at start
 * from the archive file or from three sample meals, and saved to the file
 * after some of those changes. The file holds what `Archive` wrote, through
 * `encode(with:)` as written, so a saved non-empty list never loads back;
 * table animations and segue plumbing are not modelled.
 */
module MealTable {
  import opened Wrappers
  import opened Meals
  import opened MealCoding

  /** UITableViewCellEditingStyle. */
  datatype EditingStyle = NoStyle | Delete | Insert

  /** What a MealTableViewCell displays: name label, photo and rating. */
  datatype Cell = Cell(name: string, photo: Option<Image>, rating: int)

  /** `remove(at:)`: drop the element at `i`, keep the rest in order. */
  function RemoveAt<T>(s: seq<T>, i: nat): (r: seq<T>)
    requires i < |s|
    ensures |r| == |s| - 1
    ensures forall j :: 0 <= j < i ==> r[j] == s[j]
    ensures forall j :: i <= j < |r| ==> r[j] == s[j + 1]
  {
    s[..i] + s[i + 1..]
  }

  /** `insert(_:at:)`: put `x` at `i`, shifting the later elements up. */
  function InsertAt<T>(s: seq<T>, i: nat, x: T): (r: seq<T>)
    requires i <= |s|
    ensures |r| == |s| + 1
    ensures r[i] == x
    ensures forall j :: 0 <= j < i ==> r[j] == s[j]
    ensures forall j :: i < j < |r| ==> r[j] == s[j - 1]
  {
    s[..i] + [x] + s[i..]
  }

  /** The array after moving the row at `from` to `to`: remove, then insert. */
  function Moved<T>(s: seq<T>, from: nat, to: nat): (r: seq<T>)
    requires from < |s| && to < |s|
    ensures |r| == |s| && r[to] == s[from]
  {
    InsertAt(RemoveAt(s, from), to, s[from])
  }

  lemma RemoveAtMultiset<T>(s: seq<T>, i: nat)
    requires i < |s|
    ensures multiset(RemoveAt(s, i)) + multiset{s[i]} == multiset(s)
  {
    assert s == s[..i] + [s[i]] + s[i + 1..];
  }

  lemma InsertAtMultiset<T>(s: seq<T>, i: nat, x: T)
    requires i <= |s|
    ensures multiset(InsertAt(s, i, x)) == multiset(s) + multiset{x}
  {
    assert s == s[..i] + s[i..];
  }

  /**
   * A move is a permutation that puts the moved meal at `to` and leaves the
   * other meals in their original relative order.
   */
  lemma MovedIsPermutation<T>(s: seq<T>, from: nat, to: nat)
    requires from < |s| && to < |s|
    ensures |Moved(s, from, to)| == |s|
    ensures multiset(Moved(s, from, to)) == multiset(s)
    ensures Moved(s, from, to)[to] == s[from]
    ensures RemoveAt(Moved(s, from, to), to) == RemoveAt(s, from)
  {
    var rest := RemoveAt(s, from);
    RemoveAtMultiset(s, from);
    InsertAtMultiset(rest, to, s[from]);
    var m := Moved(s, from, to);
    assert RemoveAt(m, to) == rest;
  }

  /** The three sample meals of `loadSampleMeals`, with the given photos. */
  function SampleMeals(photo1: Option<Image>, photo2: Option<Image>, photo3: Option<Image>): (r: seq<Meal>)
    ensures |r| == 3
    ensures r[0].rating == 0 && r[1].rating == 5 && r[2].rating == 5
    ensures forall i :: 0 <= i < |r| ==> r[i].Valid()
  {
    [ Meal("Buona Forchetta", "Liberty Station", Some("4-10p"), Some("Delicious"),
           "Caprese", photo1, 0),
      Meal("Chicken Joint", "Somewhere", Some(""), Some("Best damn chicken ever"),
           "Chicken and Potatoes", photo2, 5),
      Meal("Noodles and Noodles", "My Kitchen", Some("24/7"), Some("Obviousy Amazing"),
           "Spaghetti and Meatballs", photo3, 5) ]
  }

  /** `unarchiveObject(withFile:) as? [Meal]` over the file contents (None: no file). */
  function LoadFrom(file: Option<seq<Coder>>): (r: Outcome<seq<Meal>>)
    ensures file.None? ==> r == Failed
    ensures file.Some? ==> (r.Built? <==> forall i :: 0 <= i < |file.value| ==> Decode(file.value[i]).Built?)
    ensures file.Some? && r.Built? ==>
              && |r.value| == |file.value|
              && forall i :: 0 <= i < |file.value| ==> Decode(file.value[i]) == Built(r.value[i])
    ensures r.Built? ==> forall i :: 0 <= i < |r.value| ==> r.value[i].Valid()
  {
    if file.None? then Failed else Unarchive(file.value)
  }

  /** A file written by `saveMeals` loads only when the list was empty. */
  lemma SavedListNeverReloads(meals: seq<Meal>)
    ensures |meals| > 0 ==> LoadFrom(Some(Archive(meals))) == Failed
    ensures meals == [] ==> LoadFrom(Some(Archive(meals))) == Built([])
  {
    if |meals| > 0 {
      ArchivedMealsNeverLoad(meals);
    }
  }

  class MealTableViewController {
    var meals: seq<Meal>
    /** The archive file at Meal.ArchiveURL; None when it does not exist. */
    var file: Option<seq<Coder>>

    /** Every listed meal passed the initializer's validation. */
    ghost predicate Valid()
      reads this
    {
      forall i :: 0 <= i < |meals| ==> meals[i].Valid()
    }

    /** The controller before `viewDidLoad`, over an existing file (or none). */
    constructor (file: Option<seq<Coder>>)
      ensures Valid()
      ensures meals == [] && this.file == file
    {
      meals := [];
      this.file := file;
    }

    /** `loadMeals`. */
    function LoadMeals(): (r: Outcome<seq<Meal>>)
      reads this
      ensures file.None? ==> r == Failed
      ensures file.Some? ==> (r.Built? <==> forall i :: 0 <= i < |file.value| ==> Decode(file.value[i]).Built?)
      ensures file.Some? && r.Built? ==>
                && |r.value| == |file.value|
                && forall i :: 0 <= i < |file.value| ==> Decode(file.value[i]) == Built(r.value[i])
      ensures r.Built? ==> forall i :: 0 <= i < |r.value| ==> r.value[i].Valid()
    {
      LoadFrom(file)
    }

    /** `saveMeals`: the whole array overwrites the file; a non-empty one will not load back. */
    method SaveMeals()
      modifies this`file
      ensures file == Some(Archive(meals))
      ensures |meals| > 0 ==> LoadMeals() == Failed
      ensures meals == [] ==> LoadMeals() == Built([])
    {
      file := Some(Archive(meals));
      SavedListNeverReloads(meals);
    }

    /**
     * `viewDidLoad`: append the saved meals if the file loads, the sample
     * meals otherwise. A trap while unarchiving is excluded.
     */
    method ViewDidLoad(photo1: Option<Image>, photo2: Option<Image>, photo3: Option<Image>)
      modifies this`meals
      requires Valid()
      requires !LoadMeals().Trapped?
      ensures Valid()
      ensures old(LoadMeals()).Built? ==> meals == old(meals) + old(LoadMeals()).value
      ensures old(LoadMeals()).Failed? ==> meals == old(meals) + SampleMeals(photo1, photo2, photo3)
    {
      var saved := LoadMeals();
      if saved.Built? {
        meals := meals + saved.value;
      } else {
        LoadSampleMeals(photo1, photo2, photo3);
        return;
      }
    }

    /**
     * `loadSampleMeals`: build three meals through the validating initializer;
     * the fatal branches are unreachable because every sample is valid.
     */
    method LoadSampleMeals(photo1: Option<Image>, photo2: Option<Image>, photo3: Option<Image>)
      modifies this`meals
      requires Valid()
      ensures Valid()
      ensures meals == old(meals) + SampleMeals(photo1, photo2, photo3)
    {
      var meal1 := MakeMeal("Buona Forchetta", "Liberty Station", Some("4-10p"), Some("Delicious"),
                            "Caprese", photo1, 0);
      var meal2 := MakeMeal("Chicken Joint", "Somewhere", Some(""), Some("Best damn chicken ever"),
                            "Chicken and Potatoes", photo2, 5);
      var meal3 := MakeMeal("Noodles and Noodles", "My Kitchen", Some("24/7"), Some("Obviousy Amazing"),
                            "Spaghetti and Meatballs", photo3, 5);
      assert meal1.Some? && meal2.Some? && meal3.Some?;
      meals := meals + [meal1.value, meal2.value, meal3.value];
    }

    /** `tableView(_:numberOfRowsInSection:)`. */
    method NumberOfRows() returns (n: nat)
      ensures n == |meals|
    {
      n := |meals|;
    }

    /** `tableView(_:cellForRowAt:)`: the cell shows the row's meal. */
    method CellForRow(row: nat) returns (cell: Cell)
      requires Valid()
      requires row < |meals|
      ensures cell.name == meals[row].foodOrdered && cell.name != ""
      ensures cell.photo == meals[row].photo
      ensures cell.rating == meals[row].rating && MinRating <= cell.rating <= MaxRating
    {
      var meal := meals[row];
      cell := Cell(meal.foodOrdered, meal.photo, meal.rating);
    }

    /** `tableView(_:commit:forRowAt:)`: a delete removes the row and saves; insert does nothing. */
    method CommitEditing(style: EditingStyle, row: nat)
      modifies this
      requires Valid()
      requires style == Delete ==> row < |meals|
      ensures Valid()
      ensures style == Delete ==> meals == RemoveAt(old(meals), row)
      ensures style == Delete ==> file == Some(Archive(meals))
      ensures style == Delete && |meals| > 0 ==> LoadMeals() == Failed
      ensures style != Delete ==> meals == old(meals) && file == old(file)
    {
      if style == Delete {
        meals := RemoveAt(meals, row);
        SaveMeals();
      } else if style == Insert {
      }
    }

    /** `tableView(_:moveRowAt:to:)`: remove then insert, without saving. */
    method MoveRow(from: nat, to: nat)
      modifies this`meals
      requires Valid()
      requires from < |meals| && to < |meals|
      ensures Valid()
      ensures meals == Moved(old(meals), from, to)
      ensures multiset(meals) == multiset(old(meals)) && meals[to] == old(meals)[from]
    {
      MovedIsPermutation(meals, from, to);
      var element := meals[from];
      meals := RemoveAt(meals, from);
      meals := InsertAt(meals, to, element);
    }

    /**
     * `prepare(for:sender:)`: "AddItem" passes nothing, "ShowDetail" passes the
     * meal of the tapped row; any other identifier is fatal.
     */
    method PrepareForSegue(identifier: Option<string>, row: Option<nat>) returns (detail: Option<Meal>)
      requires identifier.GetOr("") == "AddItem" || identifier.GetOr("") == "ShowDetail"
      requires identifier.GetOr("") == "ShowDetail" ==> row.Some? && row.value < |meals|
      ensures identifier.GetOr("") == "AddItem" ==> detail.None?
      ensures identifier.GetOr("") == "ShowDetail" ==> detail == Some(meals[row.value])
    {
      var id := identifier.GetOr("");
      if id == "AddItem" {
        detail := None;
      } else {
        detail := Some(meals[row.value]);
      }
    }

    /**
     * `unwindToMealList(sender:)`: a meal coming back replaces the selected
     * row, or is appended when no row is selected; then the array is saved.
     */
    method UnwindToMealList(incoming: Option<Meal>, selectedRow: Option<nat>)
      modifies this
      requires Valid()
      requires incoming.Some? ==> incoming.value.Valid()
      requires incoming.Some? && selectedRow.Some? ==> selectedRow.value < |meals|
      ensures Valid()
      ensures incoming.None? ==> meals == old(meals) && file == old(file)
      ensures incoming.Some? && selectedRow.Some? ==>
        meals == old(meals)[selectedRow.value := incoming.value]
      ensures incoming.Some? && selectedRow.None? ==> meals == old(meals) + [incoming.value]
      ensures incoming.Some? ==> file == Some(Archive(meals)) && LoadMeals() == Failed
    {
      if incoming.Some? {
        var meal := incoming.value;
        if selectedRow.Some? {
          meals := meals[selectedRow.value := meal];
        } else {
          var newRow := |meals|;
          meals := meals + [meal];
          assert meals[newRow] == meal;
        }
        SaveMeals();
      }
    }
  }

  /** Replacing a row keeps the length and every other row. */
  lemma UpdateKeepsOthers(s: seq<Meal>, row: nat, m: Meal)
    requires row < |s|
    ensures |s[row := m]| == |s| && s[row := m][row] == m
    ensures forall j :: 0 <= j < |s| && j != row ==> s[row := m][j] == s[j]
  {
  }

  /** Deleting a row keeps every other meal, in order, and only drops that one. */
  lemma DeleteKeepsOthers(s: seq<Meal>, row: nat)
    requires row < |s|
    ensures multiset(RemoveAt(s, row)) + multiset{s[row]} == multiset(s)
    ensures InsertAt(RemoveAt(s, row), row, s[row]) == s
  {
    RemoveAtMultiset(s, row);
  }

  /**
   * A relaunch over a file that `saveMeals` wrote for a non-empty list: the
   * load fails, so `viewDidLoad` shows the three samples instead of the
   * saved meals.
   */
  method RelaunchAfterSave(saved: seq<Meal>, photo1: Option<Image>, photo2: Option<Image>,
                           photo3: Option<Image>) returns (table: MealTableViewController)
    requires |saved| > 0
    ensures table.meals == SampleMeals(photo1, photo2, photo3)
    ensures table.file == Some(Archive(saved))
  {
    SavedListNeverReloads(saved);
    table := new MealTableViewController(Some(Archive(saved)));
    table.ViewDidLoad(photo1, photo2, photo3);
  }
}
