/**
  Clients of the store that use nothing but the method contracts: short
  sequences of submissions through the pages, with what each one must do.
 */
module Scenarios {
  import opened FarmTypes
  import opened FarmQueries
  import opened FarmStore
  import opened Text

  /** A second category with the same name, in any letter case, is refused. */
  method UniqueNameScenario() {
    var db := new FarmDb();

    var c := db.AddCategory("Cattle", "Beef herd", None);
    assert c == Ok(1);
    assert db.categories == map[1 := Category("Cattle", "Beef herd", None)];
    var again := db.AddCategory("Cattle", "", None);
    assert NameTaken(db.categories, "Cattle", None) by { assert db.categories[1].name == "Cattle"; }
    assert again == Err(DuplicateCategoryName);
    var other := db.AddCategory("cattle", "", None);
    assert NameTaken(db.categories, "cattle", None) by {
      SameIgnoringCaseIff("Cattle", "cattle");
      assert db.categories[1].name == "Cattle";
    }
    assert other == Err(DuplicateCategoryName);
  }

  /** A second animal with the same tag and an animal whose initial weight is
      0 are refused. */
  method UniqueAndRequiredScenario() {
    var db := new FarmDb();

    var a := db.AddAnimal("C-001", "Angus", None, Date(2025, 1, 10), 2500, None);
    assert a == Ok(1);
    var dup := db.AddAnimal("C-001", "Hereford", None, Date(2025, 1, 11), 2600, None);
    assert TagTaken(db.animals, "C-001", None) by { assert db.animals[1].tag == "C-001"; }
    assert dup == Err(DuplicateTag);
    var noWeight := db.AddAnimal("C-002", "Angus", None, Date(2025, 1, 11), 0, None);
    assert noWeight == Err(MissingRequired);
  }

  /** An animal with a weight record cannot be deleted. */
  method AnimalDeleteGuardScenario() {
    var db := new FarmDb();
    var a := db.AddAnimal("C-001", "Angus", None, Date(2025, 1, 10), 2500, None);
    assert a == Ok(1);
    var w := db.AddWeight(1, Date(2025, 2, 1), 2700);
    assert w == Ok(1);
    assert db.weights == map[1 := Weight(1, Date(2025, 2, 1), 2700)];
    assert db.feeds == map[] && db.medicines == map[];

    assert WeightsOf(db.weights, 1) == {1};
    assert FeedsOf(db.feeds, 1) == {} && MedicinesOf(db.medicines, 1) == {};
    var delAnimal := db.DeleteAnimal(1);
    assert delAnimal == Err(AnimalHasRecords(1, 0, 0));
    assert 1 in db.animals;
  }

  /** A category that an animal belongs to cannot be deleted. */
  method CategoryDeleteGuardScenario() {
    var db := new FarmDb();
    var c := db.AddCategory("Cattle", "Beef herd", None);
    assert c == Ok(1);
    var a := db.AddAnimal("C-001", "Angus", Some(1), Date(2025, 1, 10), 2500, None);
    assert a == Ok(1);
    assert db.animals == map[1 := Animal("C-001", Some(1), Some("Angus"), Date(2025, 1, 10), 2500, None)];

    assert AnimalsInCategory(db.animals, 1) == {1};
    var delCategory := db.DeleteCategory(1);
    assert delCategory == Err(CategoryInUse(1));
    assert 1 in db.categories;
  }

  /** The stored total of an expense summary is the sum of what was entered. */
  method ExpenseTotalScenario() {
    var db := new FarmDb();
    var e := db.AddExpense(Date(2025, 3, 1), 10000, 5000, 200000, 15000, 2500);
    assert db.expenses[e].total == 232500;
  }
}
