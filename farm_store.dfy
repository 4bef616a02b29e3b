/**
  The farm database as an in-memory store: one map per table, keyed by the
  AUTO_INCREMENT id, and one counter per table for the next id. Each method
  is one form submission of a page handler: the handler's own checks, then
  the single INSERT, UPDATE or DELETE it sends, with the constraints the
  schema declares (UNIQUE, FOREIGN KEY, VARCHAR widths).

  The frame of each method names the one table it writes; every other table
  is unchanged by construction.
 */
module FarmStore {
  import opened FarmTypes
  import opened FarmQueries
  import opened Text

  // ------------------------------------------------------------ invariants

  /** Every id was handed out by the table's counter, which starts at 1. */
  predicate IdsBelow<T>(m: map<nat, T>, next: nat) {
    0 < next && forall id :: id in m ==> 0 < id < next
  }

  /** UNIQUE on Animal_Category.name, under the case-insensitive collation. */
  predicate NamesUnique(categories: map<nat, Category>) {
    forall a, b :: a in categories && b in categories && a != b ==> !SameIgnoringCase(categories[a].name, categories[b].name)
  }

  /** UNIQUE on Animal.tag_number, under the case-insensitive collation. */
  predicate TagsUnique(animals: map<nat, Animal>) {
    forall a, b :: a in animals && b in animals && a != b ==> !SameIgnoringCase(animals[a].tag, animals[b].tag)
  }

  /** Every animal is uncategorized or in an existing category. */
  predicate CategoriesExist(animals: map<nat, Animal>, categories: map<nat, Category>) {
    forall id :: id in animals && animals[id].category.Some? ==> animals[id].category.value in categories
  }

  predicate WeightAnimalsExist(weights: map<nat, Weight>, animals: map<nat, Animal>) {
    forall id :: id in weights ==> weights[id].animal in animals
  }

  predicate FeedAnimalsExist(feeds: map<nat, Feed>, animals: map<nat, Animal>) {
    forall id :: id in feeds ==> feeds[id].animal in animals
  }

  predicate MedicineAnimalsExist(medicines: map<nat, Medicine>, animals: map<nat, Animal>) {
    forall id :: id in medicines ==> medicines[id].animal in animals
  }

  /** Every stored expense total is the sum of its stored components. */
  predicate TotalsMatch(expenses: map<nat, Expense>) {
    forall id :: id in expenses ==> TotalMatches(expenses[id])
  }

  // ------------------------------------------------------------ guards

  /** Some category other than `except` already has this name, up to case. */
  predicate NameTaken(categories: map<nat, Category>, name: string, except: Option<nat>) {
    exists id :: id in categories && Some(id) != except && SameIgnoringCase(categories[id].name, name)
  }

  /** Some animal other than `except` already has this tag, up to case. */
  predicate TagTaken(animals: map<nat, Animal>, tag: string, except: Option<nat>) {
    exists id :: id in animals && Some(id) != except && SameIgnoringCase(animals[id].tag, tag)
  }

  /** A category_id the FOREIGN KEY accepts: NULL or an existing category. */
  predicate CategoryResolves(categories: map<nat, Category>, c: Option<nat>) {
    c.None? || c.value in categories
  }

  /** With no animal in category `c`, removing `c` leaves every animal's category in place. */
  lemma {:induction false} CategoryDeleteKeepsAnimals(animals: map<nat, Animal>, categories: map<nat, Category>, c: nat)
    requires CategoriesExist(animals, categories)
    requires |AnimalsInCategory(animals, c)| == 0
    ensures CategoriesExist(animals, categories - {c})
  {
    var using := AnimalsInCategory(animals, c);
    assert using == {};
    forall id | id in animals && animals[id].category.Some?
      ensures animals[id].category.value != c
    {
      assert id !in using;
    }
  }

  /** With no weight, feed or medicine row for animal `a`, removing `a` leaves
      every log row's animal in place. */
  lemma {:induction false} AnimalDeleteKeepsLogs(
    weights: map<nat, Weight>, feeds: map<nat, Feed>, medicines: map<nat, Medicine>,
    animals: map<nat, Animal>, a: nat)
    requires WeightAnimalsExist(weights, animals) && FeedAnimalsExist(feeds, animals)
    requires MedicineAnimalsExist(medicines, animals)
    requires |WeightsOf(weights, a)| == 0 && |FeedsOf(feeds, a)| == 0 && |MedicinesOf(medicines, a)| == 0
    ensures WeightAnimalsExist(weights, animals - {a})
    ensures FeedAnimalsExist(feeds, animals - {a})
    ensures MedicineAnimalsExist(medicines, animals - {a})
  {
    var ws, fs, ms := WeightsOf(weights, a), FeedsOf(feeds, a), MedicinesOf(medicines, a);
    assert ws == {} && fs == {} && ms == {};
    forall id | id in weights ensures weights[id].animal != a {
      assert id !in ws;
    }
    forall id | id in feeds ensures feeds[id].animal != a {
      assert id !in fs;
    }
    forall id | id in medicines ensures medicines[id].animal != a {
      assert id !in ms;
    }
  }

  class FarmDb {
    var categories: map<nat, Category>
    var animals: map<nat, Animal>
    var staff: map<nat, StaffMember>
    var weights: map<nat, Weight>
    var feeds: map<nat, Feed>
    var medicines: map<nat, Medicine>
    var bills: map<nat, UtilityBill>
    var expenses: map<nat, Expense>

    // AUTO_INCREMENT counters: the id the next INSERT into each table gets.
    var nextCategory: nat
    var nextAnimal: nat
    var nextStaff: nat
    var nextWeight: nat
    var nextFeed: nat
    var nextMedicine: nat
    var nextBill: nat
    var nextExpense: nat

    /** What the schema and the handlers keep true of the store. */
    ghost predicate Valid()
      reads this
    {
      && IdsBelow(categories, nextCategory) && IdsBelow(animals, nextAnimal)
      && IdsBelow(staff, nextStaff) && IdsBelow(weights, nextWeight)
      && IdsBelow(feeds, nextFeed) && IdsBelow(medicines, nextMedicine)
      && IdsBelow(bills, nextBill) && IdsBelow(expenses, nextExpense)
      && NamesUnique(categories)
      && TagsUnique(animals)
      && CategoriesExist(animals, categories)
      && WeightAnimalsExist(weights, animals)
      && FeedAnimalsExist(feeds, animals)
      && MedicineAnimalsExist(medicines, animals)
      && TotalsMatch(expenses)
    }

    /** The freshly created schema: eight empty tables. */
    constructor ()
      ensures Valid()
      ensures categories == map[] && animals == map[] && staff == map[] && weights == map[]
      ensures feeds == map[] && medicines == map[] && bills == map[] && expenses == map[]
      ensures nextCategory == nextAnimal == nextStaff == nextWeight == 1
      ensures nextFeed == nextMedicine == nextBill == nextExpense == 1
    {
      categories, animals, staff, weights := map[], map[], map[], map[];
      feeds, medicines, bills, expenses := map[], map[], map[], map[];
      nextCategory, nextAnimal, nextStaff, nextWeight := 1, 1, 1, 1;
      nextFeed, nextMedicine, nextBill, nextExpense := 1, 1, 1, 1;
    }

    // ------------------------------------------------------ Animal Categories

    /** Add Category: the name is required and must be new. */
    method AddCategory(name: string, description: string, upload: Option<Blob>) returns (r: Result<nat>)
      requires Valid()
      modifies this`categories, this`nextCategory
      ensures Valid()
      ensures r == if !Present(name) then Err(MissingRequired)
                   else if !Fits(name, CategoryNameWidth) then Err(TooLong)
                   else if NameTaken(old(categories), name, None) then Err(DuplicateCategoryName)
                   else Ok(old(nextCategory))
      ensures r.Err? ==> categories == old(categories) && nextCategory == old(nextCategory)
      ensures r.Ok? ==> r.value !in old(categories) && nextCategory == old(nextCategory) + 1
                        && categories == old(categories)[r.value := Category(name, description, upload)]
    {
      if !Present(name) {
        return Err(MissingRequired);
      }
      if !Fits(name, CategoryNameWidth) {
        return Err(TooLong);
      }
      if NameTaken(categories, name, None) {
        return Err(DuplicateCategoryName);
      }
      var id := nextCategory;
      categories := categories[id := Category(name, description, upload)];
      nextCategory := nextCategory + 1;
      r := Ok(id);
    }

    /** Update Category: name, description and image of one row; the stored
        image stays unless a new one is uploaded. Ok(false) when no row has
        that id (an UPDATE that matches nothing). */
    method UpdateCategory(id: nat, name: string, description: string, upload: Option<Blob>) returns (r: Result<bool>)
      requires Valid()
      modifies this`categories
      ensures Valid()
      ensures r == if id !in old(categories) then Ok(false)
                   else if !Fits(name, CategoryNameWidth) then Err(TooLong)
                   else if NameTaken(old(categories), name, Some(id)) then Err(DuplicateCategoryName)
                   else Ok(true)
      ensures r == Ok(true) ==>
        categories == old(categories)[id := Category(name, description, KeepImage(upload, old(categories)[id].image))]
      ensures r != Ok(true) ==> categories == old(categories)
      ensures upload.None? && id in old(categories) ==> categories[id].image == old(categories)[id].image
    {
      if id !in categories {
        return Ok(false);
      }
      if !Fits(name, CategoryNameWidth) {
        return Err(TooLong);
      }
      if NameTaken(categories, name, Some(id)) {
        return Err(DuplicateCategoryName);
      }
      categories := categories[id := Category(name, description, KeepImage(upload, categories[id].image))];
      r := Ok(true);
    }

    /** Delete Category: refused while any animal is in the category, with the
        number of such animals; otherwise exactly that row goes. */
    method DeleteCategory(id: nat) returns (r: Result<bool>)
      requires Valid()
      modifies this`categories
      ensures Valid()
      ensures var n := |AnimalsInCategory(animals, id)|;
              r == if n > 0 then Err(CategoryInUse(n)) else Ok(id in old(categories))
      ensures r.Ok? ==> categories == old(categories) - {id}
      ensures r.Err? ==> categories == old(categories)
    {
      var n := |AnimalsInCategory(animals, id)|;
      if n > 0 {
        return Err(CategoryInUse(n));
      }
      CategoryDeleteKeepsAnimals(animals, categories, id);
      r := Ok(id in categories);
      categories := categories - {id};
    }

    // ---------------------------------------------------------- Animal Records

    /** Add Animal: tag and a non-zero initial weight are required, the tag
        must be new and the category must exist. */
    method AddAnimal(tag: string, breed: string, category: Option<nat>, arrival: Date,
                     initialWeight: int, upload: Option<Blob>) returns (r: Result<nat>)
      requires Valid()
      modifies this`animals, this`nextAnimal
      ensures Valid()
      ensures r == if !(Present(tag) && NonZero(initialWeight)) then Err(MissingRequired)
                   else if !(Fits(tag, TagWidth) && Fits(breed, BreedWidth)) then Err(TooLong)
                   else if TagTaken(old(animals), tag, None) then Err(DuplicateTag)
                   else if !CategoryResolves(categories, category) then Err(UnknownCategory)
                   else Ok(old(nextAnimal))
      ensures r.Err? ==> animals == old(animals) && nextAnimal == old(nextAnimal)
      ensures r.Ok? ==> (r.value !in old(animals) && nextAnimal == old(nextAnimal) + 1
        && animals == old(animals)[r.value := Animal(tag, category, Some(breed), arrival, initialWeight, upload)])
    {
      if !(Present(tag) && NonZero(initialWeight)) {
        return Err(MissingRequired);
      }
      if !(Fits(tag, TagWidth) && Fits(breed, BreedWidth)) {
        return Err(TooLong);
      }
      if TagTaken(animals, tag, None) {
        return Err(DuplicateTag);
      }
      if !CategoryResolves(categories, category) {
        return Err(UnknownCategory);
      }
      var id := nextAnimal;
      animals := animals[id := Animal(tag, category, Some(breed), arrival, initialWeight, upload)];
      nextAnimal := nextAnimal + 1;
      r := Ok(id);
    }

    /** Update Animal: every column of one row; no field is required here,
        the tag must stay unique, the category must exist, and the stored
        image stays unless a new one is uploaded. */
    method UpdateAnimal(id: nat, tag: string, breed: string, category: Option<nat>, arrival: Date,
                        initialWeight: int, upload: Option<Blob>) returns (r: Result<bool>)
      requires Valid()
      modifies this`animals
      ensures Valid()
      ensures r == if id !in old(animals) then Ok(false)
                   else if !(Fits(tag, TagWidth) && Fits(breed, BreedWidth)) then Err(TooLong)
                   else if TagTaken(old(animals), tag, Some(id)) then Err(DuplicateTag)
                   else if !CategoryResolves(categories, category) then Err(UnknownCategory)
                   else Ok(true)
      ensures r == Ok(true) ==> animals == old(animals)[id :=
        Animal(tag, category, Some(breed), arrival, initialWeight, KeepImage(upload, old(animals)[id].image))]
      ensures r != Ok(true) ==> animals == old(animals)
      ensures upload.None? && id in old(animals) ==> animals[id].image == old(animals)[id].image
    {
      if id !in animals {
        return Ok(false);
      }
      if !(Fits(tag, TagWidth) && Fits(breed, BreedWidth)) {
        return Err(TooLong);
      }
      if TagTaken(animals, tag, Some(id)) {
        return Err(DuplicateTag);
      }
      if !CategoryResolves(categories, category) {
        return Err(UnknownCategory);
      }
      animals := animals[id := Animal(tag, category, Some(breed), arrival, initialWeight,
                                      KeepImage(upload, animals[id].image))];
      r := Ok(true);
    }

    /** Delete Animal: refused while the animal has weight, feed or medicine
        rows, reporting the three counts; otherwise exactly that row goes. */
    method DeleteAnimal(id: nat) returns (r: Result<bool>)
      requires Valid()
      modifies this`animals
      ensures Valid()
      ensures var w, f, m := |WeightsOf(weights, id)|, |FeedsOf(feeds, id)|, |MedicinesOf(medicines, id)|;
              r == if w > 0 || f > 0 || m > 0 then Err(AnimalHasRecords(w, f, m)) else Ok(id in old(animals))
      ensures r.Ok? ==> animals == old(animals) - {id}
      ensures r.Err? ==> animals == old(animals)
    {
      var w := |WeightsOf(weights, id)|;
      var f := |FeedsOf(feeds, id)|;
      var m := |MedicinesOf(medicines, id)|;
      if w > 0 || f > 0 || m > 0 {
        return Err(AnimalHasRecords(w, f, m));
      }
      AnimalDeleteKeepsLogs(weights, feeds, medicines, animals, id);
      r := Ok(id in animals);
      animals := animals - {id};
    }

    // --------------------------------------------------------- Weight Tracking

    /** Add Weight Record: no field is checked; the animal must exist. */
    method AddWeight(animal: nat, month: Date, weightKg: int) returns (r: Result<nat>)
      requires Valid()
      modifies this`weights, this`nextWeight
      ensures Valid()
      ensures r == if animal !in animals then Err(UnknownAnimal) else Ok(old(nextWeight))
      ensures r.Err? ==> weights == old(weights) && nextWeight == old(nextWeight)
      ensures r.Ok? ==> r.value !in old(weights) && nextWeight == old(nextWeight) + 1
                        && weights == old(weights)[r.value := Weight(animal, month, weightKg)]
    {
      if animal !in animals {
        return Err(UnknownAnimal);
      }
      var id := nextWeight;
      weights := weights[id := Weight(animal, month, weightKg)];
      nextWeight := nextWeight + 1;
      r := Ok(id);
    }

    /** Update Weight: only weight_kg of the one row changes. */
    method UpdateWeight(id: nat, weightKg: int) returns (found: bool)
      requires Valid()
      modifies this`weights
      ensures Valid()
      ensures found == (id in old(weights))
      ensures weights == if found then old(weights)[id := old(weights)[id].(weightKg := weightKg)] else old(weights)
    {
      found := id in weights;
      if found {
        weights := weights[id := weights[id].(weightKg := weightKg)];
      }
    }

    // ------------------------------------------------------------ Feed Records

    /** Add Feed Record: feed type, a non-zero quantity and a non-zero cost are
        required; the animal must exist. */
    method AddFeed(animal: nat, date: Date, feedType: string, quantityKg: int, cost: int) returns (r: Result<nat>)
      requires Valid()
      modifies this`feeds, this`nextFeed
      ensures Valid()
      ensures r == if !(Present(feedType) && NonZero(quantityKg) && NonZero(cost)) then Err(MissingRequired)
                   else if !Fits(feedType, FeedTypeWidth) then Err(TooLong)
                   else if animal !in animals then Err(UnknownAnimal)
                   else Ok(old(nextFeed))
      ensures r.Err? ==> feeds == old(feeds) && nextFeed == old(nextFeed)
      ensures r.Ok? ==> r.value !in old(feeds) && nextFeed == old(nextFeed) + 1
                        && feeds == old(feeds)[r.value := Feed(animal, date, feedType, quantityKg, cost)]
    {
      if !(Present(feedType) && NonZero(quantityKg) && NonZero(cost)) {
        return Err(MissingRequired);
      }
      if !Fits(feedType, FeedTypeWidth) {
        return Err(TooLong);
      }
      if animal !in animals {
        return Err(UnknownAnimal);
      }
      var id := nextFeed;
      feeds := feeds[id := Feed(animal, date, feedType, quantityKg, cost)];
      nextFeed := nextFeed + 1;
      r := Ok(id);
    }

    /** Update Feed Record: only quantity_kg and cost of the one row change. */
    method UpdateFeed(id: nat, quantityKg: int, cost: int) returns (found: bool)
      requires Valid()
      modifies this`feeds
      ensures Valid()
      ensures found == (id in old(feeds))
      ensures feeds == if found then old(feeds)[id := old(feeds)[id].(quantityKg := quantityKg, cost := cost)]
                       else old(feeds)
    {
      found := id in feeds;
      if found {
        feeds := feeds[id := feeds[id].(quantityKg := quantityKg, cost := cost)];
      }
    }

    // --------------------------------------------------------- Medical Records

    /** Add Medical Record: medicine name, quantity text and a non-zero cost
        are required; the animal must exist. */
    method AddMedicine(animal: nat, date: Date, name: string, quantity: string, cost: int, remarks: string)
      returns (r: Result<nat>)
      requires Valid()
      modifies this`medicines, this`nextMedicine
      ensures Valid()
      ensures r == if !(Present(name) && Present(quantity) && NonZero(cost)) then Err(MissingRequired)
                   else if !(Fits(name, MedicineNameWidth) && Fits(quantity, MedicineQuantityWidth)) then Err(TooLong)
                   else if animal !in animals then Err(UnknownAnimal)
                   else Ok(old(nextMedicine))
      ensures r.Err? ==> medicines == old(medicines) && nextMedicine == old(nextMedicine)
      ensures r.Ok? ==> (r.value !in old(medicines) && nextMedicine == old(nextMedicine) + 1
        && medicines == old(medicines)[r.value := Medicine(animal, date, name, quantity, cost, remarks)])
    {
      if !(Present(name) && Present(quantity) && NonZero(cost)) {
        return Err(MissingRequired);
      }
      if !(Fits(name, MedicineNameWidth) && Fits(quantity, MedicineQuantityWidth)) {
        return Err(TooLong);
      }
      if animal !in animals {
        return Err(UnknownAnimal);
      }
      var id := nextMedicine;
      medicines := medicines[id := Medicine(animal, date, name, quantity, cost, remarks)];
      nextMedicine := nextMedicine + 1;
      r := Ok(id);
    }

    /** Update Medical Record: only quantity, cost and remarks of the one row change. */
    method UpdateMedicine(id: nat, quantity: string, cost: int, remarks: string) returns (r: Result<bool>)
      requires Valid()
      modifies this`medicines
      ensures Valid()
      ensures r == if id !in old(medicines) then Ok(false)
                   else if !Fits(quantity, MedicineQuantityWidth) then Err(TooLong)
                   else Ok(true)
      ensures medicines == if r == Ok(true)
        then old(medicines)[id := old(medicines)[id].(quantity := quantity, cost := cost, remarks := remarks)]
        else old(medicines)
    {
      if id !in medicines {
        return Ok(false);
      }
      if !Fits(quantity, MedicineQuantityWidth) {
        return Err(TooLong);
      }
      medicines := medicines[id := medicines[id].(quantity := quantity, cost := cost, remarks := remarks)];
      r := Ok(true);
    }

    // -------------------------------------------------------- Staff Management

    /** Add Staff: name, role and a non-zero salary are required. */
    method AddStaff(name: string, role: string, salary: int, upload: Option<Blob>) returns (r: Result<nat>)
      requires Valid()
      modifies this`staff, this`nextStaff
      ensures Valid()
      ensures r == if !(Present(name) && Present(role) && NonZero(salary)) then Err(MissingRequired)
                   else if !(Fits(name, StaffNameWidth) && Fits(role, StaffRoleWidth)) then Err(TooLong)
                   else Ok(old(nextStaff))
      ensures r.Err? ==> staff == old(staff) && nextStaff == old(nextStaff)
      ensures r.Ok? ==> r.value !in old(staff) && nextStaff == old(nextStaff) + 1
                        && staff == old(staff)[r.value := StaffMember(name, role, salary, upload)]
    {
      if !(Present(name) && Present(role) && NonZero(salary)) {
        return Err(MissingRequired);
      }
      if !(Fits(name, StaffNameWidth) && Fits(role, StaffRoleWidth)) {
        return Err(TooLong);
      }
      var id := nextStaff;
      staff := staff[id := StaffMember(name, role, salary, upload)];
      nextStaff := nextStaff + 1;
      r := Ok(id);
    }

    /** Update Staff: every column of one row; the stored photo stays unless a
        new one is uploaded. */
    method UpdateStaff(id: nat, name: string, role: string, salary: int, upload: Option<Blob>) returns (r: Result<bool>)
      requires Valid()
      modifies this`staff
      ensures Valid()
      ensures r == if id !in old(staff) then Ok(false)
                   else if !(Fits(name, StaffNameWidth) && Fits(role, StaffRoleWidth)) then Err(TooLong)
                   else Ok(true)
      ensures staff == if r == Ok(true)
        then old(staff)[id := StaffMember(name, role, salary, KeepImage(upload, old(staff)[id].image))]
        else old(staff)
      ensures upload.None? && id in old(staff) ==> staff[id].image == old(staff)[id].image
    {
      if id !in staff {
        return Ok(false);
      }
      if !(Fits(name, StaffNameWidth) && Fits(role, StaffRoleWidth)) {
        return Err(TooLong);
      }
      staff := staff[id := StaffMember(name, role, salary, KeepImage(upload, staff[id].image))];
      r := Ok(true);
    }

    /** Delete Staff: no dependency check; the row goes if it is there. */
    method DeleteStaff(id: nat) returns (found: bool)
      requires Valid()
      modifies this`staff
      ensures Valid()
      ensures found == (id in old(staff))
      ensures staff == old(staff) - {id}
    {
      found := id in staff;
      staff := staff - {id};
    }

    // ------------------------------------------------------ Financial Overview

    /** Add Expense Summary: no field is checked; the total is computed from
        the five components written with it. */
    method AddExpense(month: Date, feed: int, medicine: int, salaries: int, utilities: int, other: int)
      returns (id: nat)
      requires Valid()
      modifies this`expenses, this`nextExpense
      ensures Valid()
      ensures id == old(nextExpense) && id !in old(expenses) && nextExpense == old(nextExpense) + 1
      ensures expenses == old(expenses)[id := Summary(month, feed, medicine, salaries, utilities, other)]
      ensures expenses[id].total == feed + medicine + salaries + utilities + other
    {
      id := nextExpense;
      expenses := expenses[id := Summary(month, feed, medicine, salaries, utilities, other)];
      nextExpense := nextExpense + 1;
    }

    /** Update Expense Summary: the five components of the row with this
        expense_id and the total recomputed from them; the month stays. */
    method UpdateExpense(id: nat, feed: int, medicine: int, salaries: int, utilities: int, other: int)
      returns (found: bool)
      requires Valid()
      modifies this`expenses
      ensures Valid()
      ensures found == (id in old(expenses))
      ensures expenses == if found
        then old(expenses)[id := Summary(old(expenses)[id].month, feed, medicine, salaries, utilities, other)]
        else old(expenses)
      ensures found ==> expenses[id].total == feed + medicine + salaries + utilities + other
    {
      found := id in expenses;
      if found {
        expenses := expenses[id := Summary(expenses[id].month, feed, medicine, salaries, utilities, other)];
      }
    }

    /** Add Utility Bill: no field is checked. */
    method AddBill(month: Date, kind: UtilityKind, amount: int) returns (id: nat)
      requires Valid()
      modifies this`bills, this`nextBill
      ensures Valid()
      ensures id == old(nextBill) && id !in old(bills) && nextBill == old(nextBill) + 1
      ensures bills == old(bills)[id := UtilityBill(month, kind, amount)]
    {
      id := nextBill;
      bills := bills[id := UtilityBill(month, kind, amount)];
      nextBill := nextBill + 1;
    }

    /** Update Utility Bill: only the amount of the one row changes. */
    method UpdateBill(id: nat, amount: int) returns (found: bool)
      requires Valid()
      modifies this`bills
      ensures Valid()
      ensures found == (id in old(bills))
      ensures bills == if found then old(bills)[id := old(bills)[id].(amount := amount)] else old(bills)
    {
      found := id in bills;
      if found {
        bills := bills[id := bills[id].(amount := amount)];
      }
    }
  }
}
