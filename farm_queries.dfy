/**
  The read side of the pages: the animal search, the date-range listings of
  the three log tables, the COUNT(*) queries of the delete guards and the
  lookups the update forms use to find the row they will change.
  Every query works on the table values, so none of them changes anything.
 */
module FarmQueries {
  import opened FarmTypes
  import opened Text
  import opened Listing

  // ---------------------------------------------------------------- search

  /** The search test of the Animal Records page: the lower-cased term is a
      substring of the lower-cased tag, or of the lower-cased breed when the
      breed is set (a NULL or empty breed never matches). */
  predicate SearchHit(a: Animal, term: string) {
    Contains(Lower(a.tag), Lower(term))
    || (PresentOpt(a.breed) && Contains(Lower(a.breed.value), Lower(term)))
  }

  /** The animals the search shows, as ids in the order of the listing query.
      An empty term shows every animal. */
  function SearchAnimals(animals: map<nat, Animal>, term: string): (r: seq<nat>)
    ensures Increasing(r)
    ensures term == "" ==> forall id :: id in r <==> id in animals
    ensures term != "" ==> forall id :: id in r <==> id in animals && SearchHit(animals[id], term)
  {
    var scan := KeysAscending(animals.Keys);
    if term == "" then scan
    else
      var hit := id => id in animals && SearchHit(animals[id], term);
      SelectIncreasing(scan, hit);
      Select(scan, hit)
  }

  /** The search test read as positions: the term occurs somewhere in the tag,
      or somewhere in a set breed, ignoring the case of A-Z. */
  lemma SearchHitIff(a: Animal, term: string)
    ensures SearchHit(a, term) <==>
      OccursSomewhere(Lower(a.tag), Lower(term))
      || (PresentOpt(a.breed) && OccursSomewhere(Lower(a.breed.value), Lower(term)))
  {
    var t := Lower(term);
    var tag := Lower(a.tag);
    ContainsIff(tag, t);
    if PresentOpt(a.breed) {
      ContainsIff(Lower(a.breed.value), t);
    }
  }

  /** The search does not depend on the case of the term. */
  lemma SearchCaseInsensitive(animals: map<nat, Animal>, term: string)
    ensures forall id :: id in SearchAnimals(animals, term) <==> id in SearchAnimals(animals, Lower(term))
  {
    LowerIdempotent(term);
    assert term == "" <==> Lower(term) == "" by {
      assert |Lower(term)| == |term|;
    }
    forall a: Animal ensures SearchHit(a, term) == SearchHit(a, Lower(term)) {
    }
  }

  // -------------------------------------------------- date-range listings

  /** A row of a log listing is shown when its animal exists (the inner JOIN
      with Animal), its date lies in [start, end], and, unless "All" is
      chosen (None), it belongs to the chosen animal. */
  predicate Shown(animal: nat, date: Date, animals: map<nat, Animal>, start: Date, end: Date, who: Option<nat>) {
    animal in animals && Between(date, start, end) && (who.None? || animal == who.value)
  }

  /** Weight row `id` exists and is shown. */
  predicate WeightShown(weights: map<nat, Weight>, animals: map<nat, Animal>, start: Date, end: Date, who: Option<nat>, id: nat) {
    id in weights && Shown(weights[id].animal, weights[id].month, animals, start, end, who)
  }

  /** The key of `ORDER BY mw.month DESC`. */
  function WeightMonthKey(weights: map<nat, Weight>, id: nat): int {
    if id in weights then DateKey(weights[id].month) else 0
  }

  /** The Weight Tracking listing: the shown weight rows, each once, latest month first. */
  function WeightListing(weights: map<nat, Weight>, animals: map<nat, Animal>, start: Date, end: Date, who: Option<nat>): (r: seq<nat>)
    ensures NoDup(r)
    ensures forall id :: id in r <==> WeightShown(weights, animals, start, end, who, id)
    ensures forall i, j :: 0 <= i < j < |r| ==> WeightMonthKey(weights, r[i]) >= WeightMonthKey(weights, r[j])
  {
    // The order clause is proved pair by pair from NewestFirst's SortedDesc via
    // SortedDescPair; left to the solver, this instantiation is costly.
    var key := (id: nat) => WeightMonthKey(weights, id);
    var r := NewestFirst(weights.Keys, (id: nat) => WeightShown(weights, animals, start, end, who, id), key);
    assert forall i, j :: 0 <= i < j < |r| ==> WeightMonthKey(weights, r[i]) >= WeightMonthKey(weights, r[j]) by {
      forall i, j | 0 <= i < j < |r| ensures WeightMonthKey(weights, r[i]) >= WeightMonthKey(weights, r[j]) {
        SortedDescPair(r, key, i, j);
      }
    }
    r
  }

  /** Feed row `id` exists and is shown. */
  predicate FeedShown(feeds: map<nat, Feed>, animals: map<nat, Animal>, start: Date, end: Date, who: Option<nat>, id: nat) {
    id in feeds && Shown(feeds[id].animal, feeds[id].date, animals, start, end, who)
  }

  /** The key of `ORDER BY fr.date DESC`. */
  function FeedDateKey(feeds: map<nat, Feed>, id: nat): int {
    if id in feeds then DateKey(feeds[id].date) else 0
  }

  /** The Feed Records listing: the shown feed rows, each once, latest date first. */
  function FeedListing(feeds: map<nat, Feed>, animals: map<nat, Animal>, start: Date, end: Date, who: Option<nat>): (r: seq<nat>)
    ensures NoDup(r)
    ensures forall id :: id in r <==> FeedShown(feeds, animals, start, end, who, id)
    ensures forall i, j :: 0 <= i < j < |r| ==> FeedDateKey(feeds, r[i]) >= FeedDateKey(feeds, r[j])
  {
    // The order clause is proved pair by pair from NewestFirst's SortedDesc via
    // SortedDescPair; left to the solver, this instantiation is costly.
    var key := (id: nat) => FeedDateKey(feeds, id);
    var r := NewestFirst(feeds.Keys, (id: nat) => FeedShown(feeds, animals, start, end, who, id), key);
    assert forall i, j :: 0 <= i < j < |r| ==> FeedDateKey(feeds, r[i]) >= FeedDateKey(feeds, r[j]) by {
      forall i, j | 0 <= i < j < |r| ensures FeedDateKey(feeds, r[i]) >= FeedDateKey(feeds, r[j]) {
        SortedDescPair(r, key, i, j);
      }
    }
    r
  }

  /** Medicine row `id` exists and is shown. */
  predicate MedicineShown(medicines: map<nat, Medicine>, animals: map<nat, Animal>, start: Date, end: Date, who: Option<nat>, id: nat) {
    id in medicines && Shown(medicines[id].animal, medicines[id].date, animals, start, end, who)
  }

  /** The key of `ORDER BY mr.date DESC`. */
  function MedicineDateKey(medicines: map<nat, Medicine>, id: nat): int {
    if id in medicines then DateKey(medicines[id].date) else 0
  }

  /** The Medical Records listing: the shown medicine rows, each once, latest date first. */
  function MedicineListing(medicines: map<nat, Medicine>, animals: map<nat, Animal>, start: Date, end: Date, who: Option<nat>): (r: seq<nat>)
    ensures NoDup(r)
    ensures forall id :: id in r <==> MedicineShown(medicines, animals, start, end, who, id)
    ensures forall i, j :: 0 <= i < j < |r| ==> MedicineDateKey(medicines, r[i]) >= MedicineDateKey(medicines, r[j])
  {
    // The order clause is proved pair by pair from NewestFirst's SortedDesc via
    // SortedDescPair; left to the solver, this instantiation is costly.
    var key := (id: nat) => MedicineDateKey(medicines, id);
    var r := NewestFirst(medicines.Keys, (id: nat) => MedicineShown(medicines, animals, start, end, who, id), key);
    assert forall i, j :: 0 <= i < j < |r| ==> MedicineDateKey(medicines, r[i]) >= MedicineDateKey(medicines, r[j]) by {
      forall i, j | 0 <= i < j < |r| ensures MedicineDateKey(medicines, r[i]) >= MedicineDateKey(medicines, r[j]) {
        SortedDescPair(r, key, i, j);
      }
    }
    r
  }

  /** Expense row `id` exists (the listing has no WHERE). */
  predicate ExpenseRow(expenses: map<nat, Expense>, id: nat) {
    id in expenses
  }

  /** The key of `ORDER BY month DESC` on Expense_Summary. */
  function ExpenseMonthKey(expenses: map<nat, Expense>, id: nat): int {
    if id in expenses then DateKey(expenses[id].month) else 0
  }

  /** The Expense Summary table of the Financial Overview: every summary, each once, latest month first. */
  function ExpenseListing(expenses: map<nat, Expense>): (r: seq<nat>)
    ensures NoDup(r)
    ensures forall id :: id in r <==> id in expenses
    ensures forall i, j :: 0 <= i < j < |r| ==> ExpenseMonthKey(expenses, r[i]) >= ExpenseMonthKey(expenses, r[j])
  {
    // The order clause is proved pair by pair from NewestFirst's SortedDesc via
    // SortedDescPair; left to the solver, this instantiation is costly.
    var key := (id: nat) => ExpenseMonthKey(expenses, id);
    var r := NewestFirst(expenses.Keys, (id: nat) => ExpenseRow(expenses, id), key);
    assert forall i, j :: 0 <= i < j < |r| ==> ExpenseMonthKey(expenses, r[i]) >= ExpenseMonthKey(expenses, r[j]) by {
      forall i, j | 0 <= i < j < |r| ensures ExpenseMonthKey(expenses, r[i]) >= ExpenseMonthKey(expenses, r[j]) {
        SortedDescPair(r, key, i, j);
      }
    }
    r
  }

  /** Utility bill `id` exists (the listing has no WHERE). */
  predicate BillRow(bills: map<nat, UtilityBill>, id: nat) {
    id in bills
  }

  /** The key of `ORDER BY month DESC` on Utility_Bill. */
  function BillMonthKey(bills: map<nat, UtilityBill>, id: nat): int {
    if id in bills then DateKey(bills[id].month) else 0
  }

  /** The Utility Bills table of the Financial Overview: every bill, each once, latest month first. */
  function BillListing(bills: map<nat, UtilityBill>): (r: seq<nat>)
    ensures NoDup(r)
    ensures forall id :: id in r <==> id in bills
    ensures forall i, j :: 0 <= i < j < |r| ==> BillMonthKey(bills, r[i]) >= BillMonthKey(bills, r[j])
  {
    // The order clause is proved pair by pair from NewestFirst's SortedDesc via
    // SortedDescPair; left to the solver, this instantiation is costly.
    var key := (id: nat) => BillMonthKey(bills, id);
    var r := NewestFirst(bills.Keys, (id: nat) => BillRow(bills, id), key);
    assert forall i, j :: 0 <= i < j < |r| ==> BillMonthKey(bills, r[i]) >= BillMonthKey(bills, r[j]) by {
      forall i, j | 0 <= i < j < |r| ensures BillMonthKey(bills, r[i]) >= BillMonthKey(bills, r[j]) {
        SortedDescPair(r, key, i, j);
      }
    }
    r
  }

  // ------------------------------------------------ delete-guard counts

  /** A subset has at most as many elements as its superset. */
  lemma {:induction false} SubsetCount(a: set<nat>, b: set<nat>)
    requires a <= b
    ensures |a| <= |b|
    decreases |b|
  {
    if b != {} {
      var x :| x in b;
      SubsetCount(a - {x}, b - {x});
    }
  }

  /** The ids of the rows of `tab` that satisfy `keep`: the set a
      `SELECT COUNT(*) ... WHERE` counts. The count is at most the number of
      rows, and it is 0 exactly when no row satisfies the condition. */
  function RowsWhere<R>(tab: map<nat, R>, keep: R -> bool): (r: set<nat>)
    ensures forall id :: id in r <==> id in tab && keep(tab[id])
    ensures |r| <= |tab|
    ensures |r| == 0 <==> forall id :: id in tab ==> !keep(tab[id])
  {
    var r := set id | id in tab && keep(tab[id]);
    assert |r| == 0 ==> r == {};
    assert r == {} <==> forall id :: id in tab ==> !keep(tab[id]) by {
      if r == {} {
        forall id | id in tab ensures !keep(tab[id]) {
          assert id !in r;
        }
      }
      if forall id :: id in tab ==> !keep(tab[id]) {
        forall id | id in r ensures false { }
      }
    }
    SubsetCount(r, tab.Keys);
    r
  }

  /** `SELECT COUNT(*) FROM Animal WHERE category_id = c` counts this set. */
  function AnimalsInCategory(animals: map<nat, Animal>, c: nat): (r: set<nat>)
    ensures r <= animals.Keys && |r| <= |animals|
    ensures |r| == 0 <==> forall id :: id in animals ==> animals[id].category != Some(c)
  {
    RowsWhere(animals, (x: Animal) => x.category == Some(c))
  }

  /** `SELECT COUNT(*) FROM Monthly_Weight WHERE animal_id = a` counts this set. */
  function WeightsOf(weights: map<nat, Weight>, a: nat): (r: set<nat>)
    ensures r <= weights.Keys && |r| <= |weights|
    ensures |r| == 0 <==> forall id :: id in weights ==> weights[id].animal != a
  {
    RowsWhere(weights, (w: Weight) => w.animal == a)
  }

  /** `SELECT COUNT(*) FROM Feed_Record WHERE animal_id = a` counts this set. */
  function FeedsOf(feeds: map<nat, Feed>, a: nat): (r: set<nat>)
    ensures r <= feeds.Keys && |r| <= |feeds|
    ensures |r| == 0 <==> forall id :: id in feeds ==> feeds[id].animal != a
  {
    RowsWhere(feeds, (f: Feed) => f.animal == a)
  }

  /** `SELECT COUNT(*) FROM Medicine_Record WHERE animal_id = a` counts this set. */
  function MedicinesOf(medicines: map<nat, Medicine>, a: nat): (r: set<nat>)
    ensures r <= medicines.Keys && |r| <= |medicines|
    ensures |r| == 0 <==> forall id :: id in medicines ==> medicines[id].animal != a
  {
    RowsWhere(medicines, (m: Medicine) => m.animal == a)
  }

  // --------------------------------------------- lookups of the update forms

  /** Weight row `id` is the one the update form asks for: that month, and an
      animal with that tag (through the JOIN). Strings compare as the
      case-insensitive collation does. */
  predicate WeightMatches(weights: map<nat, Weight>, animals: map<nat, Animal>, month: Date, tag: string, id: nat) {
    id in weights && weights[id].month == month
    && weights[id].animal in animals && SameIgnoringCase(animals[weights[id].animal].tag, tag)
  }

  /** The row `fetchone()` gives the Update Weight Record form. */
  function FindWeight(weights: map<nat, Weight>, animals: map<nat, Animal>, month: Date, tag: string): (r: Option<nat>)
    ensures r.None? <==> forall id :: !WeightMatches(weights, animals, month, tag, id)
    ensures r.Some? ==> WeightMatches(weights, animals, month, tag, r.value)
    ensures r.Some? ==> forall id :: WeightMatches(weights, animals, month, tag, id) ==> r.value <= id
  {
    // The filter is named once and its meaning stated, so the proof uses
    // FindFirst's contract without unfolding the lambda at every id.
    var keep := (id: nat) => WeightMatches(weights, animals, month, tag, id);
    assert forall id: nat :: keep(id) == WeightMatches(weights, animals, month, tag, id);
    assert forall id :: WeightMatches(weights, animals, month, tag, id) ==> id in weights.Keys;
    FindFirst(weights.Keys, keep)
  }

  /** Feed row `id` has that date, tag and feed type, the strings compared up to case. */
  predicate FeedMatches(feeds: map<nat, Feed>, animals: map<nat, Animal>, date: Date, tag: string, feedType: string, id: nat) {
    id in feeds && feeds[id].date == date && SameIgnoringCase(feeds[id].feedType, feedType)
    && feeds[id].animal in animals && SameIgnoringCase(animals[feeds[id].animal].tag, tag)
  }

  /** The row `fetchone()` gives the Update Feed Record form. */
  function FindFeed(feeds: map<nat, Feed>, animals: map<nat, Animal>, date: Date, tag: string, feedType: string): (r: Option<nat>)
    ensures r.None? <==> forall id :: !FeedMatches(feeds, animals, date, tag, feedType, id)
    ensures r.Some? ==> FeedMatches(feeds, animals, date, tag, feedType, r.value)
    ensures r.Some? ==> forall id :: FeedMatches(feeds, animals, date, tag, feedType, id) ==> r.value <= id
  {
    // The filter is named once and its meaning stated, so the proof uses
    // FindFirst's contract without unfolding the lambda at every id.
    var keep := (id: nat) => FeedMatches(feeds, animals, date, tag, feedType, id);
    assert forall id: nat :: keep(id) == FeedMatches(feeds, animals, date, tag, feedType, id);
    assert forall id :: FeedMatches(feeds, animals, date, tag, feedType, id) ==> id in feeds.Keys;
    FindFirst(feeds.Keys, keep)
  }

  /** Medicine row `id` has that date, tag and medicine name, the strings compared up to case. */
  predicate MedicineMatches(medicines: map<nat, Medicine>, animals: map<nat, Animal>, date: Date, tag: string, name: string, id: nat) {
    id in medicines && medicines[id].date == date && SameIgnoringCase(medicines[id].name, name)
    && medicines[id].animal in animals && SameIgnoringCase(animals[medicines[id].animal].tag, tag)
  }

  /** The row `fetchone()` gives the Update Medical Record form. */
  function FindMedicine(medicines: map<nat, Medicine>, animals: map<nat, Animal>, date: Date, tag: string, name: string): (r: Option<nat>)
    ensures r.None? <==> forall id :: !MedicineMatches(medicines, animals, date, tag, name, id)
    ensures r.Some? ==> MedicineMatches(medicines, animals, date, tag, name, r.value)
    ensures r.Some? ==> forall id :: MedicineMatches(medicines, animals, date, tag, name, id) ==> r.value <= id
  {
    // The filter is named once and its meaning stated, so the proof uses
    // FindFirst's contract without unfolding the lambda at every id.
    var keep := (id: nat) => MedicineMatches(medicines, animals, date, tag, name, id);
    assert forall id: nat :: keep(id) == MedicineMatches(medicines, animals, date, tag, name, id);
    assert forall id :: MedicineMatches(medicines, animals, date, tag, name, id) ==> id in medicines.Keys;
    FindFirst(medicines.Keys, keep)
  }

  /** Expense row `id` has month date `d`. */
  predicate ExpenseOn(expenses: map<nat, Expense>, d: Date, id: nat) {
    id in expenses && expenses[id].month == d
  }

  /** `SELECT ... FROM Expense_Summary WHERE month = d` then `fetchone()`. */
  function FindExpense(expenses: map<nat, Expense>, d: Date): (r: Option<nat>)
    ensures r.None? <==> forall id :: !ExpenseOn(expenses, d, id)
    ensures r.Some? ==> ExpenseOn(expenses, d, r.value)
  {
    // The filter is named once and its meaning stated, so the proof uses
    // FindFirst's contract without unfolding the lambda at every id.
    var keep := (id: nat) => ExpenseOn(expenses, d, id);
    assert forall id: nat :: keep(id) == ExpenseOn(expenses, d, id);
    assert forall id :: ExpenseOn(expenses, d, id) ==> id in expenses.Keys;
    FindFirst(expenses.Keys, keep)
  }

  /** Utility bill `id` has month date `d` and type `kind`. */
  predicate BillOn(bills: map<nat, UtilityBill>, d: Date, kind: UtilityKind, id: nat) {
    id in bills && bills[id].month == d && bills[id].kind == kind
  }

  /** `SELECT ... FROM Utility_Bill WHERE month = d AND type = kind` then `fetchone()`. */
  function FindBill(bills: map<nat, UtilityBill>, d: Date, kind: UtilityKind): (r: Option<nat>)
    ensures r.None? <==> forall id :: !BillOn(bills, d, kind, id)
    ensures r.Some? ==> BillOn(bills, d, kind, r.value)
  {
    // The filter is named once and its meaning stated, so the proof uses
    // FindFirst's contract without unfolding the lambda at every id.
    var keep := (id: nat) => BillOn(bills, d, kind, id);
    assert forall id: nat :: keep(id) == BillOn(bills, d, kind, id);
    assert forall id :: BillOn(bills, d, kind, id) ==> id in bills.Keys;
    FindFirst(bills.Keys, keep)
  }

  // ------------------------------- month labels of the financial update forms

  /** A month column as the Financial Overview lists it: `strftime('%Y-%m')`. */
  datatype MonthLabel = MonthLabel(year: int, month: int)

  function LabelOf(d: Date): MonthLabel {
    MonthLabel(d.year, d.month)
  }

  /** `pd.to_datetime` of a 'YYYY-MM' label: the first day of that month. */
  function LabelDate(ym: MonthLabel): Date {
    Date(ym.year, ym.month, 1)
  }

  /** The expense row the Update Expense Summary form finds for the selected
      label, as the page does it: by equality with the first of the month. */
  function ExpenseForLabelAsWritten(expenses: map<nat, Expense>, ym: MonthLabel): (r: Option<nat>)
    ensures r.Some? ==> r.value in expenses && expenses[r.value].month == LabelDate(ym)
  {
    FindExpense(expenses, LabelDate(ym))
  }

  /** A summary dated on the 15th is listed under its month's label, yet the
      lookup for that label finds no row, so the update form never opens. */
  lemma ExpenseLabelMissesRow()
    ensures var expenses := map[1 := Summary(Date(2025, 3, 15), 100, 50, 2000, 150, 25)];
            1 in expenses && LabelOf(expenses[1].month) == MonthLabel(2025, 3)
            && ExpenseForLabelAsWritten(expenses, MonthLabel(2025, 3)).None?
  {
    var expenses := map[1 := Summary(Date(2025, 3, 15), 100, 50, 2000, 150, 25)];
    assert forall id :: !ExpenseOn(expenses, Date(2025, 3, 1), id);
  }

  /** Expense row `id` is listed under label `ym`. */
  predicate ExpenseUnder(expenses: map<nat, Expense>, ym: MonthLabel, id: nat) {
    id in expenses && LabelOf(expenses[id].month) == ym
  }

  /** The intended lookup: the first expense row listed under the label. */
  function ExpenseForLabel(expenses: map<nat, Expense>, ym: MonthLabel): (r: Option<nat>)
    ensures r.None? <==> forall id :: !ExpenseUnder(expenses, ym, id)
    ensures r.Some? ==> ExpenseUnder(expenses, ym, r.value)
  {
    // The filter is named once and its meaning stated, so the proof uses
    // FindFirst's contract without unfolding the lambda at every id.
    var keep := (id: nat) => ExpenseUnder(expenses, ym, id);
    assert forall id: nat :: keep(id) == ExpenseUnder(expenses, ym, id);
    assert forall id :: ExpenseUnder(expenses, ym, id) ==> id in expenses.Keys;
    FindFirst(expenses.Keys, keep)
  }

  /** Every listed expense row can be reached from its own label. */
  lemma ExpenseLabelFindsRow(expenses: map<nat, Expense>, id: nat)
    requires id in expenses
    ensures ExpenseForLabel(expenses, LabelOf(expenses[id].month)).Some?
  {
    assert ExpenseUnder(expenses, LabelOf(expenses[id].month), id);
  }

  /** The utility bill the Update Utility Bill form finds for the selected
      'YYYY-MM - Type' option, as the page does it. */
  function BillForLabelAsWritten(bills: map<nat, UtilityBill>, ym: MonthLabel, kind: UtilityKind): (r: Option<nat>)
    ensures r.Some? ==> r.value in bills && bills[r.value].month == LabelDate(ym) && bills[r.value].kind == kind
  {
    FindBill(bills, LabelDate(ym), kind)
  }

  /** A bill dated on the 10th is listed as "2025-03 - Water", yet the lookup
      for that option finds no bill. */
  lemma BillLabelMissesRow()
    ensures var bills := map[1 := UtilityBill(Date(2025, 3, 10), Water, 4200)];
            1 in bills && LabelOf(bills[1].month) == MonthLabel(2025, 3)
            && BillForLabelAsWritten(bills, MonthLabel(2025, 3), Water).None?
  {
    var bills := map[1 := UtilityBill(Date(2025, 3, 10), Water, 4200)];
    assert forall id :: !BillOn(bills, Date(2025, 3, 1), Water, id);
  }

  /** Utility bill `id` has type `kind` and is listed under label `ym`. */
  predicate BillUnder(bills: map<nat, UtilityBill>, ym: MonthLabel, kind: UtilityKind, id: nat) {
    id in bills && LabelOf(bills[id].month) == ym && bills[id].kind == kind
  }

  /** The intended lookup: the first bill of that type listed under the label. */
  function BillForLabel(bills: map<nat, UtilityBill>, ym: MonthLabel, kind: UtilityKind): (r: Option<nat>)
    ensures r.None? <==> forall id :: !BillUnder(bills, ym, kind, id)
    ensures r.Some? ==> BillUnder(bills, ym, kind, r.value)
  {
    // The filter is named once and its meaning stated, so the proof uses
    // FindFirst's contract without unfolding the lambda at every id.
    var keep := (id: nat) => BillUnder(bills, ym, kind, id);
    assert forall id: nat :: keep(id) == BillUnder(bills, ym, kind, id);
    assert forall id :: BillUnder(bills, ym, kind, id) ==> id in bills.Keys;
    FindFirst(bills.Keys, keep)
  }

  /** Every listed bill can be reached from its own option. */
  lemma BillLabelFindsRow(bills: map<nat, UtilityBill>, id: nat)
    requires id in bills
    ensures BillForLabel(bills, LabelOf(bills[id].month), bills[id].kind).Some?
  {
    assert BillUnder(bills, LabelOf(bills[id].month), bills[id].kind, id);
  }
}
