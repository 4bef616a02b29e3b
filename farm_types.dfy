/**
  Rows of the eight tables of the farm database, the errors a form
  submission can end in, and the small value-level rules the page handlers
  share (Python truthiness, VARCHAR widths, keeping an image on update).
 */
module FarmTypes {

  datatype Option<+T> = None | Some(value: T)

  /** Outcome of one form submission: a value on success, the reason otherwise. */
  datatype Result<+T> = Ok(value: T) | Err(error: Error)

  /** Why a submission did not change the store. */
  datatype Error =
    | MissingRequired                 // the handler's own truthiness check on required fields
    | TooLong                         // a value wider than its VARCHAR column (strict SQL mode)
    | DuplicateCategoryName           // UNIQUE on Animal_Category.name
    | DuplicateTag                    // UNIQUE on Animal.tag_number
    | UnknownCategory                 // FOREIGN KEY Animal.category_id
    | UnknownAnimal                   // FOREIGN KEY animal_id of the three log tables
    | CategoryInUse(animals: nat)     // the delete guard found animals in the category
    | AnimalHasRecords(weights: nat, feeds: nat, medicines: nat)

  /** Image bytes stored inline in a LONGBLOB column. */
  type Blob = seq<bv8>

  /** A DATE column value. */
  datatype Date = Date(year: int, month: int, day: int)

  /** Dates are compared by this key; for months 1..12 and days 1..31 its
      order is the calendar order. */
  function DateKey(d: Date): int {
    d.year * 10000 + d.month * 100 + d.day
  }

  /** SQL `d BETWEEN lo AND hi`: both bounds inclusive. */
  predicate Between(d: Date, lo: Date, hi: Date) {
    DateKey(lo) <= DateKey(d) <= DateKey(hi)
  }

  // Widths of the VARCHAR columns declared by the schema.
  const CategoryNameWidth: nat := 100
  const TagWidth: nat := 50
  const BreedWidth: nat := 100
  const StaffNameWidth: nat := 100
  const StaffRoleWidth: nat := 100
  const FeedTypeWidth: nat := 100
  const MedicineNameWidth: nat := 100
  const MedicineQuantityWidth: nat := 50

  /** A string value fits a VARCHAR(width) column. */
  predicate Fits(s: string, width: nat) {
    |s| <= width
  }

  /** Python truthiness of a text input: the empty string is false. */
  predicate Present(s: string) {
    s != ""
  }

  /** Python truthiness of a number input: 0 is false. */
  predicate NonZero(x: int) {
    x != 0
  }

  /** Python truthiness of a nullable text column: NULL and "" are false. */
  predicate PresentOpt(s: Option<string>) {
    s.Some? && s.value != ""
  }

  /** `new_image.read() if new_image else <stored image>`. */
  function KeepImage(upload: Option<Blob>, stored: Option<Blob>): Option<Blob> {
    if upload.Some? then upload else stored
  }

  datatype Category = Category(name: string, description: string, image: Option<Blob>)

  datatype Animal = Animal(
    tag: string,
    category: Option<nat>,     // None is a NULL category_id: uncategorized
    breed: Option<string>,
    arrival: Date,
    initialWeight: int,
    image: Option<Blob>)

  datatype StaffMember = StaffMember(name: string, role: string, salary: int, image: Option<Blob>)

  datatype Weight = Weight(animal: nat, month: Date, weightKg: int)

  datatype Feed = Feed(animal: nat, date: Date, feedType: string, quantityKg: int, cost: int)

  datatype Medicine = Medicine(
    animal: nat, date: Date, name: string, quantity: string, cost: int, remarks: string)

  /** The five choices of the bill-type select box. */
  datatype UtilityKind = Electricity | Water | Gas | Internet | OtherUtility

  datatype UtilityBill = UtilityBill(month: Date, kind: UtilityKind, amount: int)

  datatype Expense = Expense(
    month: Date,
    feedCost: int,
    medicineCost: int,
    salaries: int,
    utilities: int,
    other: int,
    total: int)

  /** The stored total of an expense summary is the sum of its five components. */
  predicate TotalMatches(e: Expense) {
    e.total == e.feedCost + e.medicineCost + e.salaries + e.utilities + e.other
  }

  /** The row an expense form writes: the five components as entered and the
      total computed from exactly those five. */
  function Summary(month: Date, feed: int, medicine: int, salaries: int, utilities: int, other: int): (e: Expense)
    ensures TotalMatches(e)
    ensures e.month == month && e.feedCost == feed && e.medicineCost == medicine
    ensures e.salaries == salaries && e.utilities == utilities && e.other == other
  {
    var total := feed + medicine + salaries + utilities + other;
    Expense(month, feed, medicine, salaries, utilities, other, total)
  }
}
