# Farm records: a verified model of the record-keeping rules

The cattle-farm dashboard keeps eight MySQL tables:
- animal categories, animals and staff;
- the monthly weights, feed records and medicine records of each animal;
- utility bills and monthly expense summaries.

The Dashboard only reads. Every other page has an add form and an update form,
and the Categories, Animals and Staff pages also have a delete form. Each
form submission runs a few checks in the page handler and then sends one
INSERT, UPDATE or DELETE. The schema adds its own constraints to those checks:
UNIQUE columns, FOREIGN KEYs and VARCHAR widths.

This project models the database as an in-memory store: one map per table,
keyed by the AUTO_INCREMENT id, plus the next id of each table. Each form
submission is one method on the store. The read side is a set of pure
functions over the table maps: the animal search, the date-range listings
sorted newest first, the COUNT(*) queries of the delete guards, and the
lookups the update forms use.

Modules:
- `FarmTypes` (`farm_types.dfy`): the rows of the eight tables and the errors a submission can end in. It also holds the value-level rules the handlers share: Python truthiness (an empty string and a numeric 0 count as missing), the VARCHAR widths, keeping the stored image when nothing is uploaded, and the expense total.
- `Text` (`text.dfy`): `str.lower()` on ASCII letters, string equality up to letter case (the collation's `=`), and Python's substring test `needle in haystack`. The substring test is proved equivalent to "occurs at some position".
- `Listing` (`listing.dfy`): the query shapes the pages share. These are a table scan, WHERE (keeping scan order), ORDER BY ... DESC (in the model, a stable sort over the ascending-id scan), and `fetchone()` (the first matching row of the scan). SQL fixes no row order for a SELECT without ORDER BY; the model takes the scan to be in ascending id order, so `fetchone()` gives the matching row with the least id.
- `FarmQueries` (`farm_queries.dfy`): the read side of every page, and the month-label lookups of the Financial Overview update forms.
- `FarmStore` (`farm_store.dfy`): the class `FarmDb`. Its ghost predicate `Valid()` states what the schema and the handlers keep true:
  - ids lie below the table's counter;
  - category names and animal tags are unique up to letter case, as the case-insensitive collation of the UNIQUE indexes makes them;
  - every animal's category exists;
  - every weight, feed and medicine row's animal exists;
  - every expense total equals the sum of its components.

  Every method keeps `Valid()`, and its frame names only the table it writes. Its contract gives the complete outcome: which error is returned in which case, and which row the table gains, changes or loses.
- `Scenarios` (`scenarios.dfy`): short clients that use only the method contracts. They show:
  - duplicate names and tags are refused;
  - an initial weight of 0 is refused;
  - both delete guards refuse;
  - an expense total is the sum of what was entered.

Order of checks in each write: the handler's own required-field test comes first. Then come the VARCHAR widths (strict SQL mode rejects a value that is too long), then UNIQUE, then the FOREIGN KEY. An UPDATE or DELETE whose id matches no row changes nothing and is not an error, so the model returns `Ok(false)` or `found == false`.

Amounts and weights are integers, standing for the smallest step of each number input. A DATE is a year, a month and a day. Dates are compared by the key `year * 10000 + month * 100 + day`, which follows calendar order for real dates. Image uploads are byte sequences, and `None` means nothing was uploaded or a NULL column.

## Model

| member | source | states |
|---|---|---|
| FarmStore.FarmDb.constructor | app.py:38-118 | the schema starts as eight empty tables whose AUTO_INCREMENT counters are at 1, and the store invariant holds |
| FarmStore.FarmDb.AddCategory | app.py:431-445 | an empty name gives MissingRequired; a name over 100 characters gives TooLong; a name equal to an existing one up to letter case gives DuplicateCategoryName (UNIQUE under the case-insensitive collation, app.py:41); in each of these cases the table is unchanged; otherwise exactly one row with a fresh id is added |
| FarmStore.FarmDb.UpdateCategory | app.py:471-482 | rewrites name, description and image of the chosen row; the stored image is kept when nothing is uploaded; a name used by another category, up to letter case, or wider than the column is refused; an id that matches no row changes nothing |
| FarmStore.FarmDb.DeleteCategory | app.py:504-514 | refused with the exact number of animals in the category when it is above 0; otherwise exactly that row is removed; no animal is left pointing at a missing category (FOREIGN KEY, app.py:55) |
| FarmStore.FarmDb.AddAnimal | app.py:617-632 | an empty tag or an initial weight of 0 gives MissingRequired; widths are checked next, then the UNIQUE tag, compared up to letter case (app.py:49), then the category FOREIGN KEY (app.py:55); only a clean submission adds exactly one row, with the breed as entered |
| FarmStore.FarmDb.UpdateAnimal | app.py:688-701 | rewrites every column of the chosen row with no required-field check; the tag must stay unique, up to letter case, among the other animals and the category must exist; the stored image is kept when nothing is uploaded |
| FarmStore.FarmDb.DeleteAnimal | app.py:723-739 | refused when the animal has any weight, feed or medicine row, reporting the exact number of each; otherwise exactly that row is removed, and every log row still references an existing animal (app.py:85, app.py:96, app.py:108) |
| FarmStore.FarmDb.AddWeight | app.py:828-840 | no field is checked; the animal must exist (FOREIGN KEY, app.py:85); exactly one row is added |
| FarmStore.FarmDb.UpdateWeight | app.py:875-879 | only weight_kg of the row with that id changes; every other row and column is kept |
| FarmStore.FarmDb.AddFeed | app.py:978-992 | feed type, a non-zero quantity and a non-zero cost are required; the feed type must fit VARCHAR(100); the animal must exist; exactly one row is added |
| FarmStore.FarmDb.UpdateFeed | app.py:1035-1039 | only quantity_kg and cost of the row with that id change |
| FarmStore.FarmDb.AddMedicine | app.py:1139-1153 | medicine name, quantity text and a non-zero cost are required; name and quantity must fit their columns (app.py:104-105); the animal must exist; exactly one row is added |
| FarmStore.FarmDb.UpdateMedicine | app.py:1194-1198 | only quantity, cost and remarks of the row with that id change; a quantity wider than VARCHAR(50) is refused and changes nothing |
| FarmStore.FarmDb.AddStaff | app.py:1277-1291 | name, role and a non-zero salary are required; name and role must fit VARCHAR(100); exactly one row is added |
| FarmStore.FarmDb.UpdateStaff | app.py:1327-1338 | rewrites name, role, salary and photo of the chosen row; the stored photo is kept when nothing is uploaded |
| FarmStore.FarmDb.DeleteStaff | app.py:1357-1365 | removes the row without any dependency check; reports whether it was there |
| FarmStore.FarmDb.AddExpense | app.py:1444-1458 | adds one summary whose stored total is the sum of the five components written with it |
| FarmStore.FarmDb.UpdateExpense | app.py:1498-1513 | rewrites the five components of the row with the given expense_id and recomputes the total from exactly those five; the month stays |
| FarmStore.FarmDb.AddBill | app.py:1563-1574 | no field is checked; exactly one bill is added |
| FarmStore.FarmDb.UpdateBill | app.py:1609-1613 | only the amount of the row with that id changes |
| FarmStore.CategoryDeleteKeepsAnimals | app.py:504-510 | when no animal is in category c, removing c keeps every animal's category existing |
| FarmStore.AnimalDeleteKeepsLogs | app.py:723-735 | when animal a has no weight, feed or medicine row, removing a keeps every log row's animal existing |
| FarmTypes.Summary | app.py:1445-1452 | the written row carries the five components as entered, and its total is their sum |
| Text.Lower | app.py:556-558 | lower-casing keeps the length and maps each character on its own, A-Z to a-z |
| Text.LowerIdempotent | app.py:556-558 | lower-casing a lower-cased string changes nothing |
| Text.SameIgnoringCaseIff | app.py:41-49 | the collation's string equality the UNIQUE columns use: two strings are the same exactly when they have equal length and agree at every position once lower-cased |
| Text.ContainsIff | app.py:556-558 | the substring test holds exactly when the needle occurs at some position of the haystack |
| Listing.KeysAscending | app.py:546-551 | a table scan yields every id of the table once; the model takes ascending id order for the order SQL leaves unspecified |
| Listing.NewestFirst | app.py:775-789 | WHERE plus ORDER BY ... DESC yields each matching row exactly once, and no other row, in non-increasing key order |
| Listing.FindFirst | app.py:857-863 | `fetchone()` after WHERE gives None exactly when no row matches; otherwise it gives a matching row, which the model takes to be the one with the least id |
| FarmQueries.SearchAnimals | app.py:553-560 | an empty term shows every animal; otherwise exactly the animals whose lower-cased tag, or lower-cased set breed, contains the lower-cased term; the listing's order is kept, which the model takes to be ascending id |
| FarmQueries.SearchHitIff | app.py:556-558 | an animal matches exactly when the lower-cased term occurs at some position of the lower-cased tag, or of the lower-cased breed when a non-empty breed is set |
| FarmQueries.SearchCaseInsensitive | app.py:555-558 | a term and its lower-cased form select the same animals |
| FarmQueries.WeightListing | app.py:773-789 | exactly the weight rows whose animal exists, whose month lies in [start, end] inclusive, and, unless "All" is chosen, that belong to the chosen animal; each once; latest month first |
| FarmQueries.FeedListing | app.py:917-933 | exactly the feed rows whose animal exists, whose date lies in [start, end], and that belong to the chosen animal unless "All" is chosen; each once; latest date first |
| FarmQueries.MedicineListing | app.py:1077-1093 | exactly the medicine rows whose animal exists, whose date lies in [start, end], and that belong to the chosen animal unless "All" is chosen; each once; latest date first |
| FarmQueries.ExpenseListing | app.py:1389 | every expense summary exactly once, latest month first |
| FarmQueries.BillListing | app.py:1521 | every utility bill exactly once, latest month first |
| FarmQueries.RowsWhere | app.py:723-730 | the ids a `SELECT COUNT(*) ... WHERE` counts: exactly the rows that satisfy the condition; at most the number of rows, and 0 exactly when no row satisfies it |
| FarmQueries.AnimalsInCategory | app.py:504-507 | the set `SELECT COUNT(*) FROM Animal WHERE category_id = c` counts: animals of the table in category c; the count is at most the number of animals and is 0 exactly when no animal is in c |
| FarmQueries.WeightsOf | app.py:723-724 | the weight rows of animal a that the guard counts; at most the number of weight rows, and 0 exactly when no weight row belongs to a |
| FarmQueries.FeedsOf | app.py:726-727 | the feed rows of animal a that the guard counts; at most the number of feed rows, and 0 exactly when no feed row belongs to a |
| FarmQueries.MedicinesOf | app.py:729-730 | the medicine rows of animal a that the guard counts; at most the number of medicine rows, and 0 exactly when no medicine row belongs to a |
| FarmQueries.FindWeight | app.py:857-863 | the weight row the update form edits: None exactly when no row has that month and an animal with that tag, compared up to letter case; otherwise such a row, which the model takes to be the one with the least id |
| FarmQueries.FindFeed | app.py:1013-1019 | the feed row the update form edits: None exactly when no row has that date, tag and feed type, the strings compared up to letter case; otherwise such a row, which the model takes to be the one with the least id |
| FarmQueries.FindMedicine | app.py:1174-1180 | the medicine row the update form edits: None exactly when no row has that date, tag and medicine name, the strings compared up to letter case; otherwise such a row, which the model takes to be the one with the least id |
| FarmQueries.FindExpense | app.py:1470-1472 | None exactly when no summary has that month date; otherwise a summary with that month |
| FarmQueries.FindBill | app.py:1592-1597 | None exactly when no bill has that month date and type; otherwise such a bill |
| FarmQueries.ExpenseForLabelAsWritten | app.py:1468-1472 | the page's lookup for a 'YYYY-MM' label finds only a summary dated on the first of that month |
| FarmQueries.ExpenseLabelMissesRow | app.py:1468-1472 | a summary dated 2025-03-15 is listed under '2025-03', yet the page's lookup for that label finds nothing |
| FarmQueries.ExpenseForLabel | app.py:1468-1472 | the intended lookup: None exactly when no summary is listed under the label; otherwise a summary listed under it |
| FarmQueries.ExpenseLabelFindsRow | app.py:1468-1472 | every listed summary is found from its own label |
| FarmQueries.BillForLabelAsWritten | app.py:1584-1597 | the page's lookup for a 'YYYY-MM - Type' option finds only a bill dated on the first of that month |
| FarmQueries.BillLabelMissesRow | app.py:1584-1597 | a water bill dated 2025-03-10 is listed as '2025-03 - Water', yet the page's lookup for that option finds nothing |
| FarmQueries.BillForLabel | app.py:1584-1597 | the intended lookup: None exactly when no bill of that type is listed under the label; otherwise such a bill |
| FarmQueries.BillLabelFindsRow | app.py:1584-1597 | every listed bill is found from its own month label and type |

## Left out

- Streamlit rendering, CSS, sidebar navigation and the session-state flags that show and hide the forms: these are user interface. Which form is open is a parameter of the caller.
- The MySQL connection, the cursor lifecycle, and the execution of the table-creating DDL: these are I/O. Only the constraints the DDL declares are modelled, on a store that starts empty.
- A failed connection and other driver errors: I/O outside the model.
- Floating point: the FLOAT columns are integers here (cents, tenths of a kilogram), so IEEE rounding of sums is not modelled.
- The dashboard aggregates (averages, counts), the total feed and medical cost metrics, the Plotly charts, PIL image decoding and the pandas conversions: display computations over library code.
- The race between a delete guard's COUNT(*) and its DELETE, and concurrent last-write-wins edits: concurrency.
- The " - "-joined selectbox labels of the weight, feed and medicine update forms, and how they are split back into a lookup key: presentation strings. The model's lookups take the key directly (FindWeight, FindFeed, FindMedicine).
- The Animals page maps category names to ids (app.py:540) and then sets the "Uncategorized" entry to NULL (app.py:541), which overwrites a real category named "Uncategorized". Such a category cannot be chosen in the add and update forms (app.py:607, app.py:665), and an update of an animal in it (app.py:662, app.py:689) sets that animal's category to NULL. The model takes the category id (or None) directly, so it does not capture this.
- The schema is created in database `farm` (app.py:33-35), while every page connects to `farm_v5` (app.py:19). The modelled UNIQUE, FOREIGN KEY and width constraints assume `farm_v5` has the same schema.
- FarmStore.FarmDb.AddCategory: a name refused by UNIQUE, a width or a foreign key does not consume an AUTO_INCREMENT value in the model, whereas InnoDB may skip that id. The same holds for AddAnimal, AddWeight, AddFeed and AddMedicine. Ids still stay fresh and increasing. Names are compared with ASCII letters folded (Text.SameIgnoringCase); the default MySQL collation also equates accented and non-ASCII case variants ("É" and "e"), which the model treats as different names.
- FarmStore.FarmDb.UpdateCategory: the name is compared with other names with ASCII letters folded only, so accented and non-ASCII case variants that the collation equates are accepted as different.
- FarmStore.FarmDb.AddAnimal: the tag is compared with ASCII letters folded only, so tags that differ by accents or by non-ASCII case are accepted although the UNIQUE index refuses them.
- FarmStore.FarmDb.UpdateAnimal: the same ASCII-only folding of the tag as AddAnimal.
- FarmStore.NamesUnique: states uniqueness with ASCII letters folded, which is weaker than the collation's uniqueness for accented and non-ASCII names.
- FarmStore.TagsUnique: the same ASCII-only folding for tags.
- FarmQueries.FindWeight: the tag is compared with ASCII letters folded only, not with the collation's accent-insensitive equality.
- FarmQueries.FindFeed: the tag and the feed type are compared with ASCII letters folded only, so a row whose feed type differs only by an accent is not matched, whereas `fr.feed_type = %s` matches it.
- FarmQueries.FindMedicine: the tag and the medicine name are compared with ASCII letters folded only, so a name that differs only by an accent or a non-ASCII case is not matched, whereas `mr.medicine_name = %s` matches it.
- Text.Lower: maps only A-Z; Python's `str.lower()` also lower-cases non-ASCII letters.
- TEXT and LONGBLOB size limits (description, remarks, images): far beyond any form input.
- The listings return row ids; the joined display columns (tag, breed) are read from the animal table by the caller.
- ORDER BY returns rows with equal dates in an order MySQL does not fix; the model keeps them in primary-key order, which is one of the allowed orders.
- Listing.KeysAscending: a SELECT without ORDER BY (the animal listing, and every update-form lookup before `fetchone()`) has no order in SQL; the model fixes it to ascending id, so SearchAnimals, FindFirst, FindWeight, FindFeed and FindMedicine state that one allowed order rather than any order the server may return.
- Dates are not checked for being real calendar dates; the date pickers only produce real ones.

## Findings

| source | as written | input that shows it | evidently intended | confidence | as-written member | corrected member |
|---|---|---|---|---|---|---|
| app.py:1468-1472 | the Update Expense Summary form lists months as 'YYYY-MM' strings and looks the row up with `month = pd.to_datetime(label)`, that is, the first day of that month | a summary added with month 2025-03-15 (the date picker allows any day) is listed as '2025-03', but the lookup compares against 2025-03-01, finds no row, and the form shows no fields | find the summary listed under the selected label | high, not executed | FarmQueries.ExpenseForLabelAsWritten, FarmQueries.ExpenseLabelMissesRow | FarmQueries.ExpenseForLabel, FarmQueries.ExpenseLabelFindsRow |
| app.py:1584-1597 | the Update Utility Bill form splits the 'YYYY-MM - Type' option and looks the bill up with `month = pd.to_datetime('YYYY-MM').date()`, the first of the month | a water bill added with month 2025-03-10 is listed as '2025-03 - Water', but no bill has month 2025-03-01, so nothing can be updated | find the bill of that type listed under the selected month | high, not executed | FarmQueries.BillForLabelAsWritten, FarmQueries.BillLabelMissesRow | FarmQueries.BillForLabel, FarmQueries.BillLabelFindsRow |
