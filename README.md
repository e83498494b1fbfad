# Shopping-list item store

A model of the route layer of a small Express service that keeps a shopping
list in memory. The list is an ordered sequence of `{name, price}` records
shared by five handlers:

| request | handler | answer |
|---|---|---|
| `GET /items` | `ItemStore.List` | 200, the list as stored |
| `POST /items` | `ItemStore.Create` | 201 `{added: item}`, or 400 `{error: "Name and price are required"}` |
| `GET /items/:name` | `ItemStore.Get` | 200 item, or 404 `{error: "Item not found"}` |
| `PATCH /items/:name` | `ItemStore.Update` | 200 `{updated: item}`, or 404 `{error: "Item not found"}` |
| `DELETE /items/:name` | `ItemStore.Delete` | 200 `{message: "Deleted"}`, or 404 `{error: "Item not found"}` |

Files:

- `items.dfy` (module `Items`): the `Item` record, the request `Body` with
  optional (possibly `undefined`) fields, and the pure operations the handlers
  perform on the list. These are the first-match search behind `find` and
  `findIndex`, the one-element `splice`, and the field-by-field overwrite of a
  PATCH. The module also holds the lemmas relating them: create-then-get,
  update-then-get, delete-then-get, and occurrence counts under delete.
- `routes.dfy` (module `Routes`): the `Response` value (a status plus one
  payload shape) and the class `ItemStore`. Its field `items` is the shared
  array. `Create`, `Update` and `Delete` change that field in place, and their
  contracts state the whole new list. `List` and `Get` only read it. `Session`
  is a client that sends, to one store, a request sequence modelled on the
  repository's tests (routes.test.js). It covers every request the tests
  make, including the `cheerios` POST and the DELETE of `nonexistent`. It also
  deletes `new popsicle` a second time and checks for 404. It differs from the
  tests in two ways. The list is not cleared between requests. And `popsicle`
  is created through POST instead of being pushed onto the list directly.

Duplicate names are allowed; every lookup, update and delete acts on the
first match in insertion order. Names are compared exactly (case-sensitive).

Two places where the source and its tests disagree:

- Rejected POST: routes.js:32 answers 404 with "Name and Price are required".
  The tests (routes.test.js:35-36) expect 400 with "Name and price are
  required". The model leaves the list untouched on rejection, as the source
  does, and answers with the tests' status and message.
- Successful PATCH: routes.js:83 calls `res.json(updated, item)`, where
  `updated` is an undefined identifier. The tests (routes.test.js:62) expect
  `{updated: item}` holding the item after the update. The model applies the
  field assignments exactly as the source does and answers with the tests'
  shape.

The tests at routes.test.js:43-45 and 57-63 rely on a `popsicle` item left by
an earlier test even though the list is cleared before each test
(routes.test.js:5-7). No property here depends on that shared state. `Session`
creates the item itself.

## Model

| member | source | states |
|---|---|---|
| Items.FirstIndex | routes.js:97 | the result is -1 exactly when no item has the name; otherwise it is an index whose item has the name, with no earlier item having it |
| Items.FirstIndexUnique | routes.js:97 | any matching index with no match before it is the index the search returns, so "first match" is determined |
| Items.Find | routes.js:52 | `undefined` (None) exactly when no item has the name; otherwise the item returned has the name and sits at a position with no earlier match |
| Items.RemoveAt | routes.js:105 | splicing out index i shortens the list by one, keeps the elements before i, shifts the later ones down by one in order, and removes exactly that one element from the multiset |
| Items.Patched | routes.js:80-81 | each field is overwritten with the body's value when the body defines it and keeps its old value otherwise |
| Items.PatchedIdempotent | routes.js:80-81 | applying the same PATCH body twice gives the same item as applying it once |
| Items.PatchedEmptyBody | routes.js:77-81 | a body defining neither field leaves the item unchanged |
| Items.CountAppend | routes.js:37 | the number of items with a name is additive over concatenation |
| Items.CountZeroIffAbsent | routes.js:97-102 | the search reports -1 exactly when no item with that name is counted |
| Items.RemoveAtCount | routes.js:105 | the splice removes one occurrence of the removed item's name and none of any other name |
| Items.RemoveFirstThenFind | routes.js:97-105 | after the splice removes the first item with a name, the next lookup of that name gives exactly what a lookup among the items after the removed position gives |
| Items.DeleteThenFind | routes.js:95-109 | after deleting the first match, a lookup of the same name fails when that was the only copy and succeeds when duplicates remain, and the item it then finds is the first one with that name after the deleted position |
| Items.AppendThenFind | routes.js:36-59 | after an item is pushed, a search for its name returns the earlier first match if there was one and the new last index otherwise |
| Items.SetThenFind | routes.js:71-81 | after the item at the first match is overwritten, a lookup of its (possibly new) name finds exactly that item when no earlier item bears that name |
| Routes.ItemStore.constructor | routes.test.js:5-7 | the store starts with an empty list |
| Routes.ItemStore.List | routes.js:14-16 | answers 200 with the list exactly as stored, in insertion order, and changes nothing |
| Routes.ItemStore.Create | routes.js:27-41 | with a falsy name (`undefined` or empty) or an undefined price the list is unchanged and the answer is 400 with the error message; otherwise exactly `{name, price}` is appended after all earlier items and the answer is 201 `{added: item}`; a price of 0 is accepted |
| Routes.ItemStore.Get | routes.js:51-59 | answers 200 exactly when some item has the name, and then with the first such item; otherwise 404 "Item not found"; the list is not changed |
| Routes.ItemStore.Update | routes.js:70-84 | with no match the list is unchanged and the answer is 404; otherwise only the first matching item changes, its fields overwritten where the body defines them, the length and every other item are kept, and the answer is 200 `{updated: item}` holding the item after the update |
| Routes.ItemStore.Delete | routes.js:95-109 | with no match the list is unchanged and the answer is 404; otherwise exactly the element at the first matching index is removed, the rest keep their order, one occurrence of the name disappears, and the answer is 200 `{message: "Deleted"}` |

## Left out

- app.js: building the Express application, JSON body parsing, listening on
  port 3000 and logging are framework start-up and I/O with no logic.
- Express routing, path-parameter extraction and the JSON serialisation done
  by `res.json` / `res.status`: a response is a plain `Response` value.
- The `fakeDB` module is not part of this model; only its role as the shared
  mutable array is modelled, as the field `ItemStore.items`. Its initial
  contents are not known. The store starts empty, which is the state the tests
  set before each case (`items.length = 0`, routes.test.js:5-7).
- Prices are opaque integers (cents). The source never computes with a price,
  so floating-point values are not modelled. A JSON `null` price counts as a
  defined value, as it does for `price === undefined`.
- Names are strings. Non-string JSON values for `name` (numbers, booleans,
  `null`) are not modelled, so the truthiness test covers `undefined` and the
  empty string only.
- Items are values in a sequence. The source mutates the found object, and the
  model writes the new value back at the same index. No other reference to a
  stored item outlives a request, since every response is serialised at once.
- Routes.ItemStore.Create: on rejection it answers 400 "Name and price are
  required", the contract the tests assert, instead of the literal 404 "Name
  and Price are required" of routes.js:32.
- Routes.ItemStore.Update: on success it answers `{updated: item}`, the
  contract the tests assert, instead of the literal call with an undefined
  identifier at routes.js:83 (whose failure inside Express is not modelled).
- Concurrency: there is none; handlers run one at a time.
