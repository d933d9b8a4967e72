# Fruits and Vegetables catalogue — a Dafny model

This project models the core of a small read-only web service: a catalogue of
two fixed, ordered lists of records (ten fruits, twenty vegetables), the two
listing endpoints, the root information endpoint, and the lookup of one record
by name. A lookup lowers both the stored `name` and the query, scans the list
in order and returns the first record whose lowered name equals the lowered
query; when none does it returns a not-found marker carrying the message
"Fruit not found" or "Vegetable not found".

Three modules:

- `Lowercase` (`lowercase.dfy`): the model of `str.lower()` on ASCII, and the
  facts about it the lookups rely on.
- `Catalog` (`catalog.dfy`): the `Item` record, the `ItemList` envelope with
  its invariant `count == |items|`, the two constant lists, and the proof that
  the names in each list are distinct up to letter case.
- `Service` (`service.dfy`): the first-match scan, the lookup, the endpoints,
  and the lemmas about them (first match, completeness of not-found,
  case-insensitivity, only `name` is compared, each entry is found by its own
  name).

Every operation is a function of its input and the constant lists. Nothing
assigns to the lists, so no operation can change them, and `Root` always
returns the same record.

Bottle Gourd's local name is "Lauki", but the lookup compares `name` only,
never `local_name` (main.py:92), so a query "Lauki" returns the not-found
marker (`Service.LaukiNotFound`).

## Model

| member | source | states |
|---|---|---|
| `Lowercase.LowerChar` | main.py:84 | the result is never an upper-case ASCII letter; it differs from the input exactly when the input is upper-case, and then by the fixed case offset |
| `Lowercase.Lower` | main.py:84 | the lowered string has the input's length, lowers each character in place, and holds no upper-case letter |
| `Lowercase.LowerIdempotent` | main.py:84 | lowering an already lowered string changes nothing |
| `Lowercase.SameLowerIff` | main.py:84 | two strings compare equal after lowering exactly when they have the same length and agree character by character up to case |
| `Lowercase.DifferentSignatureDifferentLower` | main.py:84 | strings that differ in length or in one of their first two letters (ignoring case) never compare equal after lowering |
| `Catalog.DistinctBySignature` | main.py:22-57 | a list whose names have pairwise distinct signatures has names pairwise distinct after lowering |
| `Catalog.FruitsDistinct` | main.py:22-33 | the ten fruit names are non-empty and pairwise distinct after lowering |
| `Catalog.VegetablesDistinct` | main.py:36-57 | the twenty vegetable names are non-empty and pairwise distinct after lowering |
| `Service.FirstMatch` | main.py:84 | the position `next` stops at: when there is one, it holds a match and no earlier position does; there is none exactly when no element's lowered name equals the lowered query |
| `Service.Find` | main.py:84-87 | not-found exactly when no element matches, and then with the given message; a found record is an element of the list whose lowered name equals the lowered query, and it is the first such element |
| `Service.FirstMatchCaseInsensitive` | main.py:84 | two queries with the same lowered form stop the scan at the same position |
| `Service.FindCaseInsensitive` | main.py:84-87 | two queries with the same lowered form get the same response |
| `Service.FirstMatchReadsNamesOnly` | main.py:84 | the scan depends on the names alone: lists with the same names in the same order match at the same position whatever their other fields hold |
| `Service.FindOwnName` | main.py:84-86 | in a list with names distinct up to case, the lookup of an entry's own name in any letter case returns that entry |
| `Service.Root` | main.py:59-69 | the endpoint map names exactly fruits, vegetables and docs, each mapped to its own path |
| `Service.GetFruits` | main.py:71-74 | the envelope holds the fruit list unchanged and in order, and its count, 10, is the number of items |
| `Service.GetVegetables` | main.py:76-79 | the envelope holds the vegetable list unchanged and in order, and its count, 20, is the number of items |
| `Service.GetFruitByName` | main.py:81-87 | "Fruit not found" exactly when no fruit's lowered name equals the lowered query; otherwise the one fruit that matches |
| `Service.GetVegetableByName` | main.py:89-95 | "Vegetable not found" exactly when no vegetable's lowered name equals the lowered query; otherwise the one vegetable that matches |
| `Service.NoMatchByLength` | main.py:84 | a query whose length no name in the list has matches nothing |
| `Service.AppleInAnyCase` | main.py:81-87 | "Apple", "apple" and "APPLE" all return the Apple record |
| `Service.KiwiNotFound` | main.py:81-87 | "Kiwi" returns the "Fruit not found" marker |
| `Service.LaukiNotFound` | main.py:89-95 | "Lauki", the local name of Bottle Gourd, returns the "Vegetable not found" marker |
| `Service.BottleGourdByName` | main.py:89-95 | "bottle gourd" and "BOTTLE GOURD" both return the Bottle Gourd record |

## Left out

- Lowercase.LowerChar: lowers 'A'..'Z' only; every other character, including a non-ASCII upper-case letter such as the Kelvin sign U+212A that Python lowers to 'k', is kept unchanged.
- Lowercase.Lower: lowers ASCII letters only. Python's `str.lower()` follows Unicode, so a query such as "SnaKe Gourd" (its K is the Kelvin sign, U+212A) lowers to "snake gourd" in Python and finds Snake Gourd, while this model reports not-found. Every stored name is ASCII, so the two agree on the catalogue side.
- The web framework: the application object, route decorators, `async` handlers, path-parameter extraction and HTTP status codes (a miss is still a normal response carrying an `error` field). These are routing plumbing of a library the model cannot see.
- Pydantic validation and JSON serialisation of the records; only the plain record shapes are kept (`local_name` and `scientific_name` absent become `None` in `Option`).
- The server start-up with `uvicorn.run` on port 8000: I/O.
- The truthiness test on the found record: a found record is always treated as true, so a found record is always returned.
- Concurrency between requests: every operation is a pure function over constants, so interleavings cannot change any result.
