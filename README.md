# Nomad itinerary planner: importer, add-itinerary form and PDF export

This project models three small pieces of logic from the Nomad travel-itinerary
app in Dafny and proves properties about them:

* **The demo-list importer** (`importDemoGoogleMapsLists`, module `ListImport`,
  file `list_import.dfy`). It reads the Google Maps list collection and
  inserts each demo list whose name is not yet present. A failed insert is
  logged and skipped. It then reads the collection again and deletes every
  document with an id and a name whose name an earlier such document
  already carries. The
  collection is a class `ListStore` holding a sequence of documents. Its
  insert, read and delete methods model the wrappers in `googleMapsDb.ts`.
  Each of the two loops is a method proved against a specification function
  (`Inserted`/`NewDocs` and `Deduplicated`). The lemmas then prove what the
  importer promises: names already present are never inserted, cleanup
  leaves one document per name, cleanup is idempotent, and a second run
  changes nothing.
* **The "Create new itinerary" bottom sheet** (module `ItineraryForm`, file
  `itinerary_form.dfy`). It is a class holding the four state variables of
  the component. `HandleAdd` checks the name, then the list, then the number
  of days, and either sets one error message or returns the new itinerary
  and clears the form. The days field keeps at most two characters, the
  field's `maxLength`. JavaScript's `String.prototype.trim` (module `JsText`,
  file `js_text.dfy`) and `Number(...)` on strings are modelled explicitly.
* **The PDF export of an itinerary** (`handleShare` in both versions of the
  `ShareItinerary` component). Modules: `ItineraryPdf` (shared: the file name
  and the day/place layout of the body), `SharePdf` (the newer component,
  with the icon rule) and `SharePdfLegacy` (the older one). The document is
  modelled structurally: a header and a body that is a flat sequence of
  "Day N" headings, each followed by the items of that day's places. A
  parser `Sections` reads a body back into days. The main lemma states that
  reading the body back gives the days in order, and each day's places in
  order, rendered as the component renders them.

## Model

| member | source | states |
|---|---|---|
| ListImport.ListStore.constructor | nomad/app/data/googleMapsDb.ts:26 | a fresh collection is empty, and the store's id invariant holds |
| ListImport.ListStore.GetAll | nomad/app/data/googleMapsDb.ts:33-36 | a read returns every document of the collection, in collection order |
| ListImport.ListStore.Add | nomad/app/data/googleMapsDb.ts:28-31 | a rejected insert changes nothing; a successful one appends exactly one document under an id no document had, and returns that id |
| ListImport.ListStore.Delete | nomad/app/data/googleMapsDb.ts:46-49 | the document with the given id is removed, the others stay in order, and ids stay distinct |
| ListImport.ImportPass | nomad/app/data/importGoogleMapsLists.ts:10-27 | the collection grows by one new document for each demo list whose name was absent before the loop and whose insert did not fail, in demo order; nothing else changes |
| ListImport.CleanupPass | nomad/app/data/importGoogleMapsLists.ts:31-43 | the collection becomes `Deduplicated` of what was read: later duplicates are gone, the rest stay in order |
| ListImport.ImportDemoGoogleMapsLists | nomad/app/data/importGoogleMapsLists.ts:9-44 | a run leaves the collection equal to `Run`: the import pass followed by the cleanup pass |
| ListImport.InsertedIff | nomad/app/data/importGoogleMapsLists.ts:16-26 | a name is inserted iff some demo list carries it, it was absent before the run, and that list's insert did not fail |
| ListImport.NothingInsertedWhenAllPresent | nomad/app/data/importGoogleMapsLists.ts:16-20 | when every demo name is already present, the import pass inserts nothing |
| ListImport.SameNewNameInsertedTwice | nomad/app/data/importGoogleMapsLists.ts:10-20 | the set of names is read once before the loop, so two demo lists with the same new name are both inserted |
| ListImport.FailureDropsOnlyItsOwnList | nomad/app/data/importGoogleMapsLists.ts:21-26 | a rejected insert removes exactly its own list from what is inserted; every other list is handled as if it had succeeded |
| ListImport.CleanupKeepsNames | nomad/app/data/importGoogleMapsLists.ts:33-43 | cleanup changes neither the set of names in the collection nor the set of names of documents with an id |
| ListImport.CleanupLeavesUniqueNames | nomad/app/data/importGoogleMapsLists.ts:31-43 | after cleanup no two documents with an id share a name |
| ListImport.CleanupDeletesExactlyLaterDuplicates | nomad/app/data/importGoogleMapsLists.ts:36-42 | with distinct ids, a document survives cleanup iff it is not a later duplicate: documents without a name or id stay, and the first of each name stays |
| ListImport.CleanupOfUniqueChangesNothing | nomad/app/data/importGoogleMapsLists.ts:37-42 | a collection whose names are already unique is left unchanged |
| ListImport.CleanupIdempotent | nomad/app/data/importGoogleMapsLists.ts:31-43 | running the cleanup twice gives the same collection as running it once |
| ListImport.SecondRunChangesNothing | nomad/app/data/importGoogleMapsLists.ts:9-44 | after a run in which every insert succeeds and every demo list has a name, a second run inserts nothing and leaves the collection unchanged |
| JsText.Trim | nomad/components/AddItineraryBottomSheet.tsx:31 | the result is no longer than the input; it is empty iff the input is all white space; otherwise it neither starts nor ends with white space |
| JsText.TrimCutsOnlyWhitespace | nomad/components/AddItineraryBottomSheet.tsx:31 | trim removes only white space: the result is a slice of the input with white space on both sides |
| JsText.TrimLeavesTrimmed | nomad/components/AddItineraryBottomSheet.tsx:44 | a string that neither starts nor ends with white space is its own trim |
| JsText.TrimIdempotent | nomad/components/AddItineraryBottomSheet.tsx:44 | trimming twice is the same as trimming once |
| ItineraryForm.AddItineraryForm.constructor | nomad/components/AddItineraryBottomSheet.tsx:24-27 | all four fields start empty |
| ItineraryForm.AddItineraryForm.EditName | nomad/components/AddItineraryBottomSheet.tsx:83 | typing sets the name and changes nothing else |
| ItineraryForm.AddItineraryForm.EditDays | nomad/components/AddItineraryBottomSheet.tsx:139-141 | typing sets the days to the text cut to its first two characters, and changes nothing else |
| ItineraryForm.AddItineraryForm.ChooseList | nomad/components/AddItineraryBottomSheet.tsx:123-126 | picking a list sets it and changes nothing else |
| ItineraryForm.AddItineraryForm.HandleAdd | nomad/components/AddItineraryBottomSheet.tsx:30-48 | on a failed check, only the error changes, to that check's message, and nothing is added; on success the error and the three fields are cleared, and the itinerary passed on is the validated one |
| ItineraryForm.ToNumber | nomad/components/AddItineraryBottomSheet.tsx:39 | the definition of `Number(days)` on strings: white space around the text is ignored, empty text is 0, and an optional sign precedes a decimal literal; anything else is NaN. Its contract: all-white-space text is 0, and a negative result needs a leading '-'. `NumberOfTrimmed`, `DigitsAreTheirNumber` and `ShortNumber` state the rest |
| ItineraryForm.Validate | nomad/components/AddItineraryBottomSheet.tsx:30-44 | the definition of handleAdd's decision: check the name, then the list, then the days. Its contract: a rejection carries one of the three messages; an acceptance passes on a non-empty name and list and at least 1 day. `FirstFailingCheckReported`, `AcceptedValuesAreTrimmed` and `AcceptedDaysAreWhole` state the rest |
| ItineraryForm.AddEnabled | nomad/components/AddItineraryBottomSheet.tsx:148-150 | the definition of the button rule: all three untrimmed fields non-empty. `AcceptedMeansEnabled` and `EnabledButRejected` relate it to `Validate` |
| ItineraryForm.FirstFailingCheckReported | nomad/components/AddItineraryBottomSheet.tsx:31-42 | the message shown is that of the first failing check in the order name, list, days (each case an iff); a form passing all three is accepted |
| ItineraryForm.AcceptedValuesAreTrimmed | nomad/components/AddItineraryBottomSheet.tsx:44 | the name and list passed to `onAdd` are non-empty and trimmed |
| ItineraryForm.ValidateSeesOnlyTrimmedFields | nomad/components/AddItineraryBottomSheet.tsx:31-44 | white space around any field never changes handleAdd's decision or what it passes on |
| ItineraryForm.NumberOfTrimmed | nomad/components/AddItineraryBottomSheet.tsx:39 | `Number` ignores white space around its argument |
| ItineraryForm.AcceptedMeansEnabled | nomad/components/AddItineraryBottomSheet.tsx:148-150 | every form handleAdd accepts has the add button enabled |
| ItineraryForm.EnabledButRejected | nomad/components/AddItineraryBottomSheet.tsx:148-150 | the converse fails: a white-space name enables the button and is then refused with the name message |
| ItineraryForm.ShortNumber | nomad/components/AddItineraryBottomSheet.tsx:139-141 | `Number` of a field of at most two characters, when it is a number at all, is below 1 or a whole number of at most 99 |
| ItineraryForm.AcceptedDaysAreWhole | nomad/components/AddItineraryBottomSheet.tsx:39-44 | because the days field holds at most two characters (line 141), the number of days passed on is a whole number from 1 to 99 |
| ItineraryForm.DigitDaysAccepted | nomad/components/AddItineraryBottomSheet.tsx:39-44 | with a valid name and list, a digit-only days field is accepted iff its value is at least 1, and that value is what is passed on |
| ItineraryForm.DigitsAreTheirNumber | nomad/components/AddItineraryBottomSheet.tsx:39 | `Number` of a non-empty digit string is the decimal value of its digits |
| ItineraryPdf.FileName | nomad/components/ShareItinerary.tsx:30 | the file name ends with `_itinerary.pdf` and its city part contains no white space (the older component, app/components/ShareItinerary.tsx line 30, builds it the same way) |
| ItineraryPdf.CollapsedHasNoWhitespace | nomad/components/ShareItinerary.tsx:30 | replacing white-space runs leaves no white space |
| ItineraryPdf.CollapseConcat | nomad/components/ShareItinerary.tsx:30 | the replacement works left to right: the result for a concatenation is the result for the first part followed by that for the second, which depends only on whether the first part ends inside a run |
| ItineraryPdf.CollapseRun | nomad/components/ShareItinerary.tsx:30 | a non-empty run of white space becomes a single `_` |
| ItineraryPdf.CollapseKeeps | nomad/components/ShareItinerary.tsx:30 | a character that is not white space is kept as it is |
| ItineraryPdf.CollapseSplits | nomad/components/ShareItinerary.tsx:30 | the replacement distributes over a concatenation when the first part does not end in white space |
| ItineraryPdf.CollapseFixesExactly | nomad/components/ShareItinerary.tsx:30 | a name is unchanged by the replacement iff it contains no white space |
| ItineraryPdf.CollapseIdempotent | nomad/components/ShareItinerary.tsx:30 | replacing twice is the same as replacing once |
| ItineraryPdf.FileNameOfPlainCity | nomad/components/ShareItinerary.tsx:30 | a city without white space gives exactly `city + "_itinerary.pdf"` |
| ItineraryPdf.CollapseAroundRun | nomad/components/ShareItinerary.tsx:30 | a white-space run between two parts, the first not ending and the second not starting in white space, becomes one `_` between the parts' own replacements |
| ItineraryPdf.FileNameSplitsAtRun | nomad/components/ShareItinerary.tsx:30 | the file name of `a + run + b` is the replaced `a`, one `_`, the replaced `b`, then `_itinerary.pdf` |
| ItineraryPdf.Body | nomad/components/ShareItinerary.tsx:122-157 | the definition of the body: for each day, its "Day N" heading followed by one item per place. Its contract: the body is empty iff there are no days, and otherwise starts with the first day's heading, so no item comes before a heading. `SectionsOfBody` and `HeadingPerDay` state the rest |
| ItineraryPdf.TakeEntriesOf | nomad/components/ShareItinerary.tsx:127-153 | reading back the items that follow one day's heading gives that day's places rendered in order, and stops at the next heading |
| ItineraryPdf.SectionsOfBody | nomad/components/ShareItinerary.tsx:122-157 | the body starts with a heading (or is empty), and reading it back gives one section per day in order, holding the day number and that day's rendered places in order; together these determine the whole body |
| ItineraryPdf.HeadingPerDay | nomad/components/ShareItinerary.tsx:122-157 | the body holds exactly one "Day N" heading per entry of `details` |
| SharePdf.IconFor | nomad/components/ShareItinerary.tsx:129-135 | the definition of the icon rule: the first of "beach", a food word and "corte" the name mentions, ignoring case, decides; otherwise the pin. `PlaceIcon`, `IconIgnoresCase` and `BeachOutranksFood` state its properties |
| SharePdf.SearchAgreesWithMentions | nomad/components/ShareItinerary.tsx:130-135 | scanning for a keyword finds it iff it occurs somewhere in the name, ignoring case |
| SharePdf.PlaceIcon | nomad/components/ShareItinerary.tsx:129-135 | the icon is the beach if the name mentions "beach", else the fork if it mentions a food word, else the cart if it mentions "corte", else the pin |
| SharePdf.MentionsIgnoresCase | nomad/components/ShareItinerary.tsx:130-135 | whether a name mentions a keyword does not depend on the case of the name |
| SharePdf.IconIgnoresCase | nomad/components/ShareItinerary.tsx:130-135 | a place gets the same icon whatever the case of its name |
| SharePdf.MentionedWhereItOccurs | nomad/components/ShareItinerary.tsx:130-135 | a name in which a lower-case keyword occurs mentions it |
| SharePdf.BeachOutranksFood | nomad/components/ShareItinerary.tsx:130-134 | any name containing "beach" gets the beach icon, even when it also names a market |
| SharePdf.HandleShare | nomad/components/ShareItinerary.tsx:29-160 | the definition of what handleShare prints: the file name, and the document with its title, header and body. Its contract: the file name has no white space and ends in `_itinerary.pdf`; the body starts with a heading (or is empty); it holds one heading per day of `details`, or none without `details`. `HeaderAsGiven`, `NoDetailsNoDays` and `DaysInOrder` state the rest |
| SharePdf.HeaderAsGiven | nomad/components/ShareItinerary.tsx:35 | the title (line 35) is the city followed by " Itinerary"; the header (lines 118-121) shows the city, days and locations as given, independent of `details` |
| SharePdf.NoDetailsNoDays | nomad/components/ShareItinerary.tsx:25 | without `details` the body holds no day |
| SharePdf.DaysInOrder | nomad/components/ShareItinerary.tsx:122-157 | the body starts with a heading (or is empty); one heading per day; read back, the body gives the days in order, each place an item of its icon, name, hours and maps link (name and coordinates), in order |
| SharePdfLegacy.HandleShare | nomad/app/components/ShareItinerary.tsx:29-115 | the definition of what the older handleShare prints: the file name, and the document with its header and body. Its contract: the file name has no white space and ends in `_itinerary.pdf`; the body starts with a heading (or is empty) and holds one heading per day of `details`. `MetaAsGiven`, `NoDetailsNoDays` and `DaysInOrder` state the rest |
| SharePdfLegacy.MetaAsGiven | nomad/app/components/ShareItinerary.tsx:92-95 | the header shows the city, days and locations as given, independent of `details` |
| SharePdfLegacy.NoDetailsNoDays | nomad/app/components/ShareItinerary.tsx:25 | without `details` the body holds no day |
| SharePdfLegacy.DaysInOrder | nomad/app/components/ShareItinerary.tsx:96-112 | the body starts with a heading (or is empty); one heading per day; read back, the body gives the days in order, each place an item of its name, hours and maps link, in order |

## Left out

- Firestore itself: the network, `async`/`await` and concurrent importer runs. The store is a sequence of documents with ids from a counter.
- A failing read or delete: in the source these throw and abort the run. The model lets only inserts fail (`failing` holds the indices of the rejected demo inserts), because only inserts are caught.
- Collection order: `ListStore.Add` appends at the end. Firestore returns documents ordered by their generated ids, so the position of new documents among old ones is not modelled. Every importer property holds for the order a read returns.
- A stored `id` field inside a document's data would shadow the document id in `getAllGoogleMapsLists` (googleMapsDb.ts line 35). This is not modelled: a document's id is its document id, and 0 stands for a missing one.
- The demo data (`demoGoogleMapsLists`) is not part of this model. Demo lists are given by their names only, since the importer uses nothing else; the city and places travel along untouched.
- Console logging in the importer; `updateGoogleMapsList`, which the importer does not use.
- ListImport.SecondRunChangesNothing: requires every demo name to be non-empty. A demo list without a name is never counted as present, so the source inserts it again on every run.
- ItineraryForm.ToNumber: models `Number` on decimal literals with an optional sign and surrounding white space. Exponents, hex/octal/binary prefixes and "Infinity" are not modelled; no such form of at most two characters is a number ≥ 1, so the decision on a two-character field is exact. A JavaScript number is a real, without floating-point rounding.
- The dropdown's visibility, keyboard dismissal and the list of available names: `ChooseList` accepts any string. The `onAdd` callback is modelled as `HandleAdd`'s result.
- The HTML and CSS text of the PDF, the separators in the meta line, and the text of numbers (`toFixed(5)`, the day and count numbers, shown as integers). `encodeURIComponent` and the maps URL are modelled as the link's data: the place name and coordinates.
- The newer component writes each place's maps URL three times (the link, the raw URL and a hidden link); the model keeps one link per item.
- Printing to a file, moving it, opening the share sheet and the error alert (I/O).
- Case-insensitive keyword matching is ASCII lower-casing. For the lower-case ASCII keywords of the icon rule, in a regular expression without the `u` flag, this is exact. The regular expressions' `\s` and `trim` use the same ECMAScript white-space set, modelled in `JsText.IsWhitespace`.
