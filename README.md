# Category module for an e-commerce back end, modelled in Dafny

The service keeps a MongoDB collection of product categories. Each category
has a name, a description, a status and a stock flag. A category also has a
`parentId` ("0" for a top-level category) and a `children` list of the ids of
its sub-categories. Express handlers create, list, look up, search, update and
delete categories. Each write handler keeps a record's `parentId` in step with
its parent's `children`. A small builder turns the query string of the list
request into aggregation-pipeline stages: filter, paginate, project, sort. A
global middleware turns every error into one JSON response.

The model is made of these modules:

- `CategoryModel` (category_model.dfy) is the record, the schema's defaults,
  required fields and unique indexes, and the pre-save name normalisation. The
  collection is the class `CategoryStore`. Its field `records` is a map from id
  to record. Its methods are the storage operations the handlers call: create,
  `$push`, `$pull`, `findByIdAndUpdate`, delete, bulk pulls and `deleteMany`.
- `CategoryLinks` (category_links.dfy) defines the predicate `Consistent`.
  It holds when every record sits exactly once in its parent's `children`, and
  every listed child points back. This module proves which store changes keep
  `Consistent`, and which one failure path breaks it.
- `CategoryController` (category_controller.dfy) holds the eight handlers. The
  write handlers are methods on the store. Each one follows the handler's steps
  in order, including the writes already made when a later step fails. The
  read handlers are functions of the stored records.
- `CategoryViews` (category_views.dfy) is the three nested `$lookup` stages
  that every read handler uses.
- `ApiFeatures` (api_features.dfy) is the pipeline builder. It is the class
  `Features`, whose methods append to its `pipeline` field.
- `AppErrors` (app_error.dfy) is the error value. `ErrorController`
  (error_controller.dfy) is the middleware.
- `Text`, `DecimalText` and `Numbers` are the JavaScript string operations the
  code relies on: `split`, `join`, `\s`, ASCII case mapping, `${n}`,
  `parseInt(s, 10)`, and the `!isNaN(Number(s))` test.
- `Wrappers` holds `Option`, `Result` and `Firsts`, the first components of a
  sequence of pairs.
- `NameExamples` (name_examples.dfy) works the name normalisation through one
  example from the general lemmas about runs of white space.

These modelling choices apply throughout:

- **Ids.** Ids are opaque strings. The store hands out fresh ids of at least
  two characters, so the top-level values "0" and "" never name a record.
- **Id lookups.** A lookup that Mongo would refuse with a cast error is
  modelled as finding nothing.
- **Looked-up children.** They form a map keyed by id, because `$lookup`
  yields each matching record once.
- **Regular-expression search.** The match is a parameter (`matches`).
- **Running the list pipeline's stages.** This is also a parameter
  (`evaluate`).

## Behaviour of the code that is easy to miss

The model keeps each of these behaviours of the code.

- **Name normalisation.** It upper-cases the first character and lower-cases
  the rest. It collapses runs of white space after the first character. It
  trims nothing: "  wIRELESS   mice " is stored as "  wireless mice ".
- **Update path.** The hook runs only on `create`. `updateCategory` stores a
  new name as given.
- **Stage order.** `getCategories` calls the builder as
  Filtering, paginate, fieldLimit, sorting. The stages come in that order, so
  an invalid `fields` is reported before an invalid `sort`.
- **Child-list field.** The schema declares the child list as `subCategory`,
  but the handlers read and write `children`. The model has the one list,
  `children`.
- **Cycles.** `updateCategory` checks only that a record is not its own parent.
  It does not check for longer cycles.
- **Batch-delete 404.** The guard at controllers/categoryController.ts:268
  needs an empty result that has an element, so it never fires. Listed ids
  with no record are ignored.
- **Orphaning update.** Suppose an update names a parent that does not exist.
  The record is pulled from its old parent before the check, and its
  `parentId` is not changed. This breaks the parent/child agreement
  (`OrphanBreaksConsistent`).
- **Empty parent value.** An update body with `"parentId": ""` takes the
  clearing branch only when the stored `parentId` is not "0"
  (controllers/categoryController.ts:205). That branch sets "0". When the
  stored value is already "0", no parent step runs. Either way the body is then
  applied and stores "". Both values count as top-level.

## Model

| member | source | states |
|---|---|---|
| Text.Split | utils/APIFeatures.ts:30 | splitting on a one-character separator gives at least one piece, and no piece contains the separator |
| Text.JoinSplit | utils/APIFeatures.ts:30 | joining the pieces of a split with the same separator, by `Text.Join` (`Array.join`), gives the text back |
| Text.SplitJoin | utils/APIFeatures.ts:38-40 | splitting a join of separator-free pieces gives the pieces back |
| Text.TrimStartSpace | utils/APIFeatures.ts:93-94 | the leading white space `parseInt` skips: what is left is no longer and starts with a character outside `Text.IsSpace` (the class `\s`), if it is not empty |
| Text.IntText | utils/AppError.ts:10 | the text of an integer, as the template `${statusCode}` gives it, is never empty |
| DecimalText.ParseIntText | utils/APIFeatures.ts:93-94 | `parseInt(s, 10)` of the decimal text of any integer reads back that integer |
| Text.ParseInt | utils/APIFeatures.ts:93-94 | a number is read exactly when a decimal digit follows the skipped white space and the optional sign; after '-' the value is at most 0, otherwise at least 0 |
| Numbers.IntTextIsNumeric | controllers/categoryController.ts:299-301 | the decimal text of every integer converts to a number, so the search key check refuses it |
| Numbers.LetterStartIsNotNumeric | controllers/categoryController.ts:299-301 | a key whose trimmed text starts with an ASCII letter is not numeric unless it is exactly "Infinity", so the search goes ahead for it |
| Numbers.WordIsNotNumeric | controllers/categoryController.ts:299-301 | a plain word such as "mice" is not numeric, so it passes the search key check |
| Numbers.BlankIsNumeric | controllers/categoryController.ts:299-301 | every key made only of white space, the empty key included, converts to 0, so the search refuses it |
| Numbers.HexIsNumeric | controllers/categoryController.ts:299-301 | every key `0x` or `0X` followed by hexadecimal digits is numeric |
| Numbers.ExponentIsNumeric | controllers/categoryController.ts:299-301 | every key of decimal digits, `e` or `E`, then decimal digits is numeric |
| Numbers.DigitsAreDecimal | controllers/categoryController.ts:299-301 | every run of decimal digits reads as a decimal literal |
| AppErrors.StatusOf | utils/AppError.ts:10 | the status is always "fail" or "error", and "error" for every code of at most 0 |
| AppErrors.New | utils/AppError.ts:7-13 | the error keeps its message and code, and is operational and not a Joi error |
| AppErrors.StatusByFirstDigit | utils/AppError.ts:10 | among codes of k+1 digits, the status is "fail" exactly for the codes from 4·10^k up to, but not including, 5·10^k |
| AppErrors.NonPositiveStatus | utils/AppError.ts:10 | zero and negative codes get status "error" |
| AppErrors.StatusExamples | utils/AppError.ts:10 | 400 and 404 give "fail" and 500 gives "error"; 4, 42 and 4000 also give "fail" |
| ErrorController.FromAppError | controllers/ErrorController.ts:47-58 | a translated error carries the name "Error" and no code, so no later check in the middleware matches it |
| ErrorController.HandleValidationErrorDB | controllers/ErrorController.ts:15-22 | a 400 "fail"; with `errors`, the message is the prefix followed by every field message joined by ". "; without `errors`, it is the fixed text |
| ErrorController.HandleDuplicateFieldsDB | controllers/ErrorController.ts:26-30 | a 400 "fail" naming the conflicting value, or "Duplicate value" when the key value is missing |
| ErrorController.HandleCastErrorDB | controllers/ErrorController.ts:33-36 | a 400 "fail" naming the path and the value |
| ErrorController.SendErrorJSON | controllers/ErrorController.ts:39-44 | the code, status and message are never empty; each given non-empty part is sent unchanged; a missing or falsy part becomes 500, "error" or "Something went wrong." |
| ErrorController.HandleError | controllers/ErrorController.ts:47-58 | the response for each of the four kinds of error; at most one translation applies, in the order validation, duplicate key, cast |
| CategoryModel.CollapseSpaceRuns | models/categoryModel.ts:58 | the result is no longer than the text, empty only for the empty text, starts with white space exactly when the text does, and has no two white-space characters in a row |
| CategoryModel.CollapseAppend | models/categoryModel.ts:58 | a text that ends in a character other than white space collapses on its own, whatever follows it |
| CategoryModel.CollapseRunBetween | models/categoryModel.ts:58 | between two characters that are not white space, or an end of the text, a run of two or more white-space characters becomes one space and the parts on either side collapse on their own |
| CategoryModel.CollapseSingleBetween | models/categoryModel.ts:58 | between two characters that are not white space, a lone white-space character is kept as it is |
| CategoryModel.NormalizeName | models/categoryModel.ts:57-61 | the first character is upper-cased; the rest has no upper-case letters and no two white-space characters in a row; the length never grows; the non-space characters are those of the lower-cased rest |
| Text.ToUpper | models/categoryModel.ts:58 | `toUpperCase` of a character turns an ASCII lower-case letter into the same letter in upper case and changes nothing else |
| Text.ToLower | models/categoryModel.ts:58 | `toLowerCase` of a character turns an ASCII upper-case letter into the same letter in lower case and changes nothing else |
| Text.CaseRoundTrip | models/categoryModel.ts:58 | upper-casing then lower-casing an ASCII lower-case letter gives it back, and the other way round |
| Text.LowerAll | models/categoryModel.ts:58 | `toLowerCase` of a text maps every character by `ToLower` and keeps the length |
| CategoryModel.NormalizeIdempotent | models/categoryModel.ts:57-61 | normalising a normalised name changes nothing, so saving a record again keeps its name |
| NameExamples.NormalizeExample | models/categoryModel.ts:57-61 | "  wIRELESS   mice " is stored as "  wireless mice ": nothing is trimmed, the leading blank run is not collapsed, and the inner run becomes one space |
| CategoryModel.NewCategory | models/categoryModel.ts:16-61 | creation fails exactly when the name is missing or empty, or the status is "", with those validator messages; otherwise it applies the defaults parentId "0", status "active", stock false and no children, and normalises the name |
| CategoryModel.DuplicateField | models/categoryModel.ts:23-32 | no field clashes exactly when no other record has the same name or description; "name" is reported exactly when some record has the name; "description" exactly when none has the name and some record has the description |
| CategoryModel.Inserted | models/categoryModel.ts:16-61 | an insertion succeeds exactly when validation passes and no unique index clashes; otherwise the validation error comes first, then the clashing field |
| CategoryModel.Updated | controllers/categoryController.ts:222-226 | null exactly for an unknown id; it succeeds exactly when the update validators pass and the patched record clashes with no other; on success that one record is replaced; a refusal writes nothing |
| CategoryModel.Patched | controllers/categoryController.ts:222-226 | every field the body names replaces the stored one as given, every other field stays, the child list is kept, and a body that names no field changes nothing |
| CategoryModel.UpdateStoresNameAsGiven | controllers/categoryController.ts:222-226 | a successful update stores a given name exactly as the body spells it, since no save hook runs on this path |
| CategoryModel.PatchedFacts | controllers/categoryController.ts:222-226 | patching again with the same body changes nothing; a body that names every field gives the same record whatever it patches, apart from the child list |
| CategoryModel.Remove | controllers/categoryController.ts:181 | `$pull` removes every occurrence of the id and keeps the count of every other id; `RemoveAppend` gives the order |
| CategoryModel.RemoveSingle | controllers/categoryController.ts:181 | one id stays exactly when it is not the pulled one |
| CategoryModel.RemoveAppend | controllers/categoryController.ts:181 | pulling from two lists one after the other is pulling from them joined, so the remaining ids keep their order |
| CategoryModel.RemoveEvery | controllers/categoryController.ts:285-287 | the bulk pulls on one record leave exactly the ids not pulled, each as often as before |
| CategoryModel.RemoveEverySingle | controllers/categoryController.ts:285-287 | one id stays exactly when it is not among the pulled ones |
| CategoryModel.RemoveEveryAppend | controllers/categoryController.ts:285-287 | the bulk pulls distribute over concatenation, so the remaining ids keep their order |
| CategoryModel.Pushed | controllers/categoryController.ts:21 | `$push` appends the child to that parent only; an unknown parent changes nothing |
| CategoryModel.Pulled | controllers/categoryController.ts:179-183 | `$pull` changes the children of that parent only; an unknown parent changes nothing |
| CategoryModel.PulledAll | controllers/categoryController.ts:276-287 | a bulk write of pulls removes from each record's children, by `RemoveEvery`, exactly the ids paired with it; every record stays |
| CategoryModel.CategoryStore.FindById | controllers/categoryController.ts:12 | finds a record exactly when the id is given and stored |
| CategoryModel.CategoryStore.Create | controllers/categoryController.ts:18 | a refused insertion writes nothing; otherwise the record from `Inserted` is stored under a fresh id |
| CategoryModel.CategoryStore.Push | controllers/categoryController.ts:21 | the new records are `Pushed` of the old ones |
| CategoryModel.CategoryStore.Pull | controllers/categoryController.ts:245-249 | the new records are `Pulled` of the old ones |
| CategoryModel.CategoryStore.SetParent | controllers/categoryController.ts:200-204 | only the `parentId` of that record changes |
| CategoryModel.CategoryStore.Update | controllers/categoryController.ts:222-226 | the result and the new records are those of `Updated` |
| CategoryModel.CategoryStore.Delete | controllers/categoryController.ts:251 | exactly that record is removed |
| CategoryModel.CategoryStore.FindIn | controllers/categoryController.ts:266 | the found records are exactly the stored records whose id is listed |
| CategoryModel.CategoryStore.PullAll | controllers/categoryController.ts:285-287 | the new records are `PulledAll` of the old ones |
| CategoryModel.CategoryStore.DeleteMany | controllers/categoryController.ts:290 | exactly the listed records are removed |
| CategoryLinks.Attach | controllers/categoryController.ts:18-22 | the stored ids are the old ones and the new one |
| CategoryLinks.AttachShape | controllers/categoryController.ts:18-22 | the new record is stored as given; a stored parent gets the new id appended to its children; every other record is unchanged |
| CategoryLinks.AttachAll | controllers/categoryController.ts:52-64 | the stored ids are the old ones and those of every created record |
| CategoryLinks.DetachLeaf | controllers/categoryController.ts:241-251 | exactly that record is gone |
| CategoryLinks.DetachLeafShape | controllers/categoryController.ts:241-251 | the parent, when its value is longer than one character, loses the id from its children; every other remaining record is unchanged |
| CategoryLinks.Reparent | controllers/categoryController.ts:176-204 | the stored ids stay, and the record points at the new parent |
| CategoryLinks.ReparentShape | controllers/categoryController.ts:176-204 | only the moved record's `parentId` changes; the old parent loses the id from its children; the new parent gains it at the end only when it does not list it already, so no duplicate is made |
| CategoryLinks.Unparent | controllers/categoryController.ts:205-219 | the stored ids stay, and the record points at "0" |
| CategoryLinks.UnparentShape | controllers/categoryController.ts:205-219 | only that record's `parentId` changes, to "0"; its old parent loses the id from its children; every other child list stays |
| CategoryLinks.DetachMany | controllers/categoryController.ts:276-290 | the stored ids are the old ones without the listed ones |
| CategoryLinks.DetachManyShape | controllers/categoryController.ts:276-290 | the pulls `CategoryLinks.BatchPulls` collects, then the delete, take from each remaining record's children exactly the listed records whose parent it is |
| CategoryLinks.AttachKeepsConsistent | controllers/categoryController.ts:18-22 | creating a childless record under an existing parent, or at top level, keeps the links consistent |
| CategoryLinks.AttachAllKeepsConsistent | controllers/categoryController.ts:53-64 | creating a batch of fresh children one after another keeps the links consistent |
| CategoryLinks.DetachLeafKeepsConsistent | controllers/categoryController.ts:241-251 | deleting a childless record after pulling it from its parent keeps the links consistent |
| CategoryLinks.DetachManyKeepsConsistent | controllers/categoryController.ts:276-290 | pulling childless records from their parents in bulk and deleting them keeps the links consistent |
| CategoryLinks.ReparentKeepsConsistent | controllers/categoryController.ts:176-204 | moving a record under another existing record keeps the links consistent |
| CategoryLinks.UnparentKeepsConsistent | controllers/categoryController.ts:205-219 | making a record top-level keeps the links consistent |
| CategoryLinks.PatchKeepsConsistent | controllers/categoryController.ts:222-226 | changing a record's fields keeps the links consistent, as long as its children stay and its parent value stays or moves between the two top-level values |
| CategoryLinks.OrphanBreaksConsistent | controllers/categoryController.ts:178-197 | pulling a record from its stored parent without re-pointing it breaks consistency |
| CategoryViews.Expand | controllers/categoryController.ts:78-105 | the view is of the requested record, as stored; its whole shape is `ExpandShaped` |
| CategoryViews.ExpandShaped | controllers/categoryController.ts:78-105 | the lookup shows the record as stored, with exactly three levels of looked-up children, each being a listed id that names a record |
| CategoryViews.ExpandedKidsAreChildren | controllers/categoryController.ts:120-147 | when the links are consistent, the looked-up children of a record are exactly the records whose `parentId` names it |
| CategoryViews.Views | controllers/categoryController.ts:304-335 | every view is well shaped and selected, and every selected record appears |
| ApiFeatures.InvalidTokens | utils/APIFeatures.ts:34 | the rejected tokens are exactly the input tokens outside the allowed list, each as often as it occurs in the input; none are rejected exactly when all are allowed |
| ApiFeatures.InvalidTokensSingle | utils/APIFeatures.ts:34 | one token is rejected exactly when it is not allowed |
| ApiFeatures.InvalidTokensAppend | utils/APIFeatures.ts:34 | filtering two lists one after the other is filtering them joined, so the rejected tokens keep their input order |
| ApiFeatures.MatchFilter | utils/APIFeatures.ts:12-23 | the filter holds every parameter except page, sort, limit and fields; each value is the parameter's text, and the stock flag is true exactly when it reads "true" |
| ApiFeatures.SortSpec | utils/APIFeatures.ts:45-50 | the sort object is empty only without tokens and has no more keys than tokens; every direction is 1 or -1 |
| ApiFeatures.SortOutcome | utils/APIFeatures.ts:25-59 | without `sort`, newest first; with it, a failure exactly when a token is rejected, with the error naming the rejected tokens; on success the keys are the distinct field names by first mention, each with the direction of its last mention |
| ApiFeatures.SortRefusal | utils/APIFeatures.ts:30-43 | `sorting` throws exactly when one of the comma-separated tokens is outside both allowed lists |
| ApiFeatures.ProjectOutcome | utils/APIFeatures.ts:61-89 | without `fields`, no stage; with it, a failure exactly when a field is rejected, with the error naming them; on success one `$project` of the requested fields, each once, in order of first mention (`Dedup`) |
| ApiFeatures.FieldRefusal | utils/APIFeatures.ts:64-77 | `fieldLimit` throws exactly when one of the comma-separated fields is outside the allowed list |
| ApiFeatures.DedupFacts | utils/APIFeatures.ts:79-84 | the projected fields are distinct, are exactly the requested ones, and come in order of first mention |
| ApiFeatures.SortSpecShape | utils/APIFeatures.ts:45-50 | the sort object's keys are the distinct field names, in order; each has the direction of its last mention |
| ApiFeatures.SortSpecKeys | utils/APIFeatures.ts:45-50 | the sort object has one key per field named in `sort`, ordered by first mention |
| ApiFeatures.NumberOr | utils/APIFeatures.ts:93-94 | a missing, unreadable or zero parameter gives the default; otherwise its parsed value |
| ApiFeatures.PaginationExamples | utils/APIFeatures.ts:92-99 | no parameters give skip 0 and limit 10; page 2 of 5 gives skip 5 and limit 5 |
| ApiFeatures.PaginationOfText | utils/APIFeatures.ts:92-99 | for nonzero p and l, page p with limit l gives skip (p-1)·l and limit l |
| ApiFeatures.Features.Filtering | utils/APIFeatures.ts:12-23 | appends one `$match` holding every parameter except page, sort, limit and fields; the stock flag is true exactly when it reads "true" |
| ApiFeatures.Features.Sorting | utils/APIFeatures.ts:25-59 | an invalid token throws the error and leaves the pipeline as it was; otherwise one `$sort` is appended, newest first when there is no `sort` |
| ApiFeatures.Features.FieldLimit | utils/APIFeatures.ts:61-89 | an invalid field throws the error and leaves the pipeline; with valid `fields` one `$project` is appended; without `fields` nothing is appended |
| ApiFeatures.Features.Paginate | utils/APIFeatures.ts:92-99 | appends `$skip` and then `$limit` from the page and limit |
| ApiFeatures.Features.GetPipeline | utils/APIFeatures.ts:101-103 | returns the stages appended so far |
| CategoryController.CreateCategory | controllers/categoryController.ts:10-27 | a missing named parent gives 404 and a refused insertion returns its error, both writing nothing; otherwise the record is stored and attached to its parent; the links stay consistent |
| CategoryController.BatchRefusal | controllers/categoryController.ts:33-49 | every refusal is an `AppError` with code 400 or 404, and a 404 only when some named parent is not stored |
| CategoryController.BatchRefusalCases | controllers/categoryController.ts:33-49 | a batch is accepted exactly when it is an array whose every entry names a stored parent; otherwise the first failing check gives its 400 or 404 |
| CategoryController.CheckBatch | controllers/categoryController.ts:33-49 | the parent lookup and count comparison refuses exactly as `BatchRefusal` says |
| CategoryController.CreateMultipleChildCategory | controllers/categoryController.ts:30-71 | a refused batch writes nothing; otherwise the entries are created and attached in order until one is refused, and the ones created before it stay; the links stay consistent |
| CategoryController.CreateBatch | controllers/categoryController.ts:52-64 | the loop creates and attaches each entry in order, stopping at the first refused insertion with its error |
| CategoryController.CreateChild | controllers/categoryController.ts:54-61 | one entry of the loop: a refused insertion is returned and writes nothing; otherwise the record is stored and attached to its parent, extending the batch by one |
| CategoryController.ListStages | controllers/categoryController.ts:76 | an invalid `fields` error comes before an invalid `sort` error; when both pass, the stages are exactly the filter, skip and limit, the projection, then the sort |
| CategoryController.ListFeatures | controllers/categoryController.ts:76 | running the builder chain yields exactly `ListStages` |
| CategoryController.GetCategories | controllers/categoryController.ts:75-114 | a builder error is returned; otherwise the looked-up top-level records go through the stages, and an empty outcome is a 404 |
| CategoryController.GetCategoryById | controllers/categoryController.ts:117-155 | a 404 exactly when no record has that id; otherwise a single view of that record, three levels deep |
| CategoryController.SearchCategory | controllers/categoryController.ts:296-342 | the search fails exactly when the key is numeric (400) or no record matches (400); otherwise exactly the matching records, looked up |
| CategoryController.SearchRefusesNumbers | controllers/categoryController.ts:299-301 | the search refuses every key that is the decimal text of an integer |
| CategoryController.UpdateCategory | controllers/categoryController.ts:159-232 | 404 for an unknown id and 400 for its own parent, both writing nothing; a missing new parent is a 400 that leaves the record pulled from its old parent; otherwise the parent steps, then the body update; the links stay consistent except on that failure, which breaks them when the old parent is stored |
| CategoryController.Relinked | controllers/categoryController.ts:176-219 | the stored ids stay; the record's parent becomes the new one when moving, "0" when clearing, and otherwise nothing changes |
| CategoryController.Orphaned | controllers/categoryController.ts:178-197 | the stored ids and every `parentId` stay; only the old parent changes, and it no longer lists the record |
| CategoryController.RelinkParent | controllers/categoryController.ts:176-219 | the parent steps either orphan the record (exactly when the new parent is missing) or give `Relinked` |
| CategoryController.RelinkedKeepsConsistent | controllers/categoryController.ts:176-219 | the parent steps, when they succeed, keep the links consistent |
| CategoryController.RelinkedUpdateKeepsConsistent | controllers/categoryController.ts:176-226 | the parent steps followed by the body update keep the links consistent |
| CategoryController.DeleteCategory | controllers/categoryController.ts:237-254 | 404 for an unknown id and 400 for a record with children, both writing nothing; otherwise the record is pulled from its parent, deleted and returned; the links stay consistent |
| CategoryController.BatchDeleted | controllers/categoryController.ts:258-293 | a missing or empty id list is a 400; a found record with children is a 400; both write nothing; otherwise the count and the found records, which are pulled and deleted |
| CategoryController.DeleteMultipleCategory | controllers/categoryController.ts:258-293 | the result and new records are `BatchDeleted` of the old ones; the links stay consistent |
| CategoryController.DetachFound | controllers/categoryController.ts:276-290 | the bulk pulls and the deletion give `DetachMany`; the links stay consistent |

## Left out

- HTTP and Express are not modelled: requests, responses, status lines, `catchAsync` and `next`. Handlers return their result or their fault instead.
- CategoryController.CreateCategory: the second `res.status(201).json` on the top-level path, which would throw after the first reply. Only one reply is modelled.
- Mongo cast errors for ids that are not ObjectIds are not modelled. Such a lookup is modelled as finding nothing.
- CategoryController.GetCategoryById: `new mongoose.Types.ObjectId(id)` throws for a malformed id. This is modelled as no match.
- The pre-find `populate("subCategory")` hook is not modelled: the field it populates is never written.
- The order of looked-up children, and of records in a result, is not modelled. Results are sets or maps keyed by id.
- The timestamps `createdAt` and `updatedAt` are not modelled. Sorting by them is only a stage value.
- CategoryController.SearchCategory: regular-expression matching is the parameter `matches`. A key that is not a valid regular expression makes `new RegExp` throw; this is not modelled.
- CategoryController.GetCategories: running the pipeline stages ($match, $skip, $limit, $project, $sort) is the parameter `evaluate`. The stages are modelled as values.
- Numbers.IsNumericText and Text.ParseInt cover integer and decimal literal text only. Floating-point values, rounding and huge numbers are not modelled.
- Case mapping is ASCII only. Unicode case mapping is not modelled.
- Query values are strings only. Array-valued or nested query parameters are not modelled.
- The text of `JSON.stringify(err.keyValue)` is taken as given.
- The Mongoose validation error's `errors` object is given as its message list, in `Object.values` order.
- The enum of the `status` field is left out: the schema does not declare it, only the interface comment mentions it.
- Joi request validation (validation/validationSchema.ts), the logger, routing and the server are not part of this model.
- Concurrency between requests is not modelled. Each handler runs alone on the store.
