# Meme template store, modelled in Dafny

The system stores meme templates. A template is an image kept in Cloudinary and a
MongoDB document. The document holds the template's name, category and tags, the
image's address and public id, and a list of zones. A zone is a rectangle,
given as fractions of the image, that later receives text or another image.

The model covers two parts of the system.

- **The server** (`backend/server.js`), in four modules.
  - `Schema`: the zone and template schemas, that is, mongoose validation
    (required fields, enums, the [0, 1] bounds) and the zone defaults.
  - `TemplateStore`: the handlers that write. Create, update, delete, replace-zones
    and use are methods of the class `Store`. Its fields are the record map, the
    collection's natural order, the set of images Cloudinary holds, and a log of
    every store call. Each store call can fail, and a `Faults` value says which
    ones do. The contracts state the outcome of each handler for every
    combination of failures, including the compensating destroy of create and
    the destroy-before-save order of update.
  - `Queries`: the handlers that read, as functions of the collection. These are
    the filtered, newest-first, windowed listing with its page arithmetic, the
    category listing, the tag search and the random pick.
  - `Routing`: the order in which Express tries the GET routes. See "Findings".
- **The editor page** (`frontend/src/App.js`), in two modules.
  - `Drawing`: the pure helpers. These are the drag rectangle, the division of
    pixels into canvas fractions and the scaling back, the zone a drag creates,
    deleting and editing a zone by index, and the tag input.
  - `ZoneEditor`: the class `Editor`. Its fields are the page's state, and its
    methods are the mouse handlers, the form handlers, and the save check that
    picks POST or PUT.

`Text` models the JavaScript string functions the source relies on: `trim`
(with ECMAScript's white-space set), `split` on one character, `join`, and the
case-insensitive substring match that stands in for the name search's `$regex`.

The invariant of `Store` has three parts:

- every stored document passed validation;
- the natural order lists each stored id exactly once;
- no two documents share an image.

"Backed", meaning every document's image exists in Cloudinary, is tracked
separately. Create keeps it whatever fails, and a successful update or delete
keeps it. Two failure windows named in the contracts break it: a failed save
after update's destroy, and a failed removal after delete's destroy.

The invariant of `Editor` has three parts:

- a drag is in progress exactly when it has a start point;
- the preview rectangle exists only during a drag, and it lies on the canvas;
- every zone in the editor passes the server's zone validation.

Three behaviours of the code are easy to misread as intended, and the model
follows the code in each.

- Update destroys the old image before it saves the document
  (backend/server.js:228-244). A document should never reference a destroyed
  image, so the save should come before the destroy. `TemplateStore.Store.Update`
  proves what happens when that save fails: the document points at a destroyed
  image, and the new image is referenced by nothing.
- Zone numbers (`zIndex`) are the zone count at drawing time, not a counter that
  only grows. After a deletion, two zones can share one.
  `Drawing.DeleteThenDrawRepeatsZIndex` proves this.
- Validation does not check `x + width <= 1` or `y + height <= 1`.
  `Schema.ValidZone` leaves that check out, as the schema does.

## Model

| member | source | states |
|---|---|---|
| Text.Trim | backend/server.js:82 | the `trim` setter's result has no white space at either end and is no longer than its input |
| Text.TrimSegment | backend/server.js:82 | `trim` removes only white space, all of it at both ends, and keeps the inner run of the string as it was |
| Text.TrimOfTrimmed | backend/server.js:82 | trimming is idempotent on a trimmed name |
| Text.TrimLeadingSpace | frontend/src/App.js:258 | the space that `join(", ")` puts before a trimmed tag is all that `trim` removes |
| Text.Split | backend/server.js:348 | `split(",")` gives at least one piece and no piece holds the separator |
| Text.Join | frontend/src/App.js:258 | `join(sep)`: the pieces in order with `sep` between neighbours, `""` for no pieces; its partners are `JoinSplit` and `SplitJoin` |
| Text.JoinSplit | backend/server.js:348 | joining the pieces of a split with the separator rebuilds the string |
| Text.SplitJoin | backend/server.js:348 | splitting separator-free pieces joined by the separator gives back the pieces |
| Text.SplitTrimmed | backend/server.js:348 | `split(",").map(trim)`: one trimmed entry per piece, empty entries kept |
| Text.ContainsIgnoringCase | backend/server.js:122 | the `$regex` name filter with option `i`, read as a literal search: some offset where the search text occurs with ASCII letters compared without regard to case |
| Text.LowerAll | backend/server.js:9 | used for the case folding that Express's defaults give the app created at this line: lower-casing keeps the length and maps A-Z to a-z, every other character to itself |
| Schema.ValidZone | backend/server.js:49-75 | mongoose's check of a zone: `type` given and one of text/image, x, y, width and height given and in [0, 1], each alignment missing, null or in its enum |
| Schema.ValidTemplate | backend/server.js:77-109 | mongoose's check of a template: name, image url, filename and public id given and non-empty, width and height not NaN, every zone valid |
| Schema.WithDefaults | backend/server.js:60-72 | the defaults fill every missing defaulted path with its schema value (fontSize 32, fontColor "#ffffff", textAlign "center", verticalAlign "middle", zIndex 0), keep every supplied value (null included), and never change whether a zone is valid |
| Schema.CompleteZoneUnchanged | backend/server.js:60-72 | a zone that supplies every defaulted path is stored as sent |
| Schema.ZonesWithDefaults | backend/server.js:98 | casting a zone array applies the defaults to each element, in order, keeping the length |
| Schema.ZonesWithDefaultsIdempotent | backend/server.js:98 | casting an already-cast zone array changes nothing |
| TemplateStore.CreateDim | backend/server.js:178-179 | `parseInt(v) \|\| null` gives a pixel count exactly for a parsed non-zero number and never NaN |
| TemplateStore.CreateList | backend/server.js:170-171 | zones/tags: missing gives `[]`, a parse failure is the error, otherwise the decoded list |
| TemplateStore.NewTemplate | backend/server.js:167-183 | the created document takes url, filename and public id from the upload, the trimmed name, the defaulted zones, category "general" unless one is sent, usage count 0; a parse failure fails it |
| TemplateStore.CreateDefaults | backend/server.js:180-182 | a create without zones, tags or category yields no zones, no tags, category "general" and usage count 0 |
| TemplateStore.Patch | backend/server.js:215-225 | patch semantics: each of name, category, width, height, zones and tags changes only when the form value is truthy, and then becomes the trimmed name, the category, `parseInt` of the dimension (NaN when it does not parse), the defaulted zones, or the parsed tags; the image fields, usage count and creation time never change; a parse failure is the only error |
| TemplateStore.PatchNothing | backend/server.js:218-225 | an update whose form supplies nothing leaves the document unchanged |
| TemplateStore.PatchIdempotent | backend/server.js:218-225 | applying the same update twice equals applying it once |
| TemplateStore.SwapImage | backend/server.js:239-241 | a new image replaces exactly the three image fields |
| TemplateStore.SaveError | backend/server.js:244 | `save()` fails exactly when validation refuses the document or the write fails, validation first |
| TemplateStore.Without | backend/server.js:275 | removing a document from the natural order removes exactly that id and keeps the ids distinct |
| TemplateStore.Store.Collection | backend/server.js:365 | the collection in natural order lists each stored document exactly once with its contents |
| TemplateStore.Store.constructor | backend/server.js:111 | an empty collection and image store satisfy the invariant and are backed |
| TemplateStore.Store.UploadBlob | backend/server.js:159 | the middleware's upload adds the image on success and logs one upload either way |
| TemplateStore.Store.DestroyBlob | backend/server.js:196 | a destroy removes the image on success and logs one destroy either way |
| TemplateStore.Store.FindById | backend/server.js:208 | the lookup returns the stored document, none, or the lookup error |
| TemplateStore.Store.SaveRecord | backend/server.js:185 | `save()` stores the document and appends a new id to the natural order when it succeeds, changes nothing otherwise, and logs one save |
| TemplateStore.Store.RemoveRecord | backend/server.js:275 | `deleteOne()` removes the document from the map and the order on success and logs one removal |
| TemplateStore.Store.IncrementUsage | backend/server.js:313-317 | `findByIdAndUpdate` with `$inc` raises usageCount by one on a stored id and answers null otherwise |
| TemplateStore.Store.Create | backend/server.js:159-203 | no file: 400 and nothing changes. Success: 201 and the new document. After the upload, any error is 500 with the original error, the document is not stored, and one destroy of the uploaded image follows. The image is left behind exactly when that destroy fails. The invariant and backing are kept |
| TemplateStore.Store.Update | backend/server.js:206-254 | upload, then lookup (404 leaves the uploaded image), then patch. With an image, the old one is destroyed before the save and the document points at the new one. When that save fails, the document points at a destroyed image and the new image is orphaned. A success keeps backing |
| TemplateStore.Store.SwapAndSave | backend/server.js:227-244 | the log shows `Destroy(old)` strictly before `Save(id)`; the image set loses the old image only when the destroy succeeds; the save outcome decides the record |
| TemplateStore.Store.Delete | backend/server.js:257-284 | 404/500 on lookup change nothing. Otherwise at most one destroy, and only for a non-empty public id, then the removal whatever the destroy did. A success leaves the old image behind exactly when the destroy failed. A failed removal after a successful destroy leaves the document pointing at nothing |
| TemplateStore.Store.ReplaceZones | backend/server.js:287-308 | 404/500 on lookup change nothing; otherwise the zone list is replaced by the defaulted zones and saved, or the save error is answered and nothing changes |
| TemplateStore.Store.Use | backend/server.js:311-329 | usageCount rises by exactly one and nothing else changes; an unknown id is 404 with no change |
| TemplateStore.InsertKeepsWellFormed | backend/server.js:185 | inserting a valid document with a new id and an unused image keeps the store well formed and backed |
| TemplateStore.ReplaceKeepsWellFormed | backend/server.js:244 | replacing a document by a valid one keeping its image or taking an unused one keeps the store well formed |
| TemplateStore.RemoveKeepsWellFormed | backend/server.js:275 | removing a document keeps the store well formed, and backed when its image went with it |
| Queries.Matches | backend/server.js:120-122 | the three filters the handlers build: category equal and name containing the search (each left out when empty), category equal, or some tag among the query's tags |
| Queries.Select | backend/server.js:124 | `find(filter)` keeps each matching record with its multiplicity and drops every other |
| Queries.Insert | backend/server.js:125 | inserting one record adds exactly that record |
| Queries.InsertNewestFirst | backend/server.js:125 | insertion keeps a newest-first sequence newest first |
| Queries.SortNewestFirst | backend/server.js:125 | `sort({createdAt: -1})` is newest first and a permutation of its input |
| Queries.Window | backend/server.js:126-127 | skip then limit: 0 is no limit, a negative limit counts as its absolute value, the window is the run of records from `skip` |
| Queries.WindowNewestFirst | backend/server.js:124-127 | a window of a newest-first sequence is newest first |
| Queries.FloorDiv | backend/server.js:135 | `Math.floor(a / b)` for either sign of `b`; `DivBounds` states what it means |
| Queries.CeilDiv | backend/server.js:136 | `Math.ceil(a / b)`; `DivBounds` and `CeilBounds` state what it means |
| Queries.DivBounds | backend/server.js:135-136 | `Math.floor(a / b)` is the integer at or below the quotient for either sign of `b`; `Math.ceil(a / b)` is the integer at or above it for positive `b` |
| Queries.CeilBounds | backend/server.js:136 | `totalPages = ceil(total / limit)` pages of `limit` hold every match, and one page fewer would not |
| Queries.Listed | backend/server.js:124-125 | the listing's documents are newest first and exactly the matching ones |
| Queries.ListedExactly | backend/server.js:120-122 | a record is listed exactly when it is stored and matches both the category and the case-insensitive name filter, either left out when empty |
| Queries.PageNumber | backend/server.js:135 | `Math.floor(skip / limit) + 1` is null exactly for a limit of 0 and `skip div limit + 1` for a positive limit |
| Queries.PageCount | backend/server.js:136 | `Math.ceil(total / limit)` is null exactly for a limit of 0 and `CeilDiv(total, limit)` for a positive limit |
| Queries.List | backend/server.js:116-141 | a negative skip is a 500. Otherwise the page is the window of the listing and `total` counts every match regardless of the window. With a positive limit, `page = skip div limit + 1` and `totalPages = ceil(total / limit)`; with limit 0 both are null |
| Queries.ListQuery | backend/server.js:118 | a bare query answers page 1 holding at most 50 documents |
| Queries.ListPage | backend/server.js:124-127 | a page holds only stored matching documents, newest first, never more than the limit |
| Queries.WindowSlice | backend/server.js:126-127 | with a positive limit, the window is the slice of at most `limit` records that starts at `skip` |
| Queries.LastPage | backend/server.js:126-136 | with a positive limit, page `totalPages` is the last one that holds documents |
| Queries.PagesCoverAll | backend/server.js:126-127 | stepping `skip` by a positive limit visits every listed document once, in order |
| Queries.ByCategory | backend/server.js:332-342 | the records of that category, each as often as it is stored and no other, newest first |
| Queries.SearchByTags | backend/server.js:345-358 | missing `tags` is a 500; otherwise the records having a tag equal to some trimmed query piece, case-sensitive, each as often as it is stored and no other, newest first |
| Queries.RandomIndex | backend/server.js:363-364 | `Math.floor(r * count)` lies in `[0, count)` for a non-empty collection |
| Queries.DivideByPositive | backend/server.js:364 | comparing `r` with a quotient by a positive count is comparing `r * count` with the dividend |
| Queries.RandomIndexInterval | backend/server.js:364 | index `i` is chosen exactly for `r` in `[i/count, (i+1)/count)`, an interval of the same length for every index |
| Queries.RandomPick | backend/server.js:361-371 | an empty collection answers null, otherwise the record at the drawn index in natural order |
| Routing.Bare | backend/server.js:9 | Express's defaults for the app created at this line (routing not strict): the router reads a path with one trailing slash as the path without it |
| Routing.Folded | backend/server.js:9 | Express's defaults for the app created at this line (routing case-insensitive): the path as the router compares it: no trailing slash, one lower-cased entry per segment |
| Routing.FirstMatch | backend/server.js:116-144 | Express takes the first registered route whose pattern matches |
| Routing.Dispatch | backend/server.js:116-374 | the handler of the first matching route, or Express's 404 |
| Routing.DispatchMeaning | backend/server.js:116-374 | a GET is a 404 exactly when no route matches it, and otherwise some matching route handles it |
| Routing.DispatchCons | backend/server.js:116-144 | the first route handles a path it matches, and otherwise the routes after it decide |
| Routing.RandomMatchesById | backend/server.js:144 | every path the random route matches, the earlier id route matches too |
| Routing.RandomMatchesOnlyItsPath | backend/server.js:361 | the random route matches exactly the paths that read `/api/templates/random` after dropping one trailing slash and lower-casing, so `/api/templates/Random` and `/api/templates/random/` too |
| Routing.RandomUnreachable | backend/server.js:144-156 | as registered, no GET request reaches the random pick; every spelling of `/api/templates/random` goes to the id route |
| Routing.DispatchSkips | backend/server.js:332-361 | dropping a route that does not match a path does not change where that path goes |
| Routing.ReorderedReachesRandom | backend/server.js:361-371 | with the random route registered before the id route, every spelling of `/api/templates/random` reaches the random pick |
| Routing.ReorderedKeepsOthers | backend/server.js:144-374 | registering the random route first changes where no other path goes |
| Drawing.DragBox | frontend/src/App.js:87-92 | the preview spans exactly from the smaller to the larger coordinate of the two points, with non-negative width and height |
| Drawing.DragBoxInside | frontend/src/App.js:87-92 | a drag between two canvas points stays inside the canvas |
| Drawing.Normalize | frontend/src/App.js:105-108 | each stored fraction times the canvas dimension is the drawn pixel value |
| Drawing.ScaleNormalize | frontend/src/App.js:138-143 | redrawing on the same canvas recovers the drawn pixel rectangle exactly |
| Drawing.Scale | frontend/src/App.js:138-143 | a stored zone drawn on the canvas: each fraction times the canvas dimension; its partner is `Normalize`, through `ScaleNormalize` and `NormalizeScale` |
| Drawing.NormalizeScale | frontend/src/App.js:105-108 | dividing a redrawn zone by the canvas gives back the stored fractions |
| Drawing.NormalizeInUnit | frontend/src/App.js:105-108 | a rectangle inside the canvas becomes fractions in [0, 1] with `x + width <= 1` and `y + height <= 1` |
| Drawing.ScaleInside | frontend/src/App.js:138-143 | a stored zone redrawn on a canvas of any size lies inside it |
| Drawing.NewZone | frontend/src/App.js:103-114 | the new zone: the kind, the pixel rectangle as fractions, text styling 32/"#ffffff"/center/middle for text and null for images, `zIndex` = the previous zone count |
| Drawing.DrawnZoneValid | frontend/src/App.js:103-114 | a zone drawn inside the canvas passes the server's zone validation and the server's defaults leave it unchanged |
| Drawing.WithoutZone | frontend/src/App.js:287-289 | deleting removes exactly the zone at the index and keeps the others, in order and unrenumbered; an index out of range changes nothing |
| Drawing.DeleteThenDrawRepeatsZIndex | frontend/src/App.js:113 | after deleting any zone but the last, the next drawn zone repeats the last zone's `zIndex` |
| Drawing.SetProperty | frontend/src/App.js:293 | the edit sets exactly the chosen property to the input's value (NaN font size as null) and leaves every other property |
| Drawing.SetPropertyKeepsValid | frontend/src/App.js:564-603 | an alignment chosen from the panel's options keeps a valid zone valid |
| Drawing.WithZoneProperty | frontend/src/App.js:291-295 | the edit keeps the length, changes only the zone at the index, and leaves all others identical |
| Drawing.NonEmpty | frontend/src/App.js:204 | `filter(t => t)` keeps each non-empty string as often as it occurs and drops every empty one |
| Drawing.ParseTags | frontend/src/App.js:198-206 | the parsed tags are non-empty and have no white space at either end |
| Drawing.TagsRoundTrip | frontend/src/App.js:258 | tags written as `join(", ")` by loading parse back to the same tags when each is non-empty, trimmed and comma-free |
| Drawing.CommaTagSplits | frontend/src/App.js:201-204 | for any clean tags `a` and `b`, the tag `a,b` is loaded and saved back as the two tags `a` and `b` |
| ZoneEditor.SubmissionOf | frontend/src/App.js:182-220 | a save is sent exactly when there is a name, an image or loaded template, and a zone; PUT to the loaded id, else POST; the tags parsed |
| ZoneEditor.Editor.Submission | frontend/src/App.js:182-220 | what the save button would send from the current state: something exactly when there is a name, an image or a loaded template, and a zone; PUT to the loaded id, else POST; the zones and image as they are |
| ZoneEditor.LoadedSubmission | frontend/src/App.js:254-261 | saving right after loading a template is a PUT of its id whenever it has a zone, carrying clean tags back unchanged |
| ZoneEditor.Editor.constructor | frontend/src/App.js:15-27 | the initial state: no zones, no drag, text zones, category "general", an empty form |
| ZoneEditor.Editor.MouseDown | frontend/src/App.js:77-81 | the drag starts at the pointer |
| ZoneEditor.Editor.MouseMove | frontend/src/App.js:83-93 | during a drag the preview becomes the drag rectangle; otherwise nothing changes |
| ZoneEditor.Editor.MouseUp | frontend/src/App.js:95-120 | a preview wider and taller than 10 pixels (strictly) is appended as a new zone, otherwise the zones stay; the drag always ends |
| ZoneEditor.Editor.SelectZoneType | frontend/src/App.js:423-434 | the zone-kind buttons set the kind of the next zone |
| ZoneEditor.Editor.DrawCanvas | frontend/src/App.js:127-130 | the canvas takes the loaded image's natural size |
| ZoneEditor.Editor.ImageSelected | frontend/src/App.js:52-63 | a picked file becomes the image, its data URL the preview, and the zones are cleared; no file changes nothing |
| ZoneEditor.Editor.EditForm | frontend/src/App.js:361-391 | the name, category and tag inputs set their fields |
| ZoneEditor.Editor.ResetForm | frontend/src/App.js:244-252 | the form returns to its initial values; the drag state and zone kind stay |
| ZoneEditor.Editor.SaveTemplate | frontend/src/App.js:181-242 | sends the submission if there is one; a successful answer resets the form, anything else leaves the state |
| ZoneEditor.Editor.LoadTemplate | frontend/src/App.js:254-261 | the form shows the template, tags joined with ", ", category or "general", preview from the API origin; a picked file stays; saving is then a PUT of it |
| ZoneEditor.Editor.DeleteZone | frontend/src/App.js:287-289 | the zones become the list without the one at the index, and stay valid |
| ZoneEditor.Editor.UpdateZoneProperty | frontend/src/App.js:291-295 | the zones become the list with the one property edited, and stay valid |

## Left out

- Express, multer, the Cloudinary storage engine and the MongoDB connection are
  left out: configuration, CORS, the health check's body, the error middleware
  and `listen`. The stores are the fields of `Store`, and each call's failure is
  an input.
- The `$regex` name search is left out as a regular expression. It is modelled
  as a case-insensitive substring match over ASCII letters, so a search
  containing regex metacharacters is not modelled.
- `JSON.parse` and `parseInt` of form fields are opaque. Each field carries its
  raw text and what decoding gives, or `None` when decoding throws or gives NaN.
  A JSON body that decodes to something other than a list is not distinguished.
- TemplateStore.Store.ReplaceZones: a request body without `zones` (which
  assigns `undefined`) is not modelled.
- Listing query values that `parseInt` cannot read (NaN limit or skip), and
  `skip / limit` over the raw query strings, are left out. `Queries.List` takes
  both as integers.
- `Math.random` is a parameter `r` in [0, 1). That a uniform `r` gives a uniform
  pick is stated as the equal-length interval each index owns. Probability
  itself is not modelled.
- ObjectId generation and the `createdAt`/`updatedAt` timestamps are inputs of
  `Create`. `updatedAt` is not modelled.
- GET /api/templates/:id is modelled only as a route in `Routing`, not as a
  handler.
- `Routing` takes a path as its raw segments, split at single slashes. Percent
  decoding, repeated slashes and the query string are not modelled. Literal
  segments are compared by lower-casing A-Z only, which matches a
  case-insensitive route exactly because every route literal is lower-case
  ASCII.
- Store contracts assume each uploaded public id is new, because Cloudinary
  generates unique public ids. A destroy that fails is assumed to leave the
  image in place.
- TemplateStore.Store.Use: a lookup failure and a write failure of
  `findByIdAndUpdate` are one fault, because the source makes one call.
- Concurrency is left out: handlers run one at a time, so interleaved requests
  and "last writer wins" are not modelled. React's batching of state updates,
  stale closures, and the asynchronous FileReader and fetch are collapsed into
  one step per handler.
- Rendering is left out: the canvas 2D drawing calls, the JSX, alerts, confirm
  dialogs, the export download, and the template list fetch.
- `getCanvasCoordinates` is left out. Pointer positions are inputs, already on
  the canvas.
- Coordinates are exact reals, so IEEE rounding and the `toFixed` display are
  not modelled.
- ZoneEditor.Editor.DrawCanvas: the canvas is resized only while no drag is in
  progress, because the image cannot change under a held mouse button. A
  zero-sized image, which would make the division by the canvas size
  undefined, is excluded.
- ZoneEditor.Editor.UpdateZoneProperty: alignment values come only from the
  panel's option lists. A font size that `parseInt` cannot read is stored as
  null, which is what `JSON.stringify` sends for NaN.

## Findings

| source | as written | input that shows it | evidently intended | confidence | as-written member | corrected member |
|---|---|---|---|---|---|---|
| backend/server.js:144-156 | `GET /api/templates/:id` is registered before `GET /api/templates/random`, so Express hands `/random` to the id route, whose lookup of the id "random" fails with a 500 | `GET /api/templates/random` | the random route answers with a random template | high; not executed | Routing.RandomUnreachable | Routing.ReorderedReachesRandom |

`Queries.RandomPick` models the random handler as the corrected routing
reaches it.
