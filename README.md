# Pet-record manager: a verified model of its logic

This project models, in Dafny, the logic of a small pet-record web app. Users keep a list of pets, each with an optional uploaded image, and a server function logs a "pet created" event. Most of the app is presentation and calls to a hosted backend. The model covers the four parts that hold logic:

- **The pet store** (`pet_store.dfy`, module `PetStore`). It is a list of `Pet` records that `addPet`, `updatePet` and `deletePet` replace, and that `getPet` searches. The `Store` class holds the one mutable field, `pets`. Each action sets it to a pure function of its old value: `Added`, `Updated` or `Deleted`. `FirstWithId` is the lookup. Lemmas state frame, order, idempotence and id-uniqueness properties, and what `getPet` finds after each action.
- **The image helper** (`image_upload.dfy`, module `ImageUpload`). It covers the file check (`image/` type prefix, 5 MiB inclusive cap), the extension taken after the last `.`, the object name `<userId>/<millis>.<ext>`, and the path recovered from a public URL after its first `pet-images` segment. The `Uploader` class models the component's state. Its `HandleFileSelect` and `HandleRemove` methods follow the handlers step by step. Every answer from the auth or storage service is a parameter, and each request is appended to `requests`. Calls to `onChange` and `onRemove` are recorded as well.
- **The index page** (`index_page.dfy`, module `IndexPage`). It covers the case-insensitive search over name, species and breed, the "Total Pets" figure, and the handlers that send a save to `updatePet` or `addPet` and a confirmed delete to `deletePet`.
- **The `pet-created-webhook` function** (`pet_created_webhook.dfy`, module `PetCreatedWebhook`). It is a pure function from abstract inputs to a response and an optional `webhook_logs` row. The inputs are the request method, the authenticated user, the posted pet, a clock reading, an exception and where it is thrown, and whether the log insert fails.

Two helper modules support these. `strings.dfy` (`Strings`) gives JavaScript's `toLowerCase` for ASCII, `startsWith`, `includes`, and `split`/`join` on one character. It also gives `Number.prototype.toString` for a non-negative integer. `option.dfy` (`Optional`) gives the optional value.

The store in `src/store/petStore.ts` is held in memory: it appends new records, never fails and has no owner field.

## Model

| member | source | states |
|---|---|---|
| `Strings.ToLower` | src/pages/Index.tsx:96-98 | lower-casing keeps the length and maps each character on its own (ASCII letters to lower case) |
| `Strings.LowerIgnoresCase` | src/pages/Index.tsx:96-98 | lower-casing an upper-cased or lower-cased string gives the same as lower-casing the original |
| `Strings.StartsWith` | src/components/ImageUpload.tsx:24 | `startsWith` holds exactly when the string is the prefix followed by something |
| `Strings.Includes` | src/pages/Index.tsx:96-98 | `includes` holds exactly when some position of the string starts a copy of the substring |
| `Strings.Split` | src/components/ImageUpload.tsx:79 | `split` always yields at least one part and no part contains the separator |
| `Strings.Join` | src/components/ImageUpload.tsx:82 | `join` of no parts is the empty string, of one part that part |
| `Strings.JoinCountsSeparators` | src/components/ImageUpload.tsx:82 | joining n separator-free parts puts exactly n-1 separators in the result |
| `Strings.Last` | src/components/ImageUpload.tsx:42 | `pop` returns an element of the non-empty list, its only one when there is one |
| `Strings.SplitWithoutSeparator` | src/components/ImageUpload.tsx:79 | a string without the separator splits into itself alone |
| `Strings.SplitAcross` | src/components/ImageUpload.tsx:79 | splitting across one separator splits the two sides independently |
| `Strings.JoinSplit` | src/components/ImageUpload.tsx:79-82 | joining the parts of a split rebuilds the string |
| `Strings.SplitJoin` | src/components/ImageUpload.tsx:79-82 | splitting a join of separator-free parts gives back the parts |
| `Strings.LastPartIsSuffix` | src/components/ImageUpload.tsx:42 | the last part of a split is the suffix after the last separator, or the whole string when it has none |
| `Strings.NatToString` | src/components/ImageUpload.tsx:43 | `Date.now()` rendered in a template is a non-empty run of decimal digits with no leading zero, whose decimal value is the number |
| `Strings.NatToStringInjective` | src/store/petStore.ts:55 | two clock readings give the same id exactly when they are equal |
| `PetStore.InitialPets` | src/store/petStore.ts:26-53 | the initial store holds two pets, each with a photo and notes, the first created before the second |
| `PetStore.Stamp` | src/store/petStore.ts:55 | the added record carries the given id and creation time and every supplied field unchanged |
| `PetStore.Merge` | src/store/petStore.ts:58 | every property present in the patch overrides the record's, `undefined` included; every property it lacks is kept; so an empty patch changes nothing, and the id stays exactly when the patch has none or the same one |
| `PetStore.StampRoundTrip` | src/store/petStore.ts:54-56 | the added record carries every supplied field unchanged, plus the given id and creation time; a record is its own fields stamped with its id and time |
| `PetStore.MergeLaws` | src/store/petStore.ts:58 | spreading an empty patch changes nothing; spreading the same patch twice is spreading it once |
| `PetStore.Updated` | src/store/petStore.ts:57-59 | update keeps length and order; records with another id are untouched; each matching record takes the patch's properties and keeps the rest |
| `PetStore.Deleted` | src/store/petStore.ts:60-62 | after delete no record has the id; every record with another id remains; the result is an order-preserving subsequence whose length drops by the number of matches |
| `PetStore.FirstWithId` | src/store/petStore.ts:63 | lookup returns nothing exactly when no record has the id, otherwise the first record with it |
| `PetStore.InitialContents` | src/store/petStore.ts:26-53 | the initial store holds exactly two pets, Max the dog with id "1" then Luna the cat with id "2", with unique ids |
| `PetStore.Added` | src/store/petStore.ts:54-56 | add grows the list by one; earlier records are unchanged and in order; the new record is last, carries the supplied fields, the id `Date.now().toString()` and the given creation time |
| `PetStore.GetAfterAdd` | src/store/petStore.ts:54-63 | a record added under an id no record had is what lookup finds for that id; unique ids stay unique |
| `PetStore.UpdateAbsentIsNoOp` | src/store/petStore.ts:57-59 | updating an id that matches no record leaves the list unchanged |
| `PetStore.UpdateIdempotent` | src/store/petStore.ts:57-59 | repeating any update gives the same list; a patch that moves the records to another id leaves none for the second update |
| `PetStore.GetAfterUpdate` | src/store/petStore.ts:57-63 | after an update that keeps the id, lookup finds the first matching record merged with the patch |
| `PetStore.UpdateKeepsUniqueIds` | src/store/petStore.ts:57-59 | an update whose patch has no id or the updated id keeps ids unique |
| `PetStore.DeleteAbsentIsNoOp` | src/store/petStore.ts:60-62 | deleting an absent id is a no-op |
| `PetStore.DeleteLaws` | src/store/petStore.ts:60-62 | delete is idempotent, and deletes of two ids commute |
| `PetStore.GetAfterDelete` | src/store/petStore.ts:60-63 | after `deletePet(id)`, `getPet(id)` finds nothing |
| `PetStore.SubsequenceKeepsUniqueIds` | src/store/petStore.ts:61 | a list filtered from one with unique ids has unique ids |
| `PetStore.SubsequenceOfSameLength` | src/store/petStore.ts:61 | a filtered list is no longer than its source, and equals it when it is as long |
| `PetStore.DeleteKeepsUniqueIds` | src/store/petStore.ts:60-62 | delete keeps ids unique |
| `PetStore.Store.constructor` | src/store/petStore.ts:25-53 | a new store holds the initial pets |
| `PetStore.Store.AddPet` | src/store/petStore.ts:54-56 | the new list is the old one with the stamped record appended |
| `PetStore.Store.UpdatePet` | src/store/petStore.ts:57-59 | the new list is the old one updated by id |
| `PetStore.Store.DeletePet` | src/store/petStore.ts:60-62 | the new list is the old one without the id |
| `PetStore.Store.GetPet` | src/store/petStore.ts:63 | returns nothing exactly when no current record has the id, otherwise a current record with that id |
| `ImageUpload.CheckFile` | src/components/ImageUpload.tsx:23-33 | a file is accepted exactly when its type starts with `image/` and its size is at most 5 MiB; a non-image is rejected as such whatever its size |
| `ImageUpload.SizeCapIsInclusive` | src/components/ImageUpload.tsx:30-33 | an image of exactly 5·1024·1024 bytes passes, one byte more is rejected as too large |
| `ImageUpload.FileExtension` | src/components/ImageUpload.tsx:42 | the extension has no `.`, is a suffix of the name, follows its last `.`, and is the whole name when there is no `.` |
| `ImageUpload.ExtensionAfterLastDot` | src/components/ImageUpload.tsx:42 | whatever precedes the last `.`, the extension is what follows it |
| `ImageUpload.StorageFileName` | src/components/ImageUpload.tsx:43 | the object name starts with the user id and a `/`, ends with `.` and the extension, and has a non-empty time part between them |
| `ImageUpload.StorageFileNameLayout` | src/components/ImageUpload.tsx:42-43 | the object name splits on `/` into the user id and `<millis>.<ext>`, and keeps the original file's extension |
| `ImageUpload.FindIndex` | src/components/ImageUpload.tsx:80 | `findIndex` gives -1 exactly when the segment is absent, otherwise the first index holding it |
| `ImageUpload.StoragePathFromUrl` | src/components/ImageUpload.tsx:79-82 | no path is found exactly when no `/`-segment is `pet-images` |
| `ImageUpload.PathAfterFirstBucket` | src/components/ImageUpload.tsx:79-82 | for segments `prefix ++ ["pet-images"] ++ rest` with no `pet-images` in `prefix`, the path is `rest` joined by `/` |
| `ImageUpload.RemovalFindsStoredObject` | src/components/ImageUpload.tsx:79-82 | a URL with `/pet-images/` just before an object path, and no earlier such segment, yields exactly that path |
| `ImageUpload.BucketThenPath` | src/components/ImageUpload.tsx:79 | `pet-images/` followed by a path splits into `pet-images` and the path's segments |
| `ImageUpload.Uploader.constructor` | src/components/ImageUpload.tsx:14-17 | the preview starts as the given value, not uploading, with an empty file input and nothing requested or reported |
| `ImageUpload.Uploader.SetValue` | src/components/ImageUpload.tsx:14-16 | a new `value` prop replaces the old one and leaves the preview, which only the first value initialises, and all other state alone |
| `ImageUpload.SelectRequests` | src/components/ImageUpload.tsx:19-58 | a missing or rejected file contacts no service; past the checks `getUser` comes first; the upload of `<userId>/<millis>.<ext>` follows only with a user; `getPublicUrl` follows only a stored upload, and a failed upload ends the requests |
| `ImageUpload.SelectOutcome` | src/components/ImageUpload.tsx:19-65 | the image is uploaded and its public URL reported exactly when the file passes both checks, there is a user and storage keeps the upload; a rejected file names the check it failed; no user is its own outcome |
| `ImageUpload.Uploader.HandleFileSelect` | src/components/ImageUpload.tsx:19-72 | the handler makes exactly the requests and reaches exactly the outcome above; a missing or rejected file changes nothing; `onChange` is called once with the public URL exactly on success, and the preview shows it; past the checks `uploading` ends false and the input is cleared |
| `ImageUpload.Uploader.HandleRemove` | src/components/ImageUpload.tsx:74-99 | reading the current `value` prop: an empty value does nothing; otherwise removal is requested only for a URL with a `pet-images` segment; the preview is cleared and `onRemove` called unless that removal fails |
| `IndexPage.Matches` | src/pages/Index.tsx:95-99 | the empty query matches every pet, and a match needs a name, species or breed at least as long as the query |
| `IndexPage.Filtered` | src/pages/Index.tsx:95-99 | every shown pet matches the lower-cased query in name, species or breed; every matching pet is shown; the result is an order-preserving subsequence |
| `IndexPage.FilterKeepsEveryCopy` | src/pages/Index.tsx:95-99 | each matching pet is shown as many times as the store holds it, and no other pet is shown |
| `IndexPage.FilterKeepsAllIffAllMatch` | src/pages/Index.tsx:95-99 | the filter keeps the whole list exactly when every pet matches |
| `IndexPage.EmptyQueryShowsAll` | src/pages/Index.tsx:95-99 | an empty query shows all pets |
| `IndexPage.QueryIgnoresCase` | src/pages/Index.tsx:96-98 | upper-casing or lower-casing the query does not change the result |
| `IndexPage.SameLowerSameResult` | src/pages/Index.tsx:96-98 | two queries with the same lower-case form give the same result |
| `IndexPage.CatFindsOnlyLuna` | src/pages/Index.tsx:95-99 | on the initial store, the query "cat" shows Luna alone |
| `IndexPage.LunaIsACat` | src/pages/Index.tsx:97 | Luna matches "cat" through her species |
| `IndexPage.MaxIsNoCat` | src/pages/Index.tsx:95-99 | Max matches "cat" in none of name, species or breed |
| `IndexPage.HasNoC` | src/pages/Index.tsx:96 | a text without the letter c does not include "cat" |
| `IndexPage.EditReplacesFormFields` | src/pages/Index.tsx:103-104 | saving an edit replaces every editable field with the form's value and keeps the pet's id and creation time |
| `IndexPage.FilteredWithinTotal` | src/pages/Index.tsx:183 | the grid never shows more pets than the "Total Pets" figure, and shows that many exactly when every pet matches |
| `IndexPage.Page.constructor` | src/pages/Index.tsx:35-38 | the page starts with no pet being edited, none awaiting deletion, an empty query and the dialog closed |
| `IndexPage.Page.FilteredPets` | src/pages/Index.tsx:95-99 | what the grid shows is a subsequence of the store's pets, at most the total, with every copy of each matching pet, and all of them for an empty query |
| `IndexPage.Page.TotalPets` | src/pages/Index.tsx:183 | the "Total Pets" figure is what an empty search shows and bounds what any search shows |
| `IndexPage.Page.SetSearchQuery` | src/pages/Index.tsx:204-209 | typing a query changes what the grid shows but not the "Total Pets" figure or the store |
| `IndexPage.Page.HandleEdit` | src/pages/Index.tsx:117-120 | editing opens the dialog on the given pet |
| `IndexPage.Page.HandleAddNew` | src/pages/Index.tsx:138-141 | adding opens the dialog with no pet being edited |
| `IndexPage.Page.HandleSave` | src/pages/Index.tsx:101-115 | with a pet being edited the store is updated by that pet's id, otherwise a pet is added, never both; the edit state is cleared |
| `IndexPage.Page.HandleDelete` | src/pages/Index.tsx:122-124 | asking to delete remembers the id until confirmation and leaves the rest of the page state alone |
| `IndexPage.Page.ConfirmDelete` | src/pages/Index.tsx:126-136 | a remembered non-empty id is deleted from the store and forgotten; otherwise nothing changes; the edit state, query and dialog stay as they were |
| `PetCreatedWebhook.MakeEnvelope` | supabase/functions/pet-created-webhook/index.ts:67-87 | the payload is a `pet.created` event with the clock reading and the authenticated user, and the posted pet is recovered from it with its owner id |
| `PetCreatedWebhook.Handle` | supabase/functions/pet-created-webhook/index.ts:24-142 | OPTIONS gets only the CORS headers and a null body; no user gives 401 `{error:'Unauthorized'}`; an exception gives 500 `{success:false, error}` with the JSON headers; a success response is 200 with the payload; a row is stored exactly on a success response whose insert does not fail, always with status `success` and the authenticated user; every response starts with the CORS headers |
| `PetCreatedWebhook.EnvelopeKeepsPetDropsOwner` | supabase/functions/pet-created-webhook/index.ts:67-87 | the envelope's event is `pet.created` and its user is the authenticated one; its pet copies every posted field but `user_id`, which has no influence on it |
| `PetCreatedWebhook.LogFailureIsInvisible` | supabase/functions/pet-created-webhook/index.ts:104-127 | a failing log insert leaves no row but does not change the response |
| `PetCreatedWebhook.SuccessCarriesEnvelope` | supabase/functions/pet-created-webhook/index.ts:104-127 | an authenticated request without an exception answers 200 with the envelope and, unless the insert fails, stores a row with that same envelope |
| `PetCreatedWebhook.OnlySuccessRows` | supabase/functions/pet-created-webhook/index.ts:104-111 | every row stored has event type `pet.created` and status `success` |

## Left out

- Rendering, dialogs, toasts, icons and console logging are left out. This includes `PetCard` and the form state of `PetDialog`. They decide nothing the model states.
- The calls to the backend and the Deno runtime are not modelled. This covers `getUser`/`getSession`/`onAuthStateChange`/`signOut`, storage `upload`/`getPublicUrl`/`remove`, the table `insert`/`select`, `createClient`, `req.json` and `serve`. Each answer is a parameter instead. The public URL's format is not assumed: `RemovalFindsStoredObject` states what happens for URLs of one shape only.
- The auth-subscription effect and `fetchWebhookLogs` (src/pages/Index.tsx:42-78) are left out. They are asynchronous lifecycle code with no rule of their own. `handleSignOut` is left out for the same reason.
- `fetchPets` is used by the page but not defined by the store, so it is not modelled. The same goes for field names used elsewhere but not defined by the store (`image_url`, `user_id`). `handleSave`'s form data is modelled as the store's `addPet` argument type.
- Clock readings (`Date.now()`, `new Date()`, `toISOString()`) are parameters. Nothing is claimed about the uniqueness of ids made from `Date.now()`.
- Dates are modelled as integer milliseconds. `age` and `weight` are `real` values that are copied but never computed with. The "Total Weight" and "Average Age" statistics are floating-point and are left out.
- `toLowerCase` is modelled for ASCII letters only. Full Unicode case mapping is left out.
- The commented-out external webhook call is not live code and is left out.
- `IndexPage.Page.HandleSave`: the model has no failure path. The store's actions return nothing and cannot throw, so the `catch` branch is unreachable with this store.
- `ImageUpload.Uploader.HandleFileSelect`: `uploading` is `true` only while the handler awaits a service. The method states the state after the handler finishes, where `uploading` is false again. The file input is assumed to be mounted, as it is when it fires the event.
- `PetStore.PetPatch`: a patch that sets a required field to `undefined` is not modelled. Only the two optional properties can be set to `undefined`.
- `PetCreatedWebhook.Handle`: an exception from the insert itself (a rejected promise rather than an error result) is not modelled. Nor is the second clock reading used only for console logging.
