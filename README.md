# hhapp data layer in Dafny

This project models the data-access layer of hhapp, a Go web service for happy-hour venues: the
`Store` in `internal/data/data.go` and the required-field check `User.Validate` in
`internal/schema/user.go`.

Most Store operations run one closure through `transaction` (Begin, run the closure, Rollback
on error, otherwise Commit). `VenueGet` and `VenueListGet` run none when given neither an id nor
a name. `VenueListAdd` runs up to three: the list lookup, the venue lookup and its own insert.
`transaction` hands each attempt to `retry`, which repeats it while
it fails and does not ask to bypass retrying, up to `maxRetry + 1` attempts. The operations
differ in how their closures classify errors:
- a "Duplicate entry" insert error becomes `ErrDuplicateEntry`;
- `sql.ErrNoRows` becomes `ErrNotFound`;
- errors can be bypassed or left to retry.

Modules, one per file:

- `Wrappers` (wrappers.dfy): `Option`.
- `Strings` (strings.dfy): Go's `strings.Contains`, `HasSuffix` and `TrimSuffix`, with their meaning as contracts.
- `Schema` (schema.dfy): the records of package `schema`, and `User.Validate` as a method with a loop over the required-field map. Go ranges over that map in an unspecified order, so the order is a parameter: any arrangement of the three keys.
- `Errors` (errors.dfy): the error values, with `Error()` texts as in the Go source, and the "Duplicate entry" test.
- `Backend` (backend.dfy): the MySQL server behind `*sql.DB`. It has:
  - staged and committed tables;
  - auto-increment counters, which a rollback does not undo;
  - unique keys;
  - a fault oracle, a list of verdicts consumed one per Begin, Exec, QueryRow, Query, `rows.Next()` and Commit. For a `rows.Next()` that finds a row, the verdict says whether `rows.Scan()` fails or `rows.Next()` itself reports an error. The connection stays usable in the second case, as when the server ends a result set with an error packet. The last `rows.Next()`, which finds no row, fails on any verdict but a pass;
  - a log of every call.

  It is a class `Database` whose methods are specified by functions on its state.
- `Retry` (retry.dfy): what `retry` promises over any sequence of replies of its `fn`.
- `Data` (data.dfy): a unit of work is a `Work` value. The variables the Go closures assign are a `Captured` record threaded through the attempts, so they keep what one attempt leaves for the next, as in Go. The module also has:
  - `AttemptSpec` (transaction's attempt) and `RetryLoop` (retry's loop);
  - one specification function per operation;
  - the class `Store`, whose methods implement the operations with a `while` loop for retry and one for `rows.Next()`. Each method is proved equal to its specification function.
- `RetryFacts` (retry_facts.dfy): lemmas about retry and transaction. They cover the promise, the call counts and atomicity, and runs whose Begin keeps failing.
- `StoreFacts` (store_facts.dfy): lemmas about the operations. They cover error classification, key selection, `VenueListAdd`, the readers, concrete scenarios, and the three findings below.

Behaviour of the code worth noting, which the model follows:

- Error classification differs per operation. `CreateUserFavorite` bypasses every insert error. `AddToMenu` bypasses every insert error, but turns a duplicate into `ErrDuplicateEntry`. `UserFavoritesGet` does not turn `sql.ErrNoRows` into `ErrNotFound`, so a missing favorite is retried until the budget is spent. `GetUser` ignores its Scan error altogether.
- In the create operations, a non-duplicate Exec error panics on the nil result. It does not come back as an error (Finding 2).
- The readers never call `rows.Err()`. A failed `rows.Next()` ends their loop as if the rows were exhausted, and the attempt commits and returns nil with the rows read so far (Finding 3).

## Model

| member | source | states |
|---|---|---|
| Strings.Contains | internal/data/data.go:71 | `strings.Contains(s, sub)` is true exactly when `sub` occurs at some index of `s` |
| Strings.TrimSuffix | internal/schema/user.go:64 | with the suffix present, the result plus the suffix is the input; otherwise the input is unchanged |
| Strings.OccursInContext | internal/data/data.go:71 | a text that embeds `sub` between any two strings contains it |
| Schema.RequiredFields | internal/schema/user.go:51-54 | the map Validate fills has exactly the keys username, password and email |
| Schema.RequiredFieldMessage | internal/schema/user.go:76-78 | the message is the field name followed by exactly " is a required field. " |
| Schema.NonEmptyString | internal/schema/user.go:69-74 | empty exactly when the value is non-empty; for an empty value, the field's required-field message |
| Schema.Validate | internal/schema/user.go:48-67 | for every range order of the map: nil exactly when UserName, Password and Email are all non-empty (FirstName and LastName unchecked). Otherwise the text plus one space is the concatenation of the missing fields' messages, and each key is in that list once if its value is empty, never otherwise (0 to 3 messages) |
| Schema.MissingSnoc | internal/schema/user.go:56-61 | one loop step appends the key's message exactly when its value is empty |
| Schema.MissingCount | internal/schema/user.go:56-61 | each key occurs among the missing keys as often as in the range order if its value is empty, and never otherwise |
| Schema.MissingEmpty | internal/schema/user.go:63-66 | no missing key means all three required values are non-empty |
| Schema.MessagesEndInSpace | internal/schema/user.go:63-64 | a non-empty concatenation of messages ends in a space, so TrimSuffix removes exactly one character |
| Schema.MessageIndex | internal/schema/user.go:56-61 | the message of every missing key occurs in the concatenation, at an index it returns |
| Schema.TrimmedMessagesMention | internal/schema/user.go:63-64 | after the trim, the text still contains "<key> is a required field." for every missing key |
| Schema.TrimmedMessagesEnd | internal/schema/user.go:63-64 | after the trim, the text ends in '.', not in a space |
| Schema.ValidateMessageContents | internal/schema/user.go:56-65 | Validate's error text ends in '.' and names every required field whose value is empty; an empty user is rejected, as internal/route/handlers_test.go:59-78 expects |
| Errors.DuplicateKeyMessage | internal/data/data.go:71 | the server's unique-key violation message passes the "Duplicate entry" test |
| Backend.FindUserMeans | internal/data/data.go:153 | the user lookup by username finds a row with that name, or there is none |
| Backend.FindVenueMeans | internal/data/data.go:275 | the venue lookup by id finds a row with that id, or there is none |
| Backend.VenueNamedMeans | internal/data/data.go:278 | the venue lookup by name finds a row with that name, or there is none |
| Backend.FindListMeans | internal/data/data.go:224 | the venue-list lookup by id finds a row with that id, or there is none |
| Backend.ListNamedMeans | internal/data/data.go:227 | the venue-list lookup by name finds a row with that name, or there is none |
| Backend.RemoveFavoriteMeans | internal/data/data.go:139 | the DELETE keeps exactly the favorites whose id differs |
| Backend.PairedMeans | internal/data/data.go:206-207 | the membership key check holds exactly when a row joins that venue and that list |
| Backend.HasMenuMeans | internal/data/data.go:325-326 | the menu key check holds exactly when a menu of that venue exists |
| Backend.ExecOn | internal/data/data.go:69-71 | the tables reject a statement only with a message that passes the "Duplicate entry" test |
| Backend.ExecOnNewId | internal/data/data.go:74-75 | on tables whose ids do not exceed their auto-increment counters, every statement keeps them so, and the id an insert returns for LastInsertId is above every id already in its table |
| Backend.Consume | internal/data/data.go:362 | a driver call appends itself to the log and changes nothing but the log and the oracle |
| Retry.PromisedUnique | internal/data/data.go:384-400 | the promise fixes both the number of calls of fn and the outcome |
| Retry.StopsAtFirstDecisive | internal/data/data.go:386-399 | retry returns at the first success or bypass within the budget, with that reply's error, and calls fn no more |
| Retry.ExhaustsWhenAllFail | internal/data/data.go:391-398 | when every call fails without bypass, fn is called exactly maxRetry+1 times and the last error comes back wrapped |
| Data.SelectKey | internal/data/data.go:222-231 | a non-zero id is chosen; otherwise a non-empty name; otherwise no key (each direction an if-and-only-if) |
| Data.ExecFailure | internal/data/data.go:71-73 | a duplicate becomes a bypassed ErrDuplicateEntry, except that CreateUserFavorite (86-88) bypasses every error unchanged. AddToMenu (344-349) bypasses others unchanged; the other creates (74) panic on the nil result; the corrected policy returns them for retry |
| Data.AttemptNeverPanics | internal/data/data.go:360-375 | an attempt panics only for an insert that reaches the nil result |
| Data.RetryNeverPanics | internal/data/data.go:377-401 | retry only panics when fn panics |
| Data.Store.ScanInto | internal/data/data.go:106-113 | the `rows.Next()` loop appends the scanned rows in order. It stops at the first failed Scan with its error, or at a failed `rows.Next()` (the last one included) with the error only `rows.Err()` would report, keeping the rows appended so far |
| Data.Store.InsertWork | internal/data/data.go:68-77 | the insert closure: Exec, classify its error, capture LastInsertId |
| Data.Store.DeleteWork | internal/data/data.go:138-145 | the delete closure returns the Exec error, not bypassed |
| Data.Store.LoadUserWork | internal/data/data.go:152-156 | GetUser's closure captures the user if found and always replies (false, nil) |
| Data.Store.LoadVenueWork | internal/data/data.go:284-291 | the venue lookup closure: no rows becomes a bypassed ErrNotFound for VenueGet (not for UserFavoritesGet, 127-131); other errors are retried |
| Data.Store.LoadListWork | internal/data/data.go:233-240 | the list lookup closure: no rows becomes a bypassed ErrNotFound; other errors are retried |
| Data.Store.ReadVenuesWork | internal/data/data.go:98-116 | the venue readers' closure: Query, then scan and append onto the slice the previous attempts left |
| Data.Store.ReadItemsWork | internal/data/data.go:298-317 | MenuItemsGet's closure, likewise |
| Data.Store.RunWork | internal/data/data.go:367 | runs the closure of the unit of work |
| Data.Store.Attempt | internal/data/data.go:361-374 | the attempt matches AttemptSpec: a Begin error is returned with bypass false; a failed closure is rolled back with its bypass flag forwarded; otherwise Commit's error is returned |
| Data.Store.Retry | internal/data/data.go:377-401 | the loop (decrement, sleep, continue) ends in the state, captured values and outcome of RetryLoop with maxRetry+1 attempts |
| Data.Store.Transaction | internal/data/data.go:360-361 | transaction runs retry with the budget retryN = 3 (line 358) |
| Data.Store.InsertRow | internal/data/data.go:67-78 | an insert operation returns the captured id and the transaction's outcome |
| Data.Store.CreateUser | internal/data/data.go:66-79 | matches CreateUserSpec |
| Data.Store.CreateUserFavorite | internal/data/data.go:81-94 | matches CreateUserFavoriteSpec and never panics |
| Data.Store.UserFavoritesList | internal/data/data.go:96-119 | matches UserFavoritesListSpec |
| Data.Store.UserFavoritesGet | internal/data/data.go:121-136 | matches UserFavoritesGetSpec |
| Data.Store.UserFavoritesDelete | internal/data/data.go:137-148 | matches UserFavoritesDeleteSpec |
| Data.Store.GetUser | internal/data/data.go:150-158 | matches GetUserSpec |
| Data.Store.CreateVenue | internal/data/data.go:160-175 | matches CreateVenueSpec |
| Data.Store.CreateVenueList | internal/data/data.go:177-191 | matches CreateVenueListSpec |
| Data.Store.VenueListGet | internal/data/data.go:219-243 | matches VenueListGetSpec: with no key, the error and no call at all |
| Data.Store.VenueGet | internal/data/data.go:270-294 | matches VenueGetSpec: with no key, the error and no call at all |
| Data.Store.VenuesByList | internal/data/data.go:245-268 | matches VenuesByListSpec |
| Data.Store.MenuItemsGet | internal/data/data.go:296-320 | matches MenuItemsGetSpec |
| Data.Store.CreateMenu | internal/data/data.go:322-336 | matches CreateMenuSpec |
| Data.Store.AddToMenu | internal/data/data.go:338-356 | matches AddToMenuSpec and never panics |
| Data.Store.VenueListAdd | internal/data/data.go:193-217 | matches VenueListAddSpec: the list, then the venue, then the insert of the resolved ids |
| Data.Store.CreateVenueFixed | internal/data/data.go:160-175 | corrected CreateVenue: matches CreateVenueFixedSpec and never panics |
| Data.Store.UserFavoritesListFixed | internal/data/data.go:96-119 | corrected reader (slice emptied per attempt, `rows.Err()` checked): matches UserFavoritesListFixedSpec |
| Data.Store.VenuesByListFixed | internal/data/data.go:245-268 | corrected reader (slice emptied per attempt, `rows.Err()` checked): matches VenuesByListFixedSpec |
| Data.Store.MenuItemsGetFixed | internal/data/data.go:296-320 | corrected reader (slice emptied per attempt, `rows.Err()` checked): matches MenuItemsGetFixedSpec |
| RetryFacts.Replies | internal/data/data.go:385-397 | one reply of fn per call, each after the previous one and a sleep |
| RetryFacts.FirstDecisive | internal/data/data.go:386-389 | a decisive first reply ends retry at once, settled, after one call |
| RetryFacts.RetryKeepsPromise | internal/data/data.go:377-401 | RetryLoop does what Retry.Promised says, for every fn, state and budget |
| RetryFacts.ConsumeCounted | internal/data/data.go:362 | a call adds one Begin to the log exactly when it is a Begin, and one sleep exactly when it is a sleep |
| RetryFacts.ScanRowsCounted | internal/data/data.go:106-113 | scanning rows opens no transaction and does not sleep |
| RetryFacts.ExecCounted | internal/data/data.go:70 | a statement opens no transaction and does not sleep |
| RetryFacts.WorkCounted | internal/data/data.go:367 | a closure opens no transaction and does not sleep |
| RetryFacts.ReadVenuesCounted | internal/data/data.go:102-113 | the venue readers' closure opens no transaction and does not sleep |
| RetryFacts.ReadItemsCounted | internal/data/data.go:303-314 | MenuItemsGet's closure opens no transaction and does not sleep |
| RetryFacts.AttemptCounted | internal/data/data.go:361-374 | each attempt opens exactly one transaction and does not sleep |
| RetryFacts.AttemptOneBegin | internal/data/data.go:361-374 | AttemptCounted for every state, as the hypothesis of RetryCounted |
| RetryFacts.RetryCounted | internal/data/data.go:384-397 | a run of k attempts, 1 ≤ k ≤ budget, opens k transactions and sleeps k-1 times, never after the last attempt |
| RetryFacts.RunFound | internal/data/data.go:377-401 | when every successful call of a read-only fn has captured what a condition asks of the committed tables, so has a whole retry run that returns nil |
| RetryFacts.RunReadOnly | internal/data/data.go:377-401 | when no call of fn commits anything or makes a call outside a given kind, neither does a whole retry run, sleeps included |
| RetryFacts.ScanRowsKeepsTables | internal/data/data.go:106-113 | scanning changes no table; what it appends is a prefix of the rows, in order, and all of them when neither a Scan nor `rows.Next()` failed |
| RetryFacts.WorkKeepsCommitted | internal/data/data.go:367 | a closure touches only the transaction's staged tables |
| RetryFacts.AttemptAtomic | internal/data/data.go:366-373 | an attempt that succeeds commits what its closure staged; a failed or panicking attempt leaves the committed tables as they were |
| RetryFacts.AttemptCommitsOnSuccessOnly | internal/data/data.go:366-373 | AttemptAtomic for every state, as the hypothesis of RunAtomic |
| RetryFacts.RunAtomic | internal/data/data.go:377-401 | a run that does not return nil commits nothing |
| RetryFacts.AttemptPausesOnFailedBegin | internal/data/data.go:362-365 | a failed Begin returns its error with bypass false, having issued nothing else |
| RetryFacts.OnePause | internal/data/data.go:391-397 | one failed Begin with budget left costs an attempt and a sleep, then the run goes on |
| RetryFacts.PausesAdd | internal/data/data.go:391-397 | pausing once and then n-1 times is pausing n times |
| RetryFacts.RetryPastFailingBegins | internal/data/data.go:384-397 | n < budget failing Begins cost n attempts and n sleeps, then the run goes on with n fewer attempts |
| RetryFacts.ExhaustsOnFailingBegins | internal/data/data.go:391-394 | when Begin fails on every attempt, there are exactly maxRetry+1 attempts. Nothing is committed, the captured values are untouched, and the last Begin error comes back wrapped |
| StoreFacts.ScanRowsClean | internal/data/data.go:106-113 | with no faults, all rows are appended in order, with neither a Scan error nor a `rows.Next()` error |
| StoreFacts.ScanRowsPasses | internal/data/data.go:106-113 | with one passing verdict per row and one for the last `rows.Next()`, all rows are appended in order with no error of either kind, and the oracle moves past them |
| StoreFacts.InsertAttemptClean | internal/data/data.go:68-77 | with no faults, an insert commits its row, or its unique-key rejection is settled by the policy |
| StoreFacts.InsertClean | internal/data/data.go:68-77 | with no faults, an insert takes one attempt: it commits the row with the next id, or settles the rejection |
| StoreFacts.LoadVenueAttemptClean | internal/data/data.go:284-291 | with no faults, a lookup finds the row and commits, or rolls back with ErrNotFound or no rows; the exact calls are stated |
| StoreFacts.LoadVenueClean | internal/data/data.go:284-291 | with no faults, VenueGet's lookup takes one attempt and ends in the row or ErrNotFound |
| StoreFacts.NoRowsRetried | internal/data/data.go:127-131 | a lookup that does not bypass no rows spends the whole budget and returns it wrapped |
| StoreFacts.LoadListClean | internal/data/data.go:233-240 | with no faults, VenueListGet's lookup takes one attempt and ends in the row or ErrNotFound |
| StoreFacts.LoadUserClean | internal/data/data.go:152-156 | with no faults, GetUser takes one attempt and returns the user found or the zero user, with nil |
| StoreFacts.ReadVenuesAttemptClean | internal/data/data.go:98-116 | with no faults, the reader's attempt appends the join's rows in order to the slice |
| StoreFacts.ReadVenuesClean | internal/data/data.go:98-116 | with no faults, the reader returns exactly the join's rows, in order, and nil (zero rows give an empty result) |
| StoreFacts.ReadItemsAttemptClean | internal/data/data.go:298-317 | with no faults, MenuItemsGet's attempt appends the venue's items in order |
| StoreFacts.ReadItemsClean | internal/data/data.go:298-317 | with no faults, MenuItemsGet returns exactly the venue's items, in order, and nil |
| StoreFacts.InsertExecFails | internal/data/data.go:70-74 | an Exec failure ends an insert after one attempt under each Go policy: settled, nothing committed, and no rollback on a panic |
| StoreFacts.CreateVenuePanics | internal/data/data.go:165-169 | a non-duplicate Exec error in CreateVenue panics, with no rollback and no retry |
| StoreFacts.CreateVenueFixedRetriesExecError | internal/data/data.go:165-171 | corrected: the same error is rolled back and retried, and the second attempt commits the venue |
| StoreFacts.CreateUserFavoriteBypasses | internal/data/data.go:85-88 | CreateUserFavorite returns any insert error unchanged after exactly one transaction, with id 0 |
| StoreFacts.AddToMenuClassifies | internal/data/data.go:343-349 | AddToMenu returns ErrDuplicateEntry for a duplicate and any other error unchanged, and commits nothing |
| StoreFacts.VenueInsert | internal/data/data.go:163-165 | a venue with a free name is appended with the next id |
| StoreFacts.DuplicateVenue | internal/data/data.go:166-168 | the first of two venues with the same name gets the next id; the second gets ErrDuplicateEntry, id 0 and no write |
| StoreFacts.VenueGetIdempotent | internal/data/data.go:270-294 | two VenueGet calls with no write between them answer alike and change no table |
| StoreFacts.VenueNotFoundIsTerminal | internal/data/data.go:284-289 | a missing venue gives ErrNotFound after one transaction (Begin, query, rollback) |
| StoreFacts.LookupWithoutKey | internal/data/data.go:229-230 | with neither id nor name, VenueGet and VenueListGet return their input errors without any call (also 280-281) |
| StoreFacts.VenueGetRetriesQueryError | internal/data/data.go:286-290 | a driver error of the lookup is retried; the second attempt answers |
| StoreFacts.ReaderRetriesQueryError | internal/data/data.go:102-105 | a failed Query is retried, and the retry returns each row once |
| StoreFacts.UserFavoritesGetMissing | internal/data/data.go:127-131 | a missing favorite spends all retryN+1 attempts and returns the wrapped sql.ErrNoRows with the zero venue |
| StoreFacts.GetUserMissing | internal/data/data.go:151-157 | a missing user gives the zero User and nil |
| StoreFacts.GetUserSwallowsQueryError | internal/data/data.go:153-155 | a failing user query also gives the zero User and nil |
| StoreFacts.DeleteFavoriteRemoves | internal/data/data.go:137-148 | with no faults, UserFavoritesDelete returns nil and commits the tables with the favorite of that id removed and every other favorite kept, in order; nothing else changes |
| StoreFacts.DeleteMissingFavorite | internal/data/data.go:137-148 | deleting a favorite that does not exist reports success and changes nothing |
| StoreFacts.RemoveNothing | internal/data/data.go:139 | a DELETE that matches no row leaves the table as it was |
| StoreFacts.CreateVenueRecovers | internal/data/data.go:362-364 | two failed Begins, then the third attempt commits the venue with the next id |
| StoreFacts.PanzanoVenue | internal/data/data.go:160-175 | the first venue on an empty server gets id 1 |
| StoreFacts.PanzanoMenu | internal/data/data.go:322-336 | the first menu gets id 1 |
| StoreFacts.PanzanoItem | internal/data/data.go:338-356 | the first menu item gets id 1 |
| StoreFacts.PanzanoItems | internal/data/data.go:296-320 | the venue's menu lists that item |
| StoreFacts.Panzano | internal/data/data.go:160-356 | create venue, create menu, add an item, list the items: ids 1, 1, 1 and exactly the item |
| StoreFacts.VenueListAddMissingList | internal/data/data.go:195-198 | a list that is not found gives "venue list <name> not found"; no venue lookup and no insert happen |
| StoreFacts.VenueListAddMissingVenue | internal/data/data.go:200-203 | a venue that is not found gives "venue <name> not found" after the list lookup; no insert happens |
| StoreFacts.ListLookupAttemptReadOnly | internal/data/data.go:233-240 | for any state, an attempt of the list lookup commits nothing and makes no statement and no venue query |
| StoreFacts.VenueLookupAttemptReadOnly | internal/data/data.go:284-291 | for any state, an attempt of the venue lookup commits nothing and makes no statement |
| StoreFacts.VenueListGetReadOnly | internal/data/data.go:219-243 | for any faults and key, VenueListGet commits nothing and makes no statement and no venue query |
| StoreFacts.VenueGetReadOnly | internal/data/data.go:270-294 | for any faults and key, VenueGet commits nothing and makes no statement |
| StoreFacts.VenueListAddListFails | internal/data/data.go:195-198 | for any faults: when the list lookup fails, the result is 0 and "venue list <name> not found", nothing is committed, and no venue query and no insert are made |
| StoreFacts.VenueListAddVenueFails | internal/data/data.go:200-203 | for any faults: when the list is found but the venue lookup fails, the result is 0 and "venue <name> not found", nothing is committed, and no insert is made |
| StoreFacts.VenueListGetFound | internal/data/data.go:219-243 | for any faults: a VenueListGet that returns nil returns the committed row its key (id first, else name) selects, and commits nothing |
| StoreFacts.VenueGetFound | internal/data/data.go:270-294 | for any faults: a VenueGet that returns nil returns the committed row its key selects, and commits nothing |
| StoreFacts.VenueListAddResolves | internal/data/data.go:193-216 | for any faults and keys: when both lookups return nil, they returned the committed rows their keys select, nothing was committed meanwhile, and the statement VenueListAdd goes on to execute is the insert of those rows' venue id and list id |
| StoreFacts.VenueListAddInsertsResolvedIds | internal/data/data.go:205-216 | with no faults, both lookups by name and no existing pair: the membership row inserted joins the resolved venue id and list id, with the next id, and the call returns that id and nil |
| StoreFacts.ReaderRepeatsRows | internal/data/data.go:97-116 | as written: when the first attempt scans every row and then fails to commit, the retry returns nil with every row twice |
| StoreFacts.UserFavoritesListRepeatsRows | internal/data/data.go:96-119 | as written: UserFavoritesList can return nil with a result that is not the user's favorites |
| StoreFacts.MenuItemsRepeatRows | internal/data/data.go:296-320 | as written: MenuItemsGet can return nil with every item twice |
| StoreFacts.ReaderTruncates | internal/data/data.go:106-115 | as written: when `rows.Next()` reports an error at the first row and the connection stays usable, the loop ends silently, the attempt commits, and the reader returns nil with no rows |
| StoreFacts.UserFavoritesListTruncates | internal/data/data.go:96-119 | as written: a user with favorites can get an empty list and nil |
| StoreFacts.MenuItemsTruncate | internal/data/data.go:296-320 | as written: MenuItemsGet can return nil with none of the venue's items |
| StoreFacts.FixedReaderRetriesAbort | internal/data/data.go:98-116 | corrected, on the same faults: `rows.Err()` reports the failed `rows.Next()`, the attempt rolls back, and the retry returns every row once with nil |
| StoreFacts.FixedVenuesAttempt | internal/data/data.go:98-116 | corrected (slice emptied per attempt, `rows.Err()` checked): an attempt that succeeds returns exactly the rows of the tables it committed, whatever the faults |
| StoreFacts.FixedVenuesReader | internal/data/data.go:98-116 | corrected (slice emptied per attempt, `rows.Err()` checked): for any faults, failed `rows.Next()` included, a run that returns nil returns exactly the join of the committed tables |
| StoreFacts.FixedItemsAttempt | internal/data/data.go:298-317 | corrected: likewise for one attempt of MenuItemsGet |
| StoreFacts.FixedItemsReader | internal/data/data.go:298-317 | corrected: likewise for a whole run of MenuItemsGet |
| StoreFacts.UserFavoritesListFixedIsJoin | internal/data/data.go:96-119 | corrected UserFavoritesList: on nil, exactly the user's favorite venues |
| StoreFacts.VenuesByListFixedIsJoin | internal/data/data.go:245-268 | corrected VenuesByList: on nil, exactly the venues on the list |
| StoreFacts.MenuItemsGetFixedIsJoin | internal/data/data.go:296-320 | corrected MenuItemsGet: on nil, exactly the items of the venue's menus |

## Left out

- HTTP layer (internal/route): request plumbing over the `Database` interface, with no logic of the data layer.
- Startup and configuration (cmd/hhappd, internal/config): environment loading and server start.
- `NewStore`, `Close`, `newConnection`, the DSN and the MySQL driver: connection handling outside the model. The SQL text is replaced by the statements and queries of `Backend`, and the joins by filters over the tables.
- Backoff durations and jitter (`jpillora/backoff`), and `time.Sleep`: only the fact that a sleep happened is logged.
- `time.Now()` timestamps: they are written to `created_at` columns and never read back.
- `HashPassword` and `Authorized` in internal/schema/user.go: bcrypt is a foreign library.
- `fmt.Println` in CreateVenue and `fmt.Printf` in AddToMenu: output only.
- internal/data/datamock/mock.go is not part of this model: it is a test double with no logic.
- The file declaring `schema.UserFavorite` is not part of this model. Its fields (id, user id, venue id) are taken from their uses in data.go.
- Concurrency on the shared `sql.DB` pool: every operation runs alone.
- NULL columns: columns are plain strings. `rows.Close()` is implicit at the end of the closure.
- The error path of `res.LastInsertId()` (internal/data/data.go:74-76 and the other inserts): MySQL's driver does not fail it after a successful Exec. In the model a successful Exec always yields its id.
- The agreement between the id counters and the table ids is proved for one statement (Backend.ExecOnNewId). It is not proved as an invariant that every operation keeps; for an arbitrary `Server` value a counter may lag behind its table, and "the next id" of such a state may already be taken.
- `MenuItem.Price` is a `real`, not a float64. It is only stored and returned.
- `retryN` is a mutable package variable in Go; the model treats it as the constant 3.
- Data.Store.Retry: it requires `0 <= maxRetry < 2^63 - 1`. With a negative budget the Go loop never stops on errors. The upper bound keeps `maxRetry + 1` inside int64.
- The Go map iteration order of Validate is a parameter; any arrangement of the three keys is allowed.

## Findings

| source | as written | input that shows it | evidently intended | confidence | as-written member | corrected member |
|---|---|---|---|---|---|---|
| internal/data/data.go:97-116 (also 246-265, 297-317) | the readers append rows to a slice declared outside the retried closure, so the rows of a failed attempt stay there on retry | faults: Begin, Query and every Scan pass, then Commit fails once; the retry succeeds and returns nil with every row twice | the result of a successful call is exactly the query's rows | high (not executed) | StoreFacts.ReaderRepeatsRows | StoreFacts.UserFavoritesListFixedIsJoin |
| internal/data/data.go:74 (also 169, 185, 211, 330) | after a non-duplicate Exec error the closure calls `res.LastInsertId()` on a nil result, which panics through retry with no rollback | CreateVenue with Begin passing and Exec failing with "connection reset" | the error is returned for retry, like the other closures' errors | high (not executed) | StoreFacts.CreateVenuePanics | StoreFacts.CreateVenueFixedRetriesExecError |
| internal/data/data.go:106-115 (also 255-264, 307-316) | the readers never call `rows.Err()`; when `rows.Next()` fails the loop ends as if the rows were exhausted, and the closure returns the Query's nil error | a join with at least one row; Begin and Query pass, then `rows.Next()` reports an error at the first row while the connection stays usable (the server ends the result set with an error packet, e.g. a statement cut off by `max_execution_time`), and Commit passes | the call reports the error (and retry repeats the attempt) instead of committing a truncated result with nil | high (not executed) | StoreFacts.ReaderTruncates | StoreFacts.FixedReaderRetriesAbort |
