# SnuliHub storefront — a verified model of its decision logic

SnuliHub is a client-side storefront over a hosted document database. Customers place
orders in franchise stores. Franchise owners and webmasters manage users and move orders
through a fixed workflow: `pending`, `verify payment`, `processing order`, `order sent`.
This project models the logic that runs through its services, pages and components, and
proves properties of that model in Dafny:

- **Orders** (`OrderService`): the per-customer order number, the product codes and the
  order code, the shape of the tracking number, and order creation with its validation and
  total. It also covers the owner-scoped code lookup, the franchise and customer lists
  sorted newest first, and the status and follow-up writes.
- **User ids and migration** (`UserService`, `UserConsole`):
  - the counter-based id allocator and `createUser`;
  - the update that drops empty values, and the id-prefix classifier;
  - the customer-to-franchise upgrade and its revert, with the lineage pointers that make
    a round trip restore the original ids;
  - the store-slug collision rule;
  - the console's suffix-scanning id generator, user creation and the category-change
    migration, the user filter, the schema check and the active toggle.
- **Store slugs** (`Slug`): the normaliser and the validator, which accepts every
  non-empty output of the normaliser.
- **Status workflow in the pages** (`Tracking`, `OrderConsole`, `FranchiseDashboard`,
  `CustomerDashboard`): the step index of a status, the amount sanitiser, the payment
  submission, the status formatters, revenue and distinct customers, and the confirmations
  that advance one order by one step. The dashboards add the store-name precedence, the
  rename guard, the greeting, the access guard and the tracking link.
- **Forms** (`Checkout`, `EditUserModal`, `CreateUserModal`, `ProductService`,
  `UseStore`):
  - the phone sanitiser and the checkout guard sequence with its order payload;
  - the changed-fields diff of the edit form;
  - the creation form's defaults and validation;
  - the comma-list normalisation of product features and tags;
  - the store-resolution fallback chain.
- **Access and sign-in** (`ProtectedRoute`, `AuthContext`, `UserLogin`, `AdminLogin`): the
  route guard's decision table, session restore, the context's `login` and `logout`, the
  role flags, and the two sign-in pages' check sequences and session writes.

The database is a set of maps from document id to record. User records, sign-up forms and
store data are JavaScript objects, modelled as `Docs.Doc`: a map from field to a value that
is a string, a boolean, a number, a timestamp or `null`. A missing key stands for
`undefined`. Object spread is map union in which the right-hand side wins; `delete` removes
a key; a merge-style update is `old + patch`. Orders have a fixed shape and are a datatype.
Pages and services whose state the source updates in place are classes. Their methods are
proved against pure specification functions over a snapshot of the state (`Db()`), and the
lemmas are stated about those functions. Navigation, notifications and browser-session
writes are outcome values or fields of the page.

Modules: `Wrappers` (Option, Result), `Docs` (the record model), `Text` (case, padding,
split and join, trim), then one module per source file.

## Model

| member | source | states |
|---|---|---|
| OrderService.GenerateProductCodes | src/services/orderService.js:47-53 | one code per item, in item order; each is the item name's first two characters lower-cased, fewer when the name is shorter |
| OrderService.GenerateOrderCode | src/services/orderService.js:56-80 | every order code starts with `cu` and the postal code as given, and is longer than those two and the country together |
| OrderService.OrderCodeLayout | src/services/orderService.js:56-80 | the code is `cu`, the postal code, the lower-cased country and the joined product codes, then the order number (read back as a number), then the franchise id or `none`; the customer id does not change it |
| OrderService.OrderCodeExample | src/services/orderService.js:56-80 | one Tofu, postal code 1000, PH, order 1, franchise fr000001 gives `cu1000phto1fr000001` |
| OrderService.TofuCode | src/services/orderService.js:47-53 | `Tofu` and `Tomato` both give the product code `to` |
| OrderService.OrderCodeSeparatesOrderNumbers | src/services/orderService.js:72-73 | with a franchise id that does not start with a digit, equal codes that differ only in the order number imply equal order numbers |
| OrderService.OrderCodeIgnoresRestOfName | src/services/orderService.js:47-53 | two different carts (one Tofu, three Tomatoes) get the same order code |
| OrderService.TrackingNumberOf | src/services/orderService.js:83-90 | the tracking number is exactly 10 characters, each a digit or an upper-case letter |
| OrderService.AlphabetIsTrackingChars | src/services/orderService.js:84 | every character of the alphabet is a digit or an upper-case letter |
| OrderService.GenerateTrackingNumber | src/services/orderService.js:83-90 | the loop appending ten picked characters returns the tracking number of those picks: 10 characters from `0-9A-Z` |
| OrderService.TotalAmountAppend | src/services/orderService.js:158-159 | the total of a joined cart is the sum of the two totals |
| OrderService.TotalAmountNonNegative | src/services/orderService.js:158-159 | with no negative price the total is not negative |
| OrderService.Scan | src/services/orderService.js:207-212 | a query lists only documents below the id counter |
| OrderService.ScanMembers | src/services/orderService.js:207-217 | a query result holds exactly the selected documents, each with its own data |
| OrderService.ScanIncreasing | src/services/orderService.js:207-217 | a query result is in increasing document-id order, so no document twice |
| OrderService.ScanLength | src/services/orderService.js:36-39 | a query's size is the number of selected documents |
| OrderService.InsertNewestFirst | src/services/orderService.js:241 | inserting keeps the entries (as a multiset) and puts the new entry or the old head first |
| OrderService.InsertKeepsNewestFirst | src/services/orderService.js:241 | inserting into a list sorted newest first keeps it sorted |
| OrderService.SortNewestFirst | src/services/orderService.js:241 | the sort is a permutation of its input |
| OrderService.SortIsNewestFirst | src/services/orderService.js:241 | the sorted list has non-increasing `createdAt` |
| OrderService.CreateOrderValidatesFirst | src/services/orderService.js:97-103 | a missing `userId` fails first, then a missing `franchiseId`; a failure writes nothing |
| OrderService.CreateOrderStores | src/services/orderService.js:117-178 | a valid creation adds exactly one new document and leaves the others alone; it has status `pending`, the customer's order count plus one as its order number, the summed total and the tracking number; the result repeats the code and the customer id |
| OrderService.OrderNumbersIncrease | src/services/orderService.js:34-44 | after a creation the same customer's order count is one higher |
| OrderService.StatusWriteResetsFollowUp | src/services/orderService.js:271-283 | a status write stores the lower-cased status and `followUp` false, changes no other field and no other order |
| OrderService.FollowUpWriteIdempotent | src/services/orderService.js:286-297 | writing the same follow-up flag twice equals writing it once; a missing document is an error that changes nothing |
| OrderService.FollowUpWriteKeepsStatus | src/services/orderService.js:286-297 | the follow-up write sets only `followUp` and `updatedAt` on that order and touches no other order |
| OrderService.OrderStore.Query | src/services/orderService.js:207-217 | a query returns exactly the selected documents with their data, in increasing id order |
| OrderService.OrderStore.GetCustomerOrderCount | src/services/orderService.js:34-44 | the number of the customer's orders plus one |
| OrderService.OrderStore.GetOrdersByCode | src/services/orderService.js:204-222 | exactly the orders with that code AND that customer id, each once |
| OrderService.OrderStore.GetOrdersByFranchiseId | src/services/orderService.js:224-246 | exactly the franchise's orders, sorted newest first, a permutation of the query result |
| OrderService.OrderStore.GetOrdersByUserId | src/services/orderService.js:248-268 | exactly the customer's orders, sorted newest first, a permutation of the query result |
| OrderService.OrderStore.CreateOrder | src/services/orderService.js:92-183 | the result and the new collection are those of the creation rules above, with the tracking number built from the picks |
| OrderService.OrderStore.UpdateOrderStatus | src/services/orderService.js:271-283 | the result and the new collection are those of the status write |
| OrderService.OrderStore.UpdateFollowUpStatus | src/services/orderService.js:286-297 | the result and the new collection are those of the follow-up write |
| UserService.NextNumber | src/services/userService.js:242-248 | the next number is at least 1: 1 with no counter document, otherwise the stored count plus one |
| UserService.FormatUserIdReadsBack | src/services/userService.js:251-252 | a formatted id starts with its prefix and the six-digit rest reads back as the number |
| UserService.NextUserIdAllocates | src/services/userService.js:232-258 | the id is the prefix followed by the counter's next value, that value is stored in the prefix's counter (`cu` the customer counter, any other the franchise counter), and nothing else changes |
| UserService.SuccessiveUserIdsIncrease | src/services/userService.js:232-258 | two successive calls under one counter give consecutive numbers and different ids |
| UserService.CountersIndependent | src/services/userService.js:233 | a call on one counter does not change the next id of the other |
| UserService.FirstMissing | src/services/userService.js:122-127 | none exactly when every required field is truthy; otherwise a listed field that is missing or falsy |
| UserService.FindMissingRequired | src/services/userService.js:122-127 | the loop finds the first required field that is missing or falsy |
| UserService.CreateUserChecks | src/services/userService.js:122-139 | when the checks pass, the requested id is the submitted `id` string |
| UserService.CreateUserSpec | src/services/userService.js:119-177 | a refused creation leaves users and stores as they were; a successful one adds exactly one user, under an id that was free |
| UserService.CreateUserRejects | src/services/userService.js:122-136 | a missing required field, or an email already stored, is refused with its message and nothing is written; a missing email is reported first |
| UserService.NewUserRecordDefaults | src/services/userService.js:149-157 | the stored record carries its id, `isActive` true, `isOnline` false and `schemaVersion` 1 |
| UserService.NewUserRecordTimes | src/services/userService.js:151-156 | `createdAt` and `updatedAt` are the creation time, `lastActiveAt` and `lastLoginAt` are null |
| UserService.NewUserRecordContacts | src/services/userService.js:158-170 | each address, phone and card field is the submitted value when truthy and '' otherwise |
| UserService.NewUserRecordKeeps | src/services/userService.js:149-150 | every other submitted field is stored as submitted |
| UserService.CreateUserStores | src/services/userService.js:138-173 | a successful creation stores the record under an id that was free: the requested one, or a counter id with the replacement prefix; no other user changes |
| UserService.CreateUserAsWrittenOverwrites | src/services/userService.js:141-148 | when the requested id and the counter's replacement are both taken, the code as written stores over the replacement's existing record; the corrected creation refuses and writes no user |
| UserService.CreateUserCollisionExample | src/services/userService.js:141-148 | a console-created `cu000001` with no customer counter yet: a sign-up asking for `cu000001` passes the checks, is given `cu000001` again, and its record has a different email |
| UserService.CreateUserNeverOverwrites | src/services/userService.js:141-148 | the corrected creation leaves every existing user's record as it was |
| UserService.CreateUserAgreesUnlessTaken | src/services/userService.js:141-148 | whenever the corrected creation succeeds, `createUser` as written does the same; they part only where the written one stores over an existing user |
| UserService.DropEmptyValues | src/services/userService.js:213-217 | the loop deletes every empty-string value, and only those |
| UserService.UpdateUserKeys | src/services/userService.js:189-224 | without a category change the record keeps every stored field, gains every non-empty submitted field and `updatedAt`; no user is added or removed and no counter changes |
| UserService.UpdateUserMerges | src/services/userService.js:206-217 | each field takes the submitted value unless it is the empty string, in which case the stored value stays |
| UserService.DetectCategory | src/services/userService.js:314-319 | a result exactly for ids starting with `cu`, `fr` or `ad`; anything else is 'Invalid user ID format' |
| UserService.DetectCategoryOfAllocated | src/services/userService.js:314-319 | counter ids with `cu`, `fr`, `ad` are customer, franchise, admin; a `te` id is refused |
| UserService.FranchiseRecordAt | src/services/userService.js:348-359 | the franchise record has category franchise, `previousId` the customer id, `previousFranchiseId` null and store status `building` |
| UserService.FranchiseRecordKeeps | src/services/userService.js:348-349 | every field outside the rewritten ones travels to the franchise record unchanged |
| UserService.CustomerRecordAt | src/services/userService.js:403-411 | the customer record has category customer, `previousFranchiseId` the franchise id, `previousId` null, and every other field travels unchanged |
| UserService.UpgradeSpec | src/services/userService.js:321-376 | a refused upgrade writes nothing; no upgrade touches the stores or the customer counter |
| UserService.UpgradeRefusals | src/services/userService.js:325-336 | only a stored customer can be upgraded; a refusal writes nothing |
| UserService.RevertSpec | src/services/userService.js:378-428 | a refused revert writes nothing; no revert touches the stores or either counter |
| UserService.RevertRefusals | src/services/userService.js:382-393 | only a stored franchise can be reverted; a refusal writes nothing |
| UserService.UpgradeStores | src/services/userService.js:321-376 | a successful upgrade writes the franchise record under an `fr` id and deletes the customer record in one step |
| UserService.UpgradeMoves | src/services/userService.js:346-369 | after an upgrade only the franchise record exists, with its lineage fields set and every other field carried over |
| UserService.UpgradeChoosesId | src/services/userService.js:338-344 | a string `previousFranchiseId` starting with `fr` is reused without touching the counter; otherwise the franchise counter's next id is taken; the customer counter never moves |
| UserService.RevertStores | src/services/userService.js:378-428 | a successful revert needs a `cu` `previousId`, writes the customer record there and deletes the franchise record |
| UserService.RevertMoves | src/services/userService.js:403-421 | after a revert only the customer record exists, pointing forward to the franchise id, with every other field carried over and no counter moved |
| UserService.UpgradeRevertUpgrade | src/services/userService.js:321-428 | upgrade, revert, upgrade: the revert restores the original customer id and the second upgrade reuses the first franchise id without moving either counter |
| UserService.AttributesSpec | src/services/userService.js:430-471 | a refused migration writes nothing; every migration keeps the set of user ids, the stores and both counters |
| UserService.MigratedAttributesAt | src/services/userService.js:441-455 | the overrides set `id` and `userId` to the chosen id, schema version 1, and the flags from the submitted value, else the stored one, else the default |
| UserService.AttributesMigrate | src/services/userService.js:430-471 | the migrated record is on schema version 1 and `userId` equals `id`, the submitted id when truthy and the stored one otherwise; no other user changes |
| UserService.AttributesKeepFields | src/services/userService.js:441-444 | the migrated record has every stored and every submitted field |
| UserService.AttributesFlags | src/services/userService.js:450-453 | `isActive`, `isOnline` and `permissions` follow `??` over the submitted, stored and default values, and are never null |
| UserService.AttributesCreatedAt | src/services/userService.js:455 | a truthy stored creation time is kept; otherwise it becomes the migration time |
| UserService.Rename | src/services/userService.js:473-501 | a refused rename writes nothing; every rename keeps the set of user ids and both counters |
| UserService.UpdateStoreSlugSpec | src/services/userService.js:473-501 | `updateStoreSlug` with the normalised slug: a refusal writes nothing, and the user ids and both counters stay as they were |
| UserService.SlugForRename | src/services/userService.js:480-483 | the settled slug is never a store that another franchise owns |
| UserService.RenameSuffixRule | src/services/userService.js:473-495 | the slug is kept unless another franchise owns it, and then `-` and the first four characters of the user id are appended; the user's store fields and the store document follow |
| UserService.RenameKeepsOthersStores | src/services/userService.js:480-493 | the corrected rename never replaces a store that another franchise owns |
| UserService.RenameAgreesUnlessTaken | src/services/userService.js:480-493 | whenever the corrected rename succeeds, the rename as written does the same; it refuses only when the suffixed slug belongs to another franchise |
| UserService.RenameAsWrittenTakesOver | src/services/userService.js:480-493 | as written, fr000001 renaming to `shop` while fr000002 owns `shop` and fr000003 owns `shop-fr00` takes over `shop-fr00`; the corrected rename refuses |
| UserService.StoreSlugIsValid | src/services/userService.js:475 | the slug a successful rename starts from passes the slug validator |
| UserService.UserStore.GenerateNextUserId | src/services/userService.js:232-258 | the id and the new database are those of the counter allocation above |
| UserService.UserStore.CreateUser | src/services/userService.js:119-177 | the result and the new database are those of the corrected creation |
| UserService.UserStore.UpdateUser | src/services/userService.js:189-224 | the result and the new database are those of the update rules above |
| UserService.UserStore.UpgradeToFranchise | src/services/userService.js:321-376 | the result and the new database are those of the upgrade rules above |
| UserService.UserStore.RevertToCustomer | src/services/userService.js:378-428 | the result and the new database are those of the revert rules above |
| UserService.UserStore.UpdateUserAttributes | src/services/userService.js:430-471 | the result and the new database are those of the attribute migration above |
| UserService.UserStore.UpdateStoreSlug | src/services/userService.js:473-501 | the result and the new database are those of the corrected rename |
| Slug.HyphenateOthers | src/utils/slugUtils.js:8 | same length; each character outside `[a-z0-9-]` becomes `-` and every other character stays |
| Slug.CollapseHyphens | src/utils/slugUtils.js:9 | no two hyphens in a row remain, the ends and the alphabet are kept, and a string without double hyphens is unchanged |
| Slug.StripEdgeHyphens | src/utils/slugUtils.js:10 | after collapsing, no hyphen is left at either end; a string without edge hyphens is unchanged |
| Slug.GenerateStoreSlug | src/utils/slugUtils.js:1-13 | the empty name gives ''; every slug has only `[a-z0-9-]`, no double hyphen and no hyphen at either end |
| Slug.AlnumRun | src/utils/slugUtils.js:17 | the length of the longest leading run of `[a-z0-9]` |
| Slug.ValidateStoreSlug | src/utils/slugUtils.js:15-19 | a slug passes exactly when it is non-empty, uses only `[a-z0-9-]`, has no double hyphen and no hyphen at either end |
| Slug.PatternIsShape | src/utils/slugUtils.js:17 | the regular expression accepts exactly the non-empty strings of that shape |
| Slug.GeneratedSlugValidates | src/utils/slugUtils.js:1-19 | every non-empty slug the normaliser produces passes the validator |
| Slug.SlugOfSlugShaped | src/utils/slugUtils.js:5-10 | a string already of slug shape is its own slug |
| Slug.GenerateStoreSlugIdempotent | src/utils/slugUtils.js:1-13 | normalising a slug again changes nothing |
| Slug.ValidSlugIsFixedPoint | src/utils/slugUtils.js:1-19 | a slug the validator accepts is left unchanged by the normaliser |
| Slug.ValidatorRejects | src/utils/slugUtils.js:15-19 | the empty string, a leading hyphen or capital, and a double hyphen are rejected |
| UserConsole.PrefixFor | src/pages/UserConsole.jsx:727-734 | webmaster, franchise, customer and test map to `web`, `fr`, `cu` and `te`; every other category has no prefix |
| UserConsole.Suffixes | src/pages/UserConsole.jsx:735-737 | the `parseInt` reading of the suffix (NaN as none) of every listed id that starts with the prefix, and only those; none when no listed id starts with it |
| UserConsole.NumberTextReadsAtLeast | src/pages/UserConsole.jsx:736-740 | `parseInt` reads the six-character text of any next number, negative ones included, as a number at least that large |
| UserConsole.GenerateUserIdAsWritten | src/pages/UserConsole.jsx:726-741 | as written: an error only for a category without a prefix, and every id for a known category starts with its prefix |
| UserConsole.GenerateUserIdAsWrittenFreshWithoutNaN | src/pages/UserConsole.jsx:735-740 | when no suffix under the prefix reads as NaN, the id generated as written is none of the listed ids |
| UserConsole.MaxOf | src/pages/UserConsole.jsx:739 | `Math.max` is a number exactly when no argument is NaN, and then it is one of the arguments and at least every other |
| UserConsole.NextAfterIsMaxPlusOne | src/pages/UserConsole.jsx:739 | when every suffix reads as a number that is not negative, the next number is the largest suffix plus one |
| UserConsole.GenerateUserId | src/pages/UserConsole.jsx:726-741 | an error only for a category without a prefix; every id for a known category is its prefix followed by six or more decimal digits |
| UserConsole.GenerateUserIdFresh | src/pages/UserConsole.jsx:726-741 | the id built from the numeric suffixes starts with the category's prefix and equals none of the listed ids |
| UserConsole.GenerateUserIdFirst | src/pages/UserConsole.jsx:739-740 | with no listed id under the prefix the id is the prefix followed by `000001`, as written and as corrected |
| UserConsole.GenerateUserIdAgreesOnNumbers | src/pages/UserConsole.jsx:735-740 | when every suffix under the prefix reads as a number that is not negative, the code as written and the corrected one give the same id |
| UserConsole.GenerateUserIdAsWrittenNaN | src/pages/UserConsole.jsx:735-740 | one listed id under the prefix whose suffix `parseInt` reads as NaN makes the generated id `<prefix>000NaN` |
| UserConsole.GenerateUserIdNegativeSuffix | src/pages/UserConsole.jsx:735-740 | with only `fr-5` listed, the franchise id generated as written is `fr0000-4`, while the corrected generator gives `fr000001` |
| UserConsole.GenerateUserIdNaNRepeats | src/pages/UserConsole.jsx:735-740 | with ids `frodo` and `fr000NaN` listed, the franchise id generated as written is `fr000NaN`, which is already taken |
| UserConsole.ConfigFor | src/pages/UserConsole.jsx:317-340 | a config exists for exactly the four categories; it grants permissions only to webmaster and requires a username of all but customer |
| UserConsole.HandleCreateUserSpec | src/pages/UserConsole.jsx:297-376 | the users change only when a user is created, and a creation adds exactly one |
| UserConsole.HandleCreateUserNeedsUsername | src/pages/UserConsole.jsx:343-352 | a webmaster, franchise or test user without a username, or with one another user has, gets the matching error and the database is unchanged |
| UserConsole.HandleCreateUserUnknownCategory | src/pages/UserConsole.jsx:340-343 | an unknown category fails on reading the missing config and writes nothing |
| UserConsole.NewUserDataConfig | src/pages/UserConsole.jsx:355-359 | the category config wins over the submitted data for permissions, username and requiresUsername |
| UserConsole.NewUserDataIdentity | src/pages/UserConsole.jsx:304-306 | the data keeps the submitted category, and without a submitted id it carries the generated one |
| UserConsole.NewUserRecordConfig | src/pages/UserConsole.jsx:355-362 | the stored record grants permissions only to a webmaster, has a null username for a customer and the submitted one otherwise |
| UserConsole.NewUserRecordCategory | src/pages/UserConsole.jsx:355-362 | the stored record has the submitted category |
| UserConsole.HandleCreateUserStores | src/pages/UserConsole.jsx:297-370 | with the corrected id generator and the corrected `createUser`, when the list holds every stored user: a created user is stored under the generated id, which was free, and no other user changes |
| UserConsole.HandleCreateUser | src/pages/UserConsole.jsx:297-376 | the notice and the new database are those of the corrected specification of `handleCreateUser`, which uses the corrected id generator and the corrected `createUser` |
| UserConsole.LowerFirstName | src/pages/UserConsole.jsx:409-417 | lower-casing the first name succeeds exactly when it is a string, and gives its lower-case form |
| UserConsole.HandleUpdateUserSpec | src/pages/UserConsole.jsx:379-449 | when nothing is shown nothing is written, and an edit that keeps the category keeps the set of user ids |
| UserConsole.HandleUpdateUserNeedsEditing | src/pages/UserConsole.jsx:381 | with no user being edited nothing is written and nothing shown |
| UserConsole.MovedRecordAt | src/pages/UserConsole.jsx:393-400 | the moved record carries the new id in `id` and `userId`, the submitted category and schema version 1 |
| UserConsole.CategoryChangeResult | src/pages/UserConsole.jsx:384-430 | a category change removes the old document and writes the moved record with the category adjustments under the new id |
| UserConsole.CategoryChangeMoves | src/pages/UserConsole.jsx:384-424 | with the corrected id generator: the new id differs from the old one; the stored ids lose the old id and gain the new one; every other user is unchanged |
| UserConsole.AdjustmentsAt | src/pages/UserConsole.jsx:403-420 | the adjustments set permissions only for webmaster and the username to null for customer or to the category tag plus the lower-cased first name |
| UserConsole.CategoryChangeIdentity | src/pages/UserConsole.jsx:393-400 | the written record carries the new id, the new category and schema version 1 |
| UserConsole.CategoryChangeRecord | src/pages/UserConsole.jsx:403-424 | the written record has webmaster-only permissions and a username that is null or `fr_`, `web_`, `te_` plus the lower-cased first name |
| UserConsole.CategoryChangeLosesUser | src/pages/UserConsole.jsx:389-413 | a change to franchise, webmaster or test for a user without a first name deletes the old document, throws, and writes nothing else |
| UserConsole.MergedKeepsCategory | src/pages/UserConsole.jsx:434-439 | merging an edit that keeps the category keeps it, with schema version 1 |
| UserConsole.PlainUpdateKeeps | src/pages/UserConsole.jsx:434-442 | an edit that keeps the category updates that user in place through `updateUser` |
| UserConsole.PlainUpdateStores | src/pages/UserConsole.jsx:434-441 | such an edit is stored with schema version 1 and every submitted non-empty value |
| UserConsole.HandleUpdateUser | src/pages/UserConsole.jsx:379-449 | the notice and the new database are those of the corrected specification of `handleUpdateUser`, which uses the corrected id generator |
| UserConsole.ToggleStatusSpec | src/pages/UserConsole.jsx:496-508 | no user is added or removed, and a stored user's active flag becomes the negation of the status shown |
| UserConsole.ToggleStatusWrites | src/pages/UserConsole.jsx:496-502 | the toggle stores the negation of the shown status and a new `updatedAt`, and changes no other field and no other user |
| UserConsole.ToggleTwiceRestores | src/pages/UserConsole.jsx:496-502 | toggling twice, each time with the stored status, restores a boolean status |
| UserConsole.HandleToggleStatus | src/pages/UserConsole.jsx:496-508 | the notice and the new database are those of the specification of `handleToggleStatus` |
| UserConsole.FilteredUsers | src/pages/UserConsole.jsx:510-531 | the filter throws exactly when the search throws on some listed user; otherwise a listed user is shown exactly when it passes the search, category and status filters, and the list is never longer |
| UserConsole.FieldMatches | src/pages/UserConsole.jsx:514-517 | a searched field throws exactly when it is present and neither a string nor null; it matches exactly when it is a string whose lower-cased text contains the search |
| UserConsole.AnyFieldMatches | src/pages/UserConsole.jsx:513-517 | the `||` chain is false exactly when every field is false; a true or a throw comes from one of the fields |
| UserConsole.FilteredUsersThrowsOnNumberName | src/pages/UserConsole.jsx:512-515 | a user whose first name is a number makes any non-empty search throw |
| UserConsole.FilteredUsersSucceedsOnStrings | src/pages/UserConsole.jsx:510-531 | when every searched field is a string, null or undefined, the filter does not throw |
| UserConsole.FilteredUsersShowsAll | src/pages/UserConsole.jsx:510-531 | with no search and both filters on `all`, the filter does not throw and every user is shown in order |
| UserConsole.FilteredUsersIdempotent | src/pages/UserConsole.jsx:510-531 | filtering the filtered list again does not throw and changes nothing |
| UserConsole.SearchIgnoresCase | src/pages/UserConsole.jsx:512-518 | searching for the lower-cased text gives the same outcome as the text itself, a throw included |
| UserConsole.FranchiseRequiresNothing | src/pages/UserConsole.jsx:599-622 | because the table's key is `franchiser`, a franchise user is reported only when corrupted or outdated |
| UserConsole.MissingFieldReported | src/pages/UserConsole.jsx:622-627 | a customer or test user lacking a listed field is reported |
| UserConsole.NeedsSchemaUpdate | src/pages/UserConsole.jsx:593-628 | a user that is not flagged has a first or last name and a truthy schema version, and a customer among them has every required customer field |
| UserConsole.FlaggedCustomerNeedsUpdate | src/pages/UserConsole.jsx:202-211 | for customer and test users, a user missing `userId` or `permissions`, or on an outdated version, is both flagged by the list check and reported by `needsSchemaUpdate` |
| UserConsole.SchemaChecksDisagree | src/pages/UserConsole.jsx:202-211 | a franchise user without permissions is flagged by the list check but not reported by `needsSchemaUpdate` |
| UserConsole.CheckUsersSchema | src/pages/UserConsole.jsx:201-214 | the set holds exactly the ids of the listed users with no `userId`, no permissions or an outdated schema version |
| Tracking.StepStatus | src/pages/Tracking.jsx:160-177 | the last step is never shown as in progress, and it is complete exactly when the order is sent |
| Tracking.StepIndex | src/pages/Tracking.jsx:162-169 | `pending` and `verify payment` are step 0, `processing order` step 1, `order sent` step 2, anything else -1 |
| Tracking.SentCompletesEveryStep | src/pages/Tracking.jsx:173 | once the order is sent every step is complete |
| Tracking.UnknownStatusIsUpcoming | src/pages/Tracking.jsx:169-177 | a status outside the workflow shows every step as upcoming |
| Tracking.OneCurrentStep | src/pages/Tracking.jsx:171-178 | before `order sent`, the step at the status's index is the one current step, earlier steps complete and later ones upcoming |
| Tracking.CompleteStaysComplete | src/pages/Tracking.jsx:160-179 | moving forward in the workflow never turns a complete step back |
| Tracking.KeepAmountChars | src/pages/Tracking.jsx:116 | the kept text holds only digits and points, and text made only of them is kept whole |
| Tracking.CollapseShape | src/pages/Tracking.jsx:118-119 | text without a point is kept; otherwise everything up to the first point, that point, and the rest without points |
| Tracking.SanitizeAmount | src/pages/Tracking.jsx:114-123 | an amount of digits with at most one point is left as typed |
| Tracking.SanitizedIsAmount | src/pages/Tracking.jsx:114-123 | the amount field holds only digits and at most one point |
| Tracking.SanitizeKeepsDigits | src/pages/Tracking.jsx:114-123 | every digit typed survives, in the order typed |
| Tracking.SanitizeIdempotent | src/pages/Tracking.jsx:114-123 | a sanitised amount passes through the sanitiser unchanged |
| Tracking.ShownWithStatus | src/pages/Tracking.jsx:145-148 | the local copy keeps the order's id and takes the new status |
| Tracking.OrderPathParams | src/pages/CustomerDashboard.jsx:159 | a link built from a user id and a code without `/` splits into exactly those two route parameters |
| Tracking.TrackingPage.FetchOrder | src/pages/Tracking.jsx:30-87 | loading ends; without both parameters nothing else changes; an order with that code and user is shown with its status or `pending`; otherwise `Order not found` |
| Tracking.TrackingPage.ShowPaymentSent | src/pages/Tracking.jsx:145-150 | the shown order and the payment status become `verify payment` and the modal closes |
| Tracking.TrackingPage.HandlePaymentSubmit | src/pages/Tracking.jsx:132-158 | without an order nothing happens; otherwise the store write is that of `updateOrderStatus` to `verify payment`, and on success the page shows it |
| Tracking.PaymentSubmitStoresStatus | src/pages/Tracking.jsx:142 | the stored status is exactly `verify payment` |
| OrderConsole.CapitalizeWordsAt | src/pages/OrderConsole.jsx:112-114 | capitalising the words keeps the length, upper-cases the first character of every word and changes nothing else |
| OrderConsole.CapitalizeWordsSameUpToCase | src/pages/OrderConsole.jsx:112-114 | capitalising changes only letter case |
| OrderConsole.FormatStatus | src/pages/OrderConsole.jsx:108-115 | the three named labels are what word capitalisation gives, so every status is shown with its words capitalised |
| OrderConsole.FormatStatusSameUpToCase | src/pages/OrderConsole.jsx:108-115 | a status label differs from the status only in letter case |
| OrderConsole.Revenue | src/pages/FranchiseDashboard.jsx:92 | with no negative total the dashboard's revenue is not negative |
| OrderConsole.ConsoleRevenue | src/pages/OrderConsole.jsx:46 | the sum is a number exactly when every order has a total |
| OrderConsole.RevenuesAgree | src/pages/OrderConsole.jsx:46 | where every order has a total, the console's sum equals the franchise dashboard's, which counts a missing total as 0 |
| OrderConsole.Customers | src/pages/OrderConsole.jsx:49 | the set holds exactly the user ids of the orders |
| OrderConsole.CustomersAtMostOrders | src/pages/OrderConsole.jsx:49-50 | there are never more distinct customers than orders |
| OrderConsole.ConfirmTarget | src/pages/OrderConsole.jsx:117-141 | the payment confirmation writes the processing stage and the shipping confirmation the sent stage |
| OrderConsole.ClickAction | src/pages/OrderConsole.jsx:521-533 | the payment confirmation opens exactly for `verify payment`, the shipping one exactly for `processing order`, and nothing opens for any other status |
| OrderConsole.ConfirmAdvancesOneStep | src/pages/OrderConsole.jsx:117-153 | a badge click followed by its confirmation writes the next status of the workflow |
| OrderConsole.TargetIsLowerCase | src/pages/OrderConsole.jsx:121 | both written statuses are already lower case, so the store keeps them as written |
| OrderConsole.ReplaceStatus | src/pages/OrderConsole.jsx:122-126 | the list keeps its length and order; orders with the id take the status and every other order is unchanged |
| OrderConsole.ReplaceStatusKeepsRevenue | src/pages/OrderConsole.jsx:122-126 | the local status change leaves both revenue sums alone |
| OrderConsole.ReplaceStatusKeepsCustomers | src/pages/OrderConsole.jsx:122-126 | the local status change leaves the customer set alone |
| OrderConsole.FollowUpWarningRules | src/pages/OrderConsole.jsx:537 | any status write clears the warning; a follow-up raises it exactly when the order is not pending |
| OrderConsole.OrderBoard.LoadOrders | src/pages/OrderConsole.jsx:76-91 | the list holds exactly the stored orders of the franchise (`default` on this page), newest first |
| OrderConsole.OrderBoard.StatusClick | src/pages/OrderConsole.jsx:521-533 | a confirmable status selects the order and opens its confirmation; any other leaves the state unchanged |
| OrderConsole.OrderBoard.Dismiss | src/pages/OrderConsole.jsx:184-185 | cancelling closes the confirmation and clears the selection |
| OrderConsole.OrderBoard.ShowConfirmed | src/pages/OrderConsole.jsx:122-129 | the list takes the new status, and the confirmation closes |
| OrderConsole.OrderBoard.Confirm | src/pages/OrderConsole.jsx:117-153 | without a selection nothing happens; otherwise the store write is `updateOrderStatus` with the modal's target, and on success the list shows it and the modal closes |
| OrderConsole.ConfirmedOrderAdvances | src/pages/OrderConsole.jsx:117-153 | a confirmation opened from an order's badge moves that order one step along the workflow, in the store and in the list |
| FranchiseDashboard.LoadedStoreName | src/pages/FranchiseDashboard.jsx:50 | the record's non-empty store name wins, then the session's, and the name is empty exactly when neither is set |
| FranchiseDashboard.DisplayName | src/pages/FranchiseDashboard.jsx:134-139 | the greeting is never empty and takes the first of the loaded first name, the session's, the signed-in user's, then `User` |
| FranchiseDashboard.DisplayNameFallback | src/pages/FranchiseDashboard.jsx:134-139 | without any first name the dashboard greets `User` |
| FranchiseDashboard.Dashboard.Initialize | src/pages/FranchiseDashboard.jsx:42-63 | with a record, the user data and store name are loaded and both session keys rewritten; without one, the session's store name is kept if set |
| FranchiseDashboard.CancelRestoresLoadedName | src/pages/FranchiseDashboard.jsx:264-268 | cancelling an edit right after the record was loaded brings back the name that was loaded |
| FranchiseDashboard.Dashboard.StartEditing | src/pages/FranchiseDashboard.jsx:279-281 | the pencil button opens the editor and changes nothing else |
| FranchiseDashboard.Dashboard.EditName | src/pages/FranchiseDashboard.jsx:250-253 | the input writes the typed text, untrimmed, into the field and changes nothing else |
| FranchiseDashboard.Dashboard.CancelEdit | src/pages/FranchiseDashboard.jsx:264-268 | cancel closes the editor and puts back the loaded user's non-empty store name, else the session's, else the empty name; the session is untouched |
| FranchiseDashboard.Dashboard.RestoreSessionName | src/pages/FranchiseDashboard.jsx:126-127 | a failed update puts the session's store name, if set, back into the field and changes nothing else |
| FranchiseDashboard.Dashboard.ShowRenamed | src/pages/FranchiseDashboard.jsx:114-123 | after a rename the session holds the new name and slug, the user data is reloaded and editing ends |
| FranchiseDashboard.Dashboard.SubmitStoreName | src/pages/FranchiseDashboard.jsx:110-127 | the trimmed name is written as the corrected `updateStoreSlug` writes it; on success the session holds the new name and slug, the user data is reloaded from the written record and editing ends; on failure the session, the user data and the open editor are untouched and the session's store name, if set, comes back into the field; the session's first name never changes |
| FranchiseDashboard.Dashboard.HandleStoreNameUpdate | src/pages/FranchiseDashboard.jsx:105-131 | a name blank after trimming is never submitted and changes nothing; otherwise the store write is that of the corrected `updateStoreSlug` with the trimmed name; on success the session takes the new name and slug, the user data is reloaded from the written record and editing ends; on failure the session, the user data and the editor stay and the session's store name, if set, comes back |
| CustomerDashboard.CustomerFormatStatus | src/pages/CustomerDashboard.jsx:44-50 | the label differs from the status only in letter case, except for `verify payment`, which reads differently |
| CustomerDashboard.LabelsDifferOnlyOnVerifyPayment | src/pages/CustomerDashboard.jsx:44-50 | the customer's status labels equal the console's for every status except `verify payment`, which reads `Verifying Payment` |
| CustomerDashboard.RedirectsHome | src/pages/CustomerDashboard.jsx:19 | because `!currentUser?.category === 'test'` compares a boolean with a string, the page sends home exactly when no user is signed in |
| CustomerDashboard.TrackingLink | src/pages/CustomerDashboard.jsx:159 | the link splits into `order`, the order's user id and its code, the parameters the tracking route reads |
| Checkout.KeepPhoneChars | src/pages/Checkout.jsx:186 | the kept text holds only digits and `+`, and text made only of them is kept whole |
| Checkout.SanitizePhone | src/pages/Checkout.jsx:184-188 | the result is never longer than the input, and a number of digits with at most a leading `+` is left as typed |
| Checkout.FormatPhoneNumber | src/pages/Checkout.jsx:111-117 | an absent or empty number becomes '', and a well-formed stored number is filled in as stored |
| Checkout.FormatPhoneIsSanitize | src/pages/Checkout.jsx:111-117 | the autofill's phone formatter applies the same rule as the phone input's sanitiser |
| Checkout.SanitizedPhoneShape | src/pages/Checkout.jsx:184-188 | a sanitised number holds only digits and `+`, with a `+` only in first position |
| Checkout.SanitizePhoneKeepsDigits | src/pages/Checkout.jsx:184-188 | every digit typed survives, in the order typed |
| Checkout.SanitizePhoneIdempotent | src/pages/Checkout.jsx:184-188 | sanitising a sanitised number changes nothing |
| Checkout.InputChange | src/pages/Checkout.jsx:180-201 | only the typed field changes; a phone field takes the sanitised value and any other field the value as typed |
| Checkout.FranchiseFor | src/pages/Checkout.jsx:281 | the order's franchise is never empty: the store's franchise id when set, `default` otherwise |
| Checkout.OrderPayload | src/pages/Checkout.jsx:275-297 | the order carries the user id, the cart, the franchise and, as shipping country, the form's country code |
| Checkout.SubmitSpec | src/pages/Checkout.jsx:211-313 | a signed-in customer's checkout and every guard leave the users alone; no user is removed; reaching the tracking page needs a franchise id and one new order |
| Checkout.SubmitGuards | src/pages/Checkout.jsx:216-238 | no franchise id stops everything; a guest without a password only gets the password modal; a guest with a known email gets an error; none of them writes anything |
| Checkout.PlaceOrderNavigatesToNewOrder | src/pages/Checkout.jsx:302-308 | whenever the page navigates, it is to the tracking page of the new order it has just created, for the store's franchise |
| Checkout.SubmitOrderFranchise | src/pages/Checkout.jsx:281 | with a store loaded the order goes to the store's franchise |
| Checkout.PasswordSubmitSpec | src/pages/Checkout.jsx:315-429 | `Passwords do not match` exactly when they differ; that and a known email write nothing; no user is removed; reaching the tracking page adds one order |
| Checkout.PasswordSubmitGuards | src/pages/Checkout.jsx:317-338 | a password mismatch or a known email stops the password path before anything is written |
| Checkout.NewCustomerOrderIsFound | src/pages/Checkout.jsx:414-424 | the lookup before navigating always finds the order just placed, so the page goes to its tracking page |
| Checkout.PasswordSubmitMisattributes | src/pages/Checkout.jsx:348-420 | when `createUser` stores the customer under another id than the counter's, the path as written places the order for the counter's id, the corrected one for the stored id |
| Checkout.PasswordSubmitAgreesWhenGeneratedFree | src/pages/Checkout.jsx:348-420 | when no user holds the counter's id, the password path as written and the corrected one give the same outcome, users and orders |
| Checkout.StoredUnderReplacement | src/services/userService.js:141-148 | a taken requested id is replaced by the counter's next id when that one is free |
| Checkout.CheckoutCollisionExample | src/pages/Checkout.jsx:348-382 | with `cu000001` held by another customer and no customer counter, the counter yields `cu000001` and Ben is stored as `cu000002` |
| Checkout.CheckoutPage.HandleInputChange | src/pages/Checkout.jsx:180-201 | the form becomes the input change of the old form, and nothing else changes |
| Checkout.CheckoutPage.PlaceOrderFor | src/pages/Checkout.jsx:302-308 | the store write and outcome are those of placing the order; the cart is cleared exactly when the page navigates |
| Checkout.CheckoutPage.SignUp | src/pages/Checkout.jsx:246-271 | the id drawn is the customer counter's next one, and the store write is the corrected `createUser` with the sign-up record under it |
| Checkout.CheckoutPage.HandleSubmit | src/pages/Checkout.jsx:211-313 | the outcome and both collections are those of the corrected specification of `handleSubmit`, which uses the corrected `createUser`; the modal opens only when a password is asked for, and the session is left as it was |
| Checkout.CheckoutPage.OrderForCustomer | src/pages/Checkout.jsx:414-424 | the order is placed and looked up as for a new customer; the cart is cleared once an order is stored |
| Checkout.CheckoutPage.AcceptPassword | src/pages/Checkout.jsx:322-328 | the form takes the password and the modal closes |
| Checkout.CheckoutPage.StartSession | src/pages/Checkout.jsx:376-378 | the session holds the customer's email, the role `customer` and the customer's id |
| Checkout.NewCustomerId | src/pages/Checkout.jsx:347-371 | a customer is created only for an email no stored user has, and under an id no stored user had |
| Checkout.CheckoutPage.HandlePasswordSubmit | src/pages/Checkout.jsx:315-429 | the outcome and both collections are those of the corrected password path; on a mismatch the form and modal are unchanged; once the customer is created the session holds its stored id, the role `customer` and the form's email, and otherwise the session is unchanged; the cart is cleared exactly when an order is written |
| EditUserModal.BlankForm | src/components/EditUserModal.jsx:19-35 | the form starts with every field empty |
| EditUserModal.InitForm | src/components/EditUserModal.jsx:39-59 | each text field is the user's value or empty, the category the user's or `customer`, and the password empty |
| EditUserModal.Updates | src/components/EditUserModal.jsx:61-84 | every key sent comes from the form with the form's value and differs from the stored value, and a password is sent only when filled in |
| EditUserModal.UpdatesAreTheDiff | src/components/EditUserModal.jsx:61-84 | every key sent comes from the form and differs from the stored value; writing the updates gives the form's value to every filled field except a blank password, and always to the category |
| EditUserModal.BlankFieldsStay | src/components/EditUserModal.jsx:69 | a field left blank is never sent, apart from a changed category |
| EditUserModal.EmptyPasswordNeverSent | src/components/EditUserModal.jsx:75-77 | an empty password is never sent |
| EditUserModal.CategorySentIffChanged | src/components/EditUserModal.jsx:80-82 | the category is sent exactly when it changed, even when blank |
| EditUserModal.UntouchedFormSendsNothing | src/components/EditUserModal.jsx:39-84 | a form loaded from a user with a category and left untouched sends no update |
| EditUserModal.EditUserForm.LoadUser | src/components/EditUserModal.jsx:39-59 | loading a user sets the form to its initial values |
| EditUserModal.EditUserForm.SetField | src/components/EditUserModal.jsx:19-35 | typing changes that field alone |
| EditUserModal.EditUserForm.HandleSubmit | src/components/EditUserModal.jsx:61-84 | the update set handed on is the difference between the form and the user |
| CreateUserModal.Settings | src/components/CreateUserModal.jsx:23-40 | the non-text part of the form is the category and four flags |
| CreateUserModal.Defaults | src/components/CreateUserModal.jsx:16-41 | every text field starts empty and the category is the user type |
| CreateUserModal.NewUserFlags | src/components/CreateUserModal.jsx:37-40 | a new user starts active, offline, without permissions, at schema version 1 |
| CreateUserModal.SyncUserType | src/components/CreateUserModal.jsx:43-48 | a new user type replaces the category and changes nothing else |
| CreateUserModal.SetInput | src/components/CreateUserModal.jsx:16-36 | typing sets that field alone and never the category |
| CreateUserModal.Submit | src/components/CreateUserModal.jsx:50-69 | an accepted form is handed on with its category forced to the user type and every other field as typed |
| CreateUserModal.SubmitChecks | src/components/CreateUserModal.jsx:54-61 | a missing email or name fails first, then a non-customer without a username; the form is accepted exactly when neither applies |
| CreateUserModal.CategoryFollowsUserType | src/components/CreateUserModal.jsx:43-66 | once synchronised, the category stays the user type through any typing |
| CreateUserModal.CustomerNeedsNoUsername | src/components/CreateUserModal.jsx:59 | a customer form with an email and both names is accepted with or without a username |
| AuthContext.WithEmail | src/context/AuthContext.jsx:35-40 | the query returns exactly the documents with that email, and never more documents than it was given |
| AuthContext.WithEmailAppend | src/context/AuthContext.jsx:35-40 | the query keeps the documents' order: querying two runs of documents in turn gives the two results one after the other |
| AuthContext.FirstWithEmail | src/context/AuthContext.jsx:46-49 | the position found is the first document with the email, and none is found exactly when no document has it |
| AuthContext.WithEmailHead | src/context/AuthContext.jsx:42-49 | the query's first result is the first document with the email |
| AuthContext.LoginSpec | src/context/AuthContext.jsx:32-64 | a signed-in user carries an id, the email asked for and the password given; every failure is `User not found` or `Invalid credentials` |
| AuthContext.LoginUsesFirstRecord | src/context/AuthContext.jsx:32-64 | `User not found` exactly when no document has the email; otherwise the first one alone is judged by its password and returned with its id |
| AuthContext.RestoredUser | src/context/AuthContext.jsx:11-24 | a user is restored exactly when email, role and id are all set, with that category, email and id and active |
| AuthContext.AtMostOneRole | src/context/AuthContext.jsx:76-78 | no two of the customer, franchise and test flags hold together |
| AuthContext.Auth.Restore | src/context/AuthContext.jsx:11-30 | the current user becomes the one restored from the session, loading ends and the session is untouched |
| AuthContext.Auth.Login | src/context/AuthContext.jsx:32-64 | the result is that of `login`'s specification, and the current user changes only on success |
| AuthContext.Auth.Logout | src/context/AuthContext.jsx:66-69 | the session is cleared and no user or role flag remains |
| AuthContext.UserTable.MarkOnline | src/components/UserLogin.jsx:100-104 | the write succeeds exactly when a document has the id, and marks every such document online |
| AuthContext.MarkedOnline | src/components/UserLogin.jsx:100-104 | documents with the id get `isOnline` true and `lastActiveAt` now; the others are unchanged |
| UserLogin.SignedInSession | src/components/UserLogin.jsx:89-95 | the session holds the role, email, id and category, and each role flag is `true` exactly for its category |
| UserLogin.ContextLoginAgrees | src/components/UserLogin.jsx:79-85 | once the page's checks pass, the context's `login` accepts the same record |
| UserLogin.Checks | src/components/UserLogin.jsx:55-81 | no user exactly when no document has the email; a passing user has the email, a store category and the password given |
| UserLogin.CheckOrder | src/components/UserLogin.jsx:55-81 | no document is an error; the first document is judged; a webmaster is redirected before the password is looked at; a pass means a store category and the right password |
| UserLogin.UserLoginPage.Fail | src/components/UserLogin.jsx:122-126 | a thrown error is shown and the session cleared |
| UserLogin.UserLoginPage.HandleSubmit | src/components/UserLogin.jsx:37-130 | the session is cleared first; a webmaster goes to the admin sign-in; a failed check is shown; a pass signs in, marks the user online and opens the category's dashboard with no error shown |
| AdminLogin.AdminRows | src/components/AdminLogin.jsx:32-36 | the query returns exactly the documents with the email and the category `webmaster` |
| AdminLogin.AdminRowsAppend | src/components/AdminLogin.jsx:32-36 | the query keeps the documents' order: querying two runs of documents in turn gives the two results one after the other |
| AdminLogin.FirstAdminRow | src/components/AdminLogin.jsx:38-47 | the position found is the first webmaster document with the email, and none is found exactly when there is no such document |
| AdminLogin.AdminRowsHead | src/components/AdminLogin.jsx:44-47 | `userSnapshot.docs[0]` is the first webmaster document with the email |
| AdminLogin.AdminChecks | src/components/AdminLogin.jsx:38-51 | a success is the first webmaster document with that email, with its id spread in, and its password matches; `Invalid admin credentials` exactly when no webmaster has the email; `Invalid credentials` exactly when the first one's password differs |
| AdminLogin.AdminSession | src/components/AdminLogin.jsx:53-57 | the session holds exactly the role and category `webmaster`, the email and the id |
| AdminLogin.OnlyAdminsShareEmail | src/components/AdminLogin.jsx:32-36 | when every document with the email is a webmaster's, both queries return the same documents |
| AdminLogin.AdminContextLoginAgrees | src/components/AdminLogin.jsx:59 | the context's `login` accepts the same record as long as no other kind of user has the email |
| AdminLogin.AdminLoginPage.SignIn | src/components/AdminLogin.jsx:53-70 | the webmaster session is written, then the context `login` runs and its failure is shown with the users unchanged; after a success the document with the id is marked online, and the page navigates exactly when such a document exists, else shows that no document was found |
| AdminLogin.AdminLoginPage.HandleSubmit | src/components/AdminLogin.jsx:25-74 | a failed check writes nothing and shows its message; otherwise the session is written before `login`; when `login` fails its message is shown and the users are unchanged; when it succeeds the webmaster is marked online, and the page opens the user console unless no document has the id |
| Text.Lower | src/pages/UserConsole.jsx:512 | `toLowerCase` keeps the length and lower-cases each character (ASCII letters) |
| Text.LowerOfLower | src/services/orderService.js:50 | a string without upper-case letters is its own lower-case form |
| Text.Take | src/services/orderService.js:50 | `slice(0, n)` keeps the first n characters, or the whole string when shorter |
| Text.Pad6 | src/services/userService.js:252 | `String(n).padStart(6, '0')` is at least six characters, all digits |
| Text.ParseIntPad6 | src/pages/UserConsole.jsx:736-737 | `parseInt` reads back the number that `padStart(6, '0')` wrote |
| Text.ParseIntOfDigits | src/pages/UserConsole.jsx:736 | `parseInt` of a text that opens with a decimal digit and no `0x` prefix is its leading run of digits |
| Text.ParseIntSigned | src/pages/UserConsole.jsx:736 | `parseInt` reads a `-` sign: `-1` is -1 |
| Text.ParseIntBlank | src/pages/UserConsole.jsx:736 | `parseInt` skips leading white space: ` 7` is 7 |
| Text.ParseIntHex | src/pages/UserConsole.jsx:736 | `parseInt` without a radix reads a `0x` prefix as base 16: `0x10` is 16 |
| Text.ParseIntNaN | src/pages/UserConsole.jsx:736 | `parseInt` of a text without a leading digit is NaN: `odo` |
| Text.ParseIntBareHexPrefix | src/pages/UserConsole.jsx:736 | `parseInt` of `0x` with no hexadecimal digit after it is NaN |
| Text.Pad6Injective | src/services/userService.js:252 | distinct numbers give distinct six-digit forms |
| Text.Split | src/services/productService.js:28 | `split` on one character always yields at least one piece |
| Text.SplitPartsLackSeparator | src/services/productService.js:28 | no piece of a split contains the separator |
| Text.JoinSplit | src/pages/OrderConsole.jsx:112-114 | joining the pieces of a split with the separator gives the string back |
| Text.JoinSplitRemoves | src/pages/Tracking.jsx:119 | joining the pieces of a split without separator removes the separator |
| Text.SplitAtMostTwo | src/pages/Tracking.jsx:118-119 | a split into at most two pieces means at most one separator |
| Text.TrimmedIsTrimmed | src/services/productService.js:28 | a trimmed string neither starts nor ends with white space, and trimming it again changes nothing |
| Docs.Or | src/utils/useStore.js:32 | the result is truthy exactly when the field or the fallback is; it is the fallback or the truthy field, and a truthy field is always kept |
| Docs.Coalesce | src/services/userService.js:450-453 | the result is null only when the fallback is; it is the fallback or one of the two fields that is present and not null, and the first such field wins |
| Docs.WithId | src/context/AuthContext.jsx:46-49 | the document id is spread in first, so a stored `id` field wins, and every stored field is kept |
| ProductService.Clean | src/services/productService.js:28 | trimming and dropping empty entries never makes the list longer |
| ProductService.CleanEntries | src/services/productService.js:28 | every surviving entry is non-empty and has no surrounding white space |
| ProductService.CleanAppend | src/services/productService.js:28-29 | cleaning works piece by piece, so the surviving entries keep their input order |
| ProductService.NormalizeList | src/services/productService.js:28-29 | no entry of a features or tags list is empty or padded, and none holds a comma |
| ProductService.SingleEntry | src/services/productService.js:28-29 | a non-blank input without a comma gives the one trimmed entry |
| ProductService.CleanFixed | src/services/productService.js:28-29 | entries that are already clean stay as they are |
| ProductService.SplitJoin | src/services/productService.js:28-29 | splitting the comma-join of comma-free pieces gives the pieces back |
| ProductService.NormalizeIdempotent | src/services/productService.js:28-29 | writing a list back as a comma-separated string and normalising it again gives the same list |
| ProductService.Overrides | src/services/productService.js:27-31 | the fields set over the input are exactly the price, the two normalised lists and the two timestamps |
| ProductService.FinalProductData | src/services/productService.js:22-41 | `Failed to create product` exactly when features or tags is not a string; otherwise every input field is kept except the five overridden ones, which take their new values |
| ProtectedRoute.AllowedRoles | src/components/ProtectedRoute.jsx:31 | a role is allowed exactly when it is the single required role or one of the listed roles; a single role gives a list of one |
| ProtectedRoute.Decide | src/components/ProtectedRoute.jsx:10-55 | access is granted only to a signed-in user whose category is allowed, and always to a signed-in user when no role is required |
| ProtectedRoute.WaitsWhileLoading | src/components/ProtectedRoute.jsx:11 | nothing is decided while loading, and something always is afterwards |
| ProtectedRoute.NoUserSignsIn | src/components/ProtectedRoute.jsx:16-27 | without a user the visitor is sent, replacing the history entry, to the admin sign-in exactly when the role is the single string `webmaster`, and otherwise to `/login` |
| ProtectedRoute.WrongCategoryRefused | src/components/ProtectedRoute.jsx:30-49 | a user whose category is not allowed goes to the user console with the permissions message when the route allows webmasters, and otherwise to `/login` with the log-in message |
| ProtectedRoute.GrantedIff | src/components/ProtectedRoute.jsx:10-55 | access is granted exactly to a signed-in user, after loading, when no role is required or the category is allowed |
| ProtectedRoute.RoleRoutes | src/components/ProtectedRoute.jsx:30-35 | a webmaster route is granted exactly to a webmaster, and a list of roles exactly to a user with one of them |
| ProtectedRoute.Render | src/components/ProtectedRoute.jsx:57-66 | a spinner exactly while loading, the children exactly when loaded and authorised |
| ProtectedRoute.AuthorizedAfter | src/components/ProtectedRoute.jsx:10-55 | the flag is unchanged while loading and afterwards says whether access was granted |
| ProtectedRoute.RendersOnlyWhenGranted | src/components/ProtectedRoute.jsx:10-66 | once the effect has run after loading, the route renders exactly when access was granted |
| UseStore.DefaultStore | src/utils/useStore.js:19-23 | the default store is exactly `SnuliHub Store` with the slug `snulihub`, and no franchise |
| UseStore.FirstWithStoreName | src/services/userService.js:297-306 | the user found is the first whose store name is the slug, and none is found exactly when no user has it |
| UseStore.FromUser | src/utils/useStore.js:29-34 | the store takes the user's store name, its slug or else the requested one, and the data's `id` as franchise |
| UseStore.ErrorText | src/utils/useStore.js:60 | the error shown is never empty: the thrown message, or the generic one |
| UseStore.Resolve | src/utils/useStore.js:14-46 | a failure carries the error of the lookup that threw, and a store taken from the store collection is the document under the slug |
| UseStore.DefaultWithoutSlug | src/utils/useStore.js:19-24 | without a slug the default store is used and neither lookup is consulted |
| UseStore.UserTakesPrecedence | src/utils/useStore.js:26-35 | a user whose store name is the slug takes precedence over any store document |
| UseStore.StoreDocFallback | src/utils/useStore.js:36-42 | with no such user the store document under the slug is used as it is |
| UseStore.NotFoundIff | src/utils/useStore.js:43-46 | `Store not found` exactly when both lookups complete and neither finds the slug |
| UseStore.StoreLoader.Fail | src/utils/useStore.js:58-60 | a thrown error sets the message and changes nothing else |
| UseStore.StoreLoader.LoadStoreData | src/utils/useStore.js:14-64 | loading always ends; a failed lookup or a missing store only sets the error; a found store is shown, a store document also writes its name to the session, and the first featured product is shown when there is one |

## Left out

- Database calls (`getDocs`, `addDoc`, `setDoc`, `updateDoc`, `deleteDoc`, `onSnapshot`) are not modelled as calls. Collections are maps from document id to record, and a query is a filter over them. A transaction is one atomic method.
- Query result order: the database returns documents in id order. The model takes the rows in the order they are given, so "the first match" is the first row of that sequence.
- Query failures (network or permission errors) are `Result` parameters of the pages that handle them. Paths that only log such an error are not modelled: the orders listener's error callback, and the tracking page's 'Error fetching order details'.
- `updateDoc` on a missing document is modelled as the single error `No document to update`. Other write errors are not distinguished.
- Concurrency: two checkouts by one customer can read the same order count, and the console deletes the old user document before writing the new one. Both depend on interleaving, and each is modelled as one atomic step.
- `Math.random` in the tracking number is a parameter: a sequence of picks, each below 36. Only the length and the alphabet of the result are proved.
- Floating point: prices, totals, revenue and `toFixed` display are integer cents. The `parseFloat` of a product price is not modelled; the price is a parameter.
- Time: `new Date()` and `serverTimestamp()` are natural-number timestamps passed in.
- Browser plumbing: `sessionStorage`, `localStorage`, `navigate`, notifications and `window.confirm` are outcome values or fields of the page object, not effects.
- Rendering: JSX, styling, spinners and modals beyond their open/closed flags are not modelled.
- Passwords: the check is the plain equality the code performs. Plaintext storage is outside the model.
- `parseInt` is modelled for blanks, a sign, a `0x` prefix and decimal or hexadecimal digits, on unbounded integers. Values beyond 2^53, where JavaScript loses precision, are not modelled.
- Strings are sequences of code points, not UTF-16 code units, so `length`, `slice` and `charAt` on characters outside the basic plane are not modelled.
- Order document ids are modelled as a natural-number counter in place of the database's random ids.
- UserConsole.SchemaOutdated: a `schemaVersion` that is a non-empty string or `true` counts as current. JavaScript would convert the string to a number before comparing it with 1, so `"0"` would be outdated; string-to-number conversion is not modelled.
- UserConsole.HandleCreateUser: follows the corrected id generator and the corrected `createUser`, not the code as written. The two agree whenever every suffix under the prefix reads as a number that is not negative and the chosen id is free (`GenerateUserIdAgreesOnNumbers`, `CreateUserAgreesUnlessTaken`). As written, a suffix that reads as NaN gives `<prefix>000NaN`, and a negative largest suffix gives an id of the shape `<prefix>0000-<n>` (`GenerateUserIdNegativeSuffix`).
- UserConsole.HandleCreateUserStores: is proved for the corrected id generator and `createUser`, as `HandleCreateUser` is.
- UserConsole.HandleUpdateUser: follows the corrected id generator when the category changes. The two agree whenever every suffix under the prefix reads as a number that is not negative. As written, a suffix that reads as NaN gives the id `<prefix>000NaN` (`GenerateUserIdAsWrittenNaN`), and a negative largest suffix gives an id of the shape `<prefix>0000-<n>` (`GenerateUserIdNegativeSuffix`).
- UserConsole.CategoryChangeMoves: is proved for the corrected id generator, which agrees with the code as written whenever every suffix under the prefix reads as a number that is not negative. As written, the new id `<prefix>000NaN` can equal the old one, and a negative largest suffix gives an id of the shape `<prefix>0000-<n>`.
- FranchiseDashboard.Dashboard.HandleStoreNameUpdate: writes through the corrected `updateStoreSlug`. It agrees with the code as written whenever the corrected rename succeeds (`RenameAgreesUnlessTaken`).
- Checkout.CheckoutPage.SignUp: stores the new customer through the corrected `createUser`. It agrees with the code as written whenever the corrected creation succeeds (`CreateUserAgreesUnlessTaken`).
- Checkout.CheckoutPage.HandleSubmit: signs a new customer up through the corrected `createUser`, as `SignUp` does.
- Checkout.CheckoutPage.HandlePasswordSubmit: follows the corrected `createUser`, and places the order and writes the session for the id the customer was stored under, not for the counter's id as the code does. The two agree whenever no user holds the counter's id (`PasswordSubmitAgreesWhenGeneratedFree`); otherwise the code as written misattributes the order (`PasswordSubmitMisattributes`).
- Case conversion is ASCII only. `trim` removes a fixed set of white-space characters, not every Unicode space.
- Session values: a field that is not a string is written to the session as ''. A missing store name is written as the string 'undefined'. The source would write `String(value)`.
- Tracking.TrackingPage.FetchOrder: the ownership check that reports "Unauthorized access" is not a branch of the model. The order query already filters on the customer, so that check cannot fail (src/pages/Tracking.jsx:38-69).
- FranchiseDashboard.LoadedStoreName: a store name that is not a string is treated as absent.
- ProtectedRoute: `isAuthorized` starts out true, so the children can render for one frame before the effect first runs after loading. The model states what is rendered once the effect has run.
- The franchise dashboard's status formatter, confirmation handlers, status-click gating, revenue and customer count are the same code as the order console's. They are modelled once, in `OrderConsole`: `ClickAction` covers src/pages/FranchiseDashboard.jsx:402-414, `OrderBoard.Confirm` covers 151-183, `RevenuesAgree` covers the sum at line 92, and `CustomersAtMostOrders` covers the count at lines 97-98.
- OrderConsole.OrderBoard.LoadOrders takes the franchise id as a parameter. The order console passes 'default'; the franchise dashboard passes the signed-in franchise's id.
- Checkout: the `login` call after a sign-up is not modelled. The model records the session keys the page itself writes (`sessionEmail`, `userRole`, `userId`).
- AuthContext: the `category: userData.category` that `login` copies into the user is part of the record and is not modelled separately.
- AdminLogin.AdminLoginPage.HandleSubmit: when the context's `login` then fails, the webmaster session already written stays in place. The model keeps this, as the source does.
- src/services/storeService.js is not part of this model. `getFeaturedProducts` and the store-by-slug lookup of `useStore` are parameters of `UseStore.StoreLoader.LoadStoreData`.
- The get, update and delete wrappers in src/services/productService.js are thin database calls and are not modelled; only `createProduct`'s record is.

## Findings

| source | as written | input that shows it | evidently intended | confidence | as-written member | corrected member |
|---|---|---|---|---|---|---|
| src/services/userService.js:480-493 | on a slug collision the suffix is `-` plus the first four characters of the user id, which is `-fr00` for every id from fr000001 to fr009999, and the suffixed slug is written without checking who owns it | fr000001 renames its store to `shop`; fr000002 owns `shop` and fr000003 owns `shop-fr00`; the write replaces fr000003's store | a rename never takes another franchise's store | not executed | UserService.RenameAsWrittenTakesOver | UserService.RenameKeepsOthersStores |
| src/services/userService.js:141-148 | when the requested id is taken, `createUser` takes the counter's next id and writes there without checking that it is free | a customer `cu000001` created from the console while no customer counter exists; a sign-up asking for `cu000001` is given `cu000001` again and replaces the first customer's record | creating a user never replaces an existing user | not executed | UserService.CreateUserAsWrittenOverwrites | UserService.CreateUserNeverOverwrites |
| src/pages/UserConsole.jsx:735-740 | the maximum over the suffixes includes `NaN` for any id under the prefix whose suffix `parseInt` reads as NaN (no digit after optional blanks, a sign and a `0x` prefix), so the next number is `NaN` and the id `<prefix>000NaN` is produced | ids `frodo` and `fr000NaN`; the franchise id generated is `fr000NaN`, which is already taken | the generated id is fresh | not executed | UserConsole.GenerateUserIdNaNRepeats | UserConsole.GenerateUserIdFresh |
| src/pages/UserConsole.jsx:735-740 | `parseInt` reads a signed suffix, so a negative number can be the maximum; the next number is then zero or negative and `padStart` pads its sign, giving an id that is not the prefix followed by digits | only `fr-5` listed; the franchise id generated is `fr0000-4` | the id is the prefix followed by six or more digits | not executed | UserConsole.GenerateUserIdNegativeSuffix | UserConsole.GenerateUserId |
| src/pages/Checkout.jsx:348-420 | the password path keeps using the id it generated before calling `createUser`, not the id `createUser` stored the customer under | a console-created `cu000001` and no customer counter; a new customer is generated `cu000001`, is stored as `cu000002`, and the order and session go to `cu000001` | the order belongs to the customer just created | not executed | Checkout.PasswordSubmitMisattributes | Checkout.NewCustomerOrderIsFound |
