# TruAssets client model

TruAssets is a fractional real-estate investment site. All its state lives in the browser:

- three stores persist themselves under `localStorage` keys:
  - the session (`truassets_user`);
  - the property catalog (`truassets_properties`);
  - the user directory (`truassets_users`);
- a `user_login` event carries every signed-in user from the session to the directory;
- the landing page and the admin dashboard compute read-only views from the current lists.

This project models those stores and views in Dafny and proves what they promise. One Dafny module stands for each source file:

- **`Auth`** — `class Session`. Login, logout and restore on mount. It publishes login events and keeps the storage key in step with the user.
- **`PropertyCatalog`** — `class PropertyStore` over the pure transforms:
  - prepend on add;
  - merge by id on update;
  - filter on delete;
  - the statistics reduce;
  - the save effect that never writes an empty list.
- **`UserDirectory`** — `class Directory`:
  - the same CRUD operations;
  - status changes;
  - per-status counts;
  - the upsert by email run on each login event, with `FindByEmail` as the `findIndex` loop.
- **`Featured`** — the landing page's display mapping and its search, type and budget filter.
- **`Reports`** — the report filter, the revenue and profit totals, and the comma-separated export.
- **`Analytics`** — the type and status grouping reducers, as left folds and as loops. It also holds the trend slice and the occupancy mean.
- **`ManageUsers`** — the user table filter, the block/unblock menu choice, and `class DeleteFlow` for the delete confirmation steps.
- **`Header`** — the avatar initials.
- **`Testimonials`** — the carousel index arithmetic and `class Carousel`.
- **`AddPropertyForm`** — `class PropertyForm` holding the form's text, and the catalog record built on submit.
- **`Common`** and **`Text`** — shared pieces:
  - `Option`;
  - `Slot`, which is what a storage key holds at mount;
  - `Filter` and subsequences;
  - ASCII case mapping, substring search, `split`/`join` on one character, `trim`, and decimal digits.

Conventions:
- **Storage.** Each store's key is the store's `stored: Slot<T>` field. `Absent` means nothing is stored. `Holds(v)` means a value that parses back to `v`; serialization is the identity. `Unreadable` means text that fails to parse.
- **Clock.** The clock is passed in: `nowMs` stands for `Date.now()` and `nowIso` for `new Date().toISOString()`.
- **Numbers.** Amounts are `real`, so the profit margin is exactly 15/100. `parseFloat`, `parseInt` and `toFixed(2)` are function parameters.

## Model

| member | source | states |
|---|---|---|
| Auth.AdminUser | src/pages/AdminLogin.tsx:42-47 | the fixed admin login record has role admin, id `admin-001` and the typed email |
| Auth.Authenticated | src/contexts/AuthContext.tsx:55 | signed in exactly when the storage key holds a user |
| Auth.Admin | src/contexts/AuthContext.tsx:55-58 | `isAdmin` implies `isAuthenticated` |
| Auth.Session.IsAdmin | src/contexts/AuthContext.tsx:56-58 | the session is admin only when signed in |
| Auth.Session.Mount | src/contexts/AuthContext.tsx:28-41 | a parseable stored user is restored and exactly one event carrying it is published; an unparseable key is removed and the session stays anonymous; no key leaves everything empty |
| Auth.Session.Login | src/contexts/AuthContext.tsx:43-48 | user and key become `u`; exactly `u` is appended to the published events |
| Auth.Session.Logout | src/contexts/AuthContext.tsx:50-53 | user cleared, key removed, nothing published |
| Auth.LoginThenLogout | src/contexts/AuthContext.tsx:43-53 | from any state, login then logout ends anonymous with the key absent and one event on record |
| PropertyCatalog.PropertyIdInjective | src/contexts/PropertyContext.tsx:62 | two ids are equal exactly when their clock readings are |
| PropertyCatalog.Stamped | src/contexts/PropertyContext.tsx:60-64 | the new record is the draft plus the clock-derived id and creation time |
| PropertyCatalog.Added | src/contexts/PropertyContext.tsx:59-66 | length grows by one, the new record is first, the old list is exactly the tail |
| PropertyCatalog.AddedDistinct | src/contexts/PropertyContext.tsx:62 | ids stay distinct after an add exactly when they were distinct and the new id is not already taken |
| PropertyCatalog.Merge | src/contexts/PropertyContext.tsx:70 | the empty patch leaves the record as it was, and a patch without an id keeps the record's id |
| PropertyCatalog.MergeLaws | src/contexts/PropertyContext.tsx:70 | merging a patch twice is merging it once |
| PropertyCatalog.Updated | src/contexts/PropertyContext.tsx:68-72 | length and order kept, other ids unchanged, matching records merged with the patch |
| PropertyCatalog.UpdatedMissing | src/contexts/PropertyContext.tsx:68-72 | an update of an absent id changes nothing |
| PropertyCatalog.UpdatedIdempotent | src/contexts/PropertyContext.tsx:68-72 | applying the same update twice equals applying it once |
| PropertyCatalog.Deleted | src/contexts/PropertyContext.tsx:74-76 | no record with the id survives, the survivors are an order-preserving subsequence, and the length drops by the number of matches |
| PropertyCatalog.SumRaisedSnoc | src/contexts/PropertyContext.tsx:81 | the left-to-right reduce of raised amounts adds the last record last |
| PropertyCatalog.GetStatistics | src/contexts/PropertyContext.tsx:78-92 | count, investor sum and raised sum; the mean return times the count is the return sum, and it is exactly 0 for an empty list |
| PropertyCatalog.StatisticsAfterAdd | src/contexts/PropertyContext.tsx:59-92 | an add raises the count by one and each sum by the new record's share |
| PropertyCatalog.StatisticsExample | src/contexts/PropertyContext.tsx:78-92 | raised 1,000,000 and 3,000,000 with returns 10 and 14 give 4,000,000 and a mean of 12 |
| PropertyCatalog.EmptiedCatalogResurrects | src/contexts/PropertyContext.tsx:53-57 | after deleting the only record, the key still yields that record |
| PropertyCatalog.PropertyStore.Load | src/contexts/PropertyContext.tsx:40-50 | parseable key gives its list; unparseable key is removed and the list is empty; no key gives an empty list |
| PropertyCatalog.PropertyStore.AddProperty | src/contexts/PropertyContext.tsx:59-66 | the list becomes `Added` of the old one and is saved |
| PropertyCatalog.PropertyStore.UpdateProperty | src/contexts/PropertyContext.tsx:68-72 | the list becomes `Updated` of the old one and the save effect runs |
| PropertyCatalog.PropertyStore.DeleteProperty | src/contexts/PropertyContext.tsx:74-76 | the list becomes `Deleted` of the old one and the save effect runs |
| UserDirectory.Added | src/contexts/UserManagementContext.tsx:111-118 | the new entry comes first with id `user-` plus the clock and joined date now, the old list is the tail |
| UserDirectory.Merge | src/contexts/UserManagementContext.tsx:122 | the empty patch leaves the entry as it was, and a status patch changes its status and nothing else |
| UserDirectory.Updated | src/contexts/UserManagementContext.tsx:120-124 | length kept, other ids unchanged, matching entries merged |
| UserDirectory.StatusPatchOnlyStatus | src/contexts/UserManagementContext.tsx:130-140 | block, unblock and hold change only the status of the matching entries |
| UserDirectory.Deleted | src/contexts/UserManagementContext.tsx:126-128 | no entry with the id survives, the rest keep their order, and the length drops by the number of entries with the id |
| UserDirectory.StatusCountsSum | src/contexts/UserManagementContext.tsx:142-149 | every entry has exactly one status, so the three counts add up to the length |
| UserDirectory.GetUserStats | src/contexts/UserManagementContext.tsx:142-149 | total is the length, each count counts its status, and the counts sum to the total |
| UserDirectory.EmailIndex | src/contexts/UserManagementContext.tsx:160 | the first position with an exactly equal email, or none when no entry has it |
| UserDirectory.FindByEmail | src/contexts/UserManagementContext.tsx:160 | the `findIndex` loop returns -1 exactly when no entry has the email, else the first index that has it |
| UserDirectory.Synced | src/contexts/UserManagementContext.tsx:152-186 | admin logins leave the list unchanged; otherwise the length grows by at most one and the email is then present |
| UserDirectory.SyncedExisting | src/contexts/UserManagementContext.tsx:160-170 | for a known email only the first such entry changes, only its name and last-active time; id, status, joined date and investments are kept |
| UserDirectory.SyncedNew | src/contexts/UserManagementContext.tsx:171-184 | for an unknown email a fresh active entry with the auth user's id, name, email and role, both dates now and no investments is prepended |
| UserDirectory.SyncedIdempotent | src/contexts/UserManagementContext.tsx:158-186 | syncing the same user twice at the same time equals syncing once |
| UserDirectory.SyncedEmailCount | src/contexts/UserManagementContext.tsx:158-186 | a sync never duplicates an email: a new one ends up once, an existing count is kept |
| UserDirectory.AdminLoginExcluded | src/pages/AdminLogin.tsx:42-49 | syncing the fixed admin record leaves the directory unchanged |
| UserDirectory.Directory.Load | src/contexts/UserManagementContext.tsx:91-102 | a parseable key gives its list; otherwise the list is empty and the key is left exactly as it was |
| UserDirectory.Directory.AddUser | src/contexts/UserManagementContext.tsx:111-118 | the list becomes `Added` of the old one and is saved |
| UserDirectory.Directory.UpdateUser | src/contexts/UserManagementContext.tsx:120-124 | the list becomes `Updated` of the old one, then the save effect runs |
| UserDirectory.Directory.DeleteUser | src/contexts/UserManagementContext.tsx:126-128 | the list becomes `Deleted` of the old one, then the save effect runs |
| UserDirectory.Directory.BlockUser | src/contexts/UserManagementContext.tsx:130-132 | an update setting the status to blocked |
| UserDirectory.Directory.UnblockUser | src/contexts/UserManagementContext.tsx:134-136 | an update setting the status to active |
| UserDirectory.Directory.PutOnHold | src/contexts/UserManagementContext.tsx:138-140 | an update setting the status to on-hold |
| UserDirectory.Directory.SyncAuthUser | src/contexts/UserManagementContext.tsx:152-186 | the copy-and-assign or prepend leaves exactly `Synced` of the old list |
| UserDirectory.Directory.HandleLoginEvent | src/contexts/UserManagementContext.tsx:190-195 | an event without detail changes nothing; otherwise the detail is synced |
| UserDirectory.LoginAndSync | src/contexts/AuthContext.tsx:43-48 | a login followed by its event leaves the user signed in and the directory synced with them |
| UserDirectory.MountAndSync | src/contexts/AuthContext.tsx:28-36 | a restored session's event syncs the restored user; otherwise the directory is untouched |
| Featured.StatusLabel | src/components/FeaturedProperties.tsx:36 | active shows "Available", funded "Funded", upcoming "Upcoming", and each label belongs to one status |
| Featured.City | src/components/FeaturedProperties.tsx:28 | the city is the prefix of the location up to its first comma, or the whole location when it has none, and holds no comma |
| Featured.ToDisplay | src/components/FeaturedProperties.tsx:23-37 | id, image, title, location, type and tenure are copied, the city is the text before the first comma, the price value is the raw price, and the status is its badge label |
| Featured.Display | src/components/FeaturedProperties.tsx:23 | one display record per property, in order |
| Featured.MatchesSearch | src/components/FeaturedProperties.tsx:44-51 | the empty term passes; when the city is a prefix of the location, a record passes exactly when the lower-cased term occurs in its lower-cased title or location, so the city clause never adds a match |
| Featured.MatchesType | src/components/FeaturedProperties.tsx:54-56 | `""` and `"none"` keep every record, any other type exactly the records of that type |
| Featured.MatchesBudget | src/components/FeaturedProperties.tsx:59-78 | each of the five bucket names keeps exactly the prices of its half-open interval; `""`, `"none"` and any unrecognised string keep every price |
| Featured.FilterDisplay | src/components/FeaturedProperties.tsx:39-82 | no filters object gives the mapped list; otherwise an order-preserving subsequence holding exactly the records every clause accepts, as many as the callback accepts, so every accepted copy is kept |
| Featured.FeaturedList | src/components/FeaturedProperties.tsx:23-82 | at most one card per property, each the display record of some property, and one per property without a filters object |
| Featured.BucketsPartition | src/components/FeaturedProperties.tsx:61-77 | every price is kept by exactly one of the five buckets |
| Featured.NeutralFiltersKeepAll | src/components/FeaturedProperties.tsx:42-81 | with all three clauses neutral the filter returns the mapped list |
| Reports.ReportFiltered | src/components/admin/Reports.tsx:30-34 | with both filters `all` the list is unchanged; otherwise an order-preserving subsequence of the records matching both filters, with as many entries as records match |
| Reports.TotalProfit | src/components/admin/Reports.tsx:36-41 | total profit is 15/100 of total revenue, the raised amounts added up |
| Reports.Roi | src/components/admin/Reports.tsx:55-56 | the ROI exists exactly when the target is not zero, and then ROI times target is 100 times the profit |
| Reports.RoiText | src/components/admin/Reports.tsx:56-65 | a non-zero target gives the two-decimal ratio; a zero target gives `Infinity`, `-Infinity` or `NaN` by the sign of the raised amount |
| Reports.Row | src/components/admin/Reports.tsx:54-66 | a data row has as many cells as the header |
| Reports.CsvLines | src/components/admin/Reports.tsx:53-68 | the header line first, then one line per filtered record, in order |
| Reports.CsvText | src/components/admin/Reports.tsx:68 | the file holds one newline per record on top of those inside cells |
| Reports.ExportCsv | src/components/admin/Reports.tsx:43-68 | an empty selection yields no file; otherwise the file is the joined lines of the selection |
| Reports.CsvLineCount | src/components/admin/Reports.tsx:68 | the file splits into one more line than records, plus one per newline inside a cell |
| Reports.LineNewlineFree | src/components/admin/Reports.tsx:68 | cells without line breaks give a line without one |
| Reports.RowNewlineFree | src/components/admin/Reports.tsx:57-65 | a record whose title and type hold no line break, with line-free number formatting, gives a line without one |
| Reports.CsvSplitsIntoLines | src/components/admin/Reports.tsx:53-68 | with no line break in a cell, splitting the file at newlines gives back exactly the header and record lines |
| Reports.RowFieldCount | src/components/admin/Reports.tsx:57-68 | a data line splits at commas into seven fields plus one per comma inside a cell |
| Reports.CommaInTitleBreaksRow | src/components/admin/Reports.tsx:57-68 | a title with a comma makes its line split into more than seven fields |
| Reports.RowRoundTrip | src/components/admin/Reports.tsx:57-68 | without commas in the cells a line splits back into exactly its cells |
| Analytics.FindType | src/components/admin/Analytics.tsx:11 | the first group with the record's type, or none when there is no such group |
| Analytics.TypeGroups | src/components/admin/Analytics.tsx:10-25 | the fold yields no more bars than records, each counting at least one record |
| Analytics.TypeGroupKeys | src/components/admin/Analytics.tsx:10-25 | the group types are the catalog's distinct types in order of first occurrence |
| Analytics.TypeGroupsDistinct | src/components/admin/Analytics.tsx:10-25 | exactly one group per type that occurs |
| Analytics.TypeGroupTotals | src/components/admin/Analytics.tsx:12-22 | each group's count is the number of its records, its revenue their raised sum, its profit 15/100 of that |
| Analytics.TypeGroupProfit | src/components/admin/Analytics.tsx:14-20 | a group's profit equals the report profit of its records |
| Analytics.TypeGroupSums | src/components/admin/Analytics.tsx:10-47 | the group counts add up to the catalog size and the revenues to the total investment |
| Analytics.TypeProfitSum | src/components/admin/Analytics.tsx:10-48 | the group profits add up to the total profit |
| Analytics.GroupByType | src/components/admin/Analytics.tsx:10-25 | the find-or-append loop computes exactly the left fold of the reducer |
| Analytics.FindStatus | src/components/admin/Analytics.tsx:29 | the first group with the record's status, or none when there is no such group |
| Analytics.StatusGroups | src/components/admin/Analytics.tsx:28-36 | the fold yields no more slices than records, each counting at least one record |
| Analytics.StatusGroupKeys | src/components/admin/Analytics.tsx:28-36 | the group statuses are the distinct statuses in order of first occurrence |
| Analytics.StatusGroupsDistinct | src/components/admin/Analytics.tsx:28-36 | exactly one group per status that occurs |
| Analytics.StatusGroupCounts | src/components/admin/Analytics.tsx:30-34 | each group counts the records with its status |
| Analytics.StatusCountsSum | src/components/admin/Analytics.tsx:28-36 | the status counts add up to the catalog size |
| Analytics.GroupByStatus | src/components/admin/Analytics.tsx:28-36 | the find-or-append loop computes exactly the left fold of the reducer |
| Analytics.TrendData | src/components/admin/Analytics.tsx:39-43 | min(6, n) points; point i carries month i and property i's raised and target amounts in units of 100,000 |
| Analytics.TrendKeepsFirstSix | src/components/admin/Analytics.tsx:39 | records after the sixth never reach the trend |
| Analytics.FundedFractions | src/components/admin/Analytics.tsx:50 | the sum of funded fractions is undefined exactly when some target is zero |
| Analytics.AvgOccupancy | src/components/admin/Analytics.tsx:49-51 | exactly 0 for an empty catalog; otherwise undefined exactly when some target is zero, and else the mean fraction times 100 |
| Analytics.OccupancyIsPercentage | src/components/admin/Analytics.tsx:49-51 | with every record funded between nothing and its target, the occupancy lies in [0, 100] |
| ManageUsers.MatchesUser | src/components/admin/ManageUsers.tsx:42-46 | the empty term with `all` admits every user, and a filter naming a status admits only users with that status |
| ManageUsers.FilteredUsers | src/components/admin/ManageUsers.tsx:41-47 | an order-preserving subsequence holding exactly the users whose name or email contains the term, case-insensitively, and whose status passes the filter, with as many entries as users match |
| ManageUsers.InitialFiltersShowAll | src/components/admin/ManageUsers.tsx:36-47 | the empty term with `all` shows every user, in order |
| ManageUsers.ToggleAction | src/components/admin/ManageUsers.tsx:168-178 | Unblock is offered exactly for blocked users |
| ManageUsers.ToggleTarget | src/components/admin/ManageUsers.tsx:168-178 | the offered action always changes the status: unblock leads to active, block to blocked |
| ManageUsers.ClickToggle | src/components/admin/ManageUsers.tsx:168-178 | the directory ends as the status update to the toggle's target |
| ManageUsers.DeleteFlow.constructor | src/components/admin/ManageUsers.tsx:38-39 | nothing selected and the dialog closed |
| ManageUsers.DeleteFlow.ChooseDelete | src/components/admin/ManageUsers.tsx:184-187 | the id is selected and the dialog opens |
| ManageUsers.DeleteFlow.SetOpen | src/components/admin/ManageUsers.tsx:204 | the dialog changes visibility and the selection is kept |
| ManageUsers.DeleteFlow.Confirm | src/components/admin/ManageUsers.tsx:73-84 | with a non-empty selected id, that id is deleted, then the selection is cleared and the dialog closed; otherwise nothing changes |
| ManageUsers.DeleteWithConfirmation | src/components/admin/ManageUsers.tsx:73-187 | choose then confirm removes every user with the id and resets the dialog |
| Header.Initials | src/components/Header.tsx:43-51 | `"U"` without a name or with an empty one; never longer than two; every character upper-case |
| Header.FirstCharsAreWordStarts | src/components/Header.tsx:45-48 | the first characters of the space-separated pieces are exactly the word starts |
| Header.InitialsOfName | src/components/Header.tsx:45-50 | a non-empty name gives its first two upper-cased word starts, with extra spaces contributing nothing |
| Testimonials.Next | src/components/Testimonials.tsx:43-45 | the next index is always in range |
| Testimonials.Prev | src/components/Testimonials.tsx:47-49 | the previous index is always in range |
| Testimonials.NextPrevInverse | src/components/Testimonials.tsx:43-49 | prev undoes next and next undoes prev |
| Testimonials.AdvanceIsModular | src/components/Testimonials.tsx:44 | k steps forward land k places on, modulo four |
| Testimonials.FullRound | src/components/Testimonials.tsx:44 | four steps forward return to the start |
| Testimonials.Carousel.constructor | src/components/Testimonials.tsx:6 | the carousel starts at 0 |
| Testimonials.Carousel.NextTestimonial | src/components/Testimonials.tsx:43-45 | the index becomes `Next` of the old one and stays in range |
| Testimonials.Carousel.PrevTestimonial | src/components/Testimonials.tsx:47-49 | the index becomes `Prev` of the old one and stays in range |
| Testimonials.Carousel.Jump | src/components/Testimonials.tsx:120-123 | a dot click sets the index to that dot's position |
| AddPropertyForm.WithText | src/components/AddPropertyForm.tsx:86-210 | a text input never changes the raised amount, investors, type or status |
| AddPropertyForm.ImageOrPlaceholder | src/components/AddPropertyForm.tsx:48 | an empty image becomes the placeholder URL, a non-empty one is kept |
| AddPropertyForm.AmenityList | src/components/AddPropertyForm.tsx:50 | one amenity per comma plus one, each the trimmed piece at its position |
| AddPropertyForm.EmptyAmenities | src/components/AddPropertyForm.tsx:50 | empty input gives one empty amenity |
| AddPropertyForm.AmenitiesClean | src/components/AddPropertyForm.tsx:50 | no amenity holds a comma or surrounding white space |
| AddPropertyForm.AmenitiesRoundTrip | src/components/AddPropertyForm.tsx:50 | when no piece has white space around it, the amenities join back to the input |
| AddPropertyForm.BuildDraft | src/components/AddPropertyForm.tsx:38-52 | text fields and status are copied unchanged, numbers are parsed, the image defaulted and the amenities split |
| AddPropertyForm.PropertyForm.constructor | src/components/AddPropertyForm.tsx:18-32 | the initial form: type apartment, status active, raised amount and investors `"0"`, the rest empty |
| AddPropertyForm.PropertyForm.EditText | src/components/AddPropertyForm.tsx:86-210 | the field takes the typed text and the invariant holds |
| AddPropertyForm.PropertyForm.ChooseType | src/components/AddPropertyForm.tsx:105-114 | the type becomes one of the four offered values |
| AddPropertyForm.PropertyForm.ChooseStatus | src/components/AddPropertyForm.tsx:120 | the status becomes the chosen one |
| AddPropertyForm.PropertyForm.Submit | src/components/AddPropertyForm.tsx:34-52 | the catalog gains the built record first; its raised amount and investors are always those parsed from `"0"` |
| Text.Lower | src/components/FeaturedProperties.tsx:45-49 | `toLowerCase` maps each character, keeping the length |
| Text.Upper | src/components/Header.tsx:49 | `toUpperCase` maps each character, keeping the length |
| Text.ContainsIff | src/components/FeaturedProperties.tsx:47-49 | `includes` holds exactly when some slice equals the needle |
| Text.Split | src/components/FeaturedProperties.tsx:28 | `split` on one character always yields at least one piece |
| Text.SplitFirstIsPrefix | src/components/FeaturedProperties.tsx:28 | the first piece of a split is the prefix up to the first separator, or the whole string without one |
| Text.SplitLength | src/components/AddPropertyForm.tsx:50 | one piece more than separators |
| Text.JoinSplit | src/components/admin/Reports.tsx:68 | joining the pieces of a split gives the string back |
| Text.SplitJoin | src/components/admin/Reports.tsx:68 | splitting a join of separator-free pieces gives the pieces back |
| Text.Trim | src/components/AddPropertyForm.tsx:50 | `trim` gives the slice of the input between a leading and a trailing run of white space, and the slice neither starts nor ends with white space |
| Text.TrimDropsOnly | src/components/AddPropertyForm.tsx:50 | a character absent from the input is absent from its trim |
| Text.TrimIdempotent | src/components/AddPropertyForm.tsx:50 | trimming twice is trimming once |
| Text.DecimalInjective | src/contexts/PropertyContext.tsx:62 | distinct clock readings print as distinct digit strings |
| Common.Filter | src/contexts/PropertyContext.tsx:75 | `filter` keeps exactly the accepted elements, in order, and keeps everything when all are accepted |
| Common.Persisted | src/contexts/PropertyContext.tsx:53-57 | the save effect of both list stores writes a non-empty list so that it reads back, and leaves the key as it was for an empty one |
| Common.FindFirst | src/components/admin/Analytics.tsx:11 | the first accepted position, or none when no element is accepted |
| Common.DedupProperties | src/components/admin/Analytics.tsx:10-36 | the first-occurrence list is duplicate-free and has the same members |

## Left out

- JSX rendering, styling, charts, badges, dropdowns, dialogs as widgets, toasts, navigation and redirects, and tab switching.
- The CSV download through `Blob`, an object URL and an anchor click, and its date-stamped file name. This is browser I/O; the model stops at the file text.
- Google sign-in and JWT decoding. Their output is an `Auth.User` handed to `Login`.
- The `setTimeout` before the admin login, and password checking. `AdminUser` is the record that login produces.
- `parseFloat`, `parseInt` and `toFixed(2)` are parameters, so NaN and rounding are not modelled. The display strings built with `toFixed` or template literals (`startingPrice`, `totalValue`, `expectedYield`, `availableUnits`) are left out of `Featured.DisplayProperty`.
- `Reports.RoiText`: a zero target gives the text `Infinity`, `-Infinity` or `NaN` by the sign of the profit. With a non-zero target the ratio goes through the `fixed2` parameter.
- `avgOccupancy` is formatted with `toFixed(1)`. `Analytics.AvgOccupancy` returns the number before formatting, and `None` where JavaScript would produce an infinity or NaN.
- JSON is the identity. An empty string in a key counts as no value, as the mount code tests the text for truthiness. A stored text that parses to something other than a list or user is not modelled.
- Effect scheduling and provider order are not modelled. A restored session's event might fire before the directory listens; `UserDirectory.MountAndSync` composes the two in sequence instead.
- `Text.Lower` and `Text.Upper` map ASCII letters only. JavaScript's full Unicode case mapping is not modelled, including mappings that change the length.
- `UserDirectory.Fresh`: the source reads the clock twice, for `lastActive` and for `joinedDate`. The model passes one reading, `nowIso`, for both, so two instants a tick apart are not modelled.
- `Header.Initials`: the first character of a piece is a `char`, so surrogate halves of astral characters are not modelled.
- `ManageUsers.DeleteFlow.Confirm` models the click handler only. Closing the dialog by the dialog library itself goes through `SetOpen`.
- The sample user list in the directory source is never loaded, so it is not modelled.
- The static marketing sections and the property filter form only forward values, so they are not modelled.
- The `Month n` fallback label in the trend slice is never reached, because the slice has at most six entries.
- In the landing-page budget filter, bucket `0-10L` accepts negative prices too. The code only tests the upper bound, so the model follows the code and `BucketLow` of that bucket is unbounded.
