# Fokris cash ledger — a Dafny model of its core

Fokris is a small cash ledger ("Saldo Kas") for a church community, kept in a
browser front end over a Firestore database. This project models its sequential
core and proves properties of that model:

- **Ledger** (`ledger.dfy`): the transaction form. A new entry is checked, signed by its
  category (income `2…` positive, expense `3…` negative, opening balance `1…` as
  entered), and added to the previous Saldo Kas. It is then appended to the
  `transactions` collection. Afterwards the entry's month document in
  `monthlyBalances` is merged, and the previous month's document is back-filled
  when it is missing. The opening balance of an empty ledger comes from the
  previous month's document or from a prompt.
- **Categories** (`categories.dfy`): the category tree, up to five levels, kept in
  the `categories` collection. It covers loading into the level/parent hierarchy,
  lookup, descendants, option filtering, and the numbering of new categories
  (`p.n` for children, `n` for roots). It also covers renaming, with the
  collection's index order and unique ids as invariants.
- **Accounts** (`accounts.dfy`): the `accounts` collection. It covers the
  active-account list in creation order, adding, renaming and the soft delete.
- **Settings** (`settings.dfy`): the administrator's settings page. It covers the
  prompts that add, rename and deactivate accounts and categories, and the
  comparator of its category table.
- **Home** (`home.dfy`): the dashboard. It covers grouping by month, the month and
  category filters, a month's opening and closing balance, the per-account
  summary cards and the filter options.
- **Extract** (`extract.dfy`): the period report. It covers range validation, the
  category × account matrix seeded from the previous month's per-account
  balances, accumulation of the period's transactions, the ordering of rows by
  category index, the row totals ("Total Kas Bank", "Total Kas"), the summary
  and the CSV export. How a transaction enters its cell is a parameter
  (`AmountRule`): `AsStored` is the code as written, and `Signed` is the
  correction described under "Findings". The lemmas relating the extract to
  the home page are stated for `Signed`.
- **Auth** and **Seeding** (`auth.dfy`, `seeding.dfy`): role derivation at sign-in,
  the permission table and guards, and the first-run creation of the admin
  settings document and the three default accounts.
- `strings.dfy`, `dates.dfy` and `wrappers.dfy` model the JavaScript string and
  date operations the core relies on: `split`, `trim`, `startsWith`,
  `toLowerCase`, `parseInt`/`Number` on digit strings, `padStart`, month
  arithmetic and `YYYY-MM` keys.

Browser prompts, confirmations and the Firestore server time are parameters of
the methods that use them. A Firestore collection is a sequence or map field of
a class (`Ledger.Ledger`, `Categories.Catalog`, `Accounts.AccountRegistry`,
`Seeding.SettingsStore`), and each write is a method that reassigns it.

## Model

| member | source | states |
|---|---|---|
| Ledger.SignedAmount | js/transaction-form.js:55-68 | The signed amount has the entered magnitude. It is non-negative for an index starting with "2" and non-positive for one starting with "3" but not "2". Any other index keeps the amount as entered. |
| Ledger.SignOfPositive | js/transaction-form.js:55-68 | A positive amount is added for income and subtracted for an expense. It is kept for the opening-balance branch "1". |
| Ledger.SignByPrefixExamples | js/transaction-form.js:58-68 | Only the first character decides: "20" and "2.1" are income, "3.4.1" is an expense, and "1" keeps a negative entry. |
| Ledger.LaterTransitive | js/transaction-form.js:97-100 | The order (date desc, createdAt desc) is transitive and asymmetric. |
| Ledger.LaterIrreflexive | js/transaction-form.js:97-100 | No entry precedes itself under that order. |
| Ledger.LatestIndex | js/transaction-form.js:97-106 | `docs[0]` of the ordered query: no entry comes before it, and it comes strictly before every earlier-stored entry. |
| Ledger.PreviousMonthKeyWraps | js/transaction-form.js:121-126 | The previous month's key of a January date is December of the year before. Otherwise it is the month before, in the same year. |
| Ledger.InitialBalanceDocMonth | js/transaction-form.js:200-210 | The bootstrap document's year and month, parsed back from its key, are the key's month. Its ending balance is the entered value. |
| Ledger.PromptOutcome | js/transaction-form.js:145-231 | A cancel resolves 0 and writes nothing. A submit resolves the entered number (0 when it is not a number) and writes the initial-setup document under the key. |
| Ledger.StartingBalanceWrites | js/transaction-form.js:119-143 | An existing previous-month document yields its ending balance (0 when absent) and writes nothing. Otherwise the prompt decides, and at most the previous month's key is written. |
| Ledger.MergedDoc | js/transaction-form.js:241-246 | A merge sets year, month and ending balance and keeps every other field of an existing document. A new document carries no flags and no account balances. |
| Ledger.MergeMonth | js/transaction-form.js:233-253 | Only the entry's month document changes, and it ends with the entry's Saldo Kas. |
| Ledger.Window | js/transaction-form.js:270-278 | The window query returns exactly the stored entries dated between the bounds. |
| Ledger.Backfill | js/transaction-form.js:255-301 | An existing previous-month document means nothing is written. No existing document is changed, and the only document added is the previous month's, marked auto-saved. Without an existing document, one is written exactly when some stored entry is dated within that month's window. The written document carries the year, the month and the Saldo Kas of an entry in the window that no other entry in the window is later than. |
| Ledger.WindowMonth | js/transaction-form.js:270-271 | An entry inside a month's back-fill window falls in that month. |
| Ledger.BackfillIsNoOpWhenCovered | js/transaction-form.js:266-286 | When every stored entry's month has a document, the back-fill writes nothing. |
| Ledger.GetSelectedCategoryId | js/transaction-form.js:399-410 | The category is the deepest non-empty selector. There is none exactly when all five are empty. |
| Ledger.CheckForm | js/transaction-form.js:307-354 | The checks run in source order: signed in, name, date, positive amount, account, category. Each error is reported exactly when every earlier check passed, and no error means all passed. |
| Ledger.RunningBalance | js/transaction-form.js:71-84 | Without back-dated entries the latest Saldo Kas is the opening balance plus every signed amount. |
| Ledger.BackDatedEntryIsLost | js/transaction-form.js:94-106 | A ledger chained as the form saves it, with one back-dated entry, whose current Saldo Kas (110) falls short of the opening balance plus the signed amounts (160). |
| Ledger.AppendKeepsChain | js/transaction-form.js:84 | Saving on top of the previous balance extends the running-balance chain. |
| Ledger.WritesKeepAccountBalances | js/transaction-form.js:200-210 | The prompt, the month merge and the back-fill never write a per-account balance. |
| Ledger.KeepsAccountBalancesTransitive | js/transaction-form.js:233-301 | Per-account balances stay untouched across a sequence of writes. |
| Ledger.SaveKeepsCovered | js/transaction-form.js:376-382 | After a save plus its merge and back-fill, every stored month still has a document. |
| Ledger.Ledger.constructor | js/transaction-form.js:304-396 | An empty ledger over existing monthly documents, satisfying the invariant. |
| Ledger.Ledger.PromptForInitialBalance | js/transaction-form.js:145-231 | The value and the new monthly documents are those of `PromptOutcome`, and nothing else changes. |
| Ledger.Ledger.GetMonthlyStartingBalance | js/transaction-form.js:119-143 | Value and documents are those of `StartingBalance`. |
| Ledger.Ledger.GetPreviousSaldoKas | js/transaction-form.js:94-117 | The latest entry's Saldo Kas when entries exist. Otherwise the monthly starting balance, and the prompt's write. |
| Ledger.Ledger.CalculateSaldoKas | js/transaction-form.js:47-92 | An unknown category is an error with no write. Otherwise the previous balance plus the signed amount. |
| Ledger.Ledger.UpdateMonthlyBalance | js/transaction-form.js:233-253 | The documents become `MergeMonth` of the entry's month and Saldo Kas. |
| Ledger.Ledger.CheckAndSavePreviousMonthBalance | js/transaction-form.js:255-301 | The documents become `Backfill` of the stored entries at `now`. |
| Ledger.Ledger.Record | js/transaction-form.js:368-382 | The entry is appended with the next server time. It is followed by the merge and the back-fill. The entry's signed amount is the sign rule over its category's index, and the invariant is kept: every entry's Saldo Kas is the balance before it plus that signed amount. |
| Ledger.Ledger.HandleTransactionSubmit | js/transaction-form.js:304-396 | It rejects exactly when `CheckForm` fails, with that error, and writes nothing then. An unknown category saves nothing. A save appends one entry with the trimmed name and description, whose Saldo Kas is the previous balance plus the signed amount; the chain records that category's index, and a first entry's opening balance is the prompted starting balance. The new month documents are the old ones, plus the prompt's document for a first entry, then merged with the entry's month and back-filled; no other month changes. Per-account balances are never touched. |
| Categories.ParentKey | js/categories.js:21 | An absent or empty parent id files a category under "root". |
| Categories.Group | js/categories.js:19-27 | A hierarchy slot holds only categories of that level and parent key, and every such category of the collection. |
| Categories.GroupKeepsOrder | js/categories.js:12-26 | A slot is a subsequence of the collection. An index-ordered collection gives an index-ordered slot, and unique ids stay unique, so each category appears once. |
| Categories.GroupCounts | js/categories.js:19-27 | A slot holds every occurrence of each category that belongs to it, and none of any other. |
| Categories.FindById | js/categories.js:44-46 | It returns the first category with the id, and None exactly when no category has it. |
| Categories.ExcludeByIndex | js/categories.js:80-82 | Options are exactly the categories whose index starts with no excluded prefix. |
| Categories.ChildrenUnique | js/categories.js:62 | The direct children of a parent in a collection with unique ids have unique ids. |
| Categories.DescendantsNoDuplicates | js/categories.js:58-71 | With unique ids the recursive collection lists no category twice. |
| Categories.DescendantsExact | js/categories.js:58-71 | A category is collected exactly when it hangs below the parent: a child, or below a child. |
| Categories.GetAllChildCategories | js/categories.js:58-71 | It returns the descendants of the parent, each once. |
| Categories.NextChildIdProperties | js/categories.js:186-196 | A child id is the parent id, a dot and a number above every sibling's last segment. |
| Categories.NextRootIdProperties | js/categories.js:197-205 | A root id is all digits, with a value above every root index. |
| Categories.NewCategory | js/categories.js:207-218 | The written document has id = index = the new id, and full name "<id>. <name>". |
| Categories.NewCategoryFresh | js/categories.js:182-218 | In a well-formed tree the new id is held by no category, and the new category is well placed. |
| Categories.InsertSorted | js/categories.js:8 | Placing a document keeps the collection in index order. |
| Categories.InsertUnique | js/categories.js:207-218 | Adding a document with a new id keeps ids unique. |
| Categories.RemoveKeeps | js/categories.js:8 | Removing documents keeps the order and unique ids. |
| Categories.UpsertKeeps | js/categories.js:220 | `doc(id).set` keeps the collection ordered and its ids unique. |
| Categories.AddKeepsTreeWellFormed | js/categories.js:182-227 | Adding to a well-formed tree adds exactly one new document, and the tree stays well formed. |
| Categories.UpdateNameFields | js/categories.js:239-246 | Only the name, and the full name when given, of the document with that id change. |
| Categories.RenameKeepsTree | js/categories.js:230-253 | Renaming keeps the collection ordered, unique and well formed. |
| Categories.Catalog.constructor | js/categories.js:6-33 | A catalog over an index-ordered collection with unique ids, not yet loaded. |
| Categories.Catalog.LoadCategories | js/categories.js:6-33 | After loading, the list mirrors the collection and each hierarchy slot is its group. On a valid catalog every slot is in index order with each category once. |
| Categories.Catalog.GetCategoriesByParent | js/categories.js:36-41 | On a loaded catalog it returns the group of that level and parent key, and [] for a missing slot. |
| Categories.Catalog.GetCategoryById | js/categories.js:44-46 | It finds a loaded category with that id exactly when one exists. |
| Categories.Catalog.AddCategory | js/categories.js:182-227 | It writes `NewCategory` into the collection, reloads, and keeps the invariant. |
| Categories.Catalog.WriteNameFields | js/categories.js:239-246 | The collection becomes `UpdateNameFields` and is reloaded. |
| Categories.Catalog.UpdateCategory | js/categories.js:230-253 | An unknown id is an error that changes nothing. Otherwise the name fields are written, with the full name rebuilt from the index. |
| Accounts.ActiveAccounts | js/settings.js:9 | The loaded list is exactly the active documents, in collection order. |
| Accounts.ActiveKeepsOrder | js/settings.js:9 | The active filter keeps creation order (`orderBy('createdAt')`). |
| Accounts.FindAccount | js/settings.js:120 | It returns the first account with the id, and None exactly when there is none. |
| Accounts.RenameAccount | js/settings.js:134-150 | Only the name and bank number of the account with that id change. |
| Accounts.DeactivateDoc | js/settings.js:165-170 | The soft delete clears `isActive` of that account and changes nothing else. |
| Accounts.DeactivateHides | js/settings.js:153-180 | After deactivation the loaded list is the previous one without that account, in the same order. |
| Accounts.RemoveAccount | js/settings.js:153-180 | It keeps exactly the accounts with another id. |
| Accounts.RenameKeepsInvariant | js/settings.js:134-150 | Renaming keeps ids, stamps and creation order. |
| Accounts.DeactivateKeepsInvariant | js/settings.js:153-180 | Deactivating keeps ids, stamps and creation order. |
| Accounts.AccountRegistry.constructor | js/firebase-config.js:38-79 | An empty collection, loaded, with the clock at 0. |
| Accounts.AccountRegistry.LoadAccounts | js/transaction-form.js:6-21 | The loaded list holds only active accounts, in creation order, and the collection is unchanged. |
| Accounts.AccountRegistry.Create | js/firebase-config.js:68-74 | The entries are appended with fresh ids and one server time, then reloaded. |
| Accounts.AccountRegistry.AddAccount | js/settings.js:93-111 | A new active account with a fresh id is appended, and the loaded list gains it at the end. |
| Accounts.AccountRegistry.UpdateAccount | js/settings.js:134-150 | Success exactly when the id exists. Then the collection becomes `RenameAccount`; otherwise nothing changes. |
| Accounts.AccountRegistry.Deactivate | js/settings.js:153-180 | Success exactly when the id exists. Then the loaded list loses exactly that account; otherwise nothing changes. |
| Auth.RoleForEmail | js/auth.js:23-30 | The administrator role is given exactly to the administrator address; every other address is a guest. |
| Auth.SignedIn | js/auth.js:14-64 | The session takes the stored role when a user document exists. A new user gets the derived role and a user document. A failure leaves the guest role. |
| Auth.SignedOut | js/auth.js:65-67 | Without a user there is no user and no role. |
| Auth.OnlyAdminEmailBecomesAdmin | js/auth.js:19-36 | Without a stored role, a user becomes administrator exactly on a first sign-in with the administrator address. |
| Auth.HandleLogin | js/auth.js:100-106 | Exactly the two known addresses reach the sign-in call. |
| Auth.LoginRolesAreKnown | js/auth.js:23-30 | A first sign-in with an accepted address derives the role that address names. |
| Auth.HasPermission | js/auth.js:213-230 | Nothing is permitted without a user and a role. Adding and viewing are permitted to both roles. Category and settings edits are permitted exactly to the administrator. Unknown actions are refused. |
| Auth.AdminCoversGuest | js/auth.js:213-230 | An administrator may do everything a guest may. |
| Auth.GuestPermissions | js/auth.js:213-230 | A guest may add and view transactions and nothing else. |
| Auth.SignedOutHasNoPermission | js/auth.js:202-210 | After signing out nothing is permitted. |
| Auth.RequireAuth | js/auth.js:233-236 | True exactly when somebody is signed in. |
| Auth.RequireAdmin | js/auth.js:239-250 | True exactly for a signed-in administrator, and only when `requireAuth` holds. |
| Auth.RequireAdminIsAdminPermission | js/auth.js:239-250 | The admin guard agrees with the permission table on every admin-only action. |
| Seeding.DefaultEntries | js/firebase-config.js:44-66 | The three default accounts, by name and with no bank number. |
| Seeding.SeededDocs | js/firebase-config.js:38-79 | A non-empty collection is left alone. An empty one receives exactly the three default accounts, active and stamped by the batch. |
| Seeding.SeedingIdempotent | js/firebase-config.js:41-43 | Seeding twice equals seeding once. |
| Seeding.SeededAllActive | js/firebase-config.js:44-66 | Every page sees all three default accounts after seeding an empty store. |
| Seeding.InitializeDefaultAccounts | js/firebase-config.js:38-79 | The collection becomes `SeededDocs`, and the invariant is kept. A collection that was not empty is left as it was, loaded list included. |
| Seeding.SettingsStore.constructor | js/firebase-config.js:20-35 | A settings store holding the given admin document. |
| Seeding.SettingsStore.InitializeAdminSettings | js/firebase-config.js:20-35 | An absent admin document is created with an empty account number. An existing one is kept. |
| Seeding.OnAuthStateChanged | js/firebase-config.js:82-87 | Both initialisations run exactly for the administrator address. For anyone else nothing changes. |
| Settings.Entered | js/settings.js:85-86 | A reply counts exactly when it is not cancelled and not blank. It is then trimmed. |
| Settings.Optional | js/settings.js:87 | A cancelled optional prompt gives "". Otherwise it gives the trimmed reply. |
| Settings.ShowAddAccountModal | js/settings.js:79-111 | Only an administrator with a non-blank name adds an account (`AddAccount` on the trimmed replies). Otherwise nothing changes. |
| Settings.EditAccount | js/settings.js:114-150 | A non-admin is refused and an unknown id is an error. A non-blank name renames the account; otherwise nothing changes. |
| Settings.DeactivateAccount | js/settings.js:153-180 | Only a confirmed administrator request on a known id hides that account. Otherwise nothing changes. |
| Settings.AtLevel | js/settings.js:271 | It keeps exactly the categories of the level. |
| Settings.MaxParsedIndex | js/settings.js:272 | NaN when some root index has no leading digit. Otherwise the largest parsed root index, 0 without roots. |
| Settings.RootRequest | js/settings.js:275-283 | The request is level 1, has no parent, and uses the given name. |
| Settings.LevelOneAreRoots | js/settings.js:271 | In a well-formed tree the level-1 categories are exactly the "root" group. |
| Settings.RootIndexAgrees | js/settings.js:268-291 | The index settings computes for a root is the id `addCategory` gives it. |
| Settings.ShowAddCategoryModal | js/settings.js:255-265 | Only an administrator with a non-blank name adds a root category. Otherwise nothing changes. |
| Settings.AddRootCategory | js/settings.js:268-291 | The new root has id = index = the next root number, level 1 and full name "<id>. <name>". |
| Settings.SubRequest | js/settings.js:315-332 | The request is one level below the parent, under the parent's id, numbered after its children. |
| Settings.ChildrenAreGroupAll | js/settings.js:315 | In a well-formed tree a parent's children are exactly its hierarchy group one level below. |
| Settings.SubIndexIsNewId | js/settings.js:294-341 | The index settings computes for a child is the id `addCategory` gives it. |
| Settings.AddSubCategory | js/settings.js:294-341 | A non-admin is refused and an unknown parent is an error. Level 5 is too deep, and a blank name is cancelled. Otherwise the child of `SubRequest` is added. |
| Settings.UpdateCategoryName | js/settings.js:364-387 | Success exactly when the id exists. The name and a full name rebuilt from the unchanged index are written. |
| Settings.RenameRegeneratesFullName | js/settings.js:373-377 | After a rename the category keeps its index, and its full name is "<index>. <new name>". |
| Settings.EditCategory | js/settings.js:345-361 | Only a non-blank new name different from the current one is written. Otherwise nothing changes. |
| Settings.SortKey | js/settings.js:205-206 | The key is NaN exactly when some segment has no leading digit. |
| Settings.TableOrderAgrees | js/settings.js:204-208 | For indexes of at most 11 segments, each below 1000, the table comparator orders as the extract's `compareIndexes` does, for less, equal and greater. |
| Settings.PaddedCompare | js/settings.js:205-206 | Weighted sums of such segments compare as the segment-by-segment comparison. |
| Settings.PaddedBound | js/settings.js:205-206 | What follows a position weighs less than one unit at that position. |
| Home.MonthYear | js/home.js:96-107 | A timestamp or date gives its `YYYY-MM` key, an unparsable string gives "NaN-NaN", and anything else "". |
| Home.MonthYearShape | js/home.js:96-107 | A key of a non-negative year splits into the year's digits and two month digits. |
| Home.OfMonth | js/home.js:110-122 | A transaction is in it exactly when it is loaded and falls in that month. |
| Home.OfMonthKeepsOrder | js/home.js:110-122 | A month's group is a subsequence of the loaded transactions, holding every occurrence of each transaction of that month. |
| Home.GroupTransactionsByMonth | js/home.js:110-122 | One group per month present, each exactly `OfMonth`: only that month's transactions, each occurrence once, in their original order. |
| Home.GroupsPartition | js/home.js:110-122 | Every transaction lies in its own month's group and in no other. |
| Home.ApplyFilters | js/home.js:60-93 | A transaction is in the result exactly when it is loaded and passes both filters. |
| Home.ApplyFiltersKeepsOrder | js/home.js:60-93 | The result is a subsequence of the loaded transactions, holding every occurrence of each transaction that passes. |
| Home.NoFilterKeepsAll | js/home.js:60-93 | With no filter every transaction is shown. |
| Home.MonthFilterIsGroup | js/home.js:62-70 | A month filter alone shows exactly that month's group. |
| Home.CategoryFilterKeepsSubtree | js/home.js:72-84 | In a well-formed tree the category filter keeps the whole subtree of the selection. |
| Home.PrefixFilterAdmitsRootTwenty | js/home.js:81 | The prefix test admits root "20" under the filter for "2". |
| Home.EarliestIndex | js/home.js:155-168 | The first element of the ascending (date, createdAt) sort. |
| Home.HomeSigned | js/home.js:170-180 | The category's sign rule for a known category; the amount as stored otherwise. |
| Home.CurrentSaldoKas | js/home.js:437-453 | 0 without transactions. Otherwise the Saldo Kas of the latest one. |
| Home.MonthWindow | js/home.js:145-147 | A parsable month key gives a valid month. |
| Home.MonthWindowOfKey | js/home.js:145-147 | The window of a key written for a year from 100 on is that month. |
| Home.MonthlyBalances | js/home.js:124-184 | The closing balance is the current Saldo Kas. The opening balance is 0 for an empty group. Otherwise it is the balance before the month's earliest transaction. |
| Home.EarliestOfMonthIsFirst | js/home.js:149-168 | On a chronological ledger the earliest transaction of a month is its first stored one. |
| Home.SaldoAwalIsPreviousBalance | js/home.js:124-184 | On a chronological ledger, a month's opening balance is the Saldo Kas of the entry saved just before the month (the opening balance for the first month). |
| Home.SaldoAkhirIsRunningBalance | js/home.js:437-453 | On a chronological ledger, the current Saldo Kas, in any loaded order, is the opening balance plus every signed amount. |
| Home.AccountTotalSnoc | js/home.js:455-478 | An account's card grows by exactly what one transaction contributes. |
| Home.UpdateSummaryCards | js/home.js:432-478 | The current Saldo Kas is reported, and one card per loaded account totals that account's filtered transactions. |
| Home.ContributionOnce | js/home.js:460-470 | With distinct ids, a transaction adds to exactly one card. |
| Home.CardsAddUp | js/home.js:455-478 | The cards sum to the sum of the signed amounts. |
| Home.CardsMatchSaldoKas | js/home.js:432-478 | On a chronological ledger, the opening balance plus the cards equals the current Saldo Kas. |
| Home.AccountName | js/home.js:29-32 | The first name under the id, or "Unknown Account". |
| Home.InsertDescending | js/home.js:506-517 | It inserts a key into a strictly descending list, once. |
| Home.MonthOptions | js/home.js:501-517 | The options are exactly the distinct non-empty months, latest first. |
| Home.DescendingDistinct | js/home.js:517 | Each month option appears once. |
| Home.CategoryOptions | js/home.js:562-573 | The options are exactly the loaded roots whose index does not start with "1". |
| Extract.CompareIndexes | js/extract.js:254-270 | The loop's result is `IndexOrder`, the first differing numeric segment with a missing segment read as 0. |
| Extract.IndexOrderReflexive | js/extract.js:254-270 | Every index compares equal to itself. |
| Extract.IndexOrderAntisymmetric | js/extract.js:254-270 | Swapping the arguments negates the result. |
| Extract.IndexOrderTransitive | js/extract.js:254-270 | The comparator is transitive, so the sort is well defined. |
| Extract.IndexOrderExamples | js/extract.js:253-270 | "2.10" sorts after "2.9", "2" ties "2.0", and "1" precedes "2.1". |
| Extract.InsertRowSorted | js/extract.js:153-156 | Inserting a row keeps the rows ordered by index. |
| Extract.SortRows | js/extract.js:153-156 | The rows are ordered by `compareIndexes` and are a permutation of the input. |
| Extract.ColumnSumSorted | js/extract.js:153-156 | Sorting keeps every column's sum. |
| Extract.CheckRange | js/extract.js:90-99 | A missing month is an error, and so is a start after the end. Otherwise both months are accepted. |
| Extract.FilterByRange | js/extract.js:218-229 | It selects stored transactions only. |
| Extract.FilterByRangeMonths | js/extract.js:218-229 | A transaction is kept exactly when its month lies between the start and end months. |
| Extract.AcceptedRangeIsInhabited | js/extract.js:96-99 | An accepted range contains at least its start's first instant. |
| Extract.Zeros | js/extract.js:245-247 | Every loaded account has a zero cell. |
| Extract.Structure | js/extract.js:232-251 | One row per category id. |
| Extract.CreateCategoryStructure | js/extract.js:232-251 | The loop builds `Structure`. |
| Extract.StructureRows | js/extract.js:232-251 | With unique ids, each category's row carries its id, full name, index and zero cells. |
| Extract.FirstWithPrefix | js/extract.js:185 | It returns the first category whose index starts with the prefix, and None exactly when there is none. |
| Extract.SeededCells | js/extract.js:189-202 | Each seeded account cell gains that account's numeric total; the others are unchanged. |
| Extract.SeedCells | js/extract.js:189-202 | The loop over the balance keys computes `SeededCells`. |
| Extract.Seeded | js/extract.js:162-215 | Seeding keeps the row set. |
| Extract.AddSaldoAwal | js/extract.js:162-215 | The method computes `Seeded`. |
| Extract.SeedingTouchesOneRow | js/extract.js:184-207 | Only the first "1…" category's row changes, and only when the previous month's document exists. |
| Extract.SeedingAddsNothingOnLedgerDocs | js/extract.js:178-198 | On documents the ledger writes, which carry no `accountBalances`, seeding changes nothing. |
| Extract.AddTransaction | js/extract.js:134-150 | Only the transaction's category row changes, in the transaction's account cell. An unknown category adds nothing. |
| Extract.Accumulated | js/extract.js:134-150 | Accumulation keeps the row set. |
| Extract.AccumulatedShaped | js/extract.js:134-150 | Accumulation keeps every row's id, name and index. |
| Extract.RowsOf | js/extract.js:153 | The rows come in category order, one per category. |
| Extract.ColumnSumChange | js/extract.js:134-150 | Changing one row changes a column's sum by that cell's change. |
| Extract.AddTransactionColumn | js/extract.js:134-150 | One transaction changes an account's column by what it adds to that account's home card. |
| Extract.AccumulatedColumn | js/extract.js:134-150 | The period's transactions change an account's column by that account's home total. |
| Extract.SeededColumn | js/extract.js:162-215 | Seeding adds the previous month's total of the account to its column. |
| Extract.AccumulateTransactions | js/extract.js:134-150 | The loop computes `Accumulated` under the given amount rule: `AsStored` is the code as written, `Signed` the corrected rule of the Finding. |
| Extract.AsStoredExpenseIsPositive | js/extract.js:146-148 | The accumulation as written puts an expense of 5000 in as +5000, while home counts it as −5000. |
| Extract.ExtractRows | js/extract.js:120-159 | One row per category, in `compareIndexes` order, under either amount rule. |
| Extract.GenerateExtractData | js/extract.js:120-159 | The method computes `ExtractRows` under the given amount rule; with `AsStored` it is `generateExtractData` as written. |
| Extract.ExtractRowsAreCategories | js/extract.js:120-159 | Each row carries the id, full name and index of a category, and each category has a row. |
| Extract.ExtractColumnsMatchHome | js/extract.js:120-159 | Under the signed rule, each account column totals the seed plus the home card total over the period's transactions. |
| Extract.ExtractOnLedgerDocs | js/extract.js:120-215 | Under the signed rule, on documents the ledger writes, each column is exactly the home total over the period. |
| Extract.HandleExtractSubmit | js/extract.js:84-117 | The submit rejects exactly as `CheckRange` does, and otherwise generates `ExtractRows` under the given amount rule (`AsStored` as written). |
| Extract.RowSumSplits | js/extract.js:338-347 | A row's sum splits into the bank, tunai and other accounts' parts. |
| Extract.TotalKasIsRowSum | js/extract.js:367-368 | When every account is bank or tunai, "Total Kas" is the whole row's sum. |
| Extract.DefaultCashAccount | js/extract.js:343-347 | "Kas Tunai" counts as tunai and not bank. |
| Extract.DefaultBankAccount | js/extract.js:343-344 | Both default bank accounts count as bank. |
| Extract.RowLine | js/extract.js:326-373 | The loop computes the row's caption, cells and the two totals of `LineOf`. |
| Extract.ExtractTable | js/extract.js:322-376 | One line per row, in order. |
| Extract.CsvHeader | js/extract.js:437-443 | The header is "Keterangan", "Sum of <name>" per account, "Total Kas Bank", "Total Kas". |
| Extract.ExportToCsv | js/extract.js:427-467 | Nothing is exported exactly when there are no rows. Otherwise the header and one line per row. |
| Extract.IdsOf | js/extract.js:384 | The account ids, in order. |
| Extract.GenerateSummary | js/extract.js:379-424 | One total per account, equal to its column sum, and the grand total over all accounts. |
| Extract.GrandTotalSnoc | js/extract.js:392-414 | Adding a row adds its sum to the grand total. |
| Extract.GrandTotalIsKasColumn | js/extract.js:414 | When every account is bank or tunai, the grand total is the sum of the "Total Kas" column. |
| Extract.GrandTotalOverCards | js/extract.js:414 | When the columns equal the home cards, the grand total is the sum of the cards. |
| Extract.ExtractGrandTotalOnLedgerDocs | js/extract.js:379-424 | Under the signed rule, on ledger-written documents the grand total is the sum of the home cards over the period. |
| Strings.NatToStringValue | js/categories.js:203 | Reading back a rendered number gives the number. |
| Strings.ParseRendered | js/categories.js:190-196 | `parseInt` and `Number` read back what `toString` wrote. |
| Strings.SplitJoin | js/categories.js:191 | `split` loses nothing: joining the parts gives the string back. |
| Strings.Trim | js/transaction-form.js:317 | The result is the input with only blanks removed before and after it, and its own ends are not blank. It is empty exactly when the input is all blanks. Blanks are the white space and line terminators `trim` removes, Unicode spaces included. |
| Strings.TrimUnicodeSpace | js/transaction-form.js:317 | An ideographic space alone trims to the empty string, as in JavaScript. |
| Strings.LexTransitive | js/home.js:517 | The default string order is transitive. |
| Dates.MonthKeyRoundTrip | js/transaction-form.js:238 | Writing a month key and reading it back gives the month. |
| Dates.MonthKeyInjective | js/transaction-form.js:238 | Different months have different keys. |
| Dates.WithinMonthRange | js/extract.js:219-223 | A date lies in `[first instant of start, last instant of end]` exactly when its month lies between them. |
| Dates.BeforeTransitive | js/transaction-form.js:97-100 | The order of instants is transitive. |

## Left out

- Rendering is not modelled: HTML, CSS classes, indentation, colours, currency and date formatting (`formatCurrency`, `formatDate`, `getMonthYearString`). The modal markup and the DOM are left out too; only values and documents are modelled.
- Input, output, alerts, `window.location` redirects, `setTimeout`, the CSV text (`join`, quoting), the `Blob` download and console logging are left out. Prompt replies, confirmations, the server time and the current date are method parameters.
- Concurrency is not modelled: two pages saving at once, Firestore listeners and errors thrown by the network. A failed read within the model is represented only where the source branches on it (the role lookup).
- Floating point is not modelled: amounts are integers, and `parseFloat(..) || 0` is a given number. In the settings table's key, `1000 ** (10 - i)` becomes a fraction for more than 11 segments; `Settings.TableOrderAgrees` therefore covers only 11 segments or fewer, each below 1000.
- Settings.TableOrderAgrees: the model's key is an exact integer. The source's key is a double, so from about six segments on the low segments fall below one unit in the last place and distinct indexes can get the same key. The agreement therefore holds in the source only for indexes of about five segments, which is what the five-level cap (js/settings.js:306) keeps written indexes to.
- Settings.SortKey: only indexes of at most 11 segments are read, because the weight of a twelfth segment is a fraction of one.
- The sort algorithms of `Array.prototype.sort` are not modelled. The extract's row sort is modelled as an insertion sort by the same comparator, specified by order and permutation. Of the settings table's sort, only the comparator is modelled.
- `parseInt`/`Number` are modelled on unsigned digit strings. Signs, blanks, exponents, hexadecimal and `Infinity` are not read.
- Time zones are not modelled. The extract's `new Date('YYYY-MM-01')` (js/extract.js) and the form's `new Date('YYYY-MM-DD')` before it is stored (js/transaction-form.js:365) are read as local midnight, where JavaScript reads them as UTC midnight. The stored date's month is later read in local time (js/transaction-form.js:235-237, js/home.js:96-98), and so is the month of the bootstrap prompt's previous-month key (js/transaction-form.js:109-126), so west of UTC a date on the first of a month can fall in the previous month in the source, but not in the model.
- `new Date(y, …)` with a two-digit year (0 to 99) maps to 1900 to 1999. This is modelled by `Home.JsYear`, and `Home.MonthWindowOfKey` needs years from 100 on.
- JavaScript object key order is not modelled. `Object.values(categoryData)` (js/extract.js:153) is taken in category order. The sort makes that order irrelevant except between indexes that `compareIndexes` ties, such as "2" and "2.0". Those keep `Object.values` order in the source, which lists integer-like keys first, and category order in the model.
- Unique document ids: the category ids and account ids are taken to be unique (`UniqueIds`, `DistinctIds`), as Firestore document ids are.
- A category with the id "" or "root" is not given its own branch in the hierarchy lemmas; those require such ids to be absent.
- `getCategoryStatistics`, `getAggregatedCategoryStatistics` and `getCategoryPath` are not modelled. They are reports that no core operation uses.
- The category-selector cascade (`setupCategorySelectors`, `enhancedCategorySelection`, `resetCategorySelectors`) and `updateUserInfoDisplays` are only DOM updates. They are not modelled.
- `populateAccountDropdown`, `loadTransactions`, `displayTransactions` and `displaySaldoAwalOnly` are not modelled. They render what `ActiveAccounts`, `ApplyFilters`, `GroupTransactionsByMonth` and `MonthlyBalances` compute.
- Ledger.RunningBalance: the running balance is proved only for a chronological ledger, with no back-dated entry. `getPreviousSaldoKas` (js/transaction-form.js:94-106) always starts from the entry that is latest by date, whatever the new entry's date. A back-dated entry's amount is therefore missing from every Saldo Kas saved after it, as `Ledger.BackDatedEntryIsLost` shows. `Home.SaldoAwalIsPreviousBalance`, `Home.SaldoAkhirIsRunningBalance` and `Home.CardsMatchSaldoKas` carry the same restriction.
- Categories.GetAllChildCategories: `Categories.Descendants`, `Categories.DescendantsOfAll` and `Categories.GetAllChildCategories` require a well-formed collection. A collection whose parent links form a cycle is excluded, where `getAllChildCategories` recurses without end. The app's own writes keep the collection well formed (`Categories.AddKeepsTreeWellFormed`).
- Seeding.InitializeDefaultAccounts: the seeding goes through `AccountRegistry.Create`, which reloads the loaded account list. In js/firebase-config.js:38-79 the batch is only committed, and the settings page's list is refreshed by its own `loadAccountTable`.
- The audit fields `createdBy`, `createdByEmail`, `createdByRole`, `updatedAt`, `lastUpdated` and `lastLogin` are left out. They are written but never read.

## Findings

| source | as written | input that shows it | evidently intended | confidence | as-written member | corrected member |
|---|---|---|---|---|---|---|
| js/extract.js:146-148 | The period's transactions are added to the category × account matrix with their amount as stored. The transaction form stores the entered amount, which is always positive, and keeps the sign only in Saldo Kas. | An expense of 5000 from account "0" under category index "3.1": the extract's cell is +5000, while the home card for that account counts −5000. | Add the signed amount (income +, expense −), as the home summary and the Saldo Kas computation do, so that every account column matches the home card. | not executed | Extract.AsStoredExpenseIsPositive | Extract.ExtractColumnsMatchHome |
