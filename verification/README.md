# Bluemoon staff operations — a Dafny model

Bluemoon Automation is a React single-page app for a café/restaurant. Employees
tick off opening and closing checklists per station (kitchen, coffee bar),
confirm a task with a photo, and keep a sealed/loose inventory ledger; the
manager has own daily and weekly tasks, several report forms and a read-only
view of the station inventory; the owner looks at the store checklist, inventory alerts
and deletion, sales, payroll, staff, notifications, photo submissions, a recipe
catalogue and a settings page. There is no back end: every screen works on
in-memory arrays.

This project models the logic inside the screens' event handlers and derived
views as pure Dafny functions over immutable datatypes, one module per
component:

| module | component |
|---|---|
| `Common`, `Seqs`, `Strings` | shared: `Option`/`Result`, JavaScript numbers with `NaN`, `filter`/`map`/`reduce`/`new Set`, trimming, lowercasing, `includes`, `split`/`join`, `padStart`, `parseInt` |
| `App` | session and navigation (`src/App.tsx`) |
| `LoginScreen` | role and name derived from the email |
| `EmployeeDashboard` | checklist tabs, completed counter, inventory ledger |
| `QrScanScreen` | photo-confirmation state machine |
| `ManagerDashboard` | manager tasks, form guards, read-only station tables, and the inventory handlers no control calls |
| `OwnerInventory` | alerts, owner fields, delete mode and selection |
| `Notifications` | relative times, read flags, deletion, click-through with QR ids |
| `OwnerManagerTasks` | assigning tasks to the manager |
| `OwnerStore` | store checklist overview with an "all stations" filter |
| `PhotoViewer` | photo gallery page and dialog filters |
| `Recipes` | case-insensitive search and the category list |
| `OwnerPayroll`, `OwnerSales`, `OwnerEmployees`, `Settings` | owner summaries and the settings page |

Handlers that validate return `Result<…, Error>`: an `Err` means the screen
only shows an error message and nothing changes. The current time, fresh ids
(`Date.now()`, `Math.random()`) and "today" are parameters. JavaScript numbers
that can come from `parseInt` are `JsNum = NaN | Num(int)`, with `NaN`
propagating through `+` and `Math.max`.

Some behaviours the model makes explicit, as the code has them:
- the manager dashboard defines handlers to add, adjust, delete and submit
  inventory items, but no button or input calls them: its inventory tab only
  shows two read-only station tables. The handlers are modelled as written;
  the add handler's item would have no station, so it would show in neither
  table (`ManagerDashboard.AddedItemInNoTable`);
- the six `manager-*` screens have no render case and show the login form
  while the user stays signed in (`App.ManagerSubScreenShowsLogin`);
- the settings page's add-task form only checks for empty strings (a single
  space passes) and never adds anything to the list shown;
- the daily earnings on the sales page are not clamped and can be negative;
- a notification click can lower the unread count by more than one when
  notifications share an id; with distinct ids it lowers it by at most one.

## Model

| member | source | states |
|---|---|---|
| App.Initial | src/App.tsx:144-148 | the app starts on the login screen with no user and no selected task, scan task or recipe |
| App.HomeScreen | src/App.tsx:150-159 | owner, manager and employee each land on their own dashboard, and only they do |
| App.HandleLogin | src/App.tsx:150-159 | login stores the user, routes by role and leaves the three selections alone |
| App.HandleLogout | src/App.tsx:161-167 | logout from any state gives the initial state back |
| App.NavigateTo | src/App.tsx:169-180 | the screen is always the one requested, the user is kept, and each selection changes only for its own screen with a value supplied |
| App.Render | src/App.tsx:182-329 | the login form is shown exactly for the login screen and the six `manager-*` screens |
| App.QrScanExit | src/App.tsx:225-232 | leaving the scan screen (back or complete) goes to the employee dashboard with user and selections kept |
| App.NavigateElsewhereKeepsSelections | src/App.tsx:169-180 | navigating to a screen other than task detail, QR scan or recipe detail changes only the screen |
| App.ManagerSubScreenShowsLogin | src/App.tsx:327-328 | a signed-in user sent to a `manager-*` screen sees the login form and stays signed in |
| App.LoginThenLogout | src/App.tsx:150-167 | logging in and out again restores the initial state, and no role lands on the login form |
| LoginScreen.RoleFromEmail | src/components/LoginScreen.tsx:22-27 | owner iff the email contains "owner"; manager iff it contains "manager" but not "owner"; employee otherwise |
| LoginScreen.NameFromEmail | src/components/LoginScreen.tsx:31 | the name is the longest `@`-free prefix of the email: all of it, or up to the first `@` |
| LoginScreen.Login | src/components/LoginScreen.tsx:20-36 | the signed-in user keeps the email, gets the derived role and name and the fresh id |
| LoginScreen.Register | src/components/LoginScreen.tsx:38-47 | registering uses the typed name and the chosen role verbatim, not derived from the email |
| LoginScreen.LoginIgnoresPassword | src/components/LoginScreen.tsx:20-36 | two passwords give the same user |
| LoginScreen.OwnerWinsOverManager | src/components/LoginScreen.tsx:23-26 | an email with both words is an owner's |
| LoginScreen.UpperCaseIsEmployee | src/components/LoginScreen.tsx:23-27 | the test is case-sensitive: "OWNER@x" is an employee |
| LoginScreen.LoginRoutesByEmail | src/components/LoginScreen.tsx:20-36 | signing in lands on the dashboard of the role derived from the email |
| EmployeeDashboard.FilteredTasks | src/components/EmployeeDashboard.tsx:113-115 | the tab shows exactly the tasks of that station and category, in list order |
| EmployeeDashboard.CompletedCount | src/components/EmployeeDashboard.tsx:117 | the counter is the number of completed tasks in the tab, at most the tab's size, and zero iff none of them is completed |
| EmployeeDashboard.HandleScanQr | src/components/EmployeeDashboard.tsx:109-111 | the scan action opens the QR screen carrying that task and changes nothing else |
| EmployeeDashboard.ScanButtonsAndCounterCoverTab | src/components/EmployeeDashboard.tsx:117-368 | in a tab, the tasks offering a camera button plus the completed counter make up the whole tab |
| EmployeeDashboard.AddInventoryItem | src/components/EmployeeDashboard.tsx:120-146 | refused iff the trimmed name is empty or a quantity string is empty; otherwise one item is appended with the parsed quantities, delivered = sealed + loose, the selected station, and the form is cleared except the unit |
| EmployeeDashboard.EditItem | src/components/EmployeeDashboard.tsx:150-153 | an edit stores the parsed value or 0, keeps the other field, recomputes delivered as their sum and stamps today's date |
| EmployeeDashboard.UpdateInventory | src/components/EmployeeDashboard.tsx:148-159 | same length, items with other ids unchanged, the matching item edited |
| EmployeeDashboard.LedgerConsistencyPreserved | src/components/EmployeeDashboard.tsx:120-159 | adding and editing both keep delivered = sealed + loose on every item |
| EmployeeDashboard.UnparsableEditStoresZero | src/components/EmployeeDashboard.tsx:151 | input that does not parse stores 0 |
| EmployeeDashboard.EditWithDisplayedValueKeepsCount | src/components/EmployeeDashboard.tsx:151 | re-entering the displayed number keeps the count |
| EmployeeDashboard.SeedInventoryConsistent | src/components/EmployeeDashboard.tsx:95-102 | the six seeded items satisfy delivered = sealed + loose |
| QrScanScreen.Initial | src/components/QRScanScreen.tsx:19-21 | no image, empty name, not submitting |
| QrScanScreen.FileChange | src/components/QRScanScreen.tsx:30-39 | no file leaves the state as it was; a file becomes the captured image |
| QrScanScreen.HandleRetake | src/components/QRScanScreen.tsx:41-44 | retake clears image and name |
| QrScanScreen.HandleSubmit | src/components/QRScanScreen.tsx:46-66 | a blank name is refused with no submitting and no completion; otherwise submitting goes true then false and completion is signalled once, image and name kept |
| QrScanScreen.ViewOf | src/components/QRScanScreen.tsx:101 | the confirmation form is shown iff an image is captured |
| QrScanScreen.Step | src/components/QRScanScreen.tsx:30-66 | retake clears image and name; typing sets the name and keeps the image |
| QrScanScreen.StepKeepsSettled | src/components/QRScanScreen.tsx:135-216 | every offered user action keeps the screen out of the submitting state between events |
| QrScanScreen.Run | src/components/QRScanScreen.tsx:30-216 | a run from a settled state reaches a state exactly when every event's control is on screen at its turn, and the state it reaches is settled |
| QrScanScreen.EnabledSubmitCompletes | src/components/QRScanScreen.tsx:197 | when the submit button is enabled, submitting completes exactly once |
| QrScanScreen.InitialOffersOnlyCapture | src/components/QRScanScreen.tsx:86-101 | at first only back and camera are offered; name, retake and submit are not |
| QrScanScreen.SubmitThenComplete | src/App.tsx:225-232 | a completed submit returns to the employee dashboard with the scan task still selected; a refused one changes nothing in the app |
| ManagerDashboard.ToggleManagerTask | src/components/ManagerDashboard.tsx:174-178 | the completed flag flips on exactly the tasks with the id; everything else is unchanged |
| ManagerDashboard.ToggleTwiceRestores | src/components/ManagerDashboard.tsx:174-178 | toggling twice gives the list back |
| ManagerDashboard.TasksOfKind | src/components/ManagerDashboard.tsx:389 | a card shows exactly the tasks of its kind, in order, each as often as it occurs in the list |
| ManagerDashboard.CardsPartitionTasks | src/components/ManagerDashboard.tsx:389-426 | each task is on exactly one of the daily and weekly cards |
| ManagerDashboard.AssignEmployeeTask | src/components/ManagerDashboard.tsx:180-190 | refused iff the trimmed name or the assignee is empty; success clears both and keeps station and category |
| ManagerDashboard.SubmitApepo | src/components/ManagerDashboard.tsx:192-203 | refused unless all five fields are non-empty; success clears them |
| ManagerDashboard.SubmitFinancialReport | src/components/ManagerDashboard.tsx:205-212 | refused unless all twelve amounts are non-empty; success sets the status to pending and keeps the fields |
| ManagerDashboard.SubmitRequest | src/components/ManagerDashboard.tsx:253-266 | refused iff the trimmed item name or the quantity is empty; success clears name, quantity and remarks and keeps the priority |
| ManagerDashboard.SubmitPayroll | src/components/ManagerDashboard.tsx:268-282 | refused iff a field is empty; success clears all three |
| ManagerDashboard.SubmitManagerFund | src/components/ManagerDashboard.tsx:284-292 | refused iff the amount is empty or no image is attached; success clears both |
| ManagerDashboard.SubmitExpenses | src/components/ManagerDashboard.tsx:294-301 | refused iff the text is blank; success clears it |
| ManagerDashboard.AddInventoryItem | src/components/ManagerDashboard.tsx:214-234 | (a handler no control calls) refused iff the trimmed name or a quantity string is empty; success appends one item with no station and clears the form |
| ManagerDashboard.Adjust | src/components/ManagerDashboard.tsx:236-242 | the new count is the old plus the change, raised to 0 if negative, and NaN stays NaN |
| ManagerDashboard.AdjustItem | src/components/ManagerDashboard.tsx:236-242 | only the chosen field and the time stamp change |
| ManagerDashboard.UpdateInventory | src/components/ManagerDashboard.tsx:236-242 | same length, other items unchanged, the matching item adjusted |
| ManagerDashboard.UpdateKeepsNonNegative | src/components/ManagerDashboard.tsx:236-242 | adjusting never makes a count negative |
| ManagerDashboard.DeleteInventoryItem | src/components/ManagerDashboard.tsx:244-247 | exactly the items with the id go; the rest stay in order |
| ManagerDashboard.StationItems | src/components/ManagerDashboard.tsx:934 | a station table lists exactly that station's items, in order |
| ManagerDashboard.RowOf | src/components/ManagerDashboard.tsx:935-945 | a row shows the item's fields and delivered = sealed + loose |
| ManagerDashboard.StationTable | src/components/ManagerDashboard.tsx:934-945 | one row per station item, each with delivered = sealed + loose |
| ManagerDashboard.AddedItemInNoTable | src/components/ManagerDashboard.tsx:981-992 | an item without a station changes neither station table |
| ManagerDashboard.AddedItemHasNoStation | src/components/ManagerDashboard.tsx:220-227 | the item a successful add appends has no station |
| ManagerDashboard.SeedCards | src/components/ManagerDashboard.tsx:90-101 | the seeded tasks make four daily and four weekly |
| OwnerInventory.ItemsWithStatus | src/components/OwnerInventoryPage.tsx:52-53 | an alert list holds exactly the items of its status, in order |
| OwnerInventory.AlertListsDisjoint | src/components/OwnerInventoryPage.tsx:52-53 | no item is both critical and low, and the two lists together are no longer than the inventory |
| OwnerInventory.SetOwnerDelivered | src/components/OwnerInventoryPage.tsx:55-59 | only the owner-delivered field of the matching items changes |
| OwnerInventory.SetOwnerDateDelivered | src/components/OwnerInventoryPage.tsx:61-65 | only the owner date of the matching items changes |
| OwnerInventory.ToggleDeleteMode | src/components/OwnerInventoryPage.tsx:71-74 | the flag flips, the selection empties, the inventory stays |
| OwnerInventory.SelectItem | src/components/OwnerInventoryPage.tsx:76-82 | the id's membership flips, other ids keep theirs, and a selection without repeats stays so |
| OwnerInventory.SelectTwiceRestoresSet | src/components/OwnerInventoryPage.tsx:76-82 | selecting twice gives the same set of ids back |
| OwnerInventory.StationIds | src/components/OwnerInventoryPage.tsx:85-91 | the ids of exactly the station's items |
| OwnerInventory.SelectAll | src/components/OwnerInventoryPage.tsx:84-94 | with the station fully selected its ids are removed and the others kept in order, as many as there were, with no repeats introduced; otherwise the result is the union without repeats |
| OwnerInventory.SelectAllOnEmptyStation | src/components/OwnerInventoryPage.tsx:84-94 | a station with no rows counts as fully selected, so nothing changes |
| OwnerInventory.SelectAllCompletesStation | src/components/OwnerInventoryPage.tsx:90-93 | after adding, the station is fully selected |
| OwnerInventory.DeleteSelected | src/components/OwnerInventoryPage.tsx:96-106 | refused iff nothing is selected; otherwise exactly the unselected items stay, in order and each as often as before, the selection empties and delete mode ends |
| OwnerInventory.DeleteSelectedRemovesSelectedRows | src/components/OwnerInventoryPage.tsx:96-106 | the inventory shrinks by exactly the number of rows whose id is selected |
| OwnerInventory.SelectStationThenDelete | src/components/OwnerInventoryPage.tsx:71-106 | with distinct row ids, entering delete mode, selecting a non-empty station and deleting removes exactly that station's rows |
| Notifications.FormatTimeAgo | src/components/NotificationsPage.tsx:76-90 | minutes below an hour, hours below a day, days otherwise, each count the floor of the difference over the unit |
| Notifications.TimeAgoText | src/components/NotificationsPage.tsx:83-89 | the text is the count, a space, the unit word, an `s` exactly when the count is not 1, and " ago", with nothing else |
| Notifications.TimeAgoTextDetermined | src/components/NotificationsPage.tsx:83-89 | any string with those parts at that length is the text shown |
| Notifications.TimeAgoTextShowsUnit | src/components/NotificationsPage.tsx:83-89 | two times with the same count read the same only when their units agree |
| Notifications.QrCodeId | src/components/NotificationsPage.tsx:111 | "QR-" then the id left-padded with '0' to three characters; longer ids unchanged |
| Notifications.UnreadCount | src/components/NotificationsPage.tsx:120 | the number of unread notifications: at most the number of notifications, zero iff all are read |
| Notifications.MarkAllRead | src/components/NotificationsPage.tsx:92-94 | same notifications in the same order, all read, unread count 0 |
| Notifications.DeleteNotification | src/components/NotificationsPage.tsx:96-98 | exactly the notifications with the id go, the rest stay in order and each as often as before |
| Notifications.DeleteUnreadCount | src/components/NotificationsPage.tsx:96-120 | deleting lowers the unread count by exactly the unread notifications carrying the id |
| Notifications.MarkRead | src/components/NotificationsPage.tsx:102-104 | the notifications with the id become read; every other one is unchanged |
| Notifications.Click | src/components/NotificationsPage.tsx:100-118 | a click marks read and opens the task, with its QR id, iff the notification names one |
| Notifications.MarkReadUnreadCount | src/components/NotificationsPage.tsx:102-104 | marking read lowers the unread count by exactly the unread notifications carrying the id |
| Notifications.UniqueIdsAtMostOne | src/components/NotificationsPage.tsx:16-71 | with distinct ids at most one unread notification has a given id |
| Notifications.ClickUnreadDropsByAtMostOne | src/components/NotificationsPage.tsx:100-120 | with distinct ids a click lowers the unread count by at most one and never raises it |
| OwnerManagerTasks.AddTask | src/components/OwnerManagerTasksPage.tsx:41-66 | a blank name is refused first, then a blank description; success prepends one pending task and resets the form |
| OwnerManagerTasks.TasksWithStatus | src/components/OwnerManagerTasksPage.tsx:68-69 | a list holds exactly the tasks of its status, in order |
| OwnerManagerTasks.PendingCompletedPartition | src/components/OwnerManagerTasksPage.tsx:68-69 | each task is on exactly one of the two lists |
| OwnerManagerTasks.AddRaisesPendingOnly | src/components/OwnerManagerTasksPage.tsx:52-69 | an add raises the pending count by one and leaves the completed list as it was |
| OwnerStore.FilteredTasks | src/components/OwnerStorePage.tsx:38-40 | "all" shows the whole list; a station shows exactly its tasks, in order |
| OwnerStore.CategoryTasks | src/components/OwnerStorePage.tsx:42-43 | a column holds exactly the shown tasks of its category |
| OwnerStore.View | src/components/OwnerStorePage.tsx:36-46 | the columns are the category lists, each completed counter is the number of completed tasks in its column, and the two station totals count the whole list and add up to it |
| OwnerStore.CompletedCounters | src/components/OwnerStorePage.tsx:45-46 | each completed counter is the number of shown tasks that are of its category and completed |
| OwnerStore.OpeningClosingSplit | src/components/OwnerStorePage.tsx:42-43 | the two columns share no task and together hold every shown task |
| OwnerStore.PendingShowsNoCompleter | src/components/OwnerStorePage.tsx:204 | a pending task never shows who completed it |
| OwnerStore.TotalsIgnoreFilter | src/components/OwnerStorePage.tsx:115-131 | the kitchen and coffee-bar totals are the same whatever station filter is chosen |
| PhotoViewer.FilterPhotos | src/components/PhotoViewerPage.tsx:125-129 | exactly the photos matching every filter that is not "all", in order |
| PhotoViewer.NoFilterShowsAll | src/components/PhotoViewerPage.tsx:125-129 | with both filters on "all" every photo is shown |
| PhotoViewer.NarrowerFilterShowsSubseq | src/components/PhotoViewerPage.tsx:125-129 | a stricter filter shows a subsequence of a looser one |
| PhotoViewer.ClearFilters | src/components/PhotoViewerPage.tsx:217-224 | clearing resets both filters, after which the button is gone |
| PhotoViewer.ResultLabel | src/components/PhotoViewerPage.tsx:215 | the label starts "Showing " and the count, and ends in 's' iff the count is not 1 |
| PhotoViewer.BackTarget | src/components/PhotoViewerPage.tsx:141 | back goes to the owner's dashboard iff the user is the owner, otherwise the manager's |
| PhotoViewer.ModalFilter | src/components/PhotoViewerModal.tsx:101-103 | "all" shows every photo; a station shows exactly its photos, in order |
| PhotoViewer.StationTabsCoverList | src/components/PhotoViewerModal.tsx:101-103 | the kitchen and coffee-bar tabs together hold every photo |
| Recipes.Search | src/components/RecipesListPage.tsx:134-138 | exactly the recipes whose lowercased name, category or description contains the lowercased query, in order |
| Recipes.EmptyQueryKeepsAll | src/components/RecipesListPage.tsx:134-138 | an empty query keeps the catalogue |
| Recipes.SearchIgnoresCase | src/components/RecipesListPage.tsx:135-137 | queries equal up to letter case find the same recipes |
| Recipes.IngredientsNotSearched | src/components/RecipesListPage.tsx:134-138 | the ingredients never affect a match |
| Recipes.Categories | src/components/RecipesListPage.tsx:140 | each recipe's category once, nothing else, in order of first appearance |
| Recipes.SeedCategories | src/components/RecipesListPage.tsx:16-129 | the catalogue lists Cold Drinks, Hot Drinks and Techniques, in that order |
| OwnerPayroll.TotalPayroll | src/components/OwnerPayrollPage.tsx:70 | the sum of all pay, non-negative when every amount is |
| OwnerPayroll.CurrentWeekPayroll | src/components/OwnerPayrollPage.tsx:71-73 | the current week's sum; between 0 and the total when amounts are non-negative |
| OwnerPayroll.CurrentWeekSplitsTotal | src/components/OwnerPayrollPage.tsx:70-73 | the current week plus the other periods make up the total |
| OwnerPayroll.TotalOfAppend | src/components/OwnerPayrollPage.tsx:70 | one more record raises the total by its pay |
| OwnerPayroll.TotalEmployees | src/components/OwnerPayrollPage.tsx:74 | the number of distinct employee names among the records: at most one per record and zero iff there is none |
| OwnerPayroll.TotalEmployeesOfAppend | src/components/OwnerPayrollPage.tsx:74 | one more record raises the employee count by one iff its name is new, and leaves it alone otherwise |
| OwnerPayroll.SeedTotals | src/components/OwnerPayrollPage.tsx:12-73 | every seeded record has pay = days × rate; the totals are 17300 and 10100 |
| OwnerPayroll.SeedEmployeeCount | src/components/OwnerPayrollPage.tsx:12-74 | the six seeded records name four employees |
| OwnerSales.Total | src/components/OwnerSalesPage.tsx:38-39 | with non-negative channels the total is at least each channel |
| OwnerSales.Earnings | src/components/OwnerSalesPage.tsx:145 | negative iff the day closes below its opening; the sum of each channel's gain |
| OwnerSales.SeedFigures | src/components/OwnerSalesPage.tsx:13-39 | the page shows 20500, 33200 and 12700 |
| OwnerEmployees.CountWithStatus | src/components/OwnerEmployeesPage.tsx:78-79 | the number of employees with the status, zero iff there is none |
| OwnerEmployees.CountsCoverStaff | src/components/OwnerEmployeesPage.tsx:78-79 | full-time plus part-time is the whole staff |
| OwnerEmployees.FirstChars | src/components/OwnerEmployeesPage.tsx:173 | no longer than the list of pieces, and every character is the first character of some non-empty piece |
| OwnerEmployees.FirstCharsOfNonEmpty | src/components/OwnerEmployeesPage.tsx:173 | one initial per non-empty piece, its first character, in order |
| OwnerEmployees.Initials | src/components/OwnerEmployeesPage.tsx:173 | the initials hold no space, only characters of the name, and at most one more than the name has spaces |
| OwnerEmployees.InitialsOfWords | src/components/OwnerEmployeesPage.tsx:248 | words joined by single spaces give their first letters |
| OwnerEmployees.SeedCounts | src/components/OwnerEmployeesPage.tsx:12-79 | the seeded staff has three full-time and three part-time employees |
| Settings.AddTask | src/components/SettingsPage.tsx:59-71 | refused iff the name or the location is the empty string; success resets the form to the downtown branch, closes it and keeps the task list |
| Settings.OptionalFieldsIgnored | src/components/SettingsPage.tsx:60 | description and branch never decide an add |
| Settings.WhitespaceAccepted | src/components/SettingsPage.tsx:60 | a single space passes for name and location |
| Settings.BranchTaskCount | src/components/SettingsPage.tsx:385 | the number of tasks of the branch, zero iff there is none |
| Settings.BranchEmployeeCount | src/components/SettingsPage.tsx:391 | the number of employees of the branch, zero iff there is none |
| Settings.BranchCountsDisjoint | src/components/SettingsPage.tsx:361-391 | two branches together count at most the whole list |
| Settings.AddKeepsBranchCounts | src/components/SettingsPage.tsx:59-71 | a successful add leaves every branch's task count as it was |
| Settings.SeedTaskCounts | src/components/SettingsPage.tsx:35-40 | downtown has three tasks, uptown one |
| Settings.SeedEmployeeCounts | src/components/SettingsPage.tsx:42-47 | downtown has three employees, uptown one |
| Seqs.Distinct | src/components/RecipesListPage.tsx:140 | `new Set` of a list: no repeats, same members |
| Seqs.DistinctKeepsFirstOccurrenceOrder | src/components/RecipesListPage.tsx:140 | the distinct elements keep the order of first occurrence |
| Seqs.SumFilterAtMost | src/components/OwnerPayrollPage.tsx:71-73 | with non-negative summands, a filtered sum is at most the whole sum |
| Strings.ParseIntOfIntToString | src/components/EmployeeDashboard.tsx:151 | `parseInt` reads back any integer's decimal text |

## Left out

- Rendering: JSX, styling, animations, dialog/tab open state and toast texts. A toast is modelled only as the `Ok`/`Err` outcome of a handler.
- Firebase set-up (`src/lib/firebase.ts`) only initialises an SDK and is never called.
- Clocks, locale formatting and random ids are parameters; the history and calendar screens (`EmployeeTaskHistory.tsx`, `TaskCalendar.tsx`) group by locale date strings and today's date and are not modelled.
- Floating point: the manager payroll form's `parseInt * parseFloat` and `toFixed(2)` are not modelled; the owner pages' amounts are whole pesos.
- The scan screen's `FileReader`, the 1500 ms `setTimeout` and the hidden file input: capture and submit are atomic steps, so a retake pressed during a submit is not modelled.
- View-only screens: task detail, recipe detail, the owner dashboard and the owner requests page.
- Seed data not restated: the employee checklist (37 tasks), the owner inventory, notifications, photos and recipes apart from their category column.
- `handleDeleteTask` on the settings page only shows a message; it is not modelled.
- `handleSubmitInventory` on the manager dashboard only shows a message and no control calls it; the owner inventory page's save button only shows a message.
- Strings.ToLower: only the ASCII letters A–Z are lowercased; JavaScript's full Unicode case mapping is not modelled.
- Strings.ParseInt: reads arbitrarily long digit runs exactly; JavaScript's loss of precision beyond 2^53 is not modelled.
- Notifications.Click: the task object built for the detail screen is reduced to its id, name and QR id; its fixed placeholder location, description and branch are left out.
- OwnerInventory: which inputs are disabled in delete mode is kept only as the predicate `OwnerInputsEnabled`, without a contract.
- Strings.PadStart: Dafny strings are sequences of Unicode scalar values while JavaScript counts UTF-16 code units, so `padStart`'s target length is measured in characters here; the two differ only for characters outside the Basic Multilingual Plane.
- OwnerEmployees.Initials: `n[0]` in JavaScript is the first UTF-16 code unit; the model takes the first character, so for a name piece starting outside the Basic Multilingual Plane the source shows a lone surrogate where the model shows the whole character.
- OwnerEmployees.FirstChars: the same code-unit difference as `Initials`.
