# MIS branch wizard, session, dashboard and branch routes in Dafny

This project models the state logic of the MIS (water-utility management
information system) web application and proves properties about it. It has
two halves.

**Front end** (React, `mis-react-web/src` and `MIS/src`):

- The four-step branch-creation wizard of the Manage Branch page. It has a
  branch form, a source-type toggle list, a source-name list editor and two
  field checklists, and ends in a save.
- The login form's validation.
- The cookie-backed session provider: restore, login and logout.
- The dashboard's role-to-card filter and its statistics provider.
- The monthly collection sheet's row expansion, date filter and selector gating.

**Back end** (Flask):

- From `PythonProject/app.py`: the login decision, the `token_required`
  header check, the user projection and the active-only area and branch
  listings.
- The branch routes (`create_branch`, `add_branch`, `full_create_branch`,
  `get_branch_details`).
- The link routes (`create_branch_source`, `create_branch_source_name`) and
  the source-name query.

All of this runs over an in-memory store of row sequences.

Everything is modelled with immutable datatypes and pure functions:

- Each React handler is a step function from state to state.
- Each Flask route is a function from request body and store to reply and
  new store.
- Clocks, cookies, HTTP replies, JWT signing and decoding, and `prompt`
  answers are parameters.

| file | module | models |
|---|---|---|
| wrappers.dfy | `Wrappers` | `Option` |
| seqs.dfy | `Seqs` | `Array.prototype.filter` as `Filter`, subsequences, match counts |
| text.dfy | `Text` | `trim`, `\s`, `\w`, `String(n)` / `Number(s)` on timestamps |
| json.dfy | `Json` | parsed JSON values, member lookup, JS/Python truthiness, Python iteration |
| login_form.dfy | `LoginForm` | `login.tsx` validation schema and `handleLogin` |
| session.dfy | `Session` | `useAuth.tsx` restore, login, logout, `isLoggedIn` |
| branch_form.dfy | `BranchForm` | `AddBranchModal.tsx` handlers |
| source_names.dfy | `SourceNameList` | `AddSourceNameModal.tsx` handlers |
| field_checklist.dfy | `FieldChecklist` | `DailyDataSheetModal.tsx` checkbox map and columns |
| wizard.dfy | `Wizard` | `manageBranch.tsx` modal machine, save payload, `getAreaName` |
| dashboard_cards.dfy | `DashboardCards` | `dashboard.tsx` card filter, role data, values |
| dashboard_stats.dfy | `DashboardStats` | `DashboardContext.jsx` statistics |
| monthly_sheet.dfy | `MonthlySheet` | `MonthlyCollectionSheet.tsx` view state |
| flask_app.dfy | `FlaskApp` | `app.py` login, `token_required`, listings |
| store.dfy | `Store` | the tables of `models.py`, fresh keys, `query.get`, `data[...]` |
| branch_routes.dfy | `BranchRoutes` | `routes/branch_routes.py` |
| branch_source_routes.dfy | `BranchSourceRoutes` | `branch_source.py`, `branch_source_name.py` |

Oddities in the code are modelled as written and exposed by lemmas, not
fixed:

- Step one's Next clears the branch form before the save reads it
  (`Wizard.ForwardPassSavesEmptyBranch`).
- Source-name ids collide after a delete
  (`SourceNameList.AddAfterDeleteRepeatsId`).
- Logout removes the misspelled cookie `lastActivty` (`Session.Logout`).
- The dashboard statistics zero out against the `/daily-reports` reply
  (`DashboardStats.DailyReportsZeroEverything`).
- The Authorization scheme word is never checked (`FlaskApp.SchemeIgnored`).
- Full-create leaves `BranchSourceName.areaId` unset
  (`BranchRoutes.FullCreateLinksLackArea`). The area filter of the
  source-name query then never finds these links
  (`BranchSourceRoutes.AreaFilterSkipsUnsetLinks`).
- The wizard's save payload has none of the keys full-create reads
  (`BranchRoutes.WizardSaveRejected`).

The wizard's save and the full-create route do not fit together, in two
ways:

- `handleFullSave` (manageBranch.tsx:128-146) sends the form after step
  one's Next has emptied it.
- It nests the fields under `branch`, while `full_create_branch`
  (branch_routes.py:99-101) reads `areaId`, `branchName` and `sourceTypes`
  at the top level.

## Model

| member | source | states |
|---|---|---|
| Text.Trim | mis-react-web/src/components/AddSourceNameModal.tsx:32 | `trim()` returns the stretch of the string between its leading and trailing whitespace: everything cut is whitespace and the result neither starts nor ends with whitespace |
| Text.TrimIdempotent | mis-react-web/src/components/AddSourceNameModal.tsx:46 | trimming twice is trimming once |
| Text.TrimEmptyIffBlank | mis-react-web/src/components/AddSourceNameModal.tsx:32 | `trim()` yields the empty string exactly when every character is ECMAScript whitespace, so the add and rename guards reject exactly the blank inputs |
| Text.ParseShowNat | mis-react-web/src/context/useAuth.tsx:52-58 | a millisecond timestamp written with `String(n)` reads back through `Number` as the same number |
| LoginForm.CheckIdentifier | mis-react-web/src/pages/login.tsx:18-22 | an empty identifier gets "Email or username is required"; an identifier passes exactly when it is non-empty and matches the email or the username pattern; any other identifier gets "Enter a valid email or username" |
| LoginForm.CheckPassword | mis-react-web/src/pages/login.tsx:23 | the password passes exactly when it is non-empty, and otherwise gets "Password is required" |
| LoginForm.Submit | mis-react-web/src/pages/login.tsx:34-41 | `loginUser` is called exactly when both fields validate, with the identifier as username and the password unchanged |
| LoginForm.MatchesEmailPattern | mis-react-web/src/pages/login.tsx:21 | the email regular expression: three non-empty runs of characters that are neither whitespace nor '@', the first two separated by an '@' and the last two by a '.' |
| LoginForm.MatchesUsernamePattern | mis-react-web/src/pages/login.tsx:21 | the username regular expression: 3 to 30 letters, digits or underscores |
| LoginForm.EmailPatternIsEmailShape | mis-react-web/src/pages/login.tsx:21 | the email regular expression accepts exactly the strings with no whitespace, one '@' with text before it, and a later '.' that is neither right after the '@' nor last |
| LoginForm.UsernameAccepted | mis-react-web/src/pages/login.tsx:21 | any 3 to 30 letters, digits or underscores pass |
| LoginForm.EmailAccepted | mis-react-web/src/pages/login.tsx:21 | any identifier of the email shape passes |
| LoginForm.WhitespaceRejected | mis-react-web/src/pages/login.tsx:21 | an identifier with whitespace anywhere fails |
| LoginForm.WordOutOfLengthRejected | mis-react-web/src/pages/login.tsx:21 | an identifier without '@' that is shorter than 3 or longer than 30 fails |
| Session.IsLoggedIn | mis-react-web/src/context/useAuth.tsx:161 | `!!token`: a token is held and it is not the empty string |
| Session.RendersChildren | mis-react-web/src/context/useAuth.tsx:184 | the children are drawn only once the provider is ready |
| Session.Logout | mis-react-web/src/context/useAuth.tsx:163-170 | logout empties user and token and drops the "token" cookie, but a "lastActivity" cookie survives with its value, because the misspelled key is removed instead |
| Session.Restore | mis-react-web/src/context/useAuth.tsx:46-66 | with both cookies set, a last activity less than an hour old adopts the stored token and stamps the current time; an hour or more, or an unreadable stamp, logs out; with a cookie missing nothing but readiness changes; the provider is ready on every path |
| Session.LoginUser | mis-react-web/src/context/useAuth.tsx:130-155 | a rejected login changes nothing; an accepted one sets token and user and writes both cookies with the current time; a throw only marks the provider ready |
| Session.UserDetailsLoaded | mis-react-web/src/context/useAuth.tsx:68-104 | a returned profile replaces the user, token and cookies are untouched, and the provider becomes ready |
| Session.LoggedOutTokens | mis-react-web/src/context/useAuth.tsx:161-168 | a null or empty token is not logged in, and neither is the state after logout |
| Session.ReloadWithinHourKeepsLogin | mis-react-web/src/context/useAuth.tsx:27-58 | a reload less than an hour after a successful login remounts the provider with no token and no user, and the mount effect reads the same token back from the cookies, so the user is logged in again |
| Session.ReloadAfterHourLogsOut | mis-react-web/src/context/useAuth.tsx:27-62 | a reload an hour or more after the login (boundary included) remounts the provider, and the mount effect logs out, leaves no user and drops the token cookie |
| Session.LogoutSurvivesReload | mis-react-web/src/context/useAuth.tsx:163-168 | after logout the remounted provider finds no token cookie and never logs back in |
| BranchForm.HandleInput | mis-react-web/src/components/AddBranchModal.tsx:35-37 | the named text field takes the value and the other two fields are unchanged |
| BranchForm.RemoveType | mis-react-web/src/components/AddBranchModal.tsx:43 | the unchecked type disappears entirely; every other type keeps its membership, its count and its relative order |
| BranchForm.ToggleType | mis-react-web/src/components/AddBranchModal.tsx:42-44 | the type is selected afterwards exactly when it was not before; an absent type is appended at the end; a present one is removed with the rest kept in order and count |
| BranchForm.HandleSourceTypeChange | mis-react-web/src/components/AddBranchModal.tsx:39-46 | only the source-type list changes, and only in the membership of the toggled type |
| BranchForm.ToggleTwiceAbsent | mis-react-web/src/components/AddBranchModal.tsx:42-44 | checking and unchecking an unselected type restores the list exactly |
| BranchForm.ToggleTwicePresentReorders | mis-react-web/src/components/AddBranchModal.tsx:42-44 | unchecking and re-checking a selected type moves it to the end, so the converse does not hold |
| BranchForm.ToggleKeepsDistinct | mis-react-web/src/components/AddBranchModal.tsx:42-44 | a list without duplicates keeps none after a toggle |
| SourceNameList.HandleAdd | mis-react-web/src/components/AddSourceNameModal.tsx:31-38 | blank input leaves list and input alone; otherwise exactly one entry with id length+1 and the untrimmed input is appended, earlier entries are kept, and the input is cleared |
| SourceNameList.HandleDelete | mis-react-web/src/components/AddSourceNameModal.tsx:40-42 | no entry with the id remains; the others keep their order and their number of occurrences |
| SourceNameList.HandleRename | mis-react-web/src/components/AddSourceNameModal.tsx:44-53 | a cancelled or blank answer changes nothing; otherwise length, order and ids are kept and exactly the entries with the id take the untrimmed answer as their name |
| SourceNameList.DeleteAbsentId | mis-react-web/src/components/AddSourceNameModal.tsx:41 | deleting an id no entry has is the identity |
| SourceNameList.DeleteIdempotent | mis-react-web/src/components/AddSourceNameModal.tsx:41 | deleting twice equals deleting once |
| SourceNameList.DeleteDropsExactlyOne | mis-react-web/src/components/AddSourceNameModal.tsx:41 | with ids 1..n, deleting one of them shortens the list by exactly one |
| SourceNameList.AddAfterDeleteRepeatsId | mis-react-web/src/components/AddSourceNameModal.tsx:35 | with ids 1..n, deleting any id below n and adding again gives two entries with id n |
| SourceNameList.DuplicateIdExample | mis-react-web/src/components/AddSourceNameModal.tsx:35-49 | [1,2], delete 1, add "C" gives two entries with id 2, and a delete or rename of id 2 then hits both |
| FieldChecklist.Shown | mis-react-web/src/components/DailyDataSheetModal.tsx:68 | a box is ticked exactly when the map holds true for its field; an absent field reads as unticked |
| FieldChecklist.Assign | mis-react-web/src/components/DailyDataSheetModal.tsx:34 | the spread update makes the field read as the value and leaves every other field's reading alone; an existing field keeps its place, a new one is appended |
| FieldChecklist.HandleCheckbox | mis-react-web/src/components/DailyDataSheetModal.tsx:33-35 | the displayed state `fields[f] \|\| false` of the clicked field flips, the field is present afterwards, and no other field changes |
| FieldChecklist.ToggleTwiceRestoresShown | mis-react-web/src/components/DailyDataSheetModal.tsx:34 | two clicks on a box restore what every box displays |
| FieldChecklist.ToggleTwiceLeavesFalse | mis-react-web/src/components/DailyDataSheetModal.tsx:34 | two clicks on a field that was absent leave it present as false, so the map itself differs |
| FieldChecklist.ToggleTwicePresent | mis-react-web/src/components/DailyDataSheetModal.tsx:34 | two clicks on a field that was present restore the map exactly |
| FieldChecklist.AssignKeepsDistinct | mis-react-web/src/components/DailyDataSheetModal.tsx:34 | the update never duplicates a property name |
| FieldChecklist.Mid | mis-react-web/src/components/DailyDataSheetModal.tsx:38 | the split point is the rounded-up half of the length |
| FieldChecklist.Columns | mis-react-web/src/components/DailyDataSheetModal.tsx:38-40 | the left column followed by the right is the field list, and the left is as long as the right or one longer |
| Wizard.Payload | mis-react-web/src/pages/manageBranch.tsx:133-146 | the save sends the form's area id and branch name with `isActive` fixed to true, the source names in list order without ids, the daily source type and both field maps |
| Wizard.NamesOnly | mis-react-web/src/pages/manageBranch.tsx:139 | the names are those of the list, position by position |
| Wizard.PayloadJson | mis-react-web/src/pages/manageBranch.tsx:132-147 | the posted body's top-level keys are `branch`, `sourceNames`, `daily` and `monthly`, in that order |
| Wizard.Step | mis-react-web/src/pages/manageBranch.tsx:99-164 | no user action ever puts two modals on screen when there was at most one before; step one's Next changes nothing while the area id or the branch name is empty |
| Wizard.RunKeepsAtMostOneOpen | mis-react-web/src/pages/manageBranch.tsx:172-265 | no sequence of actions from a state with at most one modal open ever shows two |
| Wizard.InitHasNoneOpen | mis-react-web/src/pages/manageBranch.tsx:90-97 | the page starts with every modal closed |
| Wizard.NavigationMovesOneStep | mis-react-web/src/pages/manageBranch.tsx:101-106 | Next and Previous go 1→2 (once area id and branch name are both filled), 2→1, 2→3, 3→2, 3→4 and 4→3 |
| Wizard.BranchNextNeedsBothFields | mis-react-web/src/components/AddBranchModal.tsx:54-73 | the required area select and branch name input block step one's submit while either is empty, so the wizard stays on step one unchanged |
| Wizard.NoStepSkipped | mis-react-web/src/pages/manageBranch.tsx:172-265 | any action keeps the step, moves it by one, or closes the wizard |
| Wizard.CloseKeepsData | mis-react-web/src/pages/manageBranch.tsx:212-265 | each Close hides only its own modal and keeps all form state |
| Wizard.BranchNextClearsForm | mis-react-web/src/pages/manageBranch.tsx:99-106 | step one's Next, taken with both required fields filled, empties area id, branch name and source types |
| Wizard.ForwardPassSavesEmptyBranch | mis-react-web/src/pages/manageBranch.tsx:99-136 | after step one's Next, any run that never reopens step one saves an empty area id and branch name, whatever was typed |
| Wizard.MainStreetScenario | mis-react-web/src/pages/manageBranch.tsx:99-146 | typing area "3" and branch "Main St", adding "Well A" and pressing Next to the last step reaches the save with the name but an empty branch |
| Wizard.RunStepwise | mis-react-web/src/pages/manageBranch.tsx:172-265 | a run ends in the state its listed steps reach one by one |
| Wizard.SaveSucceeded | mis-react-web/src/pages/manageBranch.tsx:150-155 | a successful save hides the monthly modal and resets the form, the names and both field maps, while the daily source type and the pending name text survive |
| Wizard.SaveFailed | mis-react-web/src/pages/manageBranch.tsx:161-163 | a failed save changes nothing, so the monthly modal stays open |
| Wizard.PayloadIgnoresSourceTypes | mis-react-web/src/pages/manageBranch.tsx:133-146 | the payload does not depend on the selected source types |
| Wizard.GetAreaName | mis-react-web/src/pages/manageBranch.tsx:122-125 | the name of the first area with the id, or "" when no area has it |
| DashboardCards.VisibleItems | mis-react-web/src/pages/dashboard.tsx:54 | a card is shown exactly when the role's list names its key, and the shown cards keep the dashboard's order |
| DashboardCards.NoRoleNoCards | mis-react-web/src/pages/dashboard.tsx:47-54 | no user, or a role outside 1 to 4, sees no card |
| DashboardCards.CardsForRolesOneAndTwo | mis-react-web/src/pages/dashboard.tsx:48-49 | roles 1 and 2 see Active Users, Areas, Branches and Approved, in that order |
| DashboardCards.CardsForRoleThree | mis-react-web/src/pages/dashboard.tsx:50 | role 3 sees Active Users, Total Pending and Approved |
| DashboardCards.CardsForRoleFour | mis-react-web/src/pages/dashboard.tsx:51 | role 4 sees Total Pending, Approved, Rejected and Total Encoded |
| DashboardCards.SelectRoleData | mis-react-web/src/pages/dashboard.tsx:30-33 | the data becomes that of the first provider entry for the user's role, and stays as it was with no user or no such entry |
| DashboardCards.DisplayedValue | mis-react-web/src/pages/dashboard.tsx:68 | a key the data lacks shows 0, a present key its value |
| DashboardStats.InitialLoading | MIS/src/contexts/DashboardContext.jsx:8-18 | the provider starts with every count 0 and loading on, and the refresh's first update leaves that state alone |
| DashboardStats.Count | MIS/src/contexts/DashboardContext.jsx:52-55 | the number of list entries that pass a test, 0 for `null` |
| DashboardStats.BeginRefresh | MIS/src/contexts/DashboardContext.jsx:18 | a refresh raises the loading flag and keeps the counts |
| DashboardStats.CountUsers | MIS/src/contexts/DashboardContext.jsx:52 | the user count exists exactly for a list without nulls and is the number of users with a truthy `isActive` |
| DashboardStats.CountOptional | MIS/src/contexts/DashboardContext.jsx:53-55 | `v?.filter(...)?.length \|\| 0` throws exactly on a value that is neither null nor a list, gives 0 for null and the number of matches for a list |
| DashboardStats.Refresh | MIS/src/contexts/DashboardContext.jsx:18-74 | a missing token, a network failure, a reply that is not ok or does not parse, or a throwing count ends with all counts 0; otherwise each count is the number of list entries passing its test; loading is off either way |
| DashboardStats.CountsBounded | MIS/src/contexts/DashboardContext.jsx:52-55 | every count is at most the length of its list |
| DashboardStats.DailyReportsZeroEverything | PythonProject/app.py:257-268 | the daily-reports reply is an object, so every count drops to 0 whatever the other replies hold |
| DashboardStats.MockReportNeverApproved | PythonProject/app.py:257-268 | even unwrapped, the mocked report would count as 0 approved, since its status is a plain string |
| DashboardStats.ActiveListingsCountedInFull | PythonProject/app.py:205-235 | fed the areas and branches replies, the dashboard counts every entry they list, which is the number of active rows in each table |
| DashboardStats.ActiveUsersCounted | PythonProject/app.py:194-201 | fed the users reply, the active count is the number of users whose `isActive` column is true |
| MonthlySheet.HandleRowClick | mis-react-web/src/components/MonthlyCollectionSheet.tsx:82-84 | clicking the expanded row collapses it; clicking any other row expands that row alone |
| MonthlySheet.ClickTwice | mis-react-web/src/components/MonthlyCollectionSheet.tsx:83 | two clicks on a row bring back no expanded row, unless that row was the expanded one |
| MonthlySheet.FilteredData | mis-react-web/src/components/MonthlyCollectionSheet.tsx:87-94 | without a date it is the table; with a date it is an order-preserving subsequence holding exactly the rows on that day, each as often as in the table |
| MonthlySheet.UndatedRowsDropped | mis-react-web/src/components/MonthlyCollectionSheet.tsx:89 | with a date selected, a row without a date is never shown |
| MonthlySheet.SelectorEffect | mis-react-web/src/components/MonthlyCollectionSheet.tsx:63-80 | with both selectors set a request starts; with either empty the table empties |
| MonthlySheet.Step | mis-react-web/src/components/MonthlyCollectionSheet.tsx:63-94 | row clicks only move the expansion; arriving data replaces the table and ends loading; a failed request ends loading and keeps the table; selector changes keep expansion and date |
| MonthlySheet.ClearingSelectorEmptiesTable | mis-react-web/src/components/MonthlyCollectionSheet.tsx:65-78 | clearing either selector empties the table, or changes nothing when it was already empty |
| MonthlySheet.RequestThenData | mis-react-web/src/components/MonthlyCollectionSheet.tsx:65-75 | setting the second selector starts loading, and the data that arrives then fills the table |
| MonthlySheet.ShowsNoData | mis-react-web/src/components/MonthlyCollectionSheet.tsx:159-165 | "No data available." is drawn when not loading and the date filter leaves no row |
| MonthlySheet.ShownRows | mis-react-web/src/components/MonthlyCollectionSheet.tsx:150-166 | while loading no data row is drawn; otherwise the filtered rows are |
| MonthlySheet.BodyAlternatives | mis-react-web/src/components/MonthlyCollectionSheet.tsx:150-166 | "No data available." shows exactly when not loading and no row is drawn, and never together with the loading row |
| MonthlySheet.OneExtensionAtMost | mis-react-web/src/components/MonthlyCollectionSheet.tsx:178 | at most one extension row is drawn |
| FlaskApp.ToDict | PythonProject/app.py:71-84 | the user dictionary has the eleven keys in order and never `passwordHash` |
| FlaskApp.ToDictActiveRead | PythonProject/app.py:83 | the dictionary's `isActive` is the column's value |
| FlaskApp.ToDictForgetsOnlyPassword | PythonProject/app.py:71-84 | two users have the same dictionary exactly when they agree on every column but the password hash |
| FlaskApp.FindByName | PythonProject/app.py:163 | the first user with the name, or none exactly when no user has it |
| FlaskApp.FindById | PythonProject/app.py:125 | a user with the id, or none exactly when no user has it |
| FlaskApp.Login | PythonProject/app.py:155-181 | an empty body gets 400; a 200 happens only for a known, active user whose stored hash equals the sent password, and carries the signed token for that user's id and the user's dictionary; the status is one of 200, 400, 401, 500 |
| FlaskApp.CredentialsRead | PythonProject/app.py:160 | the request's username and password are read back as sent |
| FlaskApp.EmptyCredentialsRefused | PythonProject/app.py:160-161 | an empty username or password gets 400 whoever is in the table |
| FlaskApp.WrongCredentialsRefused | PythonProject/app.py:163-166 | an unknown user or a wrong password gets 401 "Invalid username or password" |
| FlaskApp.InactiveUserRefused | PythonProject/app.py:165-169 | an inactive user gets 401, and "Account is inactive" exactly when the password is right |
| FlaskApp.ActiveUserLogsIn | PythonProject/app.py:171-179 | the right password of an active user yields the token for that user's id and the user's dictionary |
| FlaskApp.FirstSpace | PythonProject/app.py:123 | the position of the first space, with no space before it |
| FlaskApp.SecondField | PythonProject/app.py:123 | `split(' ')[1]` fails exactly when the header has no space, and otherwise holds no space |
| FlaskApp.UpToSpace | PythonProject/app.py:123 | the longest space-free prefix |
| FlaskApp.Authorize | PythonProject/app.py:116-132 | a missing or empty header gets "Token is missing"; a header whose second field is missing or does not decode to a payload with `user_id` gets "Token is invalid"; a decoded `user_id` that matches no user gets "User not found"; every refusal is a 401; an admitted user is in the table and is the one whose id the token's `user_id` holds |
| FlaskApp.NoSpaceIsInvalid | PythonProject/app.py:123-129 | a header without a space is refused as "Token is invalid" without reaching the decoder |
| FlaskApp.SchemeIgnored | PythonProject/app.py:123 | any first word works as well as "Bearer" |
| FlaskApp.SecondFieldAfterWord | PythonProject/app.py:123 | a word, a space and a token split back to the token |
| FlaskApp.ValidTokenAdmits | PythonProject/app.py:123-132 | a token decoding to an object whose `user_id` is the id of a user in the table admits exactly that user, whatever other claims (such as `exp`) the payload holds |
| FlaskApp.AreaJson | PythonProject/app.py:211-217 | an `/areas` entry holds `id`, `areaCode`, `areaName`, `description` and `isActive`, in that order |
| FlaskApp.BranchJson | PythonProject/app.py:229-235 | a `/branches` entry holds `id`, `areaId`, `branchCode`, `branchName` and `isActive`, in that order |
| FlaskApp.AreaActiveRead | PythonProject/app.py:210-216 | an area entry's `isActive` is the column's value |
| FlaskApp.ActiveAreas | PythonProject/app.py:205-218 | `/areas` lists exactly the active areas, one entry per active row in table order (so as many entries as active rows), each entry's `isActive` true |
| FlaskApp.AreaJsonInjective | PythonProject/app.py:210-216 | distinct area rows give distinct entries |
| FlaskApp.BranchActiveRead | PythonProject/app.py:227-233 | a branch entry's `isActive` is the column's value |
| FlaskApp.ActiveBranches | PythonProject/app.py:222-235 | `/branches` lists exactly the active branches, one entry per active row in table order (so as many entries as active rows), each entry's `isActive` true |
| FlaskApp.BranchJsonInjective | PythonProject/app.py:227-233 | distinct branch rows give distinct entries |
| FlaskApp.AllUsers | PythonProject/app.py:194-201 | `/users` lists every user's dictionary, in table order |
| FlaskApp.DailyReports | PythonProject/app.py:252-270 | the daily-reports reply is an object with keys `message` and `data`, not a list |
| Store.Fresh | mis-react-web/PythonProject/models.py:62 | the autoincrement key is at least 1, above every key in the table, and 1 or one past an existing key |
| Store.Find | mis-react-web/routes/branch_routes.py:64 | `query.get` returns a row of the table whose key is the value, and none exactly when no row has it |
| Store.Subscript | mis-react-web/routes/branch_routes.py:27-29 | `data[key]` answers exactly for a dict with the key, with the key's value |
| Store.GetDefault | mis-react-web/routes/branch_routes.py:28-30 | `data.get(key, default)` gives the default for a missing key and the stored value, even null, for a present one |
| Json.Lookup | mis-react-web/routes/branch_routes.py:99-101 | a key is found exactly when the object has it |
| Json.LookupAt | mis-react-web/routes/branch_routes.py:99-101 | the value at a key's first position is the one found |
| Json.Iterate | mis-react-web/routes/branch_routes.py:109 | a Python `for` goes through a list's items, a string's characters or a dict's keys, and raises on anything else |
| BranchRoutes.BranchJson | mis-react-web/routes/branch_routes.py:34-40 | the echoed branch holds `id`, `areaId`, `branchCode`, `branchName` and `isActive`, in that order, with the row's own id |
| BranchRoutes.CreateBranch | mis-react-web/routes/branch_routes.py:22-40 | missing `areaId` or `branchName` raises and writes nothing; otherwise exactly one branch is appended with a fresh key and the sent area and name; `branchCode` and `isActive` are stored as sent, or as 0 and true when not sent; the reply echoes the row with 201 |
| BranchRoutes.CreatedBranchDetails | mis-react-web/routes/branch_routes.py:22-94 | the details route finds the branch create-branch echoes, and a 200 from it shows the area and name the request sent |
| BranchRoutes.Commit | mis-react-web/routes/branch_routes.py:109-122 | committed rows are appended after the existing ones, which stay as they were |
| BranchRoutes.SourceRows | mis-react-web/routes/branch_routes.py:55-57 | one active `BranchSource` per listed id, in order, with consecutive keys and no area |
| BranchRoutes.AddBranch | mis-react-web/routes/branch_routes.py:42-60 | a missing key raises with nothing written; with the three keys present exactly one branch is added with the sent area and name, no branch code and `isActive` true; the reply is 201 exactly when `sourceTypeIds` can also be iterated, and then carries the new branch key and adds one `BranchSource` per listed id, in order; existing rows are never altered |
| BranchRoutes.AddedBranchDetails | mis-react-web/routes/branch_routes.py:42-94 | the key add-branch answers with names a branch the details route finds, and a 200 from it shows the area and name the request sent |
| BranchRoutes.LinkSourceTypes | mis-react-web/routes/branch_routes.py:55-58 | only the branch-source table grows, by one row per id, each for the branch and that id |
| BranchRoutes.ReadEntries | mis-react-web/routes/branch_routes.py:109-114 | the loop reads entries in order until one lacks an `id` or has names that cannot be iterated; the entries read carry their `id` and names |
| BranchRoutes.ReadAllEntries | mis-react-web/routes/branch_routes.py:109-114 | the loop finishes exactly when every entry is a dict with an `id` and iterable names |
| BranchRoutes.NameRows | mis-react-web/routes/branch_routes.py:114-122 | one `SourceName` and one link per name, no `BranchSource` |
| BranchRoutes.NameRowsShape | mis-react-web/routes/branch_routes.py:114-122 | the k-th name gives an active `SourceName` of the branch and type, and the k-th link names it, with no area |
| BranchRoutes.EntryRows | mis-react-web/routes/branch_routes.py:109-122 | one `BranchSource` per entry, and as many `SourceName` rows and links as the entries have names in total (contents: `EntryRowsSources`, `EntryRowsNames`, `EntryRowsLinks`) |
| BranchRoutes.EntryRowsSources | mis-react-web/routes/branch_routes.py:110-112 | the k-th `BranchSource` belongs to the branch and carries the k-th entry's id |
| BranchRoutes.EntryRowsNames | mis-react-web/routes/branch_routes.py:109-122 | the k-th `SourceName` row is the k-th (type id, name) pair of the entries taken in loop order, of the branch and active, with consecutive keys |
| BranchRoutes.EntryRowsLinks | mis-react-web/routes/branch_routes.py:114-122 | each link names the `SourceName` written just before it, both of the branch, with consecutive keys |
| BranchRoutes.LoopRows | mis-react-web/routes/branch_routes.py:109-122 | each read entry leaves a `BranchSource` of the branch with its id, in order; an entry whose names cannot be iterated still leaves its `BranchSource`, carrying that entry's id, after them |
| BranchRoutes.FullCreate | mis-react-web/routes/branch_routes.py:96-124 | a missing top-level key raises before any write; with the three keys present exactly one active branch with the sent area and name is added; as many source names and links as names are visited; the reply is 201 exactly when `sourceTypes` iterates and every entry is well formed, and then carries the new branch key and adds one `BranchSource` per entry in order with that entry's id; earlier rows never change |
| BranchRoutes.FullCreateNameRows | mis-react-web/routes/branch_routes.py:109-122 | the `SourceName` rows full-create adds are the (type id, name) pairs of the entries read, in loop order, each of the new branch and active |
| BranchRoutes.CreateSources | mis-react-web/routes/branch_routes.py:109-124 | the loop leaves areas, types and branches alone, adds one source name and one link per visited name, and replies 201 exactly when every entry is well formed |
| BranchRoutes.FullCreateLinksLackArea | mis-react-web/routes/branch_routes.py:114-122 | every link full-create writes names the `SourceName` written with it and has no area, although models.py declares the column NOT NULL |
| BranchRoutes.WizardSaveRejected | mis-react-web/src/pages/manageBranch.tsx:133-146 | the body the wizard posts makes full-create raise with nothing written |
| BranchRoutes.FullCreateBranchOnly | mis-react-web/routes/branch_routes.py:104-124 | an empty `sourceTypes` list creates the branch alone and replies 201 |
| BranchRoutes.TypeEntries | mis-react-web/routes/branch_routes.py:69-75 | the source-type list is built exactly when every link names an existing type; then it has one entry per link, in order, holding the link's type id and that type's name |
| BranchRoutes.TypeEntriesSnoc | mis-react-web/routes/branch_routes.py:69-75 | a `BranchSource` added after the others, naming an existing type, adds that type's `{id, name}` entry at the end of the list |
| BranchRoutes.NameEntries | mis-react-web/routes/branch_routes.py:78-86 | the source-name list is built exactly when every link names an existing source name; then it has one entry per link, in order, holding the link's name id and that row's name and type id |
| BranchRoutes.GetBranchDetails | mis-react-web/routes/branch_routes.py:62-94 | 404 exactly for an unknown id; for a known id an exception exactly when a type or name link of the branch names a missing row; otherwise 200 with the five keys: the id, the area and name of the branch found, and the type and name lists built from the branch's links, one entry per link |
| BranchRoutes.CreatedBranchFound | mis-react-web/routes/branch_routes.py:62-66 | the key full-create answers with is never 404 for the details route |
| BranchSourceRoutes.ReadLink | mis-react-web/PythonProject/routes/branch_source.py:9-11 | the request is read exactly when it is a dict with both keys; the values are those sent and `isActive` defaults to true |
| BranchSourceRoutes.CheckBranch | mis-react-web/PythonProject/routes/branch_source.py:14-20 | "missing" exactly when no branch has the key; "no area" only for a branch whose area is null; otherwise the branch with a non-null area |
| BranchSourceRoutes.CreateBranchSource | mis-react-web/PythonProject/routes/branch_source.py:7-30 | a missing key raises with nothing written; 404 exactly for an unknown branch; with both keys present, 400 exactly when the branch has no area, and that is the only 400; 201 exactly when the branch exists and has an area; nothing is written unless the reply is 201; a 201 adds exactly one row with a fresh key, the sent branch and type, the branch's non-null area and the sent `isActive` (true when not sent), and echoes it |
| BranchSourceRoutes.CreatedSourceListed | mis-react-web/PythonProject/routes/branch_source.py:7-30 | after a 201 the details route of branch_routes.py finds the branch, and when the type exists and the branch's type list was readable, the list gains that type's `{id, name}` entry at its end |
| BranchSourceRoutes.CreateBranchSourceName | mis-react-web/PythonProject/routes/branch_source_name.py:34-58 | the same checks in the same order with the same replies; a 201 adds exactly one link with a fresh key, the sent branch and source name, the branch's non-null area and the sent `isActive` (true when not sent), and echoes it |
| BranchSourceRoutes.TypesFor | mis-react-web/PythonProject/routes/branch_source_name.py:11-20 | the rows for one link and name are exactly the types the query selects |
| BranchSourceRoutes.NamesFor | mis-react-web/PythonProject/routes/branch_source_name.py:11-20 | the rows for one link are exactly the name and type pairs the query selects |
| BranchSourceRoutes.JoinLinks | mis-react-web/PythonProject/routes/branch_source_name.py:11-20 | a row is listed exactly when some link selects it |
| BranchSourceRoutes.Join | mis-react-web/PythonProject/routes/branch_source_name.py:11-22 | a name and type are listed exactly when both are stored and some link of the branch names the name, the name's type is the type, and both filters that apply hold; since the query selects whole entities, each pair is listed once however many links select it |
| BranchSourceRoutes.HitsJsonMembers | mis-react-web/PythonProject/routes/branch_source_name.py:24-30 | the list holds exactly the entries of the joined rows |
| BranchSourceRoutes.GetBranchSourceNames | mis-react-web/PythonProject/routes/branch_source_name.py:6-32 | the reply is a list with one entry per selected (name, type) pair, in the pairs' order, each entry being that pair's serialised name with `sourceTypeName` added |
| BranchSourceRoutes.HitsJson | mis-react-web/PythonProject/routes/branch_source_name.py:24-30 | the comprehension gives one entry per result, position by position |
| BranchSourceRoutes.HitJson | mis-react-web/PythonProject/routes/branch_source_name.py:25-28 | an entry holds the source name's `to_dict` keys followed by `sourceTypeName` |
| BranchSourceRoutes.BranchSourceDict | mis-react-web/PythonProject/models.py:186-196 | a `BranchSource` serialises to its eight keys in declaration order, its own id first |
| BranchSourceRoutes.BranchSourceNameDict | mis-react-web/PythonProject/models.py:209-219 | a `BranchSourceName` serialises to its eight keys in declaration order, its own id first |
| Seqs.Dedup | mis-react-web/PythonProject/routes/branch_source_name.py:22 | keeps the first of each repeated element: a subsequence of the input in its order, with the same elements, none twice, never longer, and each kept element is the first occurrence (whatever precedes it in the result already occurs earlier in the input) |
| BranchSourceRoutes.HitJsonFields | mis-react-web/PythonProject/routes/branch_source_name.py:24-29 | an entry carries the source name's id and its type's name under `sourceTypeName` |
| BranchSourceRoutes.ZeroFiltersIgnored | mis-react-web/PythonProject/routes/branch_source_name.py:17-20 | filters of 0 list the same rows as no filters |
| BranchSourceRoutes.JoinSameSelection | mis-react-web/PythonProject/routes/branch_source_name.py:11-20 | two queries selecting the same rows list them alike |
| BranchSourceRoutes.UnlinkedNameExcluded | mis-react-web/PythonProject/routes/branch_source_name.py:12-15 | a source name no link of the branch names is never listed |
| BranchSourceRoutes.UntypedNameExcluded | mis-react-web/PythonProject/routes/branch_source_name.py:13-14 | a source name whose type is not stored is never listed |
| BranchSourceRoutes.AreaFilterSkipsUnsetLinks | mis-react-web/PythonProject/routes/branch_source_name.py:19-20 | with an area filter, a branch whose links all lack an area lists nothing |
| BranchSourceRoutes.LinkRequestAccepted | mis-react-web/PythonProject/routes/branch_source_name.py:37-58 | a request carrying both keys, whose branch exists (its primary key matching one row) and has an area, passes both checks and is answered 201 |
| BranchSourceRoutes.CreatedLinkListed | mis-react-web/PythonProject/routes/branch_source_name.py:34-58 | a link request naming an existing branch that has an area is answered 201, and afterwards the linked name and its type are listed for the branch, and also under the filter for the branch's own area |

## Left out

- Json objects: the model reads a repeated key with `Json.Lookup`, which
  takes the first member with that key, while Python's `json.loads` and a
  JavaScript object keep the last. No request in the model is required to
  be free of repeated keys, so for such a request the model's reading can
  differ from the routes'.
- HTTP, `axios`/`fetch`, the request interceptors, `localStorage`, `alert`,
  `toast`, `navigate` and rendering are not modelled. HTTP outcomes,
  `prompt` answers, the token store and the clock are parameters. Cookies
  are a map.
- The 30-second polling timer of the dashboard provider is left out. So is
  the interleaving of asynchronous updates: each completed request is one
  event.
- JWT signing and decoding are oracle functions: `sign` and `decode`. Token
  expiry happens inside `decode`.
- SQLAlchemy is not modelled. That covers sessions, type coercion of request
  values, and constraint enforcement:
  - A column holds the JSON value as sent.
  - `query.get` finds only an integer key.
  - Query results come in table order.
  - The NOT NULL constraint on `BranchSourceName.areaId` is not enforced.
    The lemma `BranchRoutes.FullCreateLinksLackArea` shows where a real
    database would refuse the commit instead.
- Database failures and integrity errors inside commits are not modelled.
- The `token_required` decorator on the branch routes is left out. It comes
  from `utils.auth`, which is not part of this model. The app.py version is
  modelled in `FlaskApp.Authorize`.
- `get_all_branches` in branch_routes.py is left out. It repeats the active
  filter that `FlaskApp.ActiveBranches` models for app.py.
- Date handling is abstract. A row's ISO date and the picked date are day
  keys, not `Date` values. `Number` is modelled on plain digit strings only;
  everything else reads as NaN.
- Only the Yup messages and the two regular expressions of the login schema
  are modelled, not the form library.
- List pages, route guards, and the `/roles`, `/profile` and `/test-db`
  routes are not modelled. Neither are daily, monthly and user serialisers,
  and float columns.
- Session.Restore: the user-details request that restore starts is modelled
  separately as `Session.UserDetailsLoaded`.
- Reply bodies are modelled as the dicts the routes build, with keys in
  insertion order. Flask's `jsonify` sorts keys by default, so on the wire
  the keys of every object come in alphabetical order. The key lists that
  the serialiser contracts state are the dicts' orders, not the wire order.
- BranchRoutes.NameRows: its own contract states only the row counts. The
  contents are stated by `BranchRoutes.NameRowsShape`.
- BranchRoutes.FullCreate: its own contract states the `BranchSource` rows,
  and the name rows and links only by count. The name rows' contents are
  stated by `BranchRoutes.FullCreateNameRows`, and the links' by
  `BranchRoutes.FullCreateLinksLackArea`.
- Wizard.GetAreaName: it takes the area list as given. The fetch that fills
  the list is left out.
