# Inventory dashboard: access control and client logic

This project models the browser side of an inventory-management dashboard
written with Next.js, React Query and Zustand. Users hold one of three roles:
Viewer, Manager or Admin. A static permission table decides what each role
may do and which pages it may open. An edge middleware guards the routes
before a page loads. A client-side store keeps the session in cookies, and
components gate what each role sees.

The model covers:

- the permission table and its checker;
- the middleware's route classifier and its decision;
- the auth store (login, logout, start-up from cookies, user updates);
- the gate components and `usePermissions`;
- the protected route and the sidebar's active-link test;
- the dashboard's quick actions and stat cards, with the statistics hooks
  behind them;
- sending reports: address validation, the recipient selector, the send page
  and form, and the bulk merchant import;
- the merchant, user and inventory forms, the quick quantity dialog, and the
  four tables with their shared pagination footer;
- the query strings the data hooks build, and the query client's retry and
  session-expiry rules.

Conventions:

- Every network answer is a parameter. This covers an API response, a count
  the server returns for a query string, and a per-attempt answer for the
  retry loop. So are `window.confirm`'s answer, the clock (a UTC day number,
  or a millisecond time for inventory items), the ISO rendering of a day,
  `JSON.parse`/`JSON.stringify` of the user cookie, and zod's `.email()`
  test.
- Money is integer cents.
- A query string is the ordered list of key/value pairs that
  `URLSearchParams.append` collects.
- Role names reaching the code at run time are arbitrary strings. They are
  parsed against the `"Admin" | "Manager" | "Viewer"` union, exactly as the
  table lookups do.

## Model

| member | source | states |
|---|---|---|
| Permissions.Level | lib/permissions.ts:61-65 | a role name has a rank exactly when it is one of the three role names, and it is that role's rank |
| Permissions.PermissionChecker.HasPermission | lib/permissions.ts:76-79 | granted iff the role string is one of the three role names and its rank reaches the least role listed for the permission |
| Permissions.PermissionChecker.HasAnyPermission | lib/permissions.ts:82-84 | true iff some listed permission is held; false for the empty list |
| Permissions.PermissionChecker.HasAllPermissions | lib/permissions.ts:87-89 | true iff every listed permission is held; true for the empty list |
| Permissions.PermissionChecker.HasMinimumRole | lib/permissions.ts:92-94 | true iff the user's role name is a known role whose rank reaches the minimum role's rank |
| Permissions.PermissionChecker.GetUserPermissions | lib/permissions.ts:97-101 | every listed permission is one the checker grants |
| Permissions.PermissionChecker.CanAccessRoute | lib/permissions.ts:104-110 | a route missing from the route table is open; a listed route is open iff some of its permissions is held (inherited object keys are covered by `RouteAccess`) |
| Permissions.PermissionChecker.RouteAccess | lib/permissions.ts:104-110 | the check throws exactly for a name inherited from `Object.prototype`; a listed route answers whether some of its permissions is held; any other route is open |
| Permissions.ListedRoutesAreOwn | lib/permissions.ts:46-58 | no listed route is an inherited object key, so listed routes never throw |
| Permissions.GrantedKeysExactly | lib/permissions.ts:97-101 | a permission is listed iff the checker grants it |
| Permissions.GrantedKeysInTableOrder | lib/permissions.ts:97-101 | the listed permissions keep the permission table's order |
| Permissions.CreatePermissionChecker | lib/permissions.ts:114-119 | a checker exists iff a non-empty role name is given, and it is built for that role |
| Permissions.HasPermissionFor | lib/permissions.ts:121-127 | without a role nothing is granted; with one, exactly what that role's checker grants |
| Permissions.HasMinimumRoleFor | lib/permissions.ts:129-135 | true iff a known role is given whose rank reaches the minimum |
| Permissions.AllPermissionsComplete | lib/permissions.ts:7-43 | the permission list names every permission of the table |
| Permissions.RouteKeysExact | lib/permissions.ts:46-58 | the route table has an entry exactly for its eleven listed paths |
| Permissions.PermissionIffRankReachesMinRole | lib/permissions.ts:7-43 | a role holds a permission iff its rank reaches the least role the table lists for it |
| Permissions.SeniorNeverDenied | lib/permissions.ts:61-79 | whatever a junior role holds, every senior role holds too |
| Permissions.UnknownRoleHoldsNothing | lib/permissions.ts:76-79 | an unknown role name holds no permission |
| Permissions.UnknownRoleListsNothing | lib/permissions.ts:97-101 | an unknown role name lists no permission |
| Permissions.MinimumRoleIsPreorder | lib/permissions.ts:92-94 | the minimum-role test is reflexive and transitive, and Admin passes every minimum |
| Permissions.MinimumRoleIffPermissionSuperset | lib/permissions.ts:61-94 | a role passes the minimum of another iff it holds every permission the other holds |
| Permissions.ExactPermissionLists | lib/permissions.ts:7-43 | the exact lists Viewer, Manager and Admin are granted, in table order |
| Permissions.RunByRank | lib/permissions.ts:7-43 | a run of keys that share a least role is kept whole by every role reaching that role and dropped entirely by the others |
| Permissions.ListByRuns | lib/permissions.ts:97-101 | a role's list is the everyone keys, then inventory management and merchants/reports for Manager and up, user management for Admin only, then the profile keys |
| Permissions.ListSizes | lib/permissions.ts:7-43 | Viewer holds 5 permissions, Manager 17, Admin all 22 |
| Permissions.SeniorListContainsJunior | lib/permissions.ts:97-101 | a junior role's permission list is an ordered sub-list of a senior role's |
| Permissions.ConcretePathsAreOpen | lib/permissions.ts:104-110 | a concrete path such as `/dashboard/users/7/edit` is not a table key, so every role may open it |
| Middleware.StaticPatternMatchesItself | middleware.ts:29-34 | a pattern without `[param]` segments or regular-expression metacharacters, as every pattern of the route lists is, matches exactly the path equal to it |
| Middleware.DynamicPatternMatches | middleware.ts:29-34 | a pattern with one `[id]` matches exactly the paths with the same text around one non-empty segment without `/` |
| Middleware.ParamMatchesOneSegment | middleware.ts:29-31 | a `[param]` token matches any non-empty run of characters without `/` |
| Middleware.NoParamNoCut | middleware.ts:35 | cutting at the first `[` leaves a pattern without one unchanged |
| Middleware.Guard | middleware.ts:86-118 | no token redirects to login with the path; a token without a role redirects to login; otherwise an admin route below Admin, or a manager route below Manager, goes to the dashboard and all else passes |
| Middleware.LevelAgreesWithPermissions | middleware.ts:52-61 | the middleware ranks each of the three role names as the permission table does |
| Middleware.LevelIgnoresCase | middleware.ts:100 | the rank of a lower-cased role equals the rank of the role |
| Middleware.UnknownRoleFailsBothTests | middleware.ts:52-61 | a role of rank 0 passes neither the manager nor the admin test |
| Middleware.NoDotNotIncluded | middleware.ts:67-74 | a path without a dot is not skipped for containing one |
| Middleware.EveryPathIsPublic | middleware.ts:77-79 | as written, every path starting with `/` matches the public routes, so it passes with no token at all |
| Middleware.AnonymousReachesUserAdmin | middleware.ts:77-79 | as written, a request with no token reaches `/dashboard/users` |
| Middleware.InventoryEditCut | middleware.ts:35 | the prefix cut of the inventory edit pattern is the inventory list path |
| Middleware.InventoryListIsManagerRoute | middleware.ts:110-115 | as written, the inventory list page is classified as a manager route |
| Middleware.MerchantsPrefixMatches | middleware.ts:35 | the prefix test works on characters, so `/dashboard/merchantsX` is a manager route |
| Middleware.Decide | middleware.ts:63-119 | skipped and public requests pass; any other request goes through the token, role and route-class guard with the prefix classifier as written |
| Middleware.DecideIntended | middleware.ts:65-118 | skipped and public requests pass, and any other request goes through the same guard with the segment-aware classifier |
| Middleware.DashboardPathGuarded | middleware.ts:77-79 | with the corrected classifier, a dashboard path is neither skipped nor public |
| Middleware.IntendedAgreesWithChecker | middleware.ts:103-115 | with the corrected classifier, a signed-in request for a page of the route table passes iff the role's permission checker grants that page |
| AuthStore.Initial | lib/store/auth.ts:36-39 | the store starts signed out and loading, keeping the cookies |
| AuthStore.BeginLoading | lib/store/auth.ts:44 | only the loading flag changes |
| AuthStore.Login | lib/store/auth.ts:42-79 | a successful login stores the user and token in state and cookies and signs in; a failure signs out, leaves the cookies as they were and rethrows the error; either way loading ends |
| AuthStore.Logout | lib/store/auth.ts:81-98 | the state is signed out and settled, and both cookies are removed |
| AuthStore.InitializeAuth | lib/store/auth.ts:100-178 | missing cookies sign out; an unparsable user cookie clears the cookies; a profile answer signs in with the fresh user; a profile failure signs out and clears the cookies; loading always ends |
| AuthStore.UpdateUser | lib/store/auth.ts:180-195 | with no user nothing changes; otherwise the patched fields replace the user's, the rest stay, and the user cookie is rewritten |
| AuthStore.HasPermission | lib/store/auth.ts:197-212 | without a user, or with an unknown role name, nothing is allowed |
| AuthStore.StoreAgreesWithPermissions | lib/store/auth.ts:197-212 | the store's role test agrees with the permission module's minimum-role test |
| AuthStore.LogoutForgetsEverything | lib/store/auth.ts:81-98 | any two sessions log out to the same session, which grants nothing |
| AuthStore.UpdateUserKeepsSettled | lib/store/auth.ts:180-195 | updating the user never changes a settled session into an unsettled one |
| AuthStore.EmptyPatchChangesNothing | lib/store/auth.ts:180-195 | an update that sets no field leaves the state unchanged |
| AuthGates.Gate | components/auth/index.tsx:23-39 | a gate renders its children exactly when allowed; otherwise it falls back as `showFallback` and `fallback` say |
| AuthGates.CanAccess | components/auth/index.tsx:23-39 | children are shown iff a user is present whose role is listed for the permission |
| AuthGates.CanAccessAny | components/auth/index.tsx:46-62 | children are shown iff the user holds some listed permission |
| AuthGates.CanAccessAll | components/auth/index.tsx:69-85 | children are shown iff the user holds every listed permission |
| AuthGates.RoleNotice | components/auth/index.tsx:178-196 | the notice is "<role> role required", followed by " (current: <name>)" exactly when a non-empty current role is given |
| AuthGates.RoleNoticeReadsBack | components/auth/index.tsx:189-190 | the current role can be read back from the notice between " (current: " and the closing parenthesis |
| AuthGates.RequireRole | components/auth/index.tsx:92-111 | children are shown iff the user's role reaches the required role |
| AuthGates.RequireAuth | components/auth/index.tsx:116-134 | loading shows a loading screen; otherwise children are shown iff authenticated |
| AuthGates.HookCanAccess | components/auth/index.tsx:144-145 | true iff a user is present and that role's checker grants the permission |
| AuthGates.HookCanAccessAny | components/auth/index.tsx:146-147 | true iff some listed permission passes; false for the empty list |
| AuthGates.HookCanAccessAll | components/auth/index.tsx:148-149 | true iff a user with a non-empty role holds every listed permission |
| AuthGates.HookHasRole | components/auth/index.tsx:150 | agrees with the free minimum-role function on the user's role name |
| AuthGates.HookListsWhatItGrants | components/auth/index.tsx:151 | a permission is listed iff the hook grants it |
| AuthGates.GateAgreesWithHook | components/auth/index.tsx:137-154 | the component gate and the hook's test agree on every user and permission |
| AuthGates.EmptyListGates | components/auth/index.tsx:46-85 | an empty list hides the "any" gate's children and shows the "all" gate's children |
| AuthGates.RequireRoleAgreesWithStore | components/auth/index.tsx:92-111 | the role gate agrees with the store's role test |
| AuthGates.GateMonotoneInRole | components/auth/index.tsx:23-39 | raising a user's role never hides what the gate showed |
| ProtectedRoute.Render | components/layout/protected-route.tsx:23-64 | it redirects to login iff loading is over and the user is not authenticated; loading shows a spinner; the page shows iff signed in with a sufficient role; otherwise the denied screen or the fallback |
| ProtectedRoute.PageIffRequireRole | components/layout/protected-route.tsx:47-64 | the route shows the page iff the role gate would show its children |
| ProtectedRoute.JuniorRequirementIsWeaker | components/layout/protected-route.tsx:16 | a page shown under a senior requirement is shown under a junior one |
| ProtectedRoute.SignedOutIsRedirected | components/layout/protected-route.tsx:42-44 | after logout the route renders nothing and redirects to login |
| Sidebar.IsActiveRoute | components/layout/sidebar.tsx:39-48 | an active link's href is a prefix of the path; the exact path is active; the dashboard link is active only on the dashboard itself |
| Sidebar.NestedPageHighlightsSection | components/layout/sidebar.tsx:39-48 | a page below a section keeps the section's link active |
| Sidebar.PrefixIsNotSegmentAware | components/layout/sidebar.tsx:39-48 | the test is on characters: `/dashboard/inventory-old` lights the inventory link |
| Sidebar.DashboardOnlyExact | components/layout/sidebar.tsx:39-48 | no page below the dashboard lights the dashboard link |
| Dashboard.QuickActions | app/dashboard/page.tsx:30-66 | View Inventory is always offered, and every offered action is one the role may take |
| Dashboard.QuickActionsPerRole | app/dashboard/page.tsx:30-66 | the exact quick actions a Viewer, a Manager and an Admin see, in page order |
| Dashboard.QuickActionsOrderedAndMonotone | app/dashboard/page.tsx:30-66 | the actions keep page order, and a senior role sees every action a junior role sees |
| Dashboard.MerchantPanelsForManagersUp | app/dashboard/page.tsx:100-168 | the merchant panels show iff the role is not Viewer |
| Dashboard.OrZero | components/dashboard/stats-cards.tsx:94 | a missing count shows as 0 and a present one as itself |
| Dashboard.ShownCards | components/dashboard/stats-cards.tsx:91-120 | the inventory and low-stock cards always show, and every shown card is one the role may see |
| Dashboard.RenderStats | components/dashboard/stats-cards.tsx:57-120 | loading shows four skeletons; an error shows the error card; otherwise one card per shown kind |
| Dashboard.CardsPerRole | components/dashboard/stats-cards.tsx:91-120 | the exact cards a Viewer, a Manager and an Admin see |
| Dashboard.CardValues | components/dashboard/stats-cards.tsx:94-115 | the low-stock card shows a dash; the others show their count, or 0 without statistics |
| Dashboard.SkeletonsIgnoreRole | components/dashboard/stats-cards.tsx:57-74 | while loading, every role sees the same skeletons |
| UseDashboard.LowStockCountExtremes | hooks/use-dashboard.ts:24 | the low-stock count is 0 iff no item is low, and the number of items iff all are |
| UseDashboard.TotalValueAppend | hooks/use-dashboard.ts:25-28 | the inventory value of two lists together is the sum of their values |
| UseDashboard.SortNewestFirst | hooks/use-dashboard.ts:29-34 | the sorted list is a permutation of the items, newest first |
| UseDashboard.RecentItems | hooks/use-dashboard.ts:29-34 | the recent list has min(5, n) items, is the head of the sorted list, newest first, and drawn from the items |
| UseDashboard.OmittedItemsAreOlder | hooks/use-dashboard.ts:29-34 | every item left out of the recent list is no newer than every item in it |
| UseDashboard.DashboardStatsOf | hooks/use-dashboard.ts:12-45 | an error is passed on; otherwise the total is the pagination total, the low-stock count counts items with quantity at most 10, the value sums price times quantity, and the recent list is the five newest |
| UseDashboard.StatsOfSortedPage | hooks/use-dashboard.ts:22-35 | the statistics of a page do not change when the page arrives sorted newest first |
| UseDashboard.SortedIsFixed | hooks/use-dashboard.ts:29-34 | sorting a list that is already newest first returns it unchanged |
| UseDashboard.StatsIgnoreOrder | hooks/use-dashboard.ts:23-28 | sorting changes neither the low-stock count nor the total value |
| UseDashboard.QuickStatsOf | hooks/use-dashboard.ts:47-89 | the inventory count's failure fails the whole; the user and merchant counts fall back to 0 on failure |
| UseDashboard.RefusedCountsAreZero | hooks/use-dashboard.ts:60-76 | a user refused by both guarded endpoints, such as a Viewer, sees user and merchant counts of 0 next to the inventory total |
| EmailValidation.EmailScanIffPattern | hooks/use-reports.ts:183 | the direct scan accepts exactly the addresses the regular expression describes |
| EmailValidation.ValidIffShape | hooks/use-reports.ts:183 | an address is valid iff it has no whitespace, one `@` that is neither first nor last, and a dot strictly inside the domain |
| EmailValidation.ValidateEmails | hooks/use-reports.ts:179-210 | the counts match the lists, and valid plus invalid is the number of addresses given |
| EmailValidation.ValidationPartitions | hooks/use-reports.ts:184-192 | the valid list holds only valid addresses and the invalid list only invalid ones, each in input order among the trimmed inputs |
| EmailValidation.ValidListIsExact | hooks/use-reports.ts:184-192 | an address is in the valid list iff it is valid and is the trim of some input |
| EmailValidation.RevalidationRejectsNothing | hooks/use-reports.ts:179-210 | validating the valid list again rejects nothing |
| EmailValidation.FailureToast | hooks/use-reports.ts:73-86 | a failure toast appears iff some send failed; it lists the first three failed addresses and appends the literal " and others" when there are more |
| BulkImport.ParseEmails | components/merchants/bulk-import.tsx:67-72 | the preview is an ordered sub-list of the tokens, each containing `@` |
| BulkImport.ParseEmailsKeepsEveryCopy | components/merchants/bulk-import.tsx:67-72 | the preview holds every trimmed piece containing `@` exactly as often as the text does, and nothing else |
| BulkImport.ParseEmailsMissesNothing | components/merchants/bulk-import.tsx:67-72 | every trimmed piece containing `@` is in the preview |
| BulkImport.Tokens | components/merchants/bulk-import.tsx:28-33 | the tokens are the non-empty trimmed pieces, every copy in text order, each free of separators |
| BulkImport.AcceptedPreviewIsComplete | components/merchants/bulk-import.tsx:24-37 | when the form accepts the text, the preview is every token and is not empty |
| BulkImport.EmptyPreviewIsRejected | components/merchants/bulk-import.tsx:24-37 | text with no address in it is rejected |
| BulkImport.TokenWithoutAtIsRejected | components/merchants/bulk-import.tsx:30-34 | any token without `@` makes the form reject the text |
| BulkImport.SpacesDoNotSeparate | components/merchants/bulk-import.tsx:67-72 | a token is split only at commas and line breaks, never at inner spaces |
| BulkImport.SubmitPayload | components/merchants/bulk-import.tsx:76-88 | the addresses are sent as given, and an empty default name is sent as none |
| BulkImport.AcceptedEnablesSubmit | components/merchants/bulk-import.tsx:213-215 | text the schema accepts enables the import button unless an import is running |
| BulkImport.EnabledThoughRejected | components/merchants/bulk-import.tsx:213-215 | one token with `@` enables the button even when another token makes the schema reject the text |
| BulkImport.PreviewList | components/merchants/bulk-import.tsx:168-182 | the preview shows the first ten addresses and a "more" count exactly when there are over ten |
| Recipients.ParseEmailList | components/reports/recipient-selector.tsx:57-60 | the list keeps, in order and with every copy, exactly the non-empty trimmed pieces between commas and line breaks; each is clean |
| Recipients.ParseJoinRoundTrip | components/reports/recipient-selector.tsx:57-60 | joining clean addresses with line breaks and parsing them back gives the same list |
| Recipients.Toggle | components/reports/recipient-selector.tsx:62-75 | a selected address loses every copy and nothing else changes count or order; an unselected one is appended only below the cap |
| Recipients.ToggleTwice | components/reports/recipient-selector.tsx:62-75 | below the cap, toggling an unselected address twice restores the selection |
| Recipients.SelectAll | components/reports/recipient-selector.tsx:77-96 | without merchants nothing changes; with all merchants selected only the other addresses stay; otherwise the result is the first min(cap, n) of the other addresses followed by every merchant address |
| Recipients.NonMerchantEmails | components/reports/recipient-selector.tsx:80-83 | the other addresses are the selected ones belonging to no merchant, every copy, in selection order |
| Recipients.DeselectAllKeepsOthers | components/reports/recipient-selector.tsx:77-96 | when all merchants are selected, the button removes exactly their addresses and keeps the rest in order |
| Recipients.SelectAllAppendsMerchants | components/reports/recipient-selector.tsx:77-96 | otherwise, under the cap, the other addresses are followed by every merchant's address |
| Recipients.SelectAllOverCap | components/reports/recipient-selector.tsx:77-96 | over the cap the other addresses all stay and only the first merchant addresses that fit are added |
| Recipients.EditCustom | components/reports/recipient-selector.tsx:98-118 | the result is the first min(cap, n) of the selected merchant addresses followed by the typed tokens, each drawn from the selection or the tokens |
| Recipients.SelectedMerchantEmails | components/reports/recipient-selector.tsx:107-110 | the kept addresses are the selected ones that belong to some merchant, every copy, in selection order |
| Recipients.EditCustomUnderCap | components/reports/recipient-selector.tsx:98-118 | under the cap, the merchant addresses kept are followed by the typed ones |
| Recipients.EditCustomOverCap | components/reports/recipient-selector.tsx:98-118 | once the kept merchant addresses fill the cap, no typed token survives |
| Recipients.RemoveEmail | components/reports/recipient-selector.tsx:120-132 | every copy of the address leaves the selection and every other address keeps its count and order; a merchant's address leaves the typed text alone |
| Recipients.RemoveEmailRewritesText | components/reports/recipient-selector.tsx:120-132 | removing a typed address removes it, and only it, from the typed list |
| Recipients.SearchMerchants | components/reports/recipient-selector.tsx:49-54 | the result holds every matching merchant, as often as the list does, in list order, and no other |
| Recipients.EmptySearchKeepsAll | components/reports/recipient-selector.tsx:49-54 | an empty search keeps every merchant |
| Recipients.SearchIgnoresCase | components/reports/recipient-selector.tsx:49-54 | lower-casing the query does not change what matches |
| SendReport.RecipientEmails | app/dashboard/reports/send/page.tsx:61-73 | the chosen merchants' addresses come first, then the typed ones |
| SendReport.ChosenMerchantEmails | app/dashboard/reports/send/page.tsx:62-65 | every address comes from a chosen merchant, and every chosen merchant's address is present |
| SendReport.ChosenMerchantEmailsInOrder | app/dashboard/reports/send/page.tsx:62-65 | the merchant part is each chosen merchant's address, one per merchant, in list order |
| SendReport.RecipientEmailsSpelledOut | app/dashboard/reports/send/page.tsx:61-73 | the recipient list is the chosen merchants' addresses in list order followed by every non-empty typed piece |
| SendReport.DuplicatesAreKept | app/dashboard/reports/send/page.tsx:61-73 | a merchant address that is also typed is sent twice |
| SendReport.ToggleMerchant | app/dashboard/reports/send/page.tsx:75-81 | the toggled merchant flips membership and no other merchant does |
| SendReport.SelectAllMerchants | app/dashboard/reports/send/page.tsx:83-91 | all selected clears the list; otherwise every merchant is selected in list order |
| SendReport.TrimmedOrUndefined | app/dashboard/reports/send/page.tsx:121-126 | a blank text is sent as none and any other text trimmed |
| SendReport.PageSend | app/dashboard/reports/send/page.tsx:103-133 | no recipients refuses; otherwise only valid addresses are sent, with the trimmed subject and message |
| SendReport.PageSendsIff | app/dashboard/reports/send/page.tsx:103-133 | the page sends iff there are recipients and either all are valid or the user confirms |
| SendReport.FormSend | components/reports/send-report-form.tsx:67-103 | no recipients or a blank subject refuses; otherwise only valid addresses are sent with the trimmed subject |
| SendReport.FormSendsIff | components/reports/send-report-form.tsx:67-103 | the form sends iff it is valid and either all addresses are valid or the user confirms |
| SendReport.SentAddressesAreValid | components/reports/send-report-form.tsx:88-92 | every address the form sends passes validation |
| SendReport.ResetAfterSend | components/reports/send-report-form.tsx:96-99 | after sending, the recipients and message are cleared and the form is no longer valid |
| SendReport.RecipientPreview | app/dashboard/reports/send/page.tsx:427-436 | the preview shows the first ten recipients and a "more" count exactly when there are over ten |
| SendReport.PreviewTotal | components/reports/send-report-form.tsx:264 | without data the total is 0; otherwise the number of rows |
| SendReport.OutOfStockAtMostLowStock | components/reports/send-report-form.tsx:272-290 | the out-of-stock count never exceeds the low-stock count |
| SendReport.OutOfStockCellAsWritten | components/reports/send-report-form.tsx:283-290 | as written, the cell holds the count's digits twice |
| SendReport.DoubledCount | components/reports/send-report-form.tsx:283-290 | one out-of-stock row renders as "11", not "1" |
| SendReport.OutOfStockCell | components/reports/send-report-form.tsx:283-290 | corrected, the cell is the count, which never exceeds the low-stock count |
| SendReport.PreviewRows | components/reports/send-report-form.tsx:309-330 | the preview shows the first five rows and a "more" count exactly when there are over five |
| SendReport.ThresholdsDisagreeAtTen | components/reports/send-report-form.tsx:272-275 | an item with quantity 10 is low stock on the dashboard but not in the report preview |
| SendReport.ThresholdsAgreeElsewhere | components/reports/send-report-form.tsx:272-275 | for every other quantity the two thresholds agree |
| MerchantForm.SpacePunctuation | components/merchants/merchant-form.tsx:95 | each `.`, `_` and `-` becomes a space and every other character is kept, position by position |
| MerchantForm.CapitalizePointwise | components/merchants/merchant-form.tsx:89-100 | each character is upper-cased exactly when it starts a word, and kept otherwise |
| MerchantForm.LocalPart | components/merchants/merchant-form.tsx:92 | the local part is the longest prefix of the address without `@`: it ends at the first `@` or at the end |
| MerchantForm.GenerateName | components/merchants/merchant-form.tsx:89-100 | no `@` gives ""; otherwise the local part, punctuation spaced, words capitalised, trimmed; the name has no `.`, `_`, `-` or `@` and no leading or trailing space |
| MerchantForm.JoinedWordsName | components/merchants/merchant-form.tsx:89-100 | two lower-case words joined by `.`, `_` or `-` before the `@` give the two words capitalised with one space between them (`john.doe@x.com` gives `John Doe`) |
| MerchantForm.NameIgnoresDomain | components/merchants/merchant-form.tsx:89-100 | two addresses with the same local part give the same name |
| MerchantForm.AutoFill | components/merchants/merchant-form.tsx:102-112 | the name is filled only when creating, with a blank name and a non-empty address, and it is the generated name |
| MerchantForm.AutoFillOnlyBlankCreate | components/merchants/merchant-form.tsx:102-112 | editing, or a typed name, is never overwritten |
| MerchantForm.Reset | components/merchants/merchant-form.tsx:73-87 | create resets to empty fields; edit resets to the merchant's values |
| MerchantForm.ResetCreateIsIncomplete | components/merchants/merchant-form.tsx:21-28 | the blank create form is not accepted |
| UserForm.CreateStricterThanUpdate | components/users/user-form.tsx:29-52 | whatever the create schema accepts, the update schema accepts, and the update schema ignores the password |
| UserForm.Submit | components/users/user-form.tsx:95-114 | a request is made iff the schema of the mode accepts; create sends the password, edit never does |
| UserForm.SubmitPasswordRules | components/users/user-form.tsx:29-48 | a created user's password has 6 to 100 characters; an edit's result does not depend on the password |
| UserForm.RoleIdOf | components/users/user-form.tsx:83-89 | a role id is preset iff the user has a non-zero role id |
| UserForm.Reset | components/users/user-form.tsx:116-133 | create resets to empty fields; edit resets to the user's values |
| UserForm.EditResetRestoresDefaults | components/users/user-form.tsx:83-133 | the edit reset restores the form's initial values |
| UserForm.ResetCreateIsRejected | components/users/user-form.tsx:95-133 | the blank create form makes no request |
| UserForm.ResetEditResubmits | components/users/user-form.tsx:95-133 | resubmitting an untouched edit form sends the user's own values |
| UserForm.PermissionLines | components/users/user-form.tsx:282-322 | Admin and Manager get four lines, Viewer three, any other role none |
| UserForm.FindRole | components/users/user-form.tsx:282-322 | the first role with the id, or past the end when none has it |
| UserForm.PermissionsInfo | components/users/user-form.tsx:282-322 | no role, id 0 or no role list gives nothing; any lines shown belong to a listed role with that id |
| UserForm.PermissionsInfoOfChosenRole | components/users/user-form.tsx:282-322 | the lines are those of the first role with the chosen id |
| UserForm.PermissionsInfoOfUnknownId | components/users/user-form.tsx:282-322 | an id no role has shows nothing |
| InventoryForm.NonEmptyOrNone | components/inventory/inventory-form.tsx:73-83 | an empty text is sent as none and any other as itself |
| InventoryForm.SubmitAsWritten | components/inventory/inventory-form.tsx:73-83 | as written, a request is made iff the schema accepts, and a zero price is sent as none |
| InventoryForm.Submit | components/inventory/inventory-form.tsx:73-83 | corrected, a request is made iff the schema accepts, and it carries the entered price, zero included |
| InventoryForm.SubmitsAgreeOffZero | components/inventory/inventory-form.tsx:73-83 | the two submits agree on every form whose price is not zero |
| InventoryForm.ApplyUpdate | types/index.ts:55-61 | assumed server reading of an update: the id and creation time stay, a sent field replaces the stored one, an absent optional field keeps it |
| InventoryForm.Reset | components/inventory/inventory-form.tsx:85-103 | create resets to empty fields; edit resets to the item's values |
| InventoryForm.ResetCreateIsRejected | components/inventory/inventory-form.tsx:23-40 | the blank create form makes no request |
| InventoryForm.UntouchedEditKeepsItem | components/inventory/inventory-form.tsx:73-103 | resubmitting an untouched edit form leaves the item as it was |
| InventoryForm.EditedPriceIsApplied | components/inventory/inventory-form.tsx:73-83 | corrected, any edited price, zero included, reaches the item |
| InventoryForm.ZeroPriceIsLostAsWritten | components/inventory/inventory-form.tsx:73-83 | as written, editing a price to zero leaves the old price in place |
| QuickQuantity.Mount | components/inventory/quick-quantity-update.tsx:32-50 | the dialog starts closed, idle, at the item's quantity |
| QuickQuantity.OpenChange | components/inventory/quick-quantity-update.tsx:45-50 | opening resets the field to the item's quantity; closing keeps it |
| QuickQuantity.SetQuantity | components/inventory/quick-quantity-update.tsx:93 | typing sets only the quantity; the dialog stays open or closed, and pending or not, as it was |
| QuickQuantity.Submit | components/inventory/quick-quantity-update.tsx:32-43 | a request is made iff submitting is allowed, and it carries a quantity different from the item's |
| QuickQuantity.Settle | components/inventory/quick-quantity-update.tsx:32-43 | the request ends; a success closes the dialog |
| QuickQuantity.Cancel | components/inventory/quick-quantity-update.tsx:108-112 | cancel does nothing while pending and otherwise closes the dialog |
| QuickQuantity.ChangeLine | components/inventory/quick-quantity-update.tsx:99-104 | no line at an unchanged quantity; otherwise a signed difference |
| QuickQuantity.OpenedDialogIsUnchanged | components/inventory/quick-quantity-update.tsx:99-120 | a freshly opened dialog shows no change and cannot submit |
| QuickQuantity.ReopenDiscardsEdit | components/inventory/quick-quantity-update.tsx:45-50 | closing and reopening discards the typed quantity |
| QuickQuantity.EditSubmitClose | components/inventory/quick-quantity-update.tsx:32-50 | typing a new quantity and submitting sends exactly that quantity, and success closes the dialog |
| InventoryTable.Search | components/inventory/inventory-table.tsx:60-66 | the search text is set and the page goes back to 1; the other settings stay |
| InventoryTable.ChangePage | components/inventory/inventory-table.tsx:76-78 | only the page moves; search, sort and limit stay |
| InventoryTable.Sort | components/inventory/inventory-table.tsx:68-74 | the sort key is set; the order turns descending only on a second click of an ascending key |
| InventoryTable.SortToggles | components/inventory/inventory-table.tsx:68-74 | clicking the same key again flips the order, and a third click restores it |
| InventoryTable.SearchForgetsPage | components/inventory/inventory-table.tsx:60-78 | a search discards any earlier page change |
| InventoryTable.StockStatusOf | components/inventory/inventory-table.tsx:93-100 | out of stock at 0, low stock up to 10, in stock above |
| InventoryTable.BadgeAgreesWithDashboard | components/inventory/inventory-table.tsx:93-100 | the badge says low or out of stock exactly when the dashboard counts the item as low |
| InventoryTable.PriceCells | components/inventory/inventory-table.tsx:246-253 | no price cells for a zero price; otherwise the price and the line value |
| InventoryTable.ControlsFor | components/inventory/inventory-table.tsx:128-290 | add and quantity controls appear together, for Manager and up; actions need them and `showActions` |
| InventoryTable.ControlsByRole | components/inventory/inventory-table.tsx:128-290 | signed-out users and Viewers get no controls; Managers and Admins get them |
| InventoryTable.DeleteRequest | components/inventory/inventory-table.tsx:80-84 | a delete is sent iff confirmed, for that item |
| InventoryTable.TotalLine | components/inventory/inventory-table.tsx:124 | the total shown is the pagination total, or 0 without one |
| Paging.RangeBounds | components/inventory/inventory-table.tsx:304-336 | on a consistent page the range lies inside the total, is at most a page long, and is full on every page but the last |
| Paging.ButtonsStayInRange | components/inventory/inventory-table.tsx:304-336 | Previous and Next lead to pages inside the range, and a shown footer has at least one |
| Paging.PagesTile | components/inventory/inventory-table.tsx:304-336 | the next page's range starts right after this page's range ends |
| UsersTable.FilterShowsChoice | components/users/users-table.tsx:86-100 | the select shows the choice just made, "all" included |
| UsersTable.Search | components/users/users-table.tsx:78-84 | the search is set and the page goes back to 1; nothing else changes |
| UsersTable.ChangePage | components/users/users-table.tsx:102-104 | only the page moves; search and filters stay |
| UsersTable.FiltersForgetPage | components/users/users-table.tsx:78-104 | a search or a role filter discards any earlier page change |
| UsersTable.FilterRole | components/users/users-table.tsx:86-92 | the role filter is set and the page goes back to 1; the other filters stay |
| UsersTable.FilterStatus | components/users/users-table.tsx:94-100 | the status filter is set and the page goes back to 1; the other filters stay |
| UsersTable.FiltersCommute | components/users/users-table.tsx:86-100 | the role and status filters can be set in either order |
| UsersTable.Delete | components/users/users-table.tsx:106-119 | deleting oneself is refused; any other user is deleted iff confirmed |
| UsersTable.ToggleStatus | components/users/users-table.tsx:121-139 | deactivating oneself is refused; any other change is sent iff confirmed, with the opposite status |
| UsersTable.NoSelfHarm | components/users/users-table.tsx:106-139 | a user can neither delete nor deactivate their own account |
| UsersTable.OtherRowsAct | components/users/users-table.tsx:106-139 | for another user's row, confirmed actions are sent as asked |
| UsersTable.RoleBadge | components/users/users-table.tsx:141-152 | each role has its own badge, and unknown role names get the outline badge |
| UsersTable.LastLogin | components/users/users-table.tsx:154-157 | "never" exactly when there is no login time |
| MerchantsTable.Search | components/merchants/merchants-table.tsx:75-81 | the search is set and the page goes back to 1; nothing else changes |
| MerchantsTable.ChangePage | components/merchants/merchants-table.tsx:94-96 | only the page moves; search and status stay |
| MerchantsTable.StatusSelectValue | components/merchants/merchants-table.tsx:186-187 | the select shows the stored status, and "all" when none or an empty one is stored |
| MerchantsTable.FilterStatus | components/merchants/merchants-table.tsx:83-92 | "all" clears the status, any other item sets it; the page goes back to 1 |
| MerchantsTable.StatusSelectShowsChoice | components/merchants/merchants-table.tsx:185-197 | the select shows the item just chosen |
| MerchantsTable.StatusFilterRequest | components/merchants/merchants-table.tsx:83-92 | "all" sends no status, the other items send themselves, and the request asks for page 1 |
| MerchantsTable.AllMeansNoStatusInBothTables | components/merchants/merchants-table.tsx:83-92 | the merchants and users tables store "all" differently, but neither sends a status |
| MerchantsTable.Delete | components/merchants/merchants-table.tsx:98-106 | a delete is sent iff confirmed, for that merchant |
| MerchantsTable.ToggleVerb | components/merchants/merchants-table.tsx:108-124 | the confirmation says "activate" exactly for an inactive merchant |
| MerchantsTable.Toggle | components/merchants/merchants-table.tsx:108-124 | once confirmed, the opposite status is sent for that merchant |
| MerchantsTable.ToggleFlipsOnlyThatRow | components/merchants/merchants-table.tsx:108-124 | a confirmed toggle flips that merchant only, and toggling twice restores the list |
| MerchantsTable.DeleteRemovesThatRow | components/merchants/merchants-table.tsx:98-106 | a confirmed delete removes exactly the rows with that id |
| EmailLogsTable.Initial | components/reports/email-logs-table.tsx:66-70 | defaults override page 1 and limit 10, and are kept for every other field |
| EmailLogsTable.Search | components/reports/email-logs-table.tsx:75-81 | the search is set and the page goes back to 1; nothing else changes |
| EmailLogsTable.ChangePage | components/reports/email-logs-table.tsx:119-121 | only the page moves; search, status and dates stay |
| EmailLogsTable.StatusSelectValue | components/reports/email-logs-table.tsx:205-206 | the select always shows one of its items, "all" exactly when no status is stored, and that item maps back to the stored status |
| EmailLogsTable.FilterStatus | components/reports/email-logs-table.tsx:83-89 | "all" clears the status; the page goes back to 1; nothing else changes |
| EmailLogsTable.StatusSelectShowsChoice | components/reports/email-logs-table.tsx:206-218 | the status select shows the item just chosen |
| EmailLogsTable.PeriodStart | components/reports/email-logs-table.tsx:91-117 | today, week and month start within the last 30 days; any other choice has no start |
| EmailLogsTable.Period | components/reports/email-logs-table.tsx:91-117 | the period's start becomes the start date, the end date is cleared, and the page goes back to 1 |
| EmailLogsTable.Export | components/reports/email-logs-table.tsx:123-125 | the export carries the status and date filters, csv format and a 10000 limit, but no search and no page |
| EmailLogsTable.ExportIgnoresSearch | components/reports/email-logs-table.tsx:123-125 | searching or paging leaves the export unchanged, while the period reaches it |
| EmailLogsTable.RetryShown | components/reports/email-logs-table.tsx:359-365 | retry is offered only on a failed log, to a signed-in user |
| EmailLogsTable.RetryOnlyForAdmins | components/reports/email-logs-table.tsx:359-365 | retry is offered exactly on failed logs seen by an Admin |
| EmailLogsTable.PeriodSelectValueAsWritten | components/reports/email-logs-table.tsx:221 | as written, the select reads "all" exactly when no start date is set, and "custom" otherwise |
| EmailLogsTable.PeriodLabelLostAsWritten | components/reports/email-logs-table.tsx:220-232 | as written, after choosing today, week or month the select value is none of its items |
| EmailLogsTable.ChoosePeriod | components/reports/email-logs-table.tsx:91-117 | corrected, the query changes as written and the chosen period is remembered |
| EmailLogsTable.PeriodLabelShown | components/reports/email-logs-table.tsx:220-232 | corrected, the select always shows one of its items: the one just chosen, and "all" exactly when no start date is set |
| EmailLogsTable.OtherControlsKeepPeriod | components/reports/email-logs-table.tsx:75-121 | search, status and paging keep the remembered period and the start date |
| UseEmailLogs.ListPairsSpec | hooks/use-email-logs.ts:42-49 | the list query sends page, limit, status, dateFrom, dateTo and search in that order, each only when set |
| UseEmailLogs.ExportSends | hooks/use-email-logs.ts:264-273 | the export sends the status and dates as given, csv format and a 10000 limit |
| UseEmailLogs.ExportIgnoresPaging | hooks/use-email-logs.ts:264-273 | the export has no search or page, and ignores the page, limit and search |
| UseEmailLogs.FetchLog | hooks/use-email-logs.ts:65-78 | the fetch runs iff an id is given, and fails with "Email log ID is required" otherwise |
| UseEmailLogs.ByStatusRequest | hooks/use-email-logs.ts:81-95 | it asks for the status, the limit (10 by default) and page 1 |
| UseEmailLogs.SuccessRate | hooks/use-email-logs.ts:184-189 | 0 without emails; otherwise the nearest integer to the sent percentage, halves rounded up |
| UseEmailLogs.SuccessRateIsPercentage | hooks/use-email-logs.ts:184-189 | the rate lies in 0..100 and is 100 when every email was sent |
| UseEmailLogs.Stats | hooks/use-email-logs.ts:133-195 | each figure is the server's count for its own request: all, per status, since today, 7 and 30 days ago |
| UseEmailLogs.StatsAreConsistent | hooks/use-email-logs.ts:133-195 | over a server that counts honestly, sent, failed and pending add up to the total; the rate is a percentage; today ≤ week ≤ month |
| UseEmailLogs.Place | hooks/use-email-logs.ts:98-130 | adding a log keeps the buckets in day order, adds its day, and counts it once |
| UseEmailLogs.Activity | hooks/use-email-logs.ts:98-130 | the buckets are in day order, one per day that has logs, and count every log once |
| UseEmailLogs.ActivityCounts | hooks/use-email-logs.ts:98-130 | for each day and status, the buckets hold the number of logs with that day and status |
| UseEmailLogs.BucketTalliesAreCounts | hooks/use-email-logs.ts:98-130 | each bucket's tally for a status is the number of that day's logs with that status |
| UseEmailLogs.RecentRequest | hooks/use-email-logs.ts:98-130 | it asks for logs since the given number of days ago, 7 by default, up to 100 |
| UseEmailLogs.Recent | hooks/use-email-logs.ts:98-130 | the result keeps the logs, takes the server's total, and buckets every log in day order |
| UseInventory.ListPairsSpec | hooks/use-inventory.ts:15-21 | the list query sends page, limit, search, sort and order in that order, each only when set |
| UseInventory.SearchRequest | hooks/use-inventory.ts:51-65 | a blank query makes no request; otherwise it sends the query and the limit, 10 by default |
| UseInventory.SearchResults | hooks/use-inventory.ts:51-65 | a blank query gives no results; otherwise the server's answer |
| UseInventory.ItemRequest | hooks/use-inventory.ts:36-49 | the item is fetched iff an id is given |
| UseUsers.ListPairsSpec | hooks/use-users.ts:33-40 | the list query sends page, limit, search, role and status in that order, each only when set |
| UseUsers.TableFirstRequest | components/users/users-table.tsx:64-70 | the users table starts with an empty search and no status, so its first request sends only `page=1&limit=10` |
| UseUsers.AllSendsNoFilter | hooks/use-users.ts:33-40 | choosing "all" in the users table sends no role or status filter |
| UseUsers.FetchUser | hooks/use-users.ts:55-65 | the fetch runs iff an id is given, and fails with "ID is required" otherwise |
| UseUsers.Stats | hooks/use-users.ts:183-219 | each figure is the server's count for its own request |
| UseUsers.StatsAddUp | hooks/use-users.ts:183-219 | over a server that counts honestly, active plus inactive is the total, and so are the role counts when every role is known |
| UseMerchants.ListPairsSpec | hooks/use-merchants.ts:31-37 | the list query sends page, limit, search and status in that order, each only when set |
| UseMerchants.ImportMessages | hooks/use-merchants.ts:162-181 | the success toast appears iff something was imported; it reads "Successfully imported N merchants", followed by ", skipped K" exactly when K is positive; each error gets a toast |
| UseMerchants.SkippedNamedIffPositive | hooks/use-merchants.ts:162-181 | the success toast is longer than its head exactly when some were skipped |
| UseMerchants.ByIds | hooks/use-merchants.ts:230-246 | one merchant per id, in the same order |
| UseMerchants.Stats | hooks/use-merchants.ts:190-213 | each figure is the server's count for its own request |
| UseMerchants.StatsAddUp | hooks/use-merchants.ts:190-227 | over a server that counts honestly, active plus inactive is the total, and the active list asks for the active ones |
| ReactQuery.Retry | lib/react-query.ts:10-25 | an Unauthorized error is never retried; any other is retried while the failure count is below the limit |
| ReactQuery.RetryStopsForGood | lib/react-query.ts:10-25 | once retrying stops it never resumes, and a mutation is retried only where a query would be |
| ReactQuery.Run | lib/react-query.ts:10-25 | the request runs 1 to limit+1 times, every attempt before the last was retryable, and a retryable last attempt means the limit was spent |
| ReactQuery.AttemptCounts | lib/react-query.ts:10-25 | an Unauthorized first answer is tried once; a server that keeps failing sees 4 query or 3 mutation attempts |
| ReactQuery.RunCountsAttempts | lib/react-query.ts:10-25 | the loop's attempt count equals the recursive count on every server |
| ReactQuery.OnMutationError | lib/react-query.ts:26-33 | an Unauthorized error signs out and raises the session-expired toast; any other error changes nothing |
| QueryString.NumValue | hooks/use-inventory.ts:17-18 | a missing or zero number is not sent; any other is sent as its digits |
| QueryString.TextValue | hooks/use-inventory.ts:19-21 | a missing or empty text is not sent; any other is sent as is |
| QueryString.BuildSends | hooks/use-inventory.ts:15-21 | looking up a field's key in the query string gives that field's value, or nothing when it was falsy |
| QueryString.BuildKeepsOrder | hooks/use-inventory.ts:15-21 | the keys sent keep the order of the appends |
| Text.TrimIdempotent | hooks/use-reports.ts:184-187 | trimming twice is trimming once |
| Text.SplitJoin | components/reports/recipient-selector.tsx:57-60 | splitting at a separator and joining with it gives the text back |

## Left out

- The JWT decode in the middleware (`parseTokenPayload`) is not modelled. Its result arrives as an optional role claim.
- hooks/use-auth.ts, lib/navigation.ts (`getNavigationItems`) and `debugPermissions` are not part of this model.
- The logout's page redirect is left out, and so is the outer catch of `initializeAuth`, which only logs.
- Browser effects are left out: toasts other than the modelled texts, CSV downloads, `window.location`, focus and layout.
- React Query caching, `staleTime`, refetching, invalidation after mutations and the back-off delay between retries are left out.
- `ReactQuery.Retry`: assumes the query library numbers failures from 0 when it calls `retry`.
- The create, update and delete mutation hooks are plain network calls. Only their parameters and the toasts named in the table are modelled.
- useSendToAllMerchants, useInventoryReportData, useReportStats, useDownloadReport and the success toast of the inventory report send are left out. Each is a fetch or a toast.
- `URLSearchParams.toString()` percent-encoding is not modelled. A query string is its ordered pairs.
- How the server reads a filter is this model's assumption. The "add up" lemmas (`UseUsers.StatsAddUp`, `UseMerchants.StatsAddUp`, `UseEmailLogs.StatsAreConsistent`) rest on it.
- `InventoryForm.ApplyUpdate`: models the server, not the client. It is the assumed reading of an update request, and the finding on a zero price rests on it.
- `MerchantsTable.Apply`: models the server applying a status change or a delete to the merchant list; `MerchantsTable.ToggleFlipsOnlyThatRow` rests on it.
- `Permissions.PermissionChecker.CanAccessRoute`: answers true for a name inherited from `Object.prototype`, where the source throws; `Permissions.PermissionChecker.RouteAccess` models the throw.
- Floating point is not modelled. Prices are integer cents, and `Math.round` of the success rate is exact half-up rounding on rationals.
- Dates are day numbers or millisecond times. The ISO rendering is a parameter, and so are date and currency formatting. The source steps back a week, a month or N days with local-time `setDate(getDate() - n)` and then renders the result with `toISOString()`; the model treats that local-calendar arithmetic as UTC day arithmetic (`today - n`), so the one-day shift a daylight-saving change can cause is not modelled.
- zod's `.email()` check is an opaque predicate. String lengths count code points, not UTF-16 units.
- Lower-casing is ASCII only.
- A key present with the value `undefined` in a user patch is treated like an absent key.
- A route pattern with an unclosed `[` is compiled literally.
- `Middleware.Compile` reads regular-expression metacharacters other than a `[param]` (such as `.`, `*`, `+`, `?`, `(` and `|`) as literal characters, where the source's `new RegExp` gives them their regex meaning. None of the route patterns in middleware.ts:7-21 contains one, so the middleware's decisions are unaffected.
- Role names that are `Object.prototype` keys (such as `"toString"`) rank 0. No role lookup of the model can return a prototype member.
- `UserForm.Reset`: the edit reset leaves the password empty, since it is never sent in edit mode.
- `InventoryForm.Submit`: clearing the description or SKU in edit mode sends nothing for it, as written (`|| undefined`); only the price case is corrected.
- `UseDashboard.SortNewestFirst`: sort stability is not proved. The result is a newest-first permutation.
- Status badges, icons and colours are left out, except the role badge and stock status.
- `EmailLogsTable.FilterStatus` and `MerchantsTable.FilterStatus` require one of the select's items, the only values the select can produce.
- `Middleware.Level` states only its bound. Its agreement with the permission table is `Middleware.LevelAgreesWithPermissions`.

## Findings

| source | as written | input that shows it | evidently intended | confidence | as-written member | corrected member |
|---|---|---|---|---|---|---|
| middleware.ts:77-79 | `"/"` is a public route and the prefix test accepts any path starting with the cut pattern, so every path is public | a request for `/dashboard/users` with no cookie passes | `/` public only for itself, dashboard paths guarded | high, not executed | Middleware.AnonymousReachesUserAdmin | Middleware.IntendedAgreesWithChecker |
| middleware.ts:110-115 | the prefix cut of `/dashboard/inventory/[id]/edit` is `/dashboard/inventory`, so the list page counts as a manager route | `/dashboard/inventory` matches the manager routes; once `/` is public only for itself, a Viewer asking for it is sent to the dashboard, though the permission table lets Viewers see it | only the edit pages are manager routes | medium, not executed | Middleware.InventoryListIsManagerRoute | Middleware.DecideIntended |
| components/reports/send-report-form.tsx:283-290 | the out-of-stock count is rendered twice in its cell | one row with quantity 0 shows "11" | the count once | high, not executed | SendReport.DoubledCount | SendReport.OutOfStockCell |
| components/inventory/inventory-form.tsx:73-83 | `unitPrice \|\| undefined` drops a price of 0 from the update | editing an item's price from 5.00 to 0 keeps 5.00 | a zero price is sent | medium, not executed | InventoryForm.ZeroPriceIsLostAsWritten | InventoryForm.EditedPriceIsApplied |
| components/reports/email-logs-table.tsx:220-232 | the period select's value is `"custom"` whenever a start date is set, and no item has that value | choosing "Last Week" (value `week`) leaves the select without a shown label | the select shows the chosen period | medium, not executed | EmailLogsTable.PeriodLabelLostAsWritten | EmailLogsTable.PeriodLabelShown |
