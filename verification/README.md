# Invoice front end: verified model of its logic

This project models the logic inside a React invoice-management front end. The front end lets users drop invoice images for OCR, lists and searches invoices, shows reports, and edits accounting categories. Three roles (uploader, accountant, admin) decide what each user may reach. The model covers:

- **Upload tracker** (`Upload`). The drop zone keeps a list of upload entries plus a busy flag. The list changes in three ways only: one append when a file starts, `map` updates over the entries of one file, and a `filter` on removal. Each state change is an `Event`, and `Run` applies a sequence of them. The timers are replaced by the order of the events. `OnDrop` and `SimulateOcrProcessing` are the component's loops, written as methods.
- **Session** (`Session`). This is the auth context:
  - the fixed test accounts and login against them;
  - logout and the restore at start-up;
  - `hasRole` with its admin override.
- **Auth utilities** (`AuthUtils`):
  - strict `hasRole` and `hasAnyRole`;
  - the permission table;
  - the token helpers, in integer seconds with the clock as a parameter;
  - the password and email validators and the role labels.
- **Routing** (`Routing`). This covers the `ProtectedRoute` gate and the application's route table. `VisitPath` gives what a path shows a given user, or where it redirects them.
- **Sidebar** (`Sidebar`). This covers the menu's visibility flags per role, the recursive rendering that hides an entry together with its children, row selection, and the role caption.
- **Pages**:
  - the categories settings page (`Categories`);
  - the invoice management list (`InvoiceList`);
  - the reports page (`Reports`);
  - the stand-alone invoice list (`InvoiceListPage`);
  - the sign-in page (`LoginPage`).

  Each page is a state record with pure transition functions. An API call's outcome is an input: `Responses.Response` is success with data, `success: false` with an optional message, or a throw.

Shared pieces:

- `Text` provides ASCII lower-casing, `includes`, the JavaScript whitespace set, `trim`, `split` and `join`.
- `Seqs` provides `filter` and `map`.
- `Invoices` holds the invoice records.

## Model

| member | source | states |
|---|---|---|
| Upload.Updated | src/components/InvoiceUpload/InvoiceDropZone.tsx:49-55 | An update keeps the list's length and every entry's file. It rewrites exactly the entries of the processed file and leaves every other entry equal. |
| Upload.Removed | src/components/InvoiceUpload/InvoiceDropZone.tsx:136-138 | After a removal no entry of the file is left. An entry survives iff it was present and belongs to another file. |
| Upload.RemovedAppend | src/components/InvoiceUpload/InvoiceDropZone.tsx:136-138 | Removal distributes over concatenation, so the remaining entries keep their order. |
| Upload.RemovedStaysRemoved | src/components/InvoiceUpload/InvoiceDropZone.tsx:49-55 | A file absent from the list stays absent through any sequence of events that never starts it again, because updates only map. |
| Upload.RemovalIsFinal | src/components/InvoiceUpload/InvoiceDropZone.tsx:136-138 | After `removeFile`, no later event except restarting that file can bring an entry for it back. |
| Upload.DropNeverResurrects | src/components/InvoiceUpload/InvoiceDropZone.tsx:102-124 | A removed file does not reappear after a later drop of other files. |
| Upload.RemovalDuringProcessing | src/components/InvoiceUpload/InvoiceDropZone.tsx:34-100 | Removing a file while its own processing is still running is final: the remaining progress, completion and error updates never re-add it. |
| Upload.ProgressSchedule | src/components/InvoiceUpload/InvoiceDropZone.tsx:47-56 | The progress values go 0, 10, ..., 100 and strictly increase. Status is uploading below 100 and becomes processing exactly at 100. |
| Upload.CompletionKeepsFileAndProgress | src/components/InvoiceUpload/InvoiceDropZone.tsx:89-98 | Completion sets status completed and attaches the result, keeping the file and the progress. |
| Upload.EntriesAreValid | src/components/InvoiceUpload/InvoiceDropZone.tsx:34-120 | At every point of a file's processing, its entry is valid: never pending, progress a multiple of 10 within 0 to 100, result iff completed, error iff failed. |
| Upload.LifecycleMonotone | src/components/InvoiceUpload/InvoiceDropZone.tsx:34-120 | While a file is processed, its progress never decreases and its status only moves forward along uploading, processing, then completed or error. |
| Upload.RunFile | src/components/InvoiceUpload/InvoiceDropZone.tsx:105-120 | One file's processing appends its final entry: completed with the result, or failed with the error message at the update where it threw. |
| Upload.RunFiles | src/components/InvoiceUpload/InvoiceDropZone.tsx:105-120 | Files of one drop are processed one after another; the list grows by their final entries in drop order. |
| Upload.DropOutcome | src/components/InvoiceUpload/InvoiceDropZone.tsx:102-124 | A whole drop leaves the old list followed by each file's final entry, every new entry valid, and the busy flag down. |
| Upload.BusyDuringDrop | src/components/InvoiceUpload/InvoiceDropZone.tsx:102-124 | `isUploading` holds in every state strictly inside a drop and is false after it. |
| Upload.SimulateOcrProcessing | src/components/InvoiceUpload/InvoiceDropZone.tsx:34-100 | The loop's result equals applying the file's events. For a new file that result is the old list plus one entry at progress 100, completed with the mock result. |
| Upload.ProcessFile | src/components/InvoiceUpload/InvoiceDropZone.tsx:106-119 | One iteration of the drop loop, the processing or its `catch`, has the effect of that file's events. For a file with no entry yet it appends exactly the file's final entries and keeps the busy flag. |
| Upload.OnDrop | src/components/InvoiceUpload/InvoiceDropZone.tsx:102-124 | The loop over the accepted files computes the drop's events, ends with the busy flag down, and appends the files' final entries. |
| Upload.RemoveFile | src/components/InvoiceUpload/InvoiceDropZone.tsx:136-138 | Removing deletes every entry of the file, keeps the others, and keeps the busy flag. Removing an absent file changes nothing. |
| Upload.StatusColor | src/components/InvoiceUpload/InvoiceDropZone.tsx:140-147 | Success is the colour exactly of completed, error exactly of error, info exactly of processing. Default is the colour exactly of pending and uploading, the statuses without a case. |
| Upload.StatusColorSeparatesLaterStatuses | src/components/InvoiceUpload/InvoiceDropZone.tsx:140-147 | Two statuses share a colour iff they are equal or both come before processing (pending or uploading). |
| Upload.StatusLabel | src/components/InvoiceUpload/InvoiceDropZone.tsx:229-233 | The chip's caption per status: 上傳中, 辨識中, 完成, 錯誤, and 等待中 for the remaining pending status. It has no contract of its own; its partner is `Upload.StatusLabelInjective`. |
| Upload.StatusLabelInjective | src/components/InvoiceUpload/InvoiceDropZone.tsx:229-233 | Each of the five statuses has its own label. |
| Session.FindUser | src/contexts/AuthContext.tsx:86 | `find` returns the first account with the email, or nothing iff no account has it. |
| Session.Login | src/contexts/AuthContext.tsx:81-95 | Login succeeds iff the password equals the table's password for the email and an account has that email. The session then becomes that account and is stored. A failure leaves session and storage untouched. |
| Session.TestAccountsLogIn | src/contexts/AuthContext.tsx:27-53 | Each of the three test accounts logs in with its listed password and gets its role; a wrong password fails. |
| Session.Logout | src/contexts/AuthContext.tsx:98-101 | Logout leaves no user and no stored entry. |
| Session.HasRole | src/contexts/AuthContext.tsx:104-112 | `hasRole` implies a signed-in user. It holds for the user's own role name, and for every argument when the user is an admin. |
| Session.IsAuthenticated | src/contexts/AuthContext.tsx:117 | `!!user` holds iff `hasRole` holds for some argument. |
| Session.HasRoleCases | src/contexts/AuthContext.tsx:104-112 | `hasRole` is false without a user and true for any argument for an admin. Otherwise it is role-name equality, and it implies authentication. |
| Session.Restore | src/contexts/AuthContext.tsx:67-78 | A parseable stored user becomes the session. An unparsable entry is removed and the session stays empty. A missing or empty entry changes nothing. |
| Session.SessionSurvivesReload | src/contexts/AuthContext.tsx:81-101 | Restoring from what a login stored gives the same session back; after a logout the restored session is empty. |
| AuthUtils.HasRole | src/utils/auth.ts:76-78 | The strict `hasRole` is `hasAnyRole` of the one-role list. |
| AuthUtils.HasAnyRole | src/utils/auth.ts:80-83 | False without a user or with an empty list. When it holds, the user's own role is in the list, so an admin gets no override. |
| AuthUtils.HasAnyRoleIsSome | src/utils/auth.ts:76-83 | `hasAnyRole` is false without a user and holds iff some listed role passes the strict `hasRole`. |
| AuthUtils.ContextRoleCheckAddsAdmin | src/utils/auth.ts:76-78 | The context's check of a role holds iff the strict check holds for that role or for admin: the two `hasRole`s differ exactly by the admin override. |
| AuthUtils.PermissionsOf | src/utils/auth.ts:107-132 | Every role may upload and view its own invoices. Viewing all invoices and reports is for every role but uploader. Managing users and settings is for admin only. |
| AuthUtils.HasPermission | src/utils/auth.ts:135-138 | A permission needs a user, and every user has the upload and own-invoice permissions. |
| AuthUtils.PermissionChain | src/utils/auth.ts:107-138 | No user has any permission; an admin has all six; the permission sets strictly grow from uploader to accountant to admin. |
| AuthUtils.NowSeconds | src/utils/auth.ts:49 | The current time in whole seconds is the millisecond clock divided by 1000, rounded down. |
| AuthUtils.IsAuthenticated | src/utils/auth.ts:42-56 | Authentication holds iff a non-empty token decodes and expires strictly after now. A token that fails to decode clears storage, and nothing else clears it. |
| AuthUtils.TokenTimeLeft | src/utils/auth.ts:86-97 | Time left is never negative. It is 0 without a decodable token or after expiry, and otherwise expiry minus now. |
| AuthUtils.ShouldRefresh | src/utils/auth.ts:100-103 | A refresh is due only for a token that still authenticates and expires less than 300 seconds from now. |
| AuthUtils.TokenHelpersAgree | src/utils/auth.ts:100-103 | Refresh is due iff the token still authenticates and expires within 300 seconds. Authentication holds iff time is left. |
| Text.Utf16Length | src/utils/auth.ts:159 | `length` counts UTF-16 code units: at least one and at most two per character, and exactly one per character iff no character lies outside the Basic Multilingual Plane. |
| AuthUtils.ValidatePassword | src/utils/auth.ts:153-179 | Valid iff there are no errors. Each of the four messages is present iff its rule fails: a length under 8 UTF-16 code units, no upper-case, no lower-case, no digit. The messages come in that fixed order, at most four. |
| AuthUtils.PasswordExampleValid | src/utils/auth.ts:159-173 | "Passw0rd" passes every rule. |
| AuthUtils.PasswordExampleShort | src/utils/auth.ts:159-173 | "abc" fails on length, upper-case and digit, in that order. |
| AuthUtils.AstralPasswordLength | src/utils/auth.ts:159 | "Aa1" followed by three emoji is six characters but eight code units, so it passes the length rule and is valid. |
| AuthUtils.IndexOf | src/utils/auth.ts:183 | Finds the first occurrence of a character, or reports its absence. |
| AuthUtils.ValidateEmail | src/utils/auth.ts:182-185 | An accepted address has at least five characters, no whitespace anywhere, does not start with '@', and holds exactly one '@'. |
| AuthUtils.ValidateEmailMatchesPattern | src/utils/auth.ts:182-185 | The validator accepts exactly the strings of the form a@b.c with a, b, c non-empty and free of whitespace and '@'. |
| AuthUtils.FormatUserRole | src/utils/auth.ts:141-150 | Every role has a non-empty label, so the `|| role` fallback is never taken. |
| AuthUtils.FormatUserRoleInjective | src/utils/auth.ts:141-150 | Distinct roles get distinct labels. |
| Routing.AnyHeld | src/components/ProtectedRoute.tsx:33 | `some` over the role list holds iff some listed role passes the context's `hasRole`. |
| Routing.Gate | src/components/ProtectedRoute.tsx:12-49 | Signed out: redirect to `redirectTo` (default '/login'), replacing, with the location. Signed in: render iff there is no list, the list is empty, or a role is held. Otherwise redirect to '/unauthorized' with the location and the roles. |
| Routing.AuthenticationFirst | src/components/ProtectedRoute.tsx:20-29 | Without a user the role list makes no difference. |
| Routing.AdminPassesEveryList | src/components/ProtectedRoute.tsx:32-48 | An authenticated admin passes every role list. |
| Routing.EmptyListIsNoList | src/components/ProtectedRoute.tsx:32 | An empty list behaves exactly like no list. |
| Routing.MoreRolesNeverDeny | src/components/ProtectedRoute.tsx:33 | A list containing every role of an admitting non-empty list admits too. |
| Routing.Match | src/App.tsx:94-158 | A path matches a public page iff it is '/login', '/register' or '/unauthorized'. It falls through to the redirect iff the table does not name it, and that redirect goes to '/dashboard'. Only '/dashboard' is guarded without a role list, and every role list includes admin. |
| Routing.VisitPath | src/App.tsx:94-158 | Public pages always show. Signed out, only public pages show. An admin sees exactly the paths the table names. |
| Routing.SignedInAccess | src/App.tsx:94-158 | A signed-in user sees a path iff the access table allows it: every known page, except reports for uploaders and category settings for non-admins. A denial goes to '/unauthorized' with the path and the route's roles. |
| Routing.MenuDestinations | src/App.tsx:97-156 | Per role: the dashboard and invoice pages show for everyone; reports iff not an uploader; category settings iff admin. |
| Routing.SignedOutAccess | src/App.tsx:94-156 | Signed out, only '/login', '/register' and '/unauthorized' show. Every guarded page redirects to '/login', remembering the path. |
| Routing.UnknownPathsGoToDashboard | src/App.tsx:157-158 | '/' and every path the table does not name redirect to '/dashboard' for everyone. |
| Routing.PublicAndDashboard | src/App.tsx:94-106 | The public pages show to anyone; '/dashboard' shows iff a user is signed in. |
| Sidebar.MenuItems | src/components/Sidebar/Sidebar.tsx:71-123 | The menu has four top-level entries, and the dashboard is always shown. Signed out, nothing but the dashboard shows; for an admin every entry shows. |
| Sidebar.IsSelected | src/components/Sidebar/Sidebar.tsx:150 | Exact equality of the pathname with the entry's path. It has no contract of its own; its partner is `Sidebar.SelectedRow`. |
| Sidebar.RenderItem | src/components/Sidebar/Sidebar.tsx:152-206 | A hidden entry renders nothing. A shown one renders its own row first, at the given level, highlighted only if it is a selected leaf. A leaf renders only that row, and no rendered row is at a shallower level. |
| Sidebar.RenderedAreShown | src/components/Sidebar/Sidebar.tsx:152-153 | A hidden entry renders nothing, its children included; every rendered row belongs to a shown entry. |
| Sidebar.MenuVisibility | src/components/Sidebar/Sidebar.tsx:71-123 | With the drawer open and both groups expanded: dashboard is always shown. The invoices group and both children show iff `hasRole('uploader')`. Reports shows iff `hasRole('accountant')`, and settings with its child iff `hasRole('admin')`. |
| Sidebar.SelectedRow | src/components/Sidebar/Sidebar.tsx:150 | A row is highlighted iff it is a leaf whose path equals the pathname exactly; at most one row is. |
| Sidebar.RoleCaption | src/components/Sidebar/Sidebar.tsx:318-319 | The caption is 管理員 for admin, 會計師 for accountant, 上傳者 otherwise. |
| Sidebar.RoleCaptionInjective | src/components/Sidebar/Sidebar.tsx:318-319 | Distinct roles get distinct captions. |
| Sidebar.AccountantMissesInvoices | src/components/Sidebar/Sidebar.tsx:83-97 | As written, an accountant's menu lacks the invoice list although the route table shows it to them. |
| Sidebar.CorrectedMenuMatchesRoutes | src/App.tsx:107-156 | With the invoices flag widened to accountants, each menu leaf is present iff the route table shows its page to the user. |
| Categories.ParseActive | src/pages/Settings/Categories.tsx:202 | `isActive === 'true'`. It has no contract of its own; its partner is `Categories.ActiveRoundTrip`. |
| Categories.FormatKeywords | src/pages/Settings/Categories.tsx:192 | `join(', ')`: no keywords give '', one keyword gives itself, and with more the first keyword is followed by ', '. Its partner is `Categories.KeywordsRoundTrip`. |
| Categories.ActiveRoundTrip | src/pages/Settings/Categories.tsx:191-202 | `isActive` round-trips bool to 'true'/'false' to bool, and back for the select's two values. |
| Categories.ParseKeywords | src/pages/Settings/Categories.tsx:203 | Every parsed keyword is non-empty, free of edge whitespace and free of commas. |
| Categories.KeywordsRoundTrip | src/pages/Settings/Categories.tsx:192 | Saving an unchanged edit form gives back the original keywords whenever they are non-empty, trimmed and comma-free. |
| Categories.FillForm | src/pages/Settings/Categories.tsx:184-195 | The edit form carries code and name. A missing description or parent becomes ''. `isActive` parses back, and well-formed keywords parse back. |
| Categories.SaveData | src/pages/Settings/Categories.tsx:198-206 | A save sends the form's fields, `isActive` true iff the text is 'true', and well-formed keywords. |
| Categories.EditSaveRoundTrip | src/pages/Settings/Categories.tsx:184-206 | Saving an unchanged edit form sends the category's own values back. |
| Categories.SaveEnabled | src/pages/Settings/Categories.tsx:487 | Code and name both non-empty. It has no contract of its own; its partner is `Categories.SaveButton`. |
| Categories.SaveButton | src/pages/Settings/Categories.tsx:487 | Save is disabled on a fresh form and, after an edit, enabled iff code and name are non-empty. Clearing code or name disables it; clearing another field leaves it as it was. |
| Categories.StartAdd | src/pages/Settings/Categories.tsx:165-181 | Add resets the form to the defaults (`isActive` 'true'), clears the edited category and opens the dialog. |
| Categories.StartEdit | src/pages/Settings/Categories.tsx:184-195 | Edit fills the form from the category, records it as edited and opens the dialog. |
| Categories.ChangeField | src/pages/Settings/Categories.tsx:253-268 | Typing sets one field and leaves every other field as it was. |
| Categories.SaveCallOf | src/pages/Settings/Categories.tsx:198-214 | A save updates the edited category by id, or creates one when none is edited. |
| Categories.Load | src/pages/Settings/Categories.tsx:73-91 | A successful load installs the server's categories; a refusal or a throw installs the mock list. |
| Categories.Save | src/pages/Settings/Categories.tsx:198-224 | Success closes the dialog, clears the error and reloads; the form, the edited category, the delete dialog and the selection are kept. A refusal shows the server's message, or '儲存失敗' without one. A throw shows '儲存類別時發生錯誤'. Neither failure changes anything else. |
| Categories.ConfirmDelete | src/pages/Settings/Categories.tsx:233-250 | Nothing happens without a selection. Success closes the dialog and reloads. A refusal or a throw only sets the matching error. |
| Categories.FailuresReport | src/pages/Settings/Categories.tsx:198-250 | Every failed save or delete leaves a non-empty error message. |
| Categories.ParentOptions | src/pages/Settings/Categories.tsx:442 | The options are all categories except the one being edited; when adding, all of them. |
| Categories.KeywordChips | src/pages/Settings/Categories.tsx:349-359 | Chips show the first min(3, n) keywords, plus a '+(n-3)' chip iff n > 3. |
| Categories.StatusChip | src/pages/Settings/Categories.tsx:271-277 | An active category gets 啟用 in success colour; an inactive one gets 停用 in default colour. |
| InvoiceList.StatusChip | src/pages/Invoices/List.tsx:49-59 | Each of processing, completed and error gets its own colour. The caption is 處理中 iff processing, 已完成 iff completed, 錯誤 iff error, and 待處理 iff the chip is the pending one. Any status outside the table gets the pending chip, and only pending-like statuses get the default colour. |
| InvoiceList.StatusChipFallback | src/pages/Reports.tsx:219-228 | Known statuses get distinct chips, and an unknown status looks exactly like pending. The reports page uses the same table. |
| InvoiceList.Search | src/pages/Invoices/List.tsx:203-206 | An invoice is kept iff its lowered file name contains the lowered term, or an OCR result exists whose lowered invoice number does. |
| InvoiceList.EmptySearchKeepsAll | src/pages/Invoices/List.tsx:203-206 | An empty term keeps every invoice, in order. |
| InvoiceList.SearchIgnoresCase | src/pages/Invoices/List.tsx:203-206 | Lower-casing the term changes nothing. |
| InvoiceList.SearchKeepsOrder | src/pages/Invoices/List.tsx:203-206 | The search distributes over concatenation, so the kept invoices keep their order. |
| InvoiceList.LongerTermNarrows | src/pages/Invoices/List.tsx:203-206 | Extending the term only removes invoices from the result. |
| InvoiceList.Shown | src/pages/Invoices/List.tsx:203-206 | The rows the search leaves: no more than the loaded invoices, an invoice is among them iff it was loaded and matches the term, and an empty term leaves the whole list in order. |
| InvoiceList.PageRows | src/pages/Invoices/List.tsx:373-374 | A page holds at most `rowsPerPage` rows. They are the consecutive rows from `page * rowsPerPage`, with `slice`'s clamping, and its length is exactly the rows remaining up to the page size. |
| InvoiceList.PagesArePrefix | src/pages/Invoices/List.tsx:373-374 | The first n pages laid end to end are exactly the first n times `rowsPerPage` rows: pages neither overlap nor skip. |
| InvoiceList.PagesCoverAll | src/pages/Invoices/List.tsx:373-374 | Enough pages show every row exactly once, in order. |
| InvoiceList.RowOnItsPage | src/pages/Invoices/List.tsx:373-374 | Row i is on page i div `rowsPerPage` at position i mod `rowsPerPage`. |
| InvoiceList.RequestOf | src/pages/Invoices/List.tsx:83-87 | The load asks for the one-based page and the page size, and sends the status filter unless it is empty. |
| InvoiceList.Load | src/pages/Invoices/List.tsx:78-107 | Success installs the items (missing means empty) and the total (missing means 0). A refusal or a throw installs the mock list and its length. The error is cleared and nothing else changes. |
| InvoiceList.ChangePage | src/pages/Invoices/List.tsx:209-211 | Changing page sets the page and nothing else. |
| InvoiceList.ChangeRowsPerPage | src/pages/Invoices/List.tsx:214-217 | A new page size resets the page to 0 and changes nothing else. |
| InvoiceList.ChangeStatusFilter | src/pages/Invoices/List.tsx:225-228 | A new status filter resets the page to 0 and changes nothing else. |
| InvoiceList.ChangeSearch | src/pages/Invoices/List.tsx:220-222 | A new search term keeps the page. |
| InvoiceList.ResetShowsFirstRows | src/pages/Invoices/List.tsx:214-228 | After either reset the table shows the start of the search result. |
| InvoiceList.DisplayedRows | src/pages/Invoices/List.tsx:373-374 | The table shows consecutive rows of the search result, starting at `page * rowsPerPage`. It shows exactly the rows remaining from there up to the page size, never more than `rowsPerPage` and never past the end. |
| InvoiceList.ServerPageBlankBeyondFirst | src/pages/Invoices/List.tsx:373-374 | As written, after a successful load on any page but the first, the table is empty when the server honoured the limit. |
| InvoiceList.CorrectedShowsServerPage | src/pages/Invoices/List.tsx:83-90 | With the correction, the table shows exactly the matching invoices of the server's page, at most `rowsPerPage` of them. |
| InvoiceList.MockListPages | src/pages/Invoices/List.tsx:110-196 | With the mock list, the second page of two rows shows the third and fourth mock invoices. |
| InvoiceList.RemoveId | src/pages/Invoices/List.tsx:253 | The filter keeps an invoice iff it was in the list and has another id. |
| InvoiceList.RemoveIdIdempotent | src/pages/Invoices/List.tsx:253 | Removing an id twice is removing it once; removing an id nobody has changes nothing. |
| InvoiceList.ConfirmDelete | src/pages/Invoices/List.tsx:247-262 | Nothing happens without a selection. Success removes exactly that id, closes the dialog and clears the selection. A refusal shows the message or '刪除失敗'; a throw shows '刪除發票時發生錯誤'. |
| InvoiceList.DeleteRemovesExactlyThatId | src/pages/Invoices/List.tsx:241-262 | Selecting an invoice and confirming a successful delete leaves none with its id and every other invoice in the list. |
| InvoiceList.SizeUnitOf | src/pages/Invoices/List.tsx:265-269 | The unit is bytes iff below 1024 and megabytes iff at least 1024 squared; kilobytes in between. |
| InvoiceList.ScaledSizeInRange | src/pages/Invoices/List.tsx:265-269 | For a positive size the chosen unit is at most the size. Below megabytes, the size is under 1024 of that unit. |
| InvoiceList.SizeUnitMonotone | src/pages/Invoices/List.tsx:265-269 | A larger file never gets a smaller unit. |
| InvoiceList.InvoiceNumberCell | src/pages/Invoices/List.tsx:397 | The cell is never empty: the OCR invoice number when there is a non-empty one, and '-' without an OCR result or with an empty number. |
| InvoiceList.AmountCell | src/pages/Invoices/List.tsx:402-405 | The amount shows iff there is an OCR result with a non-zero total, and then it is that total; otherwise '-'. |
| Reports.ParamsOf | src/pages/Reports.tsx:89-94 | A cleared date becomes ''. A set date is sent as is. An empty category or department is left out, and a non-empty one is sent. |
| Reports.ParamsRecoverFilters | src/pages/Reports.tsx:89-94 | The filters read back from the parameters: category and department (an omitted one as ''), and every set date. |
| Reports.ParamsIgnoreSearch | src/pages/Reports.tsx:89-94 | A frame fact beside `Reports.ParamsOf`: the parameters depend on the filters only, not on the search term or the loaded report. |
| Reports.Load | src/pages/Reports.tsx:84-107 | Success installs the server's report; a refusal or a throw installs the mock report. The error is cleared and the filters kept. |
| Reports.Filtered | src/pages/Reports.tsx:232-235 | With no report the list is empty. Otherwise an invoice is kept iff its lowered number or vendor contains the lowered term. |
| Reports.EmptySearchShowsAll | src/pages/Reports.tsx:232-235 | An empty term shows the whole invoice list, in order. |
| Reports.SearchIgnoresCase | src/pages/Reports.tsx:232-235 | Lower-casing the term changes nothing. |
| Reports.SearchKeepsOrder | src/pages/Reports.tsx:232-235 | The search keeps the list's order. |
| Reports.FailedLoadShowsMock | src/pages/Reports.tsx:96-107 | After a failed load with no term, the table shows the five mock invoices. |
| Reports.ExportFileName | src/pages/Reports.tsx:204 | The download is named 'report_', the date, '.', then the format. |
| Reports.ExportNamesDiffer | src/pages/Reports.tsx:204 | For dates of equal length, two exports share a name only if they share the date and the format. |
| Reports.Export | src/pages/Reports.tsx:189-216 | A blob gives a download named for date and format. No blob sets '匯出失敗，請稍後再試'; a throw sets '匯出過程中發生錯誤'. Nothing else changes. |
| InvoiceListPage.Search | src/pages/InvoiceListPage.tsx:130-134 | An invoice is kept iff the lowered term occurs in its lowered file name, or in its OCR invoice number or seller name. |
| InvoiceListPage.EmptySearchKeepsAll | src/pages/InvoiceListPage.tsx:130-134 | An empty term keeps every invoice, in order. |
| InvoiceListPage.SearchIgnoresCase | src/pages/InvoiceListPage.tsx:130-134 | Lower-casing the term changes nothing. |
| InvoiceListPage.SearchKeepsOrder | src/pages/InvoiceListPage.tsx:130-134 | The search keeps the list's order. |
| InvoiceListPage.WiderThanManagementList | src/pages/InvoiceListPage.tsx:130-134 | Whatever the management list's search keeps, this page's search keeps too. |
| InvoiceListPage.StatusColor | src/pages/InvoiceListPage.tsx:112-119 | completed gets success, processing warning, error error, and only those; anything else gets default. |
| InvoiceListPage.StatusText | src/pages/InvoiceListPage.tsx:121-128 | The caption is 已完成 iff the status is completed, 處理中 iff processing, 處理失敗 iff error, and 未知 iff it is none of the three. |
| InvoiceListPage.CaptionAndColourAgree | src/pages/InvoiceListPage.tsx:112-128 | A status is captioned unknown iff it gets the default colour. The colours agree with the management list's chips for every status. The captions agree for completed and processing and differ for error and for every unknown status. |
| InvoiceListPage.ClickView | src/pages/InvoiceListPage.tsx:228-231 | The view button opens the dialog on the invoice iff it is enabled; otherwise nothing changes. |
| InvoiceListPage.DetailShowsCompleted | src/pages/InvoiceListPage.tsx:230-235 | A detail dialog opened by clicking shows a completed invoice. |
| InvoiceListPage.ShowsEmptyState | src/pages/InvoiceListPage.tsx:248 | The empty-state message shows iff no invoice matches the term. |
| InvoiceListPage.FirstRender | src/pages/InvoiceListPage.tsx:43-97 | With no term all three invoices show, no empty state; the processing one has its actions disabled. |
| LoginPage.Target | src/pages/Login.tsx:49 | The post-login target is the remembered path when there is one, otherwise '/dashboard'. |
| LoginPage.SignedInRedirect | src/pages/Login.tsx:33-37 | A signed-in user is sent to '/dashboard', and only a signed-in user. |
| LoginPage.ChangeInput | src/pages/Login.tsx:59-67 | Typing sets that field and clears the error. |
| LoginPage.FillTestAccount | src/pages/Login.tsx:75-78 | Filling a test account sets both fields and clears the error. |
| LoginPage.TogglePassword | src/pages/Login.tsx:70-72 | The eye button flips the password's visibility and changes nothing else. |
| LoginPage.TogglePasswordTwice | src/pages/Login.tsx:70-72 | Two clicks on the eye button restore the page. |
| LoginPage.Submit | src/pages/Login.tsx:81-105 | A blank trimmed field sets '請輸入完整的登入資訊' without calling login. Acceptance navigates to the target, replacing. Rejection sets the wrong-credentials error; a throw sets the generic error. The submit flag is down after every call. |
| LoginPage.NavigationMeansSignedIn | src/pages/Login.tsx:93-99 | A submit navigates only with a signed-in user whose email is the form's, and changes the session only on accepted credentials. |
| LoginPage.TestAccountsSignIn | src/pages/Login.tsx:52-56 | Every listed test account signs in and navigates to the target. The resulting user's role gets the caption the list shows. |
| LoginPage.ReturnAfterSignIn | src/pages/Login.tsx:49-99 | A signed-out visit to a guarded path goes to '/login' remembering it. Signing in with a test account returns there, and the page then shows iff the role may see it. |

## Left out

- Timers: the 200 ms progress steps and the 2 s OCR delay are replaced by the order of the updates. Interleaving between two separate drops is not modelled; within one drop, files run one after another.
- react-dropzone's checks on accepted types, size (10 MB) and count (10 files) are library behaviour. The model starts from the files it accepted.
- The HTTP client and its interceptors (src/utils/api.ts) are not part of this model. Every call's outcome is an input: success with data, `success: false` with an optional message, or a throw.
- `AuthUtils.decodeToken` (base64, URI decoding, JSON parsing) is not modelled: the decoded payload, or its absence, is part of the stored token.
- `saveAuth`, `getToken`, `getUser` and `clearAuth` in src/utils/auth.ts are storage plumbing. Only the cleared state that `isAuthenticated` produces is modelled.
- JSON serialisation of the stored user: the storage entry is the user, an empty value, or text that does not parse.
- Clocks and dates: `Date.now` is a parameter in milliseconds. Dates are opaque strings, already formatted where a page formats them. The default three-month report range, `toLocaleString` and `toLocaleDateString` are not modelled.
- Floating point: amounts are exact reals. `toFixed` (the size numbers), confidence percentages and thousands separators are not modelled.
- Lower-casing is ASCII only. `toLowerCase` also folds non-ASCII letters, which this model leaves unchanged.
- InvoiceList.SizeUnitOf: models only the choice of unit, not the rounded number shown before it.
- InvoiceList.StatusChip: a look-up by a status equal to an inherited object key, such as 'constructor', is not modelled; such a status is treated like any other unknown one.
- Routing.Match: the router's case-insensitive matching and trailing-slash tolerance are not modelled; paths match exactly. The location a redirect carries is its pathname only.
- Session.User: the optional fields of the user type (avatar, department, timestamps) are not modelled.
- LoginPage.Submit: the scheduling between the post-login navigation and the page's signed-in redirect effect depends on React's rendering and is not modelled. The submit's own navigation is what the model states.
- Presentation only: JSX, Material UI, icons, charts, the theme, Dashboard.tsx, Invoices/Detail.tsx, Register.tsx, the upload pages and the layout.
- Mock payloads are constants, kept with the fields the model's records hold.
- A removal is final: every later update is a `map` over the current list, so a pending update cannot bring a removed entry back (`Upload.RemovalDuringProcessing`).

## Findings

| source | as written | input that shows it | evidently intended | confidence | as-written member | corrected member |
|---|---|---|---|---|---|---|
| src/components/Sidebar/Sidebar.tsx:83-97 | The invoices group and its two children show iff `hasRole('uploader')`, which is false for an accountant. | A signed-in accountant: the menu has no invoice list or upload entry, yet '/invoices' shows to them (src/App.tsx:107-116). | The menu shows the invoice pages to every role the route table admits. | medium, not executed | Sidebar.AccountantMissesInvoices | Sidebar.CorrectedMenuMatchesRoutes |
| src/pages/Invoices/List.tsx:373-374 | The server is asked for page `page + 1` limited to `rowsPerPage` (lines 83-87). The table then slices that single page again from `page * rowsPerPage`. | `page` = 1, `rowsPerPage` = 10, a successful answer with 10 items: the slice from 10 to 20 of a 10-item list is empty. | A server page is shown whole; only the full mock list is sliced on the client. | medium (assumes the server honours `limit`), not executed | InvoiceList.ServerPageBlankBeyondFirst | InvoiceList.CorrectedShowsServerPage |
