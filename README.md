# Employee management: verified model of the state and validation layer

This project models the logic of a small employee-management web application.
The application is a set of Lit web components over a Redux store. The model
covers the parts of it that are state and rules, not rendering:

- **The store.**
  - The employees reducer and the UI reducer, as pure functions over a state datatype.
  - The action alphabet (`ActionTypes.Action`) and the action creators.
  - The three asynchronous wrappers. Each is the fixed sequence of four actions it dispatches. A `Dispatcher` class applies each action to the employees slice as it is dispatched.
- **The employee form.**
  - The per-field rules, first failing rule wins. The three regular expressions are written as explicit character predicates, each with a lemma proving it accepts exactly the strings the pattern describes.
  - The whole-form validation loop, the input, submit, confirm, cancel and reset handlers, and the edit-mode initialisation, as methods of a class.
- **Pagination.**
  - The page count, the item range, the visible-page window, the page-change guard and the first/last/ellipsis decisions of the pagination control.
  - The page slices of the table and the card list.
- **Table and list helpers.** Phone formatting, the badge classes, and the three-flag delete-confirmation state of both views.
- **The edit page.** The lookup by id, the "not found" rule, the id taken from the URL path, and the choice between the error banner and the form.
- **Localization.**
  - The translation tables of both languages.
  - Dot-path lookup with fallback to the key, and `{{key}}` placeholder replacement.
  - The initial-language precedence, the language switch, the subscriber list and the notifications.
- **The toast manager.** An append/filter queue of notifications whose ids carry a counter that only grows.

Employee records are `map<string, string>`. The update overlay `{...employee, ...updates}` is therefore Dafny's right-biased map union `+`.

Ids are **not** assumed unique, because two records created in the same millisecond share an id. Update and delete are stated over every entry with the matching id.

The JavaScript built-ins the code relies on are modelled once, in module `Text`:
- `trim`, with the ECMAScript whitespace set;
- `toLowerCase` and `toUpperCase`, for ASCII and Latin-1, including the capitals outside Latin-1 (`ß` to `SS`, `ÿ` to U+0178, `µ` to U+039C);
- `split`, `indexOf`, `replace` with a global pattern, `slice` with negative indices, and `Number#toString`.

Inputs the model takes from outside:
- the clock: `now` for new ids, ISO-8601 stamps as text, and "today" for the date rules;
- date parsing, as a function in `EmployeeForm.DateContext`;
- whether the deferred work of an asynchronous wrapper throws before its mutation action is dispatched (a store listener that throws during that dispatch, after the mutation is applied, is not modelled);
- the saved language, the `<html lang>` value and the browser language.

Behaviour of the code worth noting:
- **Department and position.** The form accepts any non-blank value; it does not check the value against the listed departments and positions (`src/components/employee-form.js:332-337`).
- **Phone.** The pattern asks for at least ten characters drawn from digits, whitespace, `-`, `(` and `)`. It does not ask for ten digits (`src/components/employee-form.js:294`).
- **Form errors.** The errors are translation keys such as `validation.nameMinLength`. Neither language table has those keys, so the text shown is the key itself (`FormMessages.ErrorTextIsKey`).
- **Update and delete.** They act on every entry with the id.
- **Filtering.** There is no employee filtering function. The search, department and position filters only live in UI state, and the department and position filter actions are declared but unhandled.

## Model

| member | source | states |
|---|---|---|
| ActionTypes.TypeDeterminesKind | src/store/actions/types.js:1-23 | Two well-formed actions with the same `type` string are the same kind of action: the type constants are pairwise distinct |
| EmployeesReducer.Overlay | src/store/reducers/employees.js:37 | The overlaid record has the keys of both; every key of `updates` takes the update's value, every other key keeps the old one |
| EmployeesReducer.UpdateListAt | src/store/reducers/employees.js:32-41 | The updated list has the same length; position `i` is the overlay of entry `i` when that entry has the id, and entry `i` itself otherwise |
| EmployeesReducer.RemoveIdMembers | src/store/reducers/employees.js:43-50 | A record is in the filtered list iff it was in the list and does not have the id |
| EmployeesReducer.RemoveIdConcat | src/store/reducers/employees.js:47 | Filtering a concatenation is filtering each part: the survivors keep their order |
| EmployeesReducer.RemoveIdAbsent | src/store/reducers/employees.js:47 | When no entry has the id, the filter returns the list unchanged |
| EmployeesReducer.RemoveIdLength | src/store/reducers/employees.js:47 | Filtering removes exactly as many entries as have the id |
| EmployeesReducer.AddAppends | src/store/reducers/employees.js:25-30 | ADD_EMPLOYEE grows the list by one, keeps the earlier entries, puts the payload last, clears the error and keeps loading |
| EmployeesReducer.UpdateOverlays | src/store/reducers/employees.js:32-41 | UPDATE_EMPLOYEE keeps length and order; every entry with the id becomes old record overlaid by the updates (updates win, other keys kept); the other entries are untouched; the error is cleared and loading kept |
| EmployeesReducer.DeleteFilters | src/store/reducers/employees.js:43-50 | DELETE_EMPLOYEE keeps exactly the entries without the id, removes one entry per match, leaves the list as it was for an absent id, clears the error and keeps loading |
| EmployeesReducer.SetEmployeesAndLoading | src/store/reducers/employees.js:19-23 | SET_EMPLOYEES replaces the list and keeps loading and error; SET_LOADING changes only loading |
| EmployeesReducer.ErrorActions | src/store/reducers/employees.js:58-69 | SET_ERROR sets the error and forces loading off; CLEAR_ERROR clears the error and keeps loading; neither touches the list |
| EmployeesReducer.OtherActionsIgnored | src/store/reducers/employees.js:71-72 | Every action outside the seven employee actions leaves the state as it was |
| EmployeesReducer.RunConcat | src/store/reducers/employees.js:17-73 | Reducing two sequences of actions one after the other is reducing their concatenation |
| UiReducer.SearchResetsPage | src/store/reducers/ui.js:39-50 | SET_SEARCH_FILTER sets the search term, returns to page 1, keeps the page size, the other two filters and the other fields |
| UiReducer.ItemsPerPageResetsPage | src/store/reducers/ui.js:61-69 | SET_ITEMS_PER_PAGE sets the page size and returns to page 1, whatever the page was; nothing else changes |
| UiReducer.CurrentPageOnly | src/store/reducers/ui.js:52-59 | SET_CURRENT_PAGE changes the current page and nothing else |
| UiReducer.OwnFieldOnly | src/store/reducers/ui.js:27-37 | SET_VIEW_MODE, SET_CURRENT_ROUTE and SET_LANGUAGE each change their own field and nothing else |
| UiReducer.UnhandledIgnored | src/store/reducers/ui.js:77-78 | Actions the UI reducer does not handle, among them SET_DEPARTMENT_FILTER, SET_POSITION_FILTER and CLEAR_FILTERS, leave the UI state as it was |
| UiReducer.Idempotent | src/store/reducers/ui.js:25-79 | Applying any action twice gives the state of applying it once |
| EmployeeActions.NewEmployee | src/store/actions/employees.js:13-21 | The stored record keeps every input field except `id`, `createdAt` and `updatedAt`, which take the generated values |
| EmployeeActions.AddEmployeeAction | src/store/actions/employees.js:13-21 | `addEmployee` gives a well-formed ADD_EMPLOYEE action whose record has the id made from the clock |
| EmployeeActions.UpdateEmployeeAction | src/store/actions/employees.js:23-32 | `updateEmployee` carries the given id; its updates are the input with `updatedAt` added or overridden |
| EmployeeActions.PlainCreators | src/store/actions/employees.js:34-57 | `deleteEmployee`, `setEmployees`, `setLoading` and `setError` give their own type and carry the argument unchanged; `clearError` has no payload |
| EmployeeActions.Dispatched | src/store/actions/employees.js:59-117 | A wrapper dispatches exactly four actions: loading on, clear error, then the mutation (or SET_ERROR with the thrown message), then loading off |
| EmployeeActions.RunFour | src/store/actions/employees.js:59-117 | Dispatching four actions is reducing them in order |
| EmployeeActions.PendingState | src/store/actions/employees.js:60-61 | Before the delay the slice shows loading and no error, and the list is untouched |
| EmployeeActions.FailureFold | src/store/actions/employees.js:70-74 | The failure sequence ends with the list as it was, loading off and the message as the error |
| EmployeeActions.AddSuccessFold | src/store/actions/employees.js:59-77 | The success sequence of `addEmployeeAsync` ends with the stamped record appended, loading off and no error |
| EmployeeActions.UpdateSuccessFold | src/store/actions/employees.js:79-97 | The success sequence of `updateEmployeeAsync` overlays every entry with the id, with loading off and no error |
| EmployeeActions.DeleteSuccessFold | src/store/actions/employees.js:99-117 | The success sequence of `deleteEmployeeAsync` ends with no entry having the id, loading off and no error |
| EmployeeActions.Dispatcher.constructor | src/store/actions/employees.js:59 | An empty log over the given state |
| EmployeeActions.Dispatcher.Dispatch | src/store/actions/employees.js:59-117 | Appends the action to the log and reduces the state by it; the state stays the reduction of the whole log |
| EmployeeActions.Dispatcher.DispatchAsync | src/store/actions/employees.js:59-117 | Logs exactly the four-action sequence, leaves the state its reduction, and resolves or rejects with the thrown message |
| EmployeeActions.Dispatcher.AddEmployeeAsync | src/store/actions/employees.js:59-77 | Logs the add sequence; on success the record is appended with loading off and no error, on failure the list is kept and the message becomes the error |
| EmployeeActions.Dispatcher.UpdateEmployeeAsync | src/store/actions/employees.js:79-97 | Logs the update sequence; on success every entry with the id is overlaid, on failure the list is kept and the message becomes the error |
| EmployeeActions.Dispatcher.DeleteEmployeeAsync | src/store/actions/employees.js:99-117 | Logs the delete sequence; on success the entries with the id are filtered out, on failure the list is kept and the message becomes the error |
| Text.Trim | src/components/employee-form.js:256 | The trimmed string is a slice of the input with only whitespace cut on either side, and does not start or end with whitespace |
| Text.BlankIffAllWhitespace | src/components/employee-form.js:264 | A value trims to empty iff every character is whitespace |
| Text.JoinSplit | src/localization/localization-service.js:88 | Joining the pieces of a split with the separator gives the string back |
| Text.SplitJoin | src/localization/localization-service.js:88 | Splitting a join of separator-free pieces gives the pieces back |
| Text.SplitFirst | src/localization/localization-service.js:26 | The first piece of a split is the text before the first separator |
| Text.ReplaceAllAbsent | src/localization/localization-service.js:118 | Replacing a pattern that does not occur leaves the text unchanged |
| Text.ReplaceAllFirst | src/localization/localization-service.js:118 | The first occurrence of the pattern is replaced, then the scan goes on after it |
| Text.ReplaceAllSelf | src/localization/localization-service.js:118 | Replacing a pattern by itself leaves the text unchanged |
| Text.ParseNatToString | src/store/actions/employees.js:17 | The decimal digits of a number read back as that number |
| Text.NatToStringInjective | src/store/actions/employees.js:17 | Different numbers have different decimal strings |
| Text.SliceIndex | src/components/employee-table.js:400 | `slice` clamps an index to the length and counts a negative one from the end |
| Text.SliceNonNegative | src/components/employee-table.js:400 | With non-negative bounds, `slice` is the ordinary subsequence clamped to the end of the list |
| EmployeeForm.KeyText | src/components/employee-form.js:257-335 | Every error is a key of the `validation.` section |
| EmployeeForm.AllFieldsComplete | src/components/employee-form.js:42-53 | The form has exactly the eight fields |
| EmployeeForm.EmailShapeIff | src/components/employee-form.js:266 | The explicit email check accepts exactly the strings `local@host.suffix` with three non-empty parts free of whitespace and `@` |
| EmployeeForm.PhoneShapeIff | src/components/employee-form.js:294 | The explicit phone check accepts exactly an optional `+` followed by ten or more characters from digits, whitespace, `-`, `(` and `)` |
| EmployeeForm.AnySameEmailIff | src/components/employee-form.js:270-287 | The uniqueness test finds a clash iff some non-skipped existing record has a non-empty email equal to the value ignoring case |
| EmployeeForm.NameAccepted | src/components/employee-form.js:254-261 | A name passes iff its trimmed value has two or more characters, all letters, Latin-1 letters or whitespace; the length error is given iff the trimmed value is shorter than two |
| EmployeeForm.EmailBlankRequired | src/components/employee-form.js:264-265 | `emailRequired` is given iff the value is all whitespace |
| EmployeeForm.EmailAccepted | src/components/employee-form.js:263-289 | An email passes iff its trimmed value is non-empty, has the email shape and clashes with no existing record |
| EmployeeForm.OwnEmailNotTaken | src/components/employee-form.js:271-279 | In edit mode, records with the edited record's id never make the email taken |
| EmployeeForm.ScenarioInput | src/components/employee-form.js:266 | `B@X.com` is already trimmed and has the email shape |
| EmployeeForm.DuplicateEmailOnCreate | src/components/employee-form.js:270-287 | Creating with `B@X.com` while `b@x.com` is stored reports `emailExists` |
| EmployeeForm.DuplicateEmailOwnRecord | src/components/employee-form.js:270-287 | Editing the record that owns `b@x.com` accepts `B@X.com`, because that record is skipped |
| EmployeeForm.PhoneBlankRequired | src/components/employee-form.js:292-293 | `phoneRequired` is given iff the value is all whitespace |
| EmployeeForm.PhoneAccepted | src/components/employee-form.js:291-297 | A phone passes iff its trimmed value is non-empty and matches the phone pattern |
| EmployeeForm.SelectionAccepted | src/components/employee-form.js:332-337 | Department and position pass iff the value has a non-whitespace character; there is no list of allowed values |
| EmployeeForm.UnparsableDates | src/components/employee-form.js:299-318 | A non-empty value that does not parse is `dateInvalid` for both date fields |
| EmployeeForm.FutureBirthWins | src/components/employee-form.js:320-327 | A birth date after today is `dateBirthFuture`, even when the age is also out of range |
| EmployeeForm.BirthDateAccepted | src/components/employee-form.js:311-330 | A birth date passes iff it parses, is not after today, and today's year minus its year lies in 16..100 |
| EmployeeForm.ErrorsOver | src/components/employee-form.js:343-353 | A field has an entry iff it is among the fields taken and its rule fails |
| EmployeeForm.CollectStep | src/components/employee-form.js:346-349 | Taking one more field adds its error, if it has one, and changes nothing else |
| EmployeeForm.ErrorsOverCollect | src/components/employee-form.js:346-349 | The error map is the errors among the fields' rule outcomes |
| EmployeeForm.FormErrorsMeaning | src/components/employee-form.js:343-353 | The form has no errors iff every field passes its rule |
| EmployeeForm.FormErrorsOwn | src/components/employee-form.js:343-353 | Every error in the map is that field's own error |
| EmployeeForm.EmptyValueRejected | src/components/employee-form.js:250-341 | Every field rejects the empty value with its first rule's error |
| EmployeeForm.EmptyFormErrors | src/components/employee-form.js:343-353 | The all-empty form has exactly eight errors, each that field's empty-value error |
| EmployeeForm.RefreshError | src/components/employee-form.js:359-369 | After the refresh the field has an error iff its fresh check gives one; every other field's error is unchanged |
| EmployeeForm.FormDataOf | src/components/employee-form.js:60-68 | Edit mode loads each of the eight fields from the record, `''` when missing |
| EmployeeForm.CollectErrors | src/components/employee-form.js:344-349 | The loop over the fields gathers exactly the form's error map |
| EmployeeForm.EmployeeFormElement.constructor | src/components/employee-form.js:26-35 | No record, create mode, no errors, no list, no confirmation, the empty form |
| EmployeeForm.EmployeeFormElement.StateChanged | src/components/employee-form.js:37-40 | Takes the store's list (empty when null) and its loading flag; nothing else changes |
| EmployeeForm.EmployeeFormElement.InitializeFormData | src/components/employee-form.js:42-53 | Every field becomes empty; nothing else changes |
| EmployeeForm.EmployeeFormElement.Updated | src/components/employee-form.js:55-70 | When the record changed to a value: edit mode and the record's values; otherwise nothing changes |
| EmployeeForm.EmployeeFormElement.ValidateForm | src/components/employee-form.js:343-353 | Stores the form's error map and returns true iff every field passes |
| EmployeeForm.EmployeeFormElement.ReplaceError | src/components/employee-form.js:359-369 | The error map becomes the refreshed map for that field |
| EmployeeForm.EmployeeFormElement.HandleInputChange | src/components/employee-form.js:355-371 | Stores the value; that field's error becomes exactly its fresh error or none; every other error and every other field is kept |
| EmployeeForm.EmployeeFormElement.HandleSubmit | src/components/employee-form.js:373-387 | Validates; an invalid form is rejected; a valid one asks for confirmation in edit mode and is created with the form values otherwise |
| EmployeeForm.EmployeeFormElement.HandleUpdateConfirmed | src/components/employee-form.js:420-453 | Closes the confirmation and requests the update of the edited record's id with the form values |
| EmployeeForm.EmployeeFormElement.HandleUpdateCancelled | src/components/employee-form.js:455-457 | Closes the confirmation and changes nothing else |
| EmployeeForm.EmployeeFormElement.HandleReset | src/components/employee-form.js:468-484 | Clears the errors and reloads the record's values in edit mode, the empty form otherwise |
| FormMessages.ValidationSections | src/localization/languages/en.js:45-51 | Both tables' validation sections hold exactly the same five keys |
| FormMessages.UnlistedNameUntranslated | src/localization/localization-service.js:94-99 | A validation key missing from the tables translates to itself, in every language |
| FormMessages.FormNamesUnlisted | src/components/employee-form.js:257-335 | None of the form's twelve error names is in the tables' validation section |
| FormMessages.ErrorTextIsKey | src/components/employee-form.js:257-335 | The text shown for every form error, in every language, is its key |
| Pagination.TotalPagesBounds | src/components/pagination.js:165-167 | The page count is the ceiling of items over page size, and zero iff there are no items |
| Pagination.ItemRange | src/components/pagination.js:169-176 | On an existing page the range lies within 1..total and holds the page size, or what is left on the last page |
| Pagination.Range | src/components/pagination.js:187-195 | The run holds `count` consecutive numbers from `from` |
| Pagination.TenPagesExample | src/components/pagination.js:178-196 | With 100 items, 10 per page and 5 visible, page 1 shows 1..5 and page 9 shows 6..10 |
| Pagination.WindowAll | src/components/pagination.js:183-185 | When all pages fit, the window is exactly 1..totalPages |
| Pagination.WindowShape | src/components/pagination.js:187-195 | Otherwise the window is `maxVisiblePages` consecutive pages inside 1..totalPages, starting at current minus half the maximum clamped at both ends |
| Pagination.WindowWithin | src/components/pagination.js:178-196 | Every visible page lies within 1..totalPages, they are consecutive, and there is one when there are pages |
| Pagination.WindowHasCurrent | src/components/pagination.js:178-196 | The window contains the current page |
| Pagination.PageChangeGuard | src/components/pagination.js:198-208 | A change is emitted only for an existing page other than the current one; previous on page 1 and next on the last page emit nothing; every other visible page emits itself |
| Pagination.RenderEnds | src/components/pagination.js:235-275 | The first button shows iff page 1 is not visible, the leading ellipsis iff page 2 is not visible either, and alike for the last page; something is rendered when there are items |
| EmployeeTable.PageIsSegment | src/components/employee-table.js:393-401 | From page 1 on, a page is the items from its first index, cut at the end of the list |
| EmployeeTable.SegmentFrom | src/components/employee-table.js:398-400 | The slice from a non-negative start is the clamped subsequence |
| EmployeeTable.PageMatchesRange | src/components/employee-table.js:393-401 | The rows of an existing page are exactly the items the pagination control reports as shown |
| EmployeeTable.PagesUpToPrefix | src/components/employee-table.js:393-401 | The first k pages together are the first k × n items |
| EmployeeTable.AllPagesConcat | src/components/employee-table.js:393-401 | Reading every page in order gives back the whole list |
| EmployeeTable.TwentyFiveRecords | src/components/employee-table.js:393-401 | Twenty-five records at ten per page give pages of 10, 10 and 5 rows, then none |
| EmployeeTable.FirstDigitRun | src/components/employee-table.js:294 | The position found is the leftmost run of ten digits, or there is none |
| EmployeeTable.DigitsOfConcat | src/components/employee-table.js:294 | The digits of a concatenation are the digits of each part |
| EmployeeTable.DigitsOfAllDigits | src/components/employee-table.js:294 | A string of digits is its own digits |
| EmployeeTable.GroupedKeepsDigits | src/components/employee-table.js:294 | Grouping ten digits adds four characters and keeps the digits |
| EmployeeTable.FormatPhoneKeepsDigits | src/components/employee-table.js:292-295 | Formatting never changes a phone's digits or their order |
| EmployeeTable.FormatPhoneFrame | src/components/employee-table.js:292-295 | A phone without ten consecutive digits is returned unchanged; otherwise the first run of ten digits is replaced by `(ddd) ddd-dddd` built from those digits, with the text before and after kept |
| EmployeeTable.FormatPhoneExample | src/components/employee-table.js:294 | `5551234567` becomes `(555) 123-4567` |
| EmployeeTable.FormatPhoneMissing | src/components/employee-table.js:293 | A missing or empty phone shows `-` |
| EmployeeTable.DepartmentClass | src/components/employee-table.js:297-306 | `analytics` in any case gets the analytics class, everything else the tech class |
| EmployeeTable.PositionClass | src/components/employee-table.js:308-319 | `medior` and `senior` in any case get their own class, everything else the junior class |
| EmployeeTable.ClassesIgnoreCase | src/components/employee-table.js:297-319 | The classes depend only on the lower-cased value |
| EmployeeTable.EmployeeTableElement.constructor | src/components/employee-table.js:19-28 | An empty list, page 1 of 10, no record chosen and the modal closed |
| EmployeeTable.EmployeeTableElement.HandleDelete | src/components/employee-table.js:336-343 | Chooses the record and opens the modal; the listing is kept |
| EmployeeTable.EmployeeTableElement.HandleDeleteConfirmed | src/components/employee-table.js:345-355 | Sets the delete spinner and emits the chosen record, with no null check; the modal stays open exactly while a record is chosen, so a confirmation from the open modal emits a record |
| EmployeeTable.EmployeeTableElement.HandleDeleteCancelled | src/components/employee-table.js:357-361 | Resets the three delete flags |
| EmployeeTable.EmployeeTableElement.CloseDeleteModal | src/components/employee-table.js:363-371 | Resets the three delete flags |
| EmployeeList.SameRowsAsTable | src/components/employee-list.js:404-408 | Without the table's null and empty guard, the list still slices the same rows |
| EmployeeList.TwentyFiveCards | src/components/employee-list.js:404-408 | Twenty-five records at ten per page give pages of 10, 10 and 5 cards |
| EmployeeList.PageBeforeFirst | src/components/employee-list.js:404-408 | Page 0 is empty and page -1 shows items 5..14, because a negative start counts from the end |
| EmployeeList.ListFormatPhone | src/components/employee-list.js:321-323 | The card shows the phone unchanged, `''` when missing |
| EmployeeList.PhoneViewsCompared | src/components/employee-list.js:321-323 | The card and the table agree on a phone without ten consecutive digits, and differ on the empty phone |
| EmployeeList.EmployeeListElement.constructor | src/components/employee-list.js:19-28 | An empty list, page 1 of 10, no record chosen and the modal closed |
| EmployeeList.EmployeeListElement.HandleDelete | src/components/employee-list.js:354-357 | Chooses the record and opens the modal |
| EmployeeList.EmployeeListElement.HandleDeleteConfirmed | src/components/employee-list.js:359-370 | Sets the spinner and emits only when a record is chosen; otherwise nothing changes. The flags stay consistent, so a confirmation from the open modal emits a record |
| EmployeeList.EmployeeListElement.HandleDeleteCancelled | src/components/employee-list.js:372-376 | Resets the three delete flags |
| EmployeeList.EmployeeListElement.CloseDeleteModal | src/components/employee-list.js:378-382 | Resets the three delete flags |
| EditEmployeePage.FindByIdMeaning | src/pages/edit-employee-page.js:29-33 | Nothing is found iff no entry has the id; otherwise the result is the first entry with the id |
| EditEmployeePage.ExtractId | src/pages/edit-employee-page.js:126-134 | An id is what follows the leftmost occurrence of `/edit-employee/` and is non-empty; there is none iff every occurrence ends the path |
| EditEmployeePage.ExtractIdRoundTrip | src/pages/edit-employee-page.js:126-134 | The id is read back from `/edit-employee/<id>` |
| EditEmployeePage.Render | src/pages/edit-employee-page.js:159-170 | The error banner shows iff there is an error or no record, with the error or "Employee not found"; otherwise the form gets the record |
| EditEmployeePage.EditEmployeePageElement.constructor | src/pages/edit-employee-page.js:15-21 | No id, no record, not loading, no error |
| EditEmployeePage.EditEmployeePageElement.StateChanged | src/pages/edit-employee-page.js:23-39 | Copies loading; with an id, the record is the first match; with no match and not loading the error is "Employee not found", otherwise the store's error; with no id the record is kept |
| EditEmployeePage.EditEmployeePageElement.OnBeforeEnter | src/pages/edit-employee-page.js:121-124 | Takes the route's id and lets the navigation proceed |
| EditEmployeePage.EditEmployeePageElement.ExtractEmployeeIdFromLocation | src/pages/edit-employee-page.js:126-134 | Acts only when no id is set, and then takes the id from the path when there is one |
| EditEmployeePage.MissingRecordShowsError | src/pages/edit-employee-page.js:23-39 | An id no entry has finds nothing and renders the error banner, "Employee not found" once loading is over |
| LocalizationService.TextAtStored | src/localization/localization-service.js:78-103 | A path of keys that leads to a string gives that string |
| LocalizationService.TextAtFallback | src/localization/localization-service.js:94-99 | A path that runs out or ends on an object gives the path back |
| LocalizationService.TranslateEnglishEntry | src/localization/languages/en.js:53-54 | `common.yes` is `Yes` in English |
| LocalizationService.TranslateTurkishEntry | src/localization/languages/tr.js:53-54 | `common.yes` is `Evet` in Turkish |
| LocalizationService.TranslateObjectPath | src/localization/localization-service.js:94-99 | A path to a section, not a string, gives the path back |
| LocalizationService.TranslateUnknownLanguage | src/localization/localization-service.js:79-86 | An unknown language gives the path back |
| LocalizationService.Placeholder | src/localization/localization-service.js:117 | The pattern for key `k` is `{{k}}` |
| LocalizationService.FillWithoutPlaceholders | src/localization/localization-service.js:112-122 | Text without `{{` is returned unchanged, whatever the placeholders |
| LocalizationService.FillOne | src/localization/localization-service.js:112-122 | A single `{{k}}` between brace-free text is replaced by the value |
| LocalizationService.InitialLanguage | src/localization/localization-service.js:15-32 | The initial language always has a table: the saved value if it is non-empty and supported, else the page language if so, else the browser language's part before `-` if so, else `en` |
| LocalizationService.InitialLanguageSavedFirst | src/localization/localization-service.js:15-24 | A supported saved value wins; an unsupported one gives way to the page language |
| LocalizationService.InitialLanguageBrowser | src/localization/localization-service.js:26-29 | The browser language counts by its part before `-` |
| LocalizationService.InitialLanguageDefault | src/localization/localization-service.js:31 | With none of the three supported, the language is English |
| LocalizationService.AvailableLanguages | src/localization/localization-service.js:68-70 | The codes are exactly the languages that have a table, once each, in the order `en`, `tr` |
| LocalizationService.LanguageName | src/localization/localization-service.js:156-172 | The name from the current language's name table, otherwise the upper-cased code |
| Text.Upper | src/localization/localization-service.js:170 | `toUpperCase` lengthens the text by one for each `ß` and otherwise upper-cases character by character |
| Text.UpperSpecial | src/localization/localization-service.js:170 | `ß` becomes `SS`, `ÿ` becomes U+0178 and `µ` becomes U+039C |
| LocalizationService.RemoveFirstMeaning | src/localization/localization-service.js:133-138 | Unsubscribing an absent callback changes nothing; otherwise one occurrence of it goes and the rest stay |
| LocalizationService.SubscribeUnsubscribe | src/localization/localization-service.js:129-139 | Unsubscribing right after subscribing a new callback restores the list |
| LocalizationService.Calls | src/localization/localization-service.js:141-149 | Each subscriber is called once, in registration order, with the language |
| LocalizationService.FirstIndex | src/localization/localization-service.js:134-135 | `indexOf` finds the first occurrence, or the callback is absent |
| LocalizationService.RemoveAtFirstIndex | src/localization/localization-service.js:134-137 | Removing the first occurrence is splicing at its index |
| LocalizationService.LocalizationServiceObject.constructor | src/localization/localization-service.js:5-13 | Starts in the initial language with no subscribers |
| LocalizationService.LocalizationServiceObject.GetText | src/localization/localization-service.js:78-103 | The loop walks the path in the chosen language's table and gives the translation |
| LocalizationService.LocalizationServiceObject.GetTextWithPlaceholders | src/localization/localization-service.js:112-122 | The loop gives the translation with every placeholder replaced |
| LocalizationService.LocalizationServiceObject.NotifySubscribers | src/localization/localization-service.js:141-149 | Records one call per subscriber, in order, with the current language |
| LocalizationService.LocalizationServiceObject.SetLanguage | src/localization/localization-service.js:38-54 | An unsupported code changes nothing and notifies no one; a supported one becomes current and every subscriber is notified with it |
| LocalizationService.LocalizationServiceObject.Subscribe | src/localization/localization-service.js:129-130 | Appends the callback |
| LocalizationService.LocalizationServiceObject.Unsubscribe | src/localization/localization-service.js:133-138 | Removes the first occurrence of the callback, if any |
| LocalizationService.LocalizationServiceObject.GetLanguageName | src/localization/localization-service.js:156-172 | The name from the current language's name table, otherwise the upper-cased code |
| ToastManager.ToastIdParts | src/components/toast-manager.js:47 | An id splits at its dashes into `toast`, the counter and the clock |
| ToastManager.IdCounterOfToastId | src/components/toast-manager.js:47 | The counter is read back from the id |
| ToastManager.ToastIdsDistinct | src/components/toast-manager.js:47 | Ids made with different counters differ, whatever the clock |
| ToastManager.RemoveMembers | src/components/toast-manager.js:62-65 | A toast survives iff it was there with another id |
| ToastManager.RemoveConcat | src/components/toast-manager.js:62-65 | Filtering keeps the survivors in order |
| ToastManager.RemoveUnknown | src/components/toast-manager.js:62-65 | An unknown id leaves the queue as it is |
| ToastManager.RemoveKeepsIncreasing | src/components/toast-manager.js:62-65 | Filtering keeps the counters increasing from front to back |
| ToastManager.RemoveDropsOne | src/components/toast-manager.js:62-65 | In a queue of increasing counters, removing a toast's id drops exactly that toast |
| ToastManager.ToastManagerElement.constructor | src/components/toast-manager.js:11-15 | No toasts, counter 0 |
| ToastManager.ToastManagerElement.AddToast | src/components/toast-manager.js:46-60 | Bumps the counter by one, appends one toast with the defaults `info`, 4000 and `''`, returns its id `toast-<counter>-<now>`, an id no earlier toast has |
| ToastManager.ToastManagerElement.RemoveToast | src/components/toast-manager.js:62-65 | Removes every toast with the id and keeps the order of the others |
| ToastManager.ToastManagerElement.HandleToastClose | src/components/toast-manager.js:67-70 | Behaves as `removeToast` with the event's id |
| ToastManager.ToastManagerElement.Success | src/components/toast-manager.js:72-74 | A `success` toast, 4000 ms by default |
| ToastManager.ToastManagerElement.Error | src/components/toast-manager.js:76-78 | An `error` toast, 6000 ms by default |
| ToastManager.ToastManagerElement.Warning | src/components/toast-manager.js:80-82 | A `warning` toast, 5000 ms by default |
| ToastManager.ToastManagerElement.Info | src/components/toast-manager.js:84-86 | An `info` toast, 4000 ms by default |
| ToastManager.CloseFirstOfTwo | test/components/toast-manager_test.js:110-122 | Closing the first of two fresh toasts leaves only the second |

## Left out

- Rendering, CSS, the Lit lifecycle and the presentational components (modals, buttons, spinner, toast, navigation bar, search bar): the model keeps only the branch decisions.
- Timers: the delays in the asynchronous wrappers, the search debounce and the toast auto-hide. Two wrappers running at once are not modelled, since each wrapper is its dispatch sequence.
- Date parsing, `Date.now`, `toISOString` and the date formatting are parameters. The date comparison uses a (year, month, day) triple, so the time of day and the time zone of "today" are not modelled.
- Strings are sequences of code points, not UTF-16 units. `toLowerCase` and `toUpperCase` are modelled for ASCII and Latin-1 only: characters above U+00FF are kept unchanged, though JavaScript changes many of them (Greek, Cyrillic and other cased scripts).
- Text.NatToString: a timestamp of 10^21 ms or more would print in exponent notation in JavaScript; the model always prints the digits.
- LocalizationService.Fill: keys and values are taken literally. The source builds `new RegExp(`{{${key}}}`, 'g')`, which is a literal pattern only for some keys. A key holding regular-expression metacharacters, or a key such as `1` for which `{{1}}` reads as the quantifier `{1}` under the web-compatibility grammar, leaves the source's placeholder unreplaced where the model replaces it. `$` patterns in a value are not expanded either.
- LocalizationService.Translate: keys inherited from `Object.prototype` (such as `constructor`) are not modelled, since the tables are plain maps. The same holds for `setLanguage`'s `this.languages[language]` test.
- LocalizationService.InitialLanguage: the source's `this.languages[x]` tests also accept inherited keys. A saved value `constructor`, a page language `toString` or a browser language `constructor-XX` is returned by the source. The model skips it and goes on to the next source, so its result always has a table.
- LocalizationService.LanguageName: the source's `languageNames[this.currentLanguage]?.[languageCode]` also finds inherited keys. For the code `constructor` the source returns the `Object` function. The model returns `CONSTRUCTOR`.
- The persistence writes of `setLanguage` (`localStorage` and `<html lang>`), the localStorage middleware, the router, `history.pushState`, `decodeURIComponent` and `parseInt` of the page-size select.
- `getCurrentLanguage` is a plain getter of `currentLanguage`, a field the class exposes.
- The bodies of subscriber callbacks, a subscriber that throws (the source catches and logs it), and unsubscribing during a notification.
- Store wiring: `configureStore`, `combineReducers`, the connect mixin, the localization singletons and the toast service, which only forwards.
- The store's lists are null in the model only where a component guards against it. The table's null guard and the form's `list || []` fallback take an `Option`. The edit page's "list exists" test always sees a list.
- The form's field names are the eight known fields. An input event for any other name is not representable.
- `_performCreateEmployee` and `_performUpdateEmployee` (src/components/employee-form.js:389-448): the model stops at the submission outcome (`Create` with the values) and at the update request. Their dispatching is the wrappers' model; the toasts and navigation afterwards are left out. `_handleCancel` only fires an event.
- EmployeeForm.EmployeeFormElement.HandleUpdateConfirmed: with no record set, the source throws on `this.employee.id` after closing the confirmation; the model closes it and returns no request. A record without an `id` gives a request with no id (`None`), where the source would pass `undefined`.
- Line terminators in a path: `.+` in the id pattern does not match them in JavaScript; the model takes every character after the marker.
- Pagination.TotalPages: a page size of zero or less gives `Infinity` or `NaN` in JavaScript; the model requires a positive page size for the page count and everything built on it (`VisiblePages`, `PageChange`, `Render`).
- A negative `Date.now()` is not modelled: the clock is a `nat`.
- The DOM calls that open and close the modal elements of the table and list.
- The employee list's pages below 1 are not rejected; they slice from the end of the list, as `EmployeeList.PageBeforeFirst` shows.
