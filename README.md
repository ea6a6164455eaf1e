# Employee manager view, modelled in Dafny

The repository is a thin web client for an employee-records HTTP API. All of its
logic sits in the React view component `EmployeeManager`. This project models
that component as a state machine. It has the same state: the record list, the
draft record, the record found by id, the lookup id, the status message, the
edit-mode flag and the loading flag. Each handler is a method, and the outcome
of each HTTP exchange is one of its inputs:

- `values.dfy` (module `Values`): a field value (text, integer or null), and the
  JavaScript operations the form depends on: `String(v)`, truthiness, `trim`,
  and the decimal numerals of numbers.
- `records.dfy` (module `Records`): a record as a JavaScript object, that is an
  ordered list of distinct keys with their values; `r[key]`;
  `{...r, [key]: v}`; the blank ten-field draft; the first field the form
  rejects.
- `messages.dfy` (module `Messages`): every status message the view sets, and
  the banner that shows a message in the "error" or the "success" style.
- `manager.dfy` (module `Manager`): class `EmployeeManager`, one method per
  handler. Each handler that sends a request takes the outcome of that request
  and returns the requests it issued, in order.
- `scenarios.dfy` (module `Scenarios`): runs from the first render through
  several handlers, with what the view shows at the end.

The list refresh that add, update and delete start without awaiting it has two
steps. `StartFetchAll` is the synchronous prefix of `fetchAllEmployees`: it sets
the loading flag and sends the request. `FinishFetchAll` runs when that response
arrives. A ghost counter of list requests in flight shows that the loading flag
is set only while one is out. `OverlappingRefreshes` shows that the flag is
cleared by the first answer even when a second request is still out.

Three behaviours of the code that a reader may not expect:

- Validation rejects the number `0` as an empty field, because `!employee[key]`
  is true for it.
- After `handleEdit` the draft is the server's record itself, with the server's
  keys and key order. It is not forced back to the ten fixed fields.
- Some failure messages are shown in the "success" style: "Failed to fetch
  employees. Server returned: …", "Failed to connect…", "Invalid data format…"
  and "Employee not found." The banner tests only for the word "error", and
  none of them contains it.

## Model

| member | source | states |
|---|---|---|
| Values.NatToStringRoundTrip | EMPLOYEEMANAGEMENT-REACT/src/components/EmployeeManager.jsx:51 | the numeral a status code becomes when appended to a string is non-empty, all digits, has no leading zero (only `0` starts with one), and reads back as that number |
| Values.TrimStartRemovesLeadingSpace | EMPLOYEEMANAGEMENT-REACT/src/components/EmployeeManager.jsx:68 | the start of `trim` drops exactly the leading run of JavaScript white space and stops at a non-space character |
| Values.TrimEndRemovesTrailingSpace | EMPLOYEEMANAGEMENT-REACT/src/components/EmployeeManager.jsx:68 | the end of `trim` drops exactly the trailing run of white space and stops at a non-space character |
| Values.Trim | EMPLOYEEMANAGEMENT-REACT/src/components/EmployeeManager.jsx:68 | `s.trim()` is the slice of `s` left once its leading and trailing runs of white space are cut off; it is empty exactly when `s` is all white space, and otherwise starts and ends with a non-space character |
| Values.Text | EMPLOYEEMANAGEMENT-REACT/src/components/EmployeeManager.jsx:68 | `String(v)` of a number is its numeral: a minus sign exactly for a negative number, then a non-empty run of digits, without a leading zero, that reads back as its magnitude |
| Values.Falsy | EMPLOYEEMANAGEMENT-REACT/src/components/EmployeeManager.jsx:68 | `!v` holds of exactly three field values: the empty string, the number 0 and null |
| Values.Blank | EMPLOYEEMANAGEMENT-REACT/src/components/EmployeeManager.jsx:68 | `!v \|\| v.toString().trim() === ''` rejects exactly null, the number 0 and strings of white space only (the empty string included) |
| Records.Lookup | EMPLOYEEMANAGEMENT-REACT/src/components/EmployeeManager.jsx:160 | `emp.id` is undefined exactly when the record has no `id` key, and otherwise is the value stored with that key |
| Records.LookupAt | EMPLOYEEMANAGEMENT-REACT/src/components/EmployeeManager.jsx:68 | in a record, reading a key gives the value at that key's position |
| Records.WithField | EMPLOYEEMANAGEMENT-REACT/src/components/EmployeeManager.jsx:63 | the object spread with one key set keeps distinct keys: an existing key keeps its position and takes the new value, a new key is appended at the end, other fields are unchanged |
| Records.WithFieldLookupSame | EMPLOYEEMANAGEMENT-REACT/src/components/EmployeeManager.jsx:63 | after the change handler sets a key, that key reads back as the new value |
| Records.WithFieldLookupOther | EMPLOYEEMANAGEMENT-REACT/src/components/EmployeeManager.jsx:63 | setting one key leaves every other key reading as before |
| Records.EmptyDraft | EMPLOYEEMANAGEMENT-REACT/src/components/EmployeeManager.jsx:164-175 | the blank draft has the ten fields id … contact, in that order, each the empty string |
| Records.FirstBlank | EMPLOYEEMANAGEMENT-REACT/src/components/EmployeeManager.jsx:67-72 | the field validation reports is rejected and every field before it passes; None means every field passes |
| Records.NoBlankIff | EMPLOYEEMANAGEMENT-REACT/src/components/EmployeeManager.jsx:66-74 | a draft passes validation exactly when no value is null, 0 or a white-space-only string |
| Records.EmptyDraftFailsOnId | EMPLOYEEMANAGEMENT-REACT/src/components/EmployeeManager.jsx:6-17 | the initial draft is rejected, and the field named is `id` |
| Records.MissingFieldMessage | EMPLOYEEMANAGEMENT-REACT/src/components/EmployeeManager.jsx:69 | the validation message holds the rejected key, unchanged, between "Please fill out the " and " field." |
| Messages.ToLower | EMPLOYEEMANAGEMENT-REACT/src/components/EmployeeManager.jsx:182 | `toLowerCase` keeps the length and lower-cases each character in place |
| Messages.Contains | EMPLOYEEMANAGEMENT-REACT/src/components/EmployeeManager.jsx:182 | `includes` finds a pattern exactly when the pattern occurs at some position |
| Messages.Banner | EMPLOYEEMANAGEMENT-REACT/src/components/EmployeeManager.jsx:181-182 | the banner is shown exactly for a non-empty message, and is styled "error" exactly when the lower-cased message contains "error" |
| Messages.ServerReturnedMessage | EMPLOYEEMANAGEMENT-REACT/src/components/EmployeeManager.jsx:51 | the list failure message is "Failed to fetch employees. Server returned: " followed by the status code's shortest numeral: digits, without a leading zero, that read back as the code |
| Messages.EditingMessage | EMPLOYEEMANAGEMENT-REACT/src/components/EmployeeManager.jsx:160 | the edit message is "Editing employee with ID " followed by the text of the record's `id` value, or "undefined" when the record has no `id` key |
| Messages.NoDoubleRIsSuccess | EMPLOYEEMANAGEMENT-REACT/src/components/EmployeeManager.jsx:182 | a non-empty message without two consecutive r's (in either case) is styled "success" |
| Messages.LeadingErrorIsError | EMPLOYEEMANAGEMENT-REACT/src/components/EmployeeManager.jsx:182 | a message that starts with "Error" is styled "error" |
| Messages.ServerReturnedIsSuccessStyled | EMPLOYEEMANAGEMENT-REACT/src/components/EmployeeManager.jsx:51 | the list request's HTTP failure message is styled "success" whatever the status code |
| Messages.ConnectFailedIsSuccessStyled | EMPLOYEEMANAGEMENT-REACT/src/components/EmployeeManager.jsx:56 | the connection failure message is styled "success" |
| Messages.InvalidFormatIsSuccessStyled | EMPLOYEEMANAGEMENT-REACT/src/components/EmployeeManager.jsx:47 | the invalid-format message is styled "success" |
| Messages.NotFoundIsSuccessStyled | EMPLOYEEMANAGEMENT-REACT/src/components/EmployeeManager.jsx:149 | "Employee not found." is styled "success" |
| Messages.AddErrorIsErrorStyled | EMPLOYEEMANAGEMENT-REACT/src/components/EmployeeManager.jsx:92 | "Error adding employee." is styled "error" |
| Messages.UpdateErrorIsErrorStyled | EMPLOYEEMANAGEMENT-REACT/src/components/EmployeeManager.jsx:115 | "Error updating employee." is styled "error" |
| Messages.DeleteErrorIsErrorStyled | EMPLOYEEMANAGEMENT-REACT/src/components/EmployeeManager.jsx:133 | "Error deleting employee." is styled "error" |
| Messages.FetchErrorIsErrorStyled | EMPLOYEEMANAGEMENT-REACT/src/components/EmployeeManager.jsx:153 | "Error fetching employee." is styled "error" |
| Manager.EmployeeManager.constructor | EMPLOYEEMANAGEMENT-REACT/src/components/EmployeeManager.jsx:5-22 | the first render: empty list, blank draft, empty lookup id, no record found, empty message, adding, not loading |
| Manager.EmployeeManager.StartFetchAll | EMPLOYEEMANAGEMENT-REACT/src/components/EmployeeManager.jsx:32-35 | marks the list loading and sends the list request; one more list request is in flight |
| Manager.EmployeeManager.FinishFetchAll | EMPLOYEEMANAGEMENT-REACT/src/components/EmployeeManager.jsx:36-59 | every exit clears loading; an array body becomes the list in order and the message is kept; a non-array body, a non-ok status or an exception empties the list and sets the invalid-format, "Server returned: " + status or connection message |
| Manager.EmployeeManager.FetchAllEmployees | EMPLOYEEMANAGEMENT-REACT/src/components/EmployeeManager.jsx:32-60 | the awaited list load: sends one list request and ends not loading, with the list and message of the outcome as above |
| Manager.EmployeeManager.ValidateForm | EMPLOYEEMANAGEMENT-REACT/src/components/EmployeeManager.jsx:66-74 | true exactly when no field is rejected; otherwise the message is "Please fill out the {key} field." for the first rejected key in order; on success the message is unchanged |
| Manager.EmployeeManager.AddEmployee | EMPLOYEEMANAGEMENT-REACT/src/components/EmployeeManager.jsx:76-97 | a rejected draft sends nothing and changes only the message; an ok response sends the draft and then a list request, sets the success message, resets to the blank draft and not editing, and marks loading; a failure keeps the draft and mode with "Error adding employee." |
| Manager.EmployeeManager.UpdateEmployee | EMPLOYEEMANAGEMENT-REACT/src/components/EmployeeManager.jsx:99-120 | as AddEmployee, with the update request, "Employee updated successfully." and "Error updating employee." |
| Manager.EmployeeManager.DeleteEmployee | EMPLOYEEMANAGEMENT-REACT/src/components/EmployeeManager.jsx:122-138 | an ok response makes the response text the message verbatim and starts a list refresh; a failure sets "Error deleting employee."; the draft and mode are never touched |
| Manager.EmployeeManager.GetEmployeeById | EMPLOYEEMANAGEMENT-REACT/src/components/EmployeeManager.jsx:140-155 | sends the lookup box's id; ok stores the record and clears the message; a non-ok status clears the record with "Employee not found."; an exception clears it with "Error fetching employee."; the list, draft and mode are untouched |
| Manager.EmployeeManager.HandleEdit | EMPLOYEEMANAGEMENT-REACT/src/components/EmployeeManager.jsx:157-161 | the draft becomes the record itself, edit mode is on, the message names the record's id |
| Manager.EmployeeManager.ResetForm | EMPLOYEEMANAGEMENT-REACT/src/components/EmployeeManager.jsx:163-177 | the blank draft and not editing; the message is kept |
| Manager.EmployeeManager.HandleChange | EMPLOYEEMANAGEMENT-REACT/src/components/EmployeeManager.jsx:62-64 | the input's name reads back as its text and every other field reads as before |
| Manager.EmployeeManager.SetIdToFetch | EMPLOYEEMANAGEMENT-REACT/src/components/EmployeeManager.jsx:247 | the lookup id becomes the typed text |
| Scenarios.AddBlankDraft | EMPLOYEEMANAGEMENT-REACT/src/components/EmployeeManager.jsx:76-77 | adding from the first render sends no request, asks for the id field and leaves the draft blank |
| Scenarios.EditThenCancel | EMPLOYEEMANAGEMENT-REACT/src/components/EmployeeManager.jsx:157-177 | edit then cancel returns to the blank draft and to adding, keeps the editing message and sends nothing |
| Scenarios.EditUpdateRefresh | EMPLOYEEMANAGEMENT-REACT/src/components/EmployeeManager.jsx:99-120 | editing a complete record and updating it sends the record, then the list request; the list that arrives is shown in order, the success message stays and nothing is loading |
| Scenarios.DeleteThenRefresh | EMPLOYEEMANAGEMENT-REACT/src/components/EmployeeManager.jsx:128-131 | the delete's server text survives a refresh that returns an array, and is overwritten by the message of a refresh that fails |
| Scenarios.LookupThenMiss | EMPLOYEEMANAGEMENT-REACT/src/components/EmployeeManager.jsx:147-150 | a failed lookup clears an earlier found record and leaves the loaded list unchanged |
| Scenarios.OverlappingRefreshes | EMPLOYEEMANAGEMENT-REACT/src/components/EmployeeManager.jsx:57-58 | with two refreshes out, the first answer clears loading while one request is still in flight, and the last answer decides the list |

## Left out

- HTTP and I/O: `fetch`, `response.json()`, `response.text()`, `config.url` and the base URL. Each request is returned as a `Request` value, and its result is an `Outcome` parameter.
- Concurrency: add, update, delete and lookup each take their response within one step. A draft edited while an add or update is in flight, and responses to the same request arriving out of order, are not modelled. Only the list refresh is split into two steps.
- The mount effect: it starts `fetchAllEmployees` once without awaiting it. That is the constructor followed by `StartFetchAll`, with `FinishFetchAll` running later; other handlers may run in between. No separate member models the effect.
- Rendering: the JSX markup, the select options, the table, CSS and `console.log` are left out.
- Values: numbers are integers, so floating-point salaries, NaN and exponent notation are not modelled. JSON booleans, nested objects and arrays inside a record are not modelled either.
- GetEmployeeById and FinishFetchAll: a successful lookup body, and every element of an array list body, is taken to be a JSON object. An array, null or a scalar in those places, which the source would also store, is not modelled.
- Banner: `toLowerCase` is modelled on ASCII letters only. No other character lower-cases to a letter of "error", so the style is the same.
- Records: keys are kept in insertion order. `for…in` visits integer-like keys first, but no record here has one.
- Outcome: an `HttpError` status is not constrained to lie outside 200–299.
- The Spring Boot entry point: it only starts the framework and prints a line, so there is no logic to model.
