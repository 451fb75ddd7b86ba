# Contacts service: phone validation and the `POST /contacts` handler

This project models the core of a small Go web service (`main.go`). The service
takes a contact record with a full name, an optional email and a list of phone
numbers. It checks that every phone number is an Australian number in E.164
form, and it stores an accepted record as one row of a `contacts` table.

- `phone.dfy`, module `AustralianPhone`. This is `isValidAustralianPhoneNumber`:
  an anchored match against `^\+61([2-478]\d{8}|1800\d{6})$`, written as a
  predicate over characters. A second, generative description of the same
  language (`Geographic`, `TollFree`, `InPattern`) serves as its reference. The
  lemmas prove that the two agree. They also prove the shape of accepted
  numbers, that an accepted number has no comma, that the match is anchored at
  both ends, and the test vectors.
- `go_strings.dfy`, module `GoStrings`. This is Go's `strings.Join`, which
  stores the phone list in one column. Its partner is `strings.Split`, which
  the service never calls. It is used only to state when the stored column
  still determines the list.
- `contacts.dfy`, module `Contacts`. This is the handler. The JSON binder's
  verdict is an input (`Binding`), and so is the error text returned by the
  INSERT (`Option<string>`). `HandleContacts` follows the source step by step:
  the validation loop with its early return, the INSERT chosen by the email,
  and the mapping of the status. It differs in one step: it keeps the INSERT's
  error in a variable of the request, not in the variable shared by all
  requests. It is the corrected handler of "## Findings". It is proved equal
  to the specification function `HandlerOutcome`. The lemmas about that function state the
  all-or-nothing rule, the choice of INSERT, the mapping of responses, and
  read-back of a stored row.
- `shared_err.dfy`, module `SharedErr`. This is the handler as written, which
  stores the INSERT's error in a variable shared with every other request (see
  Findings).

The predicate is a Dafny function, so evaluating it twice on the same string
gives the same result by construction. The debug `fmt.Println` is not modelled.

Two consequences of the Go struct and its binder:

- An email that is absent and an email sent as `""` are the same value in the
  Go struct. Both take the two-column INSERT.
- The requirement that `full_name` be non-empty is enforced by the binder's
  `binding:"required"` tag. The handler does not check it, so the model does
  not assume it.

## Model

| member | source | states |
|---|---|---|
| AustralianPhone.ValidIffInPattern | main.go:69-70 | A string is accepted iff it is `+61`, then one of 2,3,4,7,8, then 8 ASCII digits, or `+611800` then 6 ASCII digits (both directions) |
| AustralianPhone.GeographicAccepted | main.go:69 | Every `+61` + lead digit in `[2-478]` + 8 ASCII digits is accepted |
| AustralianPhone.TollFreeAccepted | main.go:69 | Every `+611800` + 6 ASCII digits is accepted |
| AustralianPhone.AcceptedShape | main.go:69 | An accepted number starts with `+61`, has only ASCII digits after the `+`, and has length 12 exactly when the fourth character is a lead digit and length 13 exactly when `1800` follows `+61` |
| AustralianPhone.AcceptedHasNoComma | main.go:69 | An accepted number contains no `,` |
| AustralianPhone.NoValidExtension | main.go:69 | `$` is end of text: an accepted number followed by any non-empty suffix, a newline included, is rejected |
| AustralianPhone.NoValidPrefix | main.go:69 | `^` is start of text: any non-empty prefix before an accepted number makes it rejected |
| AustralianPhone.AnchoredMatch | main.go:69-70 | No partial match: if `s` and `before + s + after` are both accepted, then `before` and `after` are empty |
| AustralianPhone.TestVectors | main_test.go:41-136 | The test numbers `+61385786688`, `+61412345678` and `+61398889988` and the toll-free `+611800123456` are accepted; `03 8578 6688`, a trailing newline, a short number, lead digit 5 and a short `1800` number are rejected |
| GoStrings.Split | main.go:49 | Splitting on the separator gives one more field than there are separators, and no field contains the separator |
| GoStrings.SplitJoin | main.go:49-52 | For a non-empty list whose items contain no separator, splitting the joined string gives the list back |
| GoStrings.JoinSplit | main.go:49-52 | Joining the fields of any string gives the string back |
| GoStrings.EmptyListJoinsLikeEmptyField | main.go:49-52 | The empty list joins to `""`, the same as `[""]`, and splits back to `[""]` |
| Contacts.HandleContacts | main.go:31-60 | The handler's INSERT and response equal `HandlerOutcome` of the binder's verdict and the database's error: bind failure gives 400 with its message, the first invalid phone gives 400 "Invalid Australian phone number" with no INSERT, otherwise the email-dependent INSERT, then 500 with the error text or 200 "Contact saved" |
| Contacts.InsertIffAllPhonesValid | main.go:39-44 | An INSERT is issued iff binding succeeded and every phone number is valid (the empty list passes) |
| Contacts.OneInvalidPhoneRefusesRecord | main.go:39-44 | One invalid number at any position refuses the whole record with 400 and the fixed message, whatever the database would do |
| Contacts.InsertChoice | main.go:47-53 | The three-column INSERT is chosen iff the email is non-empty, otherwise the two-column one, which has no email. Both carry the full name and the comma-joined phone list |
| Contacts.ResponseMapping | main.go:33-59 | Status is 200 iff an INSERT was issued and the database reported no error (body "Contact saved"). It is 500 iff an INSERT was issued and the database failed (body is the error text). It is 400 iff no INSERT was issued (body is the binder's message or the fixed phone message) |
| Contacts.StoredContactRoundTrip | main.go:47-53 | For an accepted contact with at least one phone number, reading back the stored columns gives the contact (NULL email read as `""`, phone column split on commas) |
| Contacts.EmptyPhoneListNotRecovered | main.go:49-52 | An empty phone list is accepted and stored as `""`, which reads back as `[""]`, not `[]` |
| Contacts.ScenarioValidWithEmail | main_test.go:38-42 | Alex Bell with an email and two valid numbers: three-column INSERT with `+61385786688,+61412345678`, then 200 "Contact saved" |
| Contacts.ScenarioInvalidNumber | main_test.go:86-90 | Phone `03 8578 6688`: 400 "Invalid Australian phone number", no INSERT |
| Contacts.ScenarioWithoutEmail | main_test.go:134-137 | No email and `+61398889988`: two-column INSERT, then 200 |
| Contacts.ScenarioStorageError | main.go:54-57 | A toll-free number is accepted, and a database error gives 500 carrying its text |
| SharedErr.Server.constructor | main.go:24-29 | After a successful `sql.Open`, the shared `err` is nil |
| SharedErr.Server.Store | main.go:47-53 | Issues the email-dependent INSERT and writes the database's error into the shared `err` |
| SharedErr.Server.Respond | main.go:54-59 | Responds 500 with the text of whatever error `err` holds now, or 200 "Contact saved" if it holds none |
| SharedErr.Server.StoreThenRespond | main.go:47-59 | With no other request in between, the as-written steps give the same result as `HandlerOutcome`, and leave the shared `err` holding this request's database error |
| SharedErr.RacingRequests | main.go:24-55 | Two interleaved requests, in both directions: when the first request's INSERT succeeds and the second's fails, the first answers 500 with the second's error, where the intended handler answers 200; when the first's fails and the second's succeeds, the first answers 200 "Contact saved", where the intended handler answers 500 |

## Findings

| source | as written | input that shows it | evidently intended | confidence | as-written member | corrected member |
|---|---|---|---|---|---|---|
| main.go:49-54 | `_, err = db.Exec(…)` assigns the `err` that `main` declared at main.go:24. The handler closure captures that variable, so all concurrent requests share it, and `if err != nil` reads whatever was written last | Two accepted requests A and B in flight. A's INSERT succeeds. B's INSERT fails with "duplicate key value" before A tests `err`. A answers 500 "duplicate key value" even though its row was stored | Each request tests the error of its own INSERT, as in `_, err := db.Exec(…)` | medium: a data race on the captured variable; not executed | SharedErr.RacingRequests | Contacts.HandleContacts |

The same race also goes the other way. A request whose INSERT failed answers
200 "Contact saved" if a successful INSERT from another request overwrites `err`
in between. `SharedErr.RacingRequests` shows both directions.

## Left out

- HTTP routing, `router.Run` and the `main` bootstrap (main.go:20-29, 62) are process plumbing. Only the handler body is modelled.
- `sql.Open` and `db.Exec` are foreign database calls. The model records which INSERT with which arguments is issued. The database's result is an input: the text of its error, or none.
- `c.ShouldBindJSON` and the `binding:"required"` tags are JSON decoding and validator behaviour. They are an input (`Binding`): the bound contact, or the binder's error text.
- The Go `regexp` engine is not modelled. The language of the one pattern it is given is specified directly.
- `fmt.Println(phone)` is a debug output with no effect on the result.
- The JSON serialisation of response bodies is left out. A body is modelled as the single key/value pair of its `gin.H` map.
- GoStrings.Join: the separator is one character rather than a string, because the service only ever joins with `","`.
- GoStrings.Split is not part of the service. It is only the inverse used to state what the stored column preserves.
- Contacts.HandleContacts: keeps the INSERT's error local to the request, where main.go:49 and main.go:52 assign the `err` shared by all requests. That shared variable is modelled separately in `SharedErr`.
- Concurrency is modelled only at one interleaving point, between one request's INSERT and its test of `err`, run with both orders of success and failure (see Findings). No general scheduler of goroutines is modelled.
- The test files' HTTP recorder and assertion machinery are left out. Their inputs and expected statuses appear as the scenario lemmas.
