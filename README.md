# Contact-form site: a Dafny model of its store, handlers, form and API client

The site lets visitors send a contact form, register and sign in, list and
delete their own submissions, see a profile with their submission count, and
use a small JSON API (list all, create, delete). A browser-side client wraps
the API calls in a retry loop and turns failures into user-facing messages.

This project models that core:

- `wrappers.dfy` — `Option`, used for nullable columns and absent keys.
- `models.dfy` (module `Models`) — the `contact_submission` and `user` rows,
  the column defaults applied on insert, the unique username/email rule and
  the seven-key `to_dict` view with a reader that inverts it.
- `forms.dfy` (module `Forms`) — the contact form's validators as predicates
  over the posted values, with per-field error reporting.
- `queries.dfy` (module `Queries`) — the queries the handlers run: a scan of
  the table, the owner filter, the newest-first ordering, the owner count and
  the user lookup by email, with their correctness lemmas.
- `app.dfy` (module `App`) — the handlers as methods of a `Site` class that
  holds the two tables (maps keyed by id, with id counters) and the caller's
  session (`Anonymous` or `Authenticated(userId)`); the `next` redirect rule,
  the message preview and the required-field loop of the API.
- `apiclient.dfy` (module `ApiClient`) — `getFriendlyMessage` and the attempt
  loop of `_request` over a given sequence of attempt outcomes.

Behaviour worth knowing, as the code has it:

- `delete_submission` has no sign-in guard. A missing id is "not found" for
  everyone. For an existing id, an anonymous caller reaches the comparison with
  `current_user.id`, which the anonymous user object does not have; the request
  fails with a server error and nothing is deleted. `DeleteSubmission` models
  exactly that instead of requiring a signed-in caller.
- The data-required validator rejects whitespace-only values, not only empty
  ones (`Forms.Blank`, over the characters Python's `str.isspace` accepts).
- The ORM leaves a None-valued attribute out of the INSERT, so the column
  default fires for it: an API body with `"category": null` stores 'general',
  and `"subscribe": null` stores False, as an absent key does.
- The registration form's rules are not in the code; its validity is an input
  (`formValid`). When a username or email is already taken, the commit fails on
  the unique constraint and the request ends in a server error with nothing
  stored (`RegisterConflict`), which keeps the uniqueness invariant.
- A signed-in user's listing and the profile count are over `user_id`; a
  submission made while anonymous belongs to nobody and can be deleted by nobody.

## Model

| member | source | states |
|---|---|---|
| `Models.NewSubmission` | models.py:34-43 | a new row gets category 'general' and subscribe False when not given (or given None), the insertion time as submitted_at, and the given name, email, message and nullable owner |
| `Models.AddUserKeepsUnique` | models.py:13-14 | adding a user whose username and email are both unused keeps usernames and emails unique |
| `Models.ToDict` | models.py:51-61 | the view has exactly the keys id, name, email, category, message, subscribe, submitted_at |
| `Models.ToDictRoundTrip` | models.py:51-61 | the view loses only the owner: reading it back gives the same row, with submitted_at present as an ISO timestamp exactly when it was set and None otherwise |
| `Models.ToDictInjective` | models.py:51-61 | two rows with the same owner and the same view are equal |
| `Models.ViewsCount` | app.py:220 | when no other row shares a row's view, the list of views holds that view as often as the rows hold the row |
| `Forms.ValidatesIffNoErrors` | forms.py:6-43 | the form validates exactly when no field reports an error (every rule holds iff the error map is empty) |
| `Forms.EmptyNameRejected` | forms.py:13-15 | an empty name is rejected, with the name-required error and its message text |
| `Forms.EmailWithoutAtRejected` | forms.py:17-21 | with an email-shape check that needs '@', an address without '@' is rejected; an empty one is reported as missing |
| `Forms.CategoryRule` | forms.py:23-31 | an absent category defaults to 'general' and passes; a value outside general/technical/feedback/other is rejected |
| `Forms.MessageLengthWindow` | forms.py:33-37 | a non-blank message passes iff its length is in [10, 500]; 9 and 501 characters give the length error and its message text |
| `Forms.SubscribeUnconstrained` | forms.py:39-40 | subscribe never has an error and never changes validity |
| `Forms.Cleaned` | forms.py:23-40 | the cleaned category is 'general' and subscribe is False when the keys are absent |
| `Forms.CleanedWellFormed` | forms.py:13-37 | whatever validates has a 10–500 character message, one of the four categories and non-blank name and email |
| `Queries.AllRowsContents` | app.py:216 | the table scan holds every row exactly at its id, in strictly increasing id order |
| `Queries.Select` | app.py:168 | the owner filter keeps exactly the rows of the scope |
| `Queries.SelectAppend` | app.py:168 | filtering distributes over concatenation |
| `Queries.SelectCount` | app.py:293 | the filtered scan is as long as the set of ids the owner has |
| `Queries.InsertByTimeCorrect` | app.py:168 | inserting into a newest-first sequence keeps it newest first and adds exactly that row |
| `Queries.NewestFirstCorrect` | app.py:168 | the ordering is newest first (missing timestamps last) and a permutation of its input |
| `Queries.ListingCorrect` | app.py:168 | a listing holds exactly the rows of its scope, newest first, as many as the scope's ids |
| `Queries.ListingOnce` | app.py:216-220 | every row of the scope appears in its listing exactly once |
| `Queries.ListingViewOnce` | app.py:216-220 | the list of views of a listing holds the view of each row of its scope exactly once |
| `Queries.UserByEmail` | app.py:133 | the lookup returns a user with that email, or None only when no user has it |
| `App.OwnerOf` | app.py:75-76 | a new row is owned by the caller exactly when the caller is signed in |
| `App.NextTargetAsWrittenAcceptsOtherHost` | app.py:142-146 | the check as written follows `//evil.example`, a URL on another host |
| `App.NextTargetOnlyLocal` | app.py:142-146 | the corrected check follows `next` iff it is a local path (one leading '/'), goes home when `next` is absent or empty, and follows only what the check as written follows |
| `App.PreviewShape` | app.py:282 | a message of at most 50 characters is shown whole; a longer one as its first 50 characters plus '...', never more than 53 |
| `App.FindMissingField` | app.py:252-258 | None iff name, email and message are all truthy; otherwise the first of them, in that order, that is missing or falsy |
| `App.Site.Contact` | app.py:58-96 | a valid post adds exactly one row at a fresh id, owned by the caller if signed in, with a 10–500 message and a valid category; a GET or an invalid post shows the errors and changes nothing |
| `App.Site.Register` | app.py:98-123 | a signed-in caller is sent home and nothing changes; an anonymous GET or invalid post shows the form again; a valid post adds exactly one user and signs them in, unless the username or email is taken, when nothing changes |
| `App.Site.Login` | app.py:125-152 | a signed-in caller is sent home; the same generic error, with the caller left anonymous, iff no user with that email has a verifying password; an anonymous, valid post is signed in iff a user with that email has a verifying password, and then that user is signed in and sent to the corrected `next` target |
| `App.Site.Logout` | app.py:154-158 | the caller is anonymous afterwards and no table changes |
| `App.Site.Submissions` | app.py:161-176 | anonymous callers are sent to sign in; otherwise exactly the caller's rows, each once, newest first |
| `App.Site.DeleteSubmission` | app.py:178-205 | missing id: not found; an anonymous caller on an existing id: server error; another owner's row: forbidden, all leaving the tables unchanged; otherwise exactly that row is removed |
| `App.Site.ApiGetSubmissions` | app.py:208-231 | the data is the view of every row, newest first, and the count equals both the number returned and the number stored |
| `App.Site.ApiCreateSubmission` | app.py:234-285 | non-JSON body: 400; the first missing or falsy of name, email, message: 400 naming it; both leave the store unchanged; otherwise exactly one row is added with category 'general' and subscribe False by default, and the answer carries its id and message preview; status 400 exactly for a non-JSON, unparsable or incomplete body, with the content-type or missing-field message, and 500 exactly for a non-object |
| `App.Site.Profile` | app.py:287-301 | anonymous callers are sent to sign in; otherwise the user and a count equal to the number of their rows and to the length of their listing |
| `App.Site.ApiDeleteSubmission` | app.py:303-322 | anonymous: sign-in redirect; missing id: 404; another owner's row: 403, all unchanged; otherwise exactly that row is removed; status 200 exactly when the store changed, 404 exactly for a signed-in caller's missing id |
| `App.ApiCreateThenList` | app.py:216-282 | a create succeeds exactly when the body is an object with truthy name, email and message; the stored row is the posted body with its defaults, owner and time; the returned list holds that row's view exactly once |
| `ApiClient.FixedStatusIgnoresBody` | static/js/apiClient.js:98-116 | status 0 gives the network message and 401, 403, 404 and every status from 500 their own fixed message, whatever the body says |
| `ApiClient.OtherStatusUsesBody` | static/js/apiClient.js:118-123 | for every other status, the backend's message when present and non-empty, else the generic fallback |
| `ApiClient.Request` | static/js/apiClient.js:4-56 | the loop's result, waits and number of attempts are those of the step-by-step definition over the attempt outcomes |
| `ApiClient.AttemptsBounded` | static/js/apiClient.js:13-53 | with retries ≥ 0 there are between 1 and retries+1 attempts, with one wait between each two |
| `ApiClient.NegativeRetriesNoResult` | static/js/apiClient.js:13 | a negative retry count makes no attempt and resolves to nothing |
| `ApiClient.WaitsDouble` | static/js/apiClient.js:52-53 | the wait after failed attempt k is 2^k · 1000 ms |
| `ApiClient.TotalWait` | static/js/apiClient.js:52-53 | n waits from attempt 0 add up to (2^n − 1) · 1000 ms |
| `ApiClient.AnsweredRetriedIffLater` | static/js/apiClient.js:28-34 | on a response, `retried` is true iff it came after the first attempt |
| `ApiClient.AbortEndsAtOnce` | static/js/apiClient.js:40-48 | an abort ends the loop at once, with status 0 and the timeout text, after no further attempt or wait |
| `ApiClient.ExhaustedGivesUp` | static/js/apiClient.js:40-48 | when every attempt fails with another error, all retries+1 attempts are made and the loop gives up with the connection text |
| `ApiClient.DefaultRequestBounds` | static/js/apiClient.js:4 | with the default of 2 retries, at most 3 attempts and at most 3000 ms of waiting |
| `ApiClient.GiveUpShownAsNetworkFailure` | static/js/apiClient.js:98-100 | a request the loop gave up on, timeout included, is shown with the network message |

## Findings

| source | as written | input that shows it | evidently intended | confidence | as-written member | corrected member |
|---|---|---|---|---|---|---|
| app.py:144 | the post-login `next` check accepts any value starting with '/' | `next=//evil.example`: a protocol-relative URL, which the browser opens on another host | follow only a path on this site (a single leading '/'), as the comment on that check says: to prevent an open redirect | high; not executed | `App.NextTargetAsWrittenAcceptsOtherHost` | `App.NextTargetOnlyLocal` (used by `App.Site.Login`) |

## Left out

- Routing, templates, flash texts, `url_for` and `redirect`: each handler returns an outcome tag instead of a page.
- The home and about pages, configuration and start-up code: no state or rule in them.
- Password hashing: `Register` receives the hash the password library produced, and `Login` receives the library's verify function as a parameter.
- The login and registration forms are not defined in the code; their validity is a boolean input (`formValid`). The remember-me flag is carried but its cookie lifetime is not modelled.
- The email-shape validator is a parameter `isEmail`; its grammar belongs to a foreign library.
- The CSRF token check of every form is a boolean input (`csrfValid`).
- Flask-Login internals: the session cookie and the user loader; the session is the `Session` field.
- Wall-clock time: timestamps are integers given to each call; ISO-8601 and `strftime` formatting are not modelled (`IsoTimestamp(t)` stands for the text).
- Id assignment is a fresh counter; SQLite may reuse the highest id after that row is deleted, which the model does not reproduce.
- `App.Site.Submissions`, `App.Site.ApiGetSubmissions`: their contracts fix the order of rows with equal timestamps (ascending id, through `Listing`), which the database does not promise; callers should rely only on newest-first order, membership and count.
- JSON values of other types than the modelled ones (a number as name, a string as subscribe) are not representable in `JsonObject`.
- Commit and rollback mechanics: each handler's change is applied at once or not at all.
- Browser I/O in the client: `fetch`, the 10-second abort timer, `_delay`, console logging and the DOM notifications; what each attempt ends with is a given function of its number. `createSubmission`, `getSubmissions`, `deleteSubmission` and `getCurrentUser` only call `_request` with an endpoint and are not modelled separately.
- `response.ok` is taken to be a status in 200–299, as the Fetch standard defines it.
