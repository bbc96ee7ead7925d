# LessonRush waitlist: a Dafny model

LessonRush is a landing page with a waitlist signup form and one endpoint,
`POST /api/waitlist`, that stores signups. This project models the two
places where the repository has behaviour worth stating:

- **The endpoint** (`src/app/api/waitlist/route.ts`). It validates the JSON
  body against the schema `{ email, feedback?, painPoints? }`, then
  merge-upserts one row keyed by e-mail and maps the outcome to 201, 400 or 500.
  A new address gets a row with the supplied values, or `null` and `[]`.
  An existing row takes the new feedback only when it has text after
  trimming. It takes the new pain points only when the list is non-empty.
  The table is a class `WaitlistStore.Table` holding a `map` from e-mail to
  `Entry`, and `Table.Upsert` changes it in place. `Upserted` is the pure
  function that specifies the new table.
- **The page** (`src/app/page.tsx`). It covers the ordered pain-point
  selection and its toggle, and the solutions shown for a selection.
  It also covers the submission state machine over `isSubmitted`,
  `isSubmitting`, `feedbackSubmitted`, the selection and the form values.
  The component state is a class `LandingPage.Page`, whose invariant
  `Valid()` says that the selection holds no pain point twice. Its
  submission handlers (`SubmitToWaitlist`, `HandleFormSubmit`,
  `HandleButtonClick`) are specified by the pure transition `Settled`, and
  `Settle` by `SettledOn`, which is `Settled` with the feedback test already
  taken. `TogglePainPoint` is specified by `Toggle`, and `Edit`,
  `BeginSubmission` and `SubmitMoreFeedback` by field updates.

Modules: `Wrappers` (Option, Result), `Text` (ECMAScript `trim` and the
whitespace it removes), `JsonValue` (a parsed JSON value), `WaitlistSchema`
(the validation gate), `WaitlistStore` (rows, the merge rule, the table),
`WaitlistRoute` (the handler and its responses), `PainSelection` (catalogue,
toggle, filter) and `LandingPage` (the component state and handlers).

The e-mail syntax check is a parameter `isEmail: string -> bool`. It is
never given a definition, so every property holds for any such check. The
page and the endpoint are given the same check. Both use zod's e-mail
format, and `LandingPage.RequestMeetsSchema` relies on that.

Environment facts are parameters:
- `storeAvailable` / `available` says whether the datastore call succeeds.
- `RequestBody.Unparseable` stands for a body `req.json()` cannot read.
- `FetchResult` says how the page's `fetch` ended.

`WaitlistRoute` also holds four scenario methods. They are worked examples
of the merge rule, derived from `Post`'s contract alone: a first signup,
a feedback update, blank feedback beside a new list, and an empty list
followed by an invalid address. `LandingPage.SubmitSignup` joins the two
halves: the page's request goes to `Post`, and the page settles on the
status that comes back.

Facts about the code that the model keeps:
- A new row created without feedback stores `null`
  (src/app/api/waitlist/route.ts:29).
- Whitespace-only feedback on a new row is stored exactly as sent, since
  `create` does not trim (src/app/api/waitlist/route.ts:27-31).
- Validation rejects more than a bad e-mail. It also rejects a non-string
  `feedback` (an explicit `null` included) and a `painPoints` that is not
  an array of strings (src/app/api/waitlist/route.ts:8-9).

## Model

| member | source | states |
|---|---|---|
| `Text.TrimStart` | src/app/api/waitlist/route.ts:22 | the result is a suffix of the input, everything dropped is whitespace, and it does not start with whitespace |
| `Text.TrimEnd` | src/app/api/waitlist/route.ts:22 | the result is a prefix of the input, everything dropped is whitespace, and it does not end with whitespace |
| `Text.Trim` | src/app/api/waitlist/route.ts:21-22 | `trim()` is an infix of the input with only whitespace before and after it. It is empty exactly when every character is ECMAScript whitespace; otherwise it starts and ends with a non-whitespace character |
| `Text.HasTextIffNonWhitespace` | src/app/page.tsx:144 | the truthiness test `s.trim()` holds exactly when some character is not whitespace |
| `JsonValue.StringArray` | src/app/page.tsx:129-133 | a list of strings becomes a JSON array of the same length holding those strings in the same order |
| `WaitlistSchema.ElementIssues` | src/app/api/waitlist/route.ts:9 | `z.array(z.string())` reports no issue exactly when every element is a string. Every issue is a type issue on an element path of `painPoints` whose index lies inside the array |
| `WaitlistSchema.FirstElementIssue` | src/app/api/waitlist/route.ts:9 | the first element has an issue exactly when it is not a string |
| `WaitlistSchema.ElementIssueAt` | src/app/api/waitlist/route.ts:9 | element i has an issue exactly when element i is not a string |
| `WaitlistSchema.EmailIssues` | src/app/api/waitlist/route.ts:7 | `z.email()` reports nothing exactly when the e-mail is present, a string and passes the check; otherwise one issue on the `email` key |
| `WaitlistSchema.FeedbackIssues` | src/app/api/waitlist/route.ts:8 | `z.string().optional()` reports nothing exactly when `feedback` is absent or a string; otherwise type issues on the `feedback` key |
| `WaitlistSchema.PainPointsIssues` | src/app/api/waitlist/route.ts:9 | `z.array(z.string()).optional()` reports nothing exactly when `painPoints` is absent or an array of strings; every issue is a type issue on the key or on one of its elements |
| `WaitlistSchema.Strings` | src/app/api/waitlist/route.ts:9 | an all-string array yields its strings, same length, same order |
| `WaitlistSchema.Parse` | src/app/api/waitlist/route.ts:6-10 | parsing succeeds exactly when the body conforms to the schema. On success the payload carries the body's e-mail, feedback and pain points, with absent keys as None. On failure there is at least one issue: the root issue for a non-object, or an e-mail type or format issue first |
| `WaitlistStore.UpdatesFeedback` | src/app/api/waitlist/route.ts:21-22 | the guard `data.feedback && data.feedback.trim()` holds exactly when feedback is present and some character of it is not whitespace |
| `WaitlistStore.NewEntry` | src/app/api/waitlist/route.ts:27-31 | the created row holds the e-mail, the feedback exactly as sent (null when absent, no trimming), and the list as sent ([] when absent) |
| `WaitlistStore.Merge` | src/app/api/waitlist/route.ts:19-26 | the stored row keeps its e-mail. It takes the new feedback exactly when that has text after trimming, and otherwise keeps its own. It takes the new list, wholesale, exactly when that is non-empty, and otherwise keeps its own |
| `WaitlistStore.Upserted` | src/app/api/waitlist/route.ts:17-31 | the table keys gain the e-mail and every other row is unchanged. A new e-mail adds exactly one row, `NewEntry`. An existing e-mail keeps the row count and its row becomes `Merge` of the stored row. Keying by e-mail is preserved |
| `WaitlistStore.UpsertIdempotent` | src/app/api/waitlist/route.ts:17-31 | submitting the same payload twice leaves the table as submitting it once |
| `WaitlistStore.UpsertNeverErases` | src/app/api/waitlist/route.ts:19-26 | stored feedback with text and a stored non-empty list survive any upsert with text and non-empty |
| `WaitlistStore.Table.Upsert` | src/app/api/waitlist/route.ts:17-32 | when the store is available the table becomes `Upserted` of the old table and the stored row is returned; otherwise nothing is written and nothing is returned |
| `WaitlistRoute.Response.Status` | src/app/api/waitlist/route.ts:34-53 | the status is 201, 400 or 500, and it is in the 200 to 299 range exactly for the created response |
| `WaitlistRoute.Response.Success` | src/app/api/waitlist/route.ts:34-52 | the body's `success` field is true exactly when the status is 201 |
| `WaitlistRoute.Response.Message` | src/app/api/waitlist/route.ts:34-52 | the body has no `message` on success, "Invalid input" with status 400 and "Internal Server Error" with status 500 |
| `WaitlistRoute.Post` | src/app/api/waitlist/route.ts:12-55 | an unreadable body gives 500. A body failing validation gives 400 with its issues. Neither touches the table. A valid body gives 201 with the row now stored, and the table becomes `Upserted`, or 500 with the table unchanged when the store fails. Status 400 occurs exactly for non-conforming bodies, 201, and with it `success`, exactly for conforming bodies with a working store |
| `PainSelection.Without` | src/app/page.tsx:179 | the pain point is gone and every other string is present exactly when it was before |
| `PainSelection.WithoutCounts` | src/app/page.tsx:179 | filtering sets the pain point's count to zero and keeps every other string's count |
| `PainSelection.WithoutConcat` | src/app/page.tsx:179 | filtering distributes over concatenation, so the others keep their relative order |
| `PainSelection.WithoutAbsent` | src/app/page.tsx:179 | filtering out an absent string returns the list unchanged |
| `PainSelection.WithoutDistinct` | src/app/page.tsx:179 | filtering keeps a duplicate-free list duplicate-free |
| `PainSelection.Toggle` | src/app/page.tsx:177-183 | the pain point is present afterwards exactly when it was absent before, and no other string's membership changes. An absent one is appended at the end; a present one has every occurrence removed |
| `PainSelection.ToggleTwiceRestores` | src/app/page.tsx:177-183 | toggling an unselected pain point twice returns the original list |
| `PainSelection.ToggleRemovesInOrder` | src/app/page.tsx:179 | toggling off a selected pain point removes it and keeps every other selected pain point in its relative order |
| `PainSelection.ToggleDistinct` | src/app/page.tsx:177-183 | a duplicate-free selection stays duplicate-free under toggling |
| `PainSelection.Shown` | src/app/page.tsx:457-458 | the solutions shown are exactly the catalogue items whose pain is selected |
| `PainSelection.ShownConcat` | src/app/page.tsx:457-458 | the shown items keep catalogue order |
| `PainSelection.ShownIgnoresSelectionOrder` | src/app/page.tsx:457-458 | two selections with the same members show the same solutions, so selection order plays no part |
| `PainSelection.ShownAll` | src/app/page.tsx:457-458 | selecting every catalogue pain shows the whole catalogue in its own order |
| `PainSelection.CataloguePainsDistinct` | src/app/page.tsx:63-88 | the four catalogue pain texts are pairwise different |
| `PainSelection.ShownNone` | src/app/page.tsx:457-458 | when no catalogue pain is selected, no solution is shown |
| `PainSelection.ShownSingle` | src/app/page.tsx:457-458 | in a catalogue with distinct pain texts, selecting one item's pain shows exactly that item |
| `PainSelection.ToggleOneShowsOne` | src/app/page.tsx:177-183 | toggling any one catalogue pain point into an empty selection shows exactly its solution |
| `LandingPage.RequestBody` | src/app/page.tsx:129-133 | the request body is an object with exactly the keys `email`, `feedback` and `painPoints`: the two form values as strings, and the selection as an array of strings in selection order |
| `LandingPage.RequestMeetsSchema` | src/app/page.tsx:126-134 | the page's request body passes the endpoint's schema exactly when the e-mail passes the check. It then arrives as e-mail, feedback and the selection unchanged. The endpoint's feedback update fires exactly when the page shows the feedback thank-you |
| `LandingPage.Settled` | src/app/page.tsx:136-157 | `isSubmitting` ends false. On an ok response, feedback with text raises `feedbackSubmitted` and otherwise `isSubmitted` is raised; the form is reset and the selection cleared. On a non-ok response or a rejection nothing else changes |
| `LandingPage.SettledOn` | src/app/page.tsx:138-157 | with the feedback test's outcome given: `isSubmitting` ends false. On an ok response the form is reset, the selection cleared, and the flag the test chooses is raised while the other keeps its value. Otherwise nothing else changes |
| `LandingPage.ResponseOkIffCreated` | src/app/page.tsx:138 | `res.ok` holds for the endpoint's response exactly when it is the created response, so every other response leaves the page state as it was apart from `isSubmitting` |
| `LandingPage.SettledKeepsSuccess` | src/app/page.tsx:143-151 | no submission outcome lowers `isSubmitted` or `feedbackSubmitted` |
| `LandingPage.Page.constructor` | src/app/page.tsx:44-54 | the initial state: empty form values, every flag false, no selection; the invariant holds |
| `LandingPage.Page.Edit` | src/app/page.tsx:318-333 | typing into the e-mail input, or into the feedback textarea at src/app/page.tsx:581-600, changes the form values and nothing else |
| `LandingPage.Page.TogglePainPoint` | src/app/page.tsx:177-183 | the selection becomes `Toggle` of the old one, nothing else changes, and the selection stays duplicate-free |
| `LandingPage.Page.Solutions` | src/app/page.tsx:457-458 | the listed solutions are exactly the selected catalogue items |
| `LandingPage.Page.BeginSubmission` | src/app/page.tsx:163 | `isSubmitting` is set true and nothing else changes |
| `LandingPage.Page.Settle` | src/app/page.tsx:138-157 | the state becomes `SettledOn` of the old state for the feedback test's outcome and the fetch outcome |
| `LandingPage.Page.SubmitToWaitlist` | src/app/page.tsx:122-158 | the body sent holds the values and the selection as they were; the new state is `Settled` of the old one |
| `LandingPage.Page.HandleFormSubmit` | src/app/page.tsx:160-165 | a form whose e-mail fails the check is not submitted and the state is unchanged. Otherwise `isSubmitting` is raised, the form values are sent and the state settles on the outcome |
| `LandingPage.Page.HandleButtonClick` | src/app/page.tsx:167-174 | when the e-mail fails `trigger("email")` nothing is sent and nothing changes. Otherwise `isSubmitting` is raised, the current form values are sent, and the state settles on the outcome |
| `LandingPage.Page.SubmitMoreFeedback` | src/app/page.tsx:643-646 | leaves the feedback thank-you screen and resets the form; nothing else changes |
| `LandingPage.SubmitSignup` | src/app/page.tsx:126-157 | the page's request goes to the endpoint, which is given the page's e-mail check. An address failing the check sends nothing and changes nothing. Otherwise the endpoint answers 201 exactly when the store works, and the table takes the form values and selection as sent. The page settles on that status, so a working store always ends on a thank-you screen with the selection cleared |

## Left out

- The database, the ORM client and the atomicity of `upsert` under concurrent requests. Only the resulting map transition is modelled; a failing store call is a boolean parameter and is assumed to write nothing.
- Columns the database may add to a row (identifiers, timestamps). The schema that defines them is not part of this model; an `Entry` holds e-mail, feedback and pain points.
- zod's e-mail syntax and the text of issue messages. The e-mail check is a parameter. An issue keeps only its code (wrong type or bad format) and its path.
- JSON text parsing and serialisation, the HTTP `Response` objects, `console.error` and `alert`. A request body is a parsed JSON value or unreadable. A fetch ends with a status or a rejection.
- JSON numbers are kept as reals and never inspected.
- Rendering, styling, animations and the `mounted` hydration guard.
- The timer that reveals `showPainSolution` (src/app/page.tsx:186-191). It is timer-driven presentation; `Page.Solutions` gives the list that section would show.
- react-hook-form internals. `form.reset()` is "values back to the defaults", and `form.handleSubmit` / `form.trigger("email")` are the e-mail check. The form's feedback field is always bound, so it is always a string.
- Interleaving of the asynchronous handlers. Each handler runs to completion here, so `isSubmitting` is visibly true only between `BeginSubmission` and the end of `SubmitToWaitlist`.
- The `disabled={isSubmitting}` guard on both buttons has no effect in the model, because handlers do not overlap.
- React's stale-closure reads: each handler reads the current state.
- JavaScript strings are UTF-16, so `req.json()` can yield a lone surrogate
  such as `"\ud800"`. A Dafny `string` holds Unicode scalar values and cannot
  represent one. No decision in the model depends on this: every character
  `trim` removes lies in the Basic Multilingual Plane, and no string length
  is used.
