# Student records: page state and REST routes

A model of a small student-management application (records with an id, a name
and an age). Two parts are modelled:

- **The page** (`app/page.tsx`): the state cells of the `Home` component and the
  handlers that update them once a request to the API has succeeded or failed.
  `Home.Page` is a class whose fields are the state cells, with one method per
  handler. Each handler that issues a request takes what its request produced
  (`Ok(value)` or `Failed`) as an input and returns the request it issued.
  Every method's `ensures` state the complete new state as an update of the
  old snapshot `Cells()`. Append is the sequence `+`, written inline;
  `StudentList.AppendKeepsUnique` is the lemma about it. Filter by id and
  map-replace by id are the `StudentList` functions `WithoutId` and
  `ReplacedById`, with lemmas about order, multiplicities, idempotence and
  unique ids. The
  age text that starting an edit writes into the form is modelled in
  `Decimal`, with a proof that it reads back to the age.
- **The API** (`server/api/index.ts`): each route is a function from the path id,
  the parsed body and the storage (a function from the query the route issues
  to what that query produced) to a status and a JSON body. `Api.Handle`
  dispatches the six routes. Lemmas state which statuses occur and when, that
  error texts are fixed per route, and that a response depends only on the
  single query the route issues.

Files: `records.dfy` (the record), `student_list.dfy`, `decimal.dfy`,
`api.dfy`, `home.dfy`.

Two behaviours of the code that the model keeps:
- The list is requested only after the greeting arrived (app/page.tsx:40-45).
  If the greeting request fails, the list is not requested at all.
- A PUT or DELETE never answers 404 (server/api/index.ts:24-38, 59-78). It
  answers 500 exactly when its storage call throws (or, for a PUT, when its
  body cannot be parsed), and 200 otherwise (`Api.Statuses`). That the storage library throws for an absent id is not
  part of this model.

## Model

| member | source | states |
|---|---|---|
| StudentList.WithoutId | app/page.tsx:88 | removing by id never lengthens the list |
| StudentList.WithoutIdCounts | app/page.tsx:88 | after removal no entry has the id; every other entry occurs exactly as often as before |
| StudentList.WithoutIdMembers | app/page.tsx:88 | an entry is in the result iff it was in the list and its id differs |
| StudentList.WithoutIdConcat | app/page.tsx:88 | removal distributes over concatenation, so survivors keep their relative order |
| StudentList.WithoutAbsentId | app/page.tsx:88 | removing an id no entry has leaves the list unchanged |
| StudentList.WithoutIdIdempotent | app/page.tsx:88 | removing the same id twice equals removing it once |
| StudentList.WithoutIdKeepsUnique | app/page.tsx:88 | removal preserves "no two records share an id" |
| StudentList.AppendKeepsUnique | app/page.tsx:68 | appending the created record keeps ids unique iff its id is not already in the list |
| StudentList.ReplacedById | app/page.tsx:123-125 | same length; each entry with the edited id becomes the returned record, every other entry is unchanged |
| StudentList.ReplacedByIdKeepsIds | app/page.tsx:123-125 | when the returned record carries the edited id, every position keeps its id and uniqueness is preserved |
| StudentList.ReplacedAbsentId | app/page.tsx:123-125 | replacing an id no entry has leaves the list unchanged |
| Decimal.ShowNat | app/page.tsx:102 | the text of a natural number is a non-empty digit run without leading zeros |
| Decimal.ShowInt | app/page.tsx:102 | `age.toString()` is non-empty text |
| Decimal.ShowNatValue | app/page.tsx:102 | the digits written for n denote n |
| Decimal.ShowIntValue | app/page.tsx:102 | the text written for an integer reads back as that integer |
| Decimal.ShowIntInjective | app/page.tsx:102 | different ages are written as different text |
| Home.Page.constructor | app/page.tsx:23-32 | initial cells: empty message, list and form, no selection, no edit, loading true, all dialogs closed |
| Home.Page.FetchData | app/page.tsx:35-55 | greeting then list; message set on greeting, list replaced wholesale on success, loading false in every case, nothing else changes |
| Home.Page.AddStudent | app/page.tsx:58-77 | sends the form; on success the old list plus the created record at the end, form cleared, add dialog closed; on failure no cell changes |
| Home.Page.DeleteStudent | app/page.tsx:80-97 | on success entries with the id are removed and the selection becomes none exactly when its id is the deleted one; on failure no cell changes |
| Home.Page.EditStudent | app/page.tsx:100-105 | form gets the record's name and age text, editing id becomes its id, edit dialog opens, nothing else changes |
| Home.Page.UpdateStudent | app/page.tsx:108-136 | with no edit in progress nothing is sent or changed; otherwise PUT for the editing id; on success map-replace by that id, form cleared, editing id none, edit dialog closed; an open edit dialog always leads to a PUT; on failure no cell changes |
| Home.Page.ViewStudent | app/page.tsx:139-153 | on success the fetched record is selected and the detail dialog opens; on failure no cell changes |
| Home.Page.SetName | app/page.tsx:295 | typing in the name field (add form here, edit form at line 354) sets the name cell and nothing else |
| Home.Page.SetAge | app/page.tsx:309 | typing in the age field (add form here, edit form at line 368) sets the age text cell and nothing else |
| Home.Page.OpenAddDialog | app/page.tsx:156-160 | clears name and age, opens the add dialog, leaves the editing id and everything else alone |
| Api.HelloRoute | server/api/index.ts:7-9 | always 200 with message "Hello from Hono API!" |
| Api.ListRoute | server/api/index.ts:12-21 | 200 with the rows, or 500 "Failed to fetch students" exactly when the query throws |
| Api.DeleteRoute | server/api/index.ts:24-38 | 200 "Student deleted successfully" unless the delete throws, then 500 "Failed to delete student" |
| Api.AddRoute | server/api/index.ts:41-56 | creates from the body's name and age; 200 with the created record, or 500 "Failed to add student" exactly when the body is unparsable or the create throws |
| Api.UpdateRoute | server/api/index.ts:59-78 | updates the path id with the body's name and age; 200 with the updated record, or 500 "Failed to update student" exactly when the body is unparsable or the update throws |
| Api.FindRoute | server/api/index.ts:81-99 | 200 with the found record, 404 "Student not found" exactly when the lookup is null, 500 "Failed to fetch student" exactly when it throws |
| Api.OnError | server/api/index.ts:102-105 | any uncaught error becomes 500 "Internal Server Error", whatever its text |
| Api.OnlyItsCallMatters | server/api/index.ts:7-99 | two storages that agree on the route's one query give the same response |
| Api.Statuses | server/api/index.ts:7-99 | statuses are 200, 404 or 500; 500 exactly when the request fails; 404 exactly when the lookup is null |
| Api.ErrorsAreFixed | server/api/index.ts:12-99 | a 500 carries the route's fixed text and a 404 "Student not found"; exception text never reaches the caller |
| Api.ClientSeesFailure | lib/api-client.ts:12-16 | the page takes its failure path exactly when the request fails or the lookup is null |

## Left out

- Rendering, dialog visuals, and the dialogs' own close buttons and `onOpenChange` setters: these are user-interface code.
- Toast notifications and `console.error` logging: side effects with no effect on state.
- Asynchrony: each handler is one atomic transition. Overlapping requests and stale-closure races are not modelled.
- Numeric conversion: `parseInt(age)` on the page and `Number(...)` of the path id are not modelled. They can produce NaN or non-integers. Ids and ages are integers, and requests carry the age form text as typed.
- Decimal.ShowInt: does not model the exponent notation that `toString` uses from 10^21 on. It also does not model the precision limits of JavaScript numbers.
- The storage library (queries, id assignment, a fresh client per request) is not part of this model. A route sees only the reply to its query.
- Api.OnError: no modelled route reaches it, because every route catches its own errors. Hono's dispatch of unmatched paths is not part of this model.
- Request bodies with missing or mistyped `name`/`age` fields are not modelled. A body either parses into both fields or makes parsing throw.
- `lib/api-client.ts` is not modelled beyond the fact that non-2xx responses reach the page as failures. `next.config.ts` is build configuration with no behaviour.
