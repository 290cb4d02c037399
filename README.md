# Project admin console: payment ledger, name resolution and team membership

The console is a Flask backend (`app.py`) over a SQL store of clients, team
members, projects, payments and a project/team-member join table. Two React
pages drive it:

- The payments page keeps a partial-payment ledger on its edit form. The
  "add pending amount" button turns the amount just received into paid.
  Because the payments listing carries only client and project *names*, the
  page resolves those names back to ids when a payment is opened for edit.
- The projects page keeps a duplicate-free selection of team members. It
  saves it as a full replace: every current pair is deleted, then every
  selected pair is posted. It also builds a project's payment summary.

The model has five modules:

- `JsBuiltins` (`js_builtins.dfy`): the JavaScript built-ins the pages rely
  on. These are `find`/`findIndex`, `toLowerCase` (ASCII letters),
  `includes` and `parseFloat` (decimal literals with an optional fraction and
  exponent; NaN is `None`).
- `Api` (`api.dfy`): the JSON rows and request bodies exchanged between the
  pages and the backend. Ids are positive integers (auto-increment keys), so
  an id is never falsy; an empty id field of a form is `None`.
- `Backend` (`backend.dfy`): the live backend as a `Store` class.
  - Its join table is a `map` from `(project_id, team_member_id)` to the
    role, so no pair can occur twice.
  - The request handlers that change the store are methods with `modifies`
    clauses. The read-only ones (payments listing, dashboard) are functions.
- `PaymentDetails` (`payment_details.dfy`): the payments page. The form is a
  record; the page state is a `PaymentPage` class whose handler methods
  overwrite it.
- `ProjectDetails` (`project_details.dfy`): the projects page.
  - Add and remove are pure functions on the selection.
  - The save is a method with two loops against a `Backend.Store`.
  - The submit guard and the payment summary are functions.

Amounts are exact reals. The backend's and the pages' sums and differences
are then the algebra, not the floating-point rounding.

## Model

| member | source | states |
|---|---|---|
| `JsBuiltins.FindIndex` | src/components/PaymentDetailsPage.js:388-390 | the first index whose element satisfies the predicate, or None exactly when no element does |
| `JsBuiltins.Find` | src/components/ProjectDetailsPage.js:253 | the first element satisfying the predicate, or None exactly when none does |
| `JsBuiltins.Lower` | src/components/PaymentDetailsPage.js:388-390 | same length, every character lower-cased |
| `JsBuiltins.LowerIdempotent` | src/components/PaymentDetailsPage.js:410-413 | lower-casing twice equals lower-casing once |
| `JsBuiltins.Includes` | src/components/PaymentDetailsPage.js:410-413 | true exactly when the second text occurs at some index of the first |
| `JsBuiltins.ParseFloat` | src/components/PaymentDetailsPage.js:479-481 | NaN exactly when, after white space and a sign, neither an integer digit nor a fraction digit follows |
| `JsBuiltins.ParseDigitLed` | src/components/PaymentDetailsPage.js:479-481 | text that starts with a digit is never NaN |
| `JsBuiltins.ParseUnsigned` | src/components/PaymentDetailsPage.js:479-481 | text that starts with a digit parses to the value of its longest decimal-literal prefix |
| `JsBuiltins.ParseNegative` | src/components/PaymentDetailsPage.js:479-481 | a minus sign before such a text negates that value |
| `JsBuiltins.UnsignedPoint` | src/components/PaymentDetailsPage.js:479-481 | the literal of `w.f` followed by a non-digit is `w.f` scaled by the exponent that the following text starts with |
| `JsBuiltins.PointLiteral` | src/components/PaymentDetailsPage.js:479-481 | `w.f` followed by neither a digit nor an exponent mark is read as exactly `w.f` |
| `JsBuiltins.ParseFixedPoint` | src/components/PaymentDetailsPage.js:479-481 | `w.f` followed by neither a digit nor an exponent mark parses to `w + f / 10^{|f|}` |
| `JsBuiltins.ExponentPlain` | src/components/PaymentDetailsPage.js:479-481 | the exponent part `e<x>` before a non-digit has the value of the digits `x` |
| `JsBuiltins.ExponentNegative` | src/components/PaymentDetailsPage.js:479-481 | the exponent part `e-<x>` before a non-digit has the negated value of `x` |
| `JsBuiltins.ParseWithExponent` | src/components/PaymentDetailsPage.js:479-481 | `w.f` followed by an exponent part of value `n` parses to `w.f` times `10^n` |
| `JsBuiltins.ParseScientific` | src/components/PaymentDetailsPage.js:479-481 | `w.fe<x>` before a non-digit parses to `w.f` times `10^x` |
| `JsBuiltins.DigitsLiteral` | src/components/PaymentDetailsPage.js:479-481 | a plain run of digits is read as the number it denotes, with no fraction and no exponent |
| `JsBuiltins.ParseDigits` | src/components/PaymentDetailsPage.js:479-481 | a run of decimal digits parses to the number it denotes |
| `JsBuiltins.ParseSingleDigit` | src/components/PaymentDetailsPage.js:479-481 | one digit parses to its value |
| `JsBuiltins.ParseEmpty` | src/components/PaymentDetailsPage.js:479-481 | the empty field is NaN, so it counts as 0 |
| `JsBuiltins.ParseZero` | src/components/PaymentDetailsPage.js:467-476 | the text "0" parses to 0 |
| `Backend.MembersAfterInsert` | app.py:1310-1316 | inserting a pair adds exactly that member to its own project and changes no other project's members |
| `Backend.MembersAfterDelete` | app.py:1356-1360 | deleting a pair removes exactly that member from its own project and changes no other project's members |
| `Backend.RelinkedMembership` | app.py:1252-1257 | after a relink the project has exactly the kept members, each with role "Member"; the pairs of other projects are kept with their roles |
| `Backend.ExistingIds` | app.py:1254-1257 | an id is kept exactly when the request names it and it is an existing team member |
| `Backend.InsertByDate` | app.py:1390 | inserting into a list ordered latest-first keeps it ordered and adds exactly the one row |
| `Backend.SortByDate` | app.py:1390 | the result is ordered latest payment date first and is a permutation of the input |
| `Backend.Joined` | app.py:1380-1381 | a payment is listed exactly when its client and its project exist (the inner joins), and as many times as it occurs in the payments table, so no row is repeated |
| `Backend.DigitChar` | app.py:1398 | the character of a digit value is a digit and reads back as that value |
| `Backend.NatText` | app.py:1398 | the decimal text of a number is a non-empty run of digits that reads back as the number |
| `Backend.Padded` | app.py:1398 | the padded text is all digits and at least as wide as asked |
| `Backend.IsoText` | app.py:1398 | the date text is non-empty, made of digits and dashes, and contains no 'T' |
| `Backend.ListingOf` | app.py:1392-1401 | pending plus paid is total; id, amounts, date text, client and project names come from the row and its joins; no `project_id` |
| `Backend.PendingSumIsDifference` | app.py:1615-1617 | the sum of `total - paid` is the total sum less the paid sum |
| `Backend.Store.constructor` | app.py:876-923 | a store with the given clients, members, projects and payments and no pairs. It requires the schema's foreign keys, a project's client and a payment's client and project (app.py:897, 909-910), and project ids below the next id. It then satisfies `Valid`: those keys, both ends of every join-table pair, and fresh project ids |
| `Backend.Store.AssignTeamMember` | app.py:1293-1342 | a missing project, a missing or absent member id, and an assigned pair are each refused with the table unchanged; otherwise exactly the pair is inserted with the given role or "Member"; nothing else in the store changes |
| `Backend.Store.RemoveTeamMember` | app.py:1346-1370 | a missing project, a missing member and an unassigned pair are each refused with the table unchanged; otherwise exactly that pair is deleted; nothing else changes |
| `Backend.Store.UpdateProject` | app.py:1236-1268 | an unknown project is a 404; a request element without `team_member_id`, a missing name, client or status, or an unknown client fails with nothing stored; otherwise the fields are overwritten and the project's membership becomes exactly the requested ids that exist |
| `Backend.Store.AddProject` | app.py:1200-1232 | a missing name or client or an unknown client stores nothing. Otherwise a fresh project is stored with status defaulting to "Ongoing". Its members are the requested existing ids. When an element lacks `team_member_id`, or an existing member is requested twice (the second insert clashes with the join table's key), the project stays without members and the reply is an error |
| `Backend.Store.ListsTeamOf` | app.py:1172-1184 | a faithful team listing of a project lists exactly the project's members, each once, so it has as many entries as the project has members |
| `Backend.DistinctIdsCount` | app.py:1172-1184 | a listing with pairwise distinct ids has as many ids as entries |
| `Backend.Store.ListedRows` | app.py:1380-1390 | the listed rows are ordered latest date first and are a permutation of the payments whose client and project exist |
| `Backend.Store.ListPayments` | app.py:1378-1414 | one listing per listed row, in the same order, each the row's listing with its joins: pending equal to total less paid, its date's text, and no `project_id` |
| `Backend.Store.DashboardData` | app.py:1600-1639 | the counts of clients, members, projects and payments; the total is the sum of the totals, pending the sum of `total - paid`, which equals the total less the paid sum; both are 0 when there are no payments |
| `PaymentDetails.BlankForm` | src/components/PaymentDetailsPage.js:467-476 | no ids, an empty total, paid and pending "0", today's date |
| `PaymentDetails.BlankFormAmounts` | src/components/PaymentDetailsPage.js:18-25 | the blank form's total is blank, and every amount of it counts as 0 |
| `PaymentDetails.FieldNumber` | src/components/PaymentDetailsPage.js:479-481 | a number the page computed reads back as itself; only typed text can be NaN, and typed text that starts with a digit is not |
| `PaymentDetails.Amount` | src/components/PaymentDetailsPage.js:479-481 | a NaN field counts as 0, a computed number as itself |
| `PaymentDetails.IsBlank` | src/components/PaymentDetailsPage.js:258 | only the empty typed text is falsy; it is NaN and counts as 0 |
| `PaymentDetails.ApplyPendingEntry` | src/components/PaymentDetailsPage.js:478-504 | refused exactly when the entered amount exceeds total less paid. When accepted: paid grows by the entered amount, paid plus pending is total, paid at most total, pending at least 0, and client, project, total and date are untouched. Unparsable fields count as 0 |
| `PaymentDetails.SecondEntrySettles` | src/components/PaymentDetailsPage.js:494-503 | after an accepted entry a second press is accepted and leaves paid equal to total and pending 0 |
| `PaymentDetails.ResolveClient` | src/components/PaymentDetailsPage.js:386-400 | None for an empty name; otherwise found exactly when some client's name equals it up to case, and then the first such client's id |
| `PaymentDetails.ResolveProject` | src/components/PaymentDetailsPage.js:404-431 | None for an empty name or an empty list. Otherwise: the first exact match up to case; else the first containment in either direction; else the only project when there is one; else None |
| `PaymentDetails.ProjectIdOf` | src/components/PaymentDetailsPage.js:439 | an id exactly when a project was resolved, and then that project's id |
| `PaymentDetails.ExactMatchWins` | src/components/PaymentDetailsPage.js:406-408 | the first exact match is chosen whatever else is listed |
| `PaymentDetails.ExactMatchOverlaps` | src/components/PaymentDetailsPage.js:410-415 | an exact match is also a containment match |
| `PaymentDetails.ResolveLinks` | src/components/PaymentDetailsPage.js:386-439 | the client id is the client resolution; when it fails both ids are empty; a project id, when set, is a candidate's id from the project resolution |
| `PaymentDetails.DatePart` | src/components/PaymentDetailsPage.js:372-374 | the longest prefix of the text without a 'T': it contains no 'T', and when shorter than the text the next character is 'T' |
| `PaymentDetails.DatePartWithoutT` | src/components/PaymentDetailsPage.js:372-374 | a text without a 'T' is its own date part |
| `PaymentDetails.FormForPayment` | src/components/PaymentDetailsPage.js:364-443 | the resolved ids; total and paid as listed; paid plus pending equals total; a non-empty total; the date part of a non-empty payment date, or today |
| `PaymentDetails.ProcessPayment` | src/components/PaymentDetailsPage.js:113-121 | pending is total less paid, an empty date becomes "No Date Available", every other field is kept |
| `PaymentDetails.ProcessPayments` | src/components/PaymentDetailsPage.js:113-121 | same length; each row processed in place |
| `PaymentDetails.ProcessConsistentRows` | src/components/PaymentDetailsPage.js:113-121 | rows already consistent and dated come through unchanged |
| `PaymentDetails.ProcessIdempotent` | src/components/PaymentDetailsPage.js:113-121 | processing twice equals processing once |
| `PaymentDetails.BackendListingIsProcessed` | app.py:1389 | the page's pending derivation agrees with the backend's: the listing comes through the processing unchanged |
| `PaymentDetails.ListedDateReachesForm` | app.py:1398 | a payment in the backend's listing keeps its row through the page's processing and its date text through `openModal`'s split unchanged |
| `PaymentDetails.SubmitPayment` | src/components/PaymentDetailsPage.js:254-274 | refused exactly when the client, the project or the total is empty. Otherwise: the ids, the total as parsed, paid as parsed with an empty field read as 0, the date, and PUT for the payment being edited or POST for a new one |
| `PaymentDetails.PaymentPage.constructor` | src/components/PaymentDetailsPage.js:9-25 | a blank form, no clients, no projects, no current payment, dialog closed |
| `PaymentDetails.PaymentPage.LoadClients` | src/components/PaymentDetailsPage.js:142-174 | the client list becomes the fetched one; nothing else changes |
| `PaymentDetails.PaymentPage.ClientChange` | src/components/PaymentDetailsPage.js:223-242 | the client becomes the chosen one and the project is always reset; the project list becomes the fetched one, or empty when the client was cleared |
| `PaymentDetails.PaymentPage.AddPendingAmount` | src/components/PaymentDetailsPage.js:478-504 | the form becomes the accepted entry's form, or stays as it was when refused; nothing else changes |
| `PaymentDetails.PaymentPage.OpenModal` | src/components/PaymentDetailsPage.js:364-464 | the dialog opens with the payment as current. For a payment, the form is filled from it, resolving against the project list held at opening, and the list becomes the resolved client's. Without one, the form is blank |
| `PaymentDetails.PaymentPage.SyncProjectSelection` | src/components/PaymentDetailsPage.js:35-75 | with a current payment, a non-empty project list and an open dialog, only the project id is overwritten by the resolution; otherwise nothing changes |
| `PaymentDetails.ClientMatchIgnoresCase` | src/components/PaymentDetailsPage.js:388-390 | "Acme" resolves to the client listed as "ACME" |
| `PaymentDetails.ProjectMatchByContainment` | src/components/PaymentDetailsPage.js:410-415 | "Website" resolves to "Website Redesign" |
| `PaymentDetails.ProjectFallbackOnlyForSingleCandidate` | src/components/PaymentDetailsPage.js:418-421 | an unrelated name takes the only project, but none of two |
| `PaymentDetails.Unrelated` | src/components/PaymentDetailsPage.js:404-415 | two three-letter names with different first letters neither match nor contain each other |
| `ProjectDetails.AddSelection` | src/components/ProjectDetailsPage.js:237-264 | an empty dropdown is a no-op; an id already selected gives a warning and no change; an id not in the roster is a no-op. Otherwise exactly one entry, the first roster member with that id, is appended at the end |
| `ProjectDetails.AddKeepsDistinct` | src/components/ProjectDetailsPage.js:255-262 | an accepted add keeps the selection duplicate-free and adds exactly the chosen id |
| `ProjectDetails.RemoveSelection` | src/components/ProjectDetailsPage.js:267-271 | the kept entries are exactly those whose id differs from the given one |
| `ProjectDetails.RemoveDistributes` | src/components/ProjectDetailsPage.js:267-271 | removal from a concatenation is the concatenation of the removals, so order is preserved |
| `ProjectDetails.RemoveAbsent` | src/components/ProjectDetailsPage.js:267-271 | removing an id no entry carries changes nothing |
| `ProjectDetails.RemoveUndoesAdd` | src/components/ProjectDetailsPage.js:237-271 | removing the id just added gives back the selection before the add |
| `ProjectDetails.RemoveDropsId` | src/components/ProjectDetailsPage.js:267-271 | a removal keeps the selection duplicate-free and takes exactly that id out |
| `ProjectDetails.LoadedEntries` | src/components/ProjectDetailsPage.js:217-221 | as written: the loaded entries keep the listed `{id, name, role}` shape, so none carries a `team_member_id` |
| `ProjectDetails.MemberEntries` | src/components/ProjectDetailsPage.js:207-209 | corrected: the listed members turned into the `{team_member_id, team_member_name}` shape the handlers read; the ids carried are exactly the listed ids |
| `ProjectDetails.MemberEntriesDistinct` | app.py:1172-1184 | corrected entries of a listing without repeated ids have no repeated ids |
| `ProjectDetails.FullReplace` | src/components/ProjectDetailsPage.js:277-295 | one DELETE per current entry, then one POST with role "Member" per selected entry, in list order |
| `ProjectDetails.AfterDeletes` | src/components/ProjectDetailsPage.js:277-281 | the project loses exactly the members the current entries carry; every other pair is kept with its role |
| `ProjectDetails.PostAll` | src/components/ProjectDetailsPage.js:284-300 | the POSTs sent are at most the selected entries, all of them on success, and at least one on failure |
| `ProjectDetails.WithMembers` | app.py:1310-1316 | the join table with the project given the ids on top of its pairs: exactly those keys, role "Member" for the new ones, every old pair of other keys kept |
| `ProjectDetails.WithMembersInsert` | app.py:1310-1316 | inserting one pair and then adding ids is adding that member together with the ids |
| `ProjectDetails.MembersWithMembers` | app.py:1310-1316 | adding ids to a project adds exactly them to its members and changes no other project |
| `ProjectDetails.PostAllTeam` | src/components/ProjectDetailsPage.js:284-300 | the join table after the POST loop is the original one with the project given the ids of the accepted entries |
| `ProjectDetails.PostAllSteps` | src/components/ProjectDetailsPage.js:284-300 | each accepted entry carried an existing member id not yet assigned on the table the earlier POSTs left, for an existing project |
| `ProjectDetails.PostAllRefusal` | src/components/ProjectDetailsPage.js:284-300 | when the loop fails, the entry after the accepted ones was refused on the table they left |
| `ProjectDetails.PostAllSucceedsIff` | src/components/ProjectDetailsPage.js:284-300 | the loop succeeds exactly when every entry is assignable in turn |
| `ProjectDetails.PostAllMembers` | src/components/ProjectDetailsPage.js:284-300 | the project gains exactly the ids of the accepted entries, all the selected ids on success; no other project changes |
| `ProjectDetails.DeleteEntry` | src/components/ProjectDetailsPage.js:277-281 | one DELETE with its reply ignored: the pair of an entry with an id is gone, an entry without one changes nothing |
| `ProjectDetails.SendDeletes` | src/components/ProjectDetailsPage.js:277-281 | the join table after the DELETE requests, whose replies are ignored, and the requests in order |
| `ProjectDetails.SendPosts` | src/components/ProjectDetailsPage.js:284-300 | the join table after the POST loop that stops at the first refusal, the requests sent, and whether all succeeded |
| `ProjectDetails.SaveTeamMembers` | src/components/ProjectDetailsPage.js:274-320 | the store after the save; the requests sent, a prefix of the full-replace sequence ending after the last POST sent; success as the POST loop reports it; nothing but the join table changes |
| `ProjectDetails.PostAllAssigns` | app.py:1293-1342 | clean POSTs (existing members, distinct, unassigned) all succeed and add exactly those members to the project; no other project changes |
| `ProjectDetails.SaveConverges` | src/components/ProjectDetailsPage.js:274-300 | when the current list names every member and the selection is clean, the project ends with exactly the selected members and no other project changes |
| `ProjectDetails.PostAllFailsOnListedEntry` | src/components/ProjectDetailsPage.js:288-300 | a selected entry without `team_member_id` makes the save fail, at or before its POST |
| `ProjectDetails.EditProject` | src/components/ProjectDetailsPage.js:197-214 | as written: the form from the project, and the selection the listed team as it is, one `{id, name, role}` entry per member, none carrying a `team_member_id` |
| `ProjectDetails.EditForm` | src/components/ProjectDetailsPage.js:198-205 | the form takes the project's name and client, its description or "" when it has none, and its status or "Ongoing" when it is empty |
| `ProjectDetails.EditProjectNormalized` | src/components/ProjectDetailsPage.js:197-214 | corrected: the same form, and a selection whose entries carry the listed members' ids in order |
| `ProjectDetails.ProjectPayload` | src/components/ProjectDetailsPage.js:327-339 | refused exactly when the name or the client is empty; otherwise the form's fields and, in selection order, each entry's `team_member_id` |
| `ProjectDetails.PayloadMembers` | app.py:1252-1257 | for a selection in the handlers' shape the payload is fully keyed, and `update_project` keeps exactly the selected ids that exist |
| `ProjectDetails.EditKeepsTeam` | src/components/ProjectDetailsPage.js:197-214 | corrected: submitting a project edited through the normalised handler unchanged names exactly its listed members that exist |
| `ProjectDetails.LoadedRemovalIsLost` | src/components/ProjectDetailsPage.js:267-300 | as written: removing the only loaded member and saving reports success while the member stays assigned |
| `ProjectDetails.LoadedEditPayloadUnkeyed` | src/components/ProjectDetailsPage.js:207-209 | as written: submitting a project with members opened by the edit handler sends elements without `team_member_id` |
| `ProjectDetails.NormalizedRemovalApplies` | src/components/ProjectDetailsPage.js:267-300 | with normalised entries the same removal takes effect and leaves the project without members |
| `ProjectDetails.SaveAfterLoadConverges` | src/components/ProjectDetailsPage.js:217-300 | with normalised entries, a save after loading the listed team leaves exactly the selected members |
| `ProjectDetails.PaymentsOfProject` | src/components/ProjectDetailsPage.js:477-482 | a payment is kept exactly when it belongs to the project, by `project_id` or by equal non-empty names up to case. Each kept payment appears as many times as in the input, as `filter` keeps it |
| `ProjectDetails.BelongsTo` | src/components/ProjectDetailsPage.js:477-482 | a payment with the project's `project_id` belongs to it; otherwise only by equal non-empty names up to case; with no project name only the id counts |
| `ProjectDetails.ProjectPaymentSummary` | src/components/ProjectDetailsPage.js:456-496 | total and paid are sums over the project's payments, pending is their difference, all three 0 when none matches |
| `ProjectDetails.PendingOfConsistentRows` | src/components/ProjectDetailsPage.js:494 | over consistent rows the pending sum is total less paid |
| `ProjectDetails.SummaryPendingIsSumOfPending` | src/components/ProjectDetailsPage.js:486-494 | the summary's pending is the sum of the matching payments' pending amounts |
| `ProjectDetails.ListedPaymentsMatchByName` | src/components/ProjectDetailsPage.js:477-482 | for the backend's listing, which has no `project_id`, payments match by name alone, and a project without a name gets the zero summary |

## Left out

- Network, JSON and content-type checks, response envelopes, `Swal.fire` alerts and `console` logging are I/O; each handler's result is modelled as its effect on state.
- Async timing and React scheduling: `openModal` resolves against the project list held when it starts. The effect re-runs the resolution on a later render. Both steps are modelled; when the render happens is not.
- Fetch failures: `fetchProjectsByClient` yields an empty list on error, so a fetched list is a parameter. The unreachable `catch` branch of `openModal` is not modelled.
- Floating point: amounts are exact reals. `parseFloat` does not model the `Infinity` literal ("Infinity" and "-Infinity" give NaN in the model), and `toString()`/`parseFloat` round trips are exact.
- `toLowerCase` folds ASCII letters only; other characters are kept.
- Dates: `new Date()` is a parameter (`today`). The report's earliest payment date (`new Date`/`toISOString`, src/components/ProjectDetailsPage.js:498-505) is not modelled. Project start/end dates and their `strptime` parsing are not modelled.
- PDF generation (jsPDF), rendering, Layout and routing are presentation.
- `Backend.Store.UpdateProject`: an id listed twice in the request is kept once, and every kept pair gets role "Member". The ORM could instead keep an existing row's role, or raise on the duplicate append as `add_project` does.
- `JsBuiltins.ParseFloat`: lemmas pin the parsed value for digits, `w.f`, `w.f` with an exponent `e<x>` or `e-<x>`, and a minus sign in front of any of them. The definition also reads `.f`, `w.`, a capital `E`, leading white space and `+`, but no lemma states the value for those forms.
- `Backend.Store.AssignTeamMember`, `Backend.Store.UpdateProject`, `Backend.Store.AddProject`: an explicit JSON `null` role or status is not distinguished from a missing key.
- `ProjectDetails.AddSelection`: a successful add also clears the dropdown (`setSelectedTeamMember('')`, src/components/ProjectDetailsPage.js:262). The dropdown's value is a parameter of each handler, so the model does not carry that reset.
- `Backend.Store.ListPayments`: payments with the same date may come back in any order, since the SQL order is not total.
- The other handlers of `app.py`: clients, teams, project delete, payment create/update/delete and the dropdowns. The legacy MySQL code (app.py:1-857) is dead. `export_project_details` (app.py:1647-1690) names columns that do not exist.
- `handleInputChange`, which copies a typed value into the form, is left out. The form fields are parameters of the modelled handlers.
- The client and team-member pages, the login page and the dashboard page are left out: they are CRUD plumbing or display of backend aggregates.

## Findings

| source | as written | input that shows it | evidently intended | confidence | as-written member | corrected member |
|---|---|---|---|---|---|---|
| src/components/ProjectDetailsPage.js:217-300 | the team dialog is loaded with the listing's `{id, name, role}` objects (app.py:1180-1184), but remove, the DELETE loop and the POSTs read `team_member_id` | project 1 with member 7; open the team dialog, remove 7, save | DELETE is sent for member 7 and project 1 is left without members | not executed | `ProjectDetails.LoadedRemovalIsLost` | `ProjectDetails.NormalizedRemovalApplies` |
| src/components/ProjectDetailsPage.js:197-214 | editing a project with members puts the listed objects in the selection (`ProjectDetails.EditProject`), so the payload's elements have no `team_member_id` and `update_project` fails with a KeyError | any project with at least one member, edited and submitted | the payload names the project's members (`ProjectDetails.EditProjectNormalized`) | not executed | `ProjectDetails.LoadedEditPayloadUnkeyed` | `ProjectDetails.EditKeepsTeam` |
