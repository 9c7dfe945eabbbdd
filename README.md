# Team dashboard: store, table view-model, edit session and creation form

This project is a Dafny model of the data logic in a single-page team-management
dashboard. The dashboard keeps an in-memory list of user records
`{id, name, email, role, status}`. It shows them in a filterable, paginated,
inline-editable table, offers an "Add User" dialog, and draws two pie charts of
how many users hold each role and each status.

The model has one module per component:

- `Dashboard` (src/pages/Dashboard.jsx). The class `Dashboard` owns the store
  (`users`) and the dialog flag (`isAddModalOpen`). `HandleAddUser` appends to
  the store. `RoleCounts` and `StatusCounts` run the group-by-count reduction as
  a loop over the store. The counts object is an ordered list of key/count
  buckets. Its order is the object's key insertion order, which is the order of
  the chart labels.
- `UserTable` (src/components/UserTable.jsx). This module holds the name/role
  filter, the page count, and the store after Save (`SaveEdit`) and after
  Delete (`RemoveById`). The class `TableState` is the component's state: the
  search term, the selected role, `editingRowId` and the draft `editFormData`.
  Its `owner` is the dashboard. The table receives the owner's `users` as its
  data and writes them back through `setData`. Its methods are the Edit,
  Cancel, Save, Delete and input-change handlers.
- `AddUserModal` (src/components/AddUserModal.jsx). `NewUser` validates the
  trimmed name and email and builds the record with id `NextId`. That id is one
  more than the largest stored id, or 1 for an empty store. The class `Form`
  holds the four form fields. `Form.HandleSubmit` appends the record through
  the owner, resets the fields and closes the dialog.
- `Users`, `Text`, `Seqs` and `Wrappers` are shared definitions:
  - `Users`: the record, the partial record used as the edit draft, and id
    uniqueness.
  - `Text`: JavaScript's `toLowerCase`, `includes` and `trim`.
  - `Seqs`: array `filter` and `map`, and "ordered subsequence".
  - `Wrappers`: `Option` and `Result`.
- `Scenarios`: concrete walks through the components. Examples: a search for
  "an" finds "Ann" and not "Ben"; ids 1, 3, 5 are followed by 6; Save commits an
  edited status; Cancel leaves the store alone.

Properties proved:

- Filtering keeps exactly the matching users, as an ordered subsequence.
- The page count is the ceiling of the filtered length over 5.
- Save keeps every id in place and rewrites only the edited record.
- Delete drops exactly the records with that id and keeps the order of the
  rest.
- Add, Save and Delete each keep ids unique.
- For each tally, every key's count equals its number of occurrences. No key
  has count 0, the keys are exactly the distinct values present, and the
  counts add up to the number of users.

Four behaviours of the code differ from what one might expect of the design.
The model follows the code in each case:

- Ids can be reused. The next id depends only on the ids currently stored. If
  the user with the largest id is deleted, the next user added gets that id
  again (`Scenarios.DeletedLargestIdIsReused`).
- Edit can switch rows. The Edit button is offered on every row that is not
  being edited, including while another row is being edited. Clicking it moves
  the session to the new row and drops the unsaved draft (`OnEditClick` has no
  Idle precondition).
- Inline editing does not validate. Save commits whatever the draft holds,
  including an empty name or email. Only the creation form checks for blank
  fields.
- The row being edited cannot be deleted. The delete handler clears the edit
  session when it deletes the edited row. But the table renders Delete only on
  rows that are not being edited, so that branch is never reached from the
  page. `OnDeleteClick` still models the branch, and
  `Scenarios.DeleteEditedRowEndsSession` runs the handler on its own, not a
  sequence of clicks a user can make.

## Model

| member | source | states |
|---|---|---|
| `Users.CopyOf` | src/components/UserTable.jsx:74 | Edit's copy of a row holds every key of the row, including the row's own id |
| `Users.MergeDrafts` | src/components/UserTable.jsx:74-85 | spreading a full copy of a row over any record gives that row; spreading the empty draft changes nothing |
| `Users.SetFieldKeepsOthers` | src/components/UserTable.jsx:161-166 | an input change never alters the draft's id and keeps a complete draft complete |
| `Users.SubsequenceKeepsUniqueIds` | src/components/UserTable.jsx:94-96 | removing records from a store whose ids are unique leaves ids unique |
| `Text.IncludesEmpty` | src/components/UserTable.jsx:26-28 | the empty search term is contained in every name |
| `Text.TrimStart` | src/components/AddUserModal.jsx:13 | a suffix of the input whose dropped prefix is all whitespace and which does not start with whitespace |
| `Text.TrimEnd` | src/components/AddUserModal.jsx:13 | a prefix of the input whose dropped suffix is all whitespace and which does not end with whitespace |
| `Text.TrimIsInnerPiece` | src/components/AddUserModal.jsx:24-25 | the stored name and email are what was typed, cut at two positions where everything before the first and after the second is whitespace |
| `Text.TrimHasNoBlankEnds` | src/components/AddUserModal.jsx:24-25 | the stored name and email neither start nor end with whitespace |
| `Text.TrimEmptyIffBlank` | src/components/AddUserModal.jsx:13 | a field trims to the empty string exactly when every character of it is whitespace (`Blank`) |
| `Text.TrimIdempotent` | src/components/AddUserModal.jsx:24-25 | trimming an already trimmed value changes nothing |
| `Dashboard.Dashboard.constructor` | src/pages/Dashboard.jsx:11-12 | the store starts as the seed data and the dialog starts closed |
| `Dashboard.Dashboard.OpenAddUserModal` | src/pages/Dashboard.jsx:14 | the dialog is open afterwards and the store is untouched |
| `Dashboard.Dashboard.CloseAddUserModal` | src/pages/Dashboard.jsx:15 | the dialog is closed afterwards and the store is untouched |
| `Dashboard.Dashboard.HandleAddUser` | src/pages/Dashboard.jsx:16-18 | the new user is appended last; every earlier user keeps its position and value |
| `Dashboard.LookupFinds` | src/pages/Dashboard.jsx:23 | reading a key of the counts object is defined exactly when it is one of the object's keys |
| `Dashboard.BumpLabels` | src/pages/Dashboard.jsx:23 | the accumulator update adds a new key last and otherwise keeps the keys and their order |
| `Dashboard.BumpLookup` | src/pages/Dashboard.jsx:23 | the accumulator update raises the updated key's count by one (from 0 when absent) and leaves every other key's count alone |
| `Dashboard.BumpSum` | src/pages/Dashboard.jsx:23 | the accumulator update raises the total of the counts by one |
| `Dashboard.OccurrencesPositive` | src/pages/Dashboard.jsx:22-25 | a value's number of occurrences is positive exactly when it occurs |
| `Dashboard.TallyOfLookup` | src/pages/Dashboard.jsx:21-26 | each value present reads as its number of occurrences; a value absent reads as undefined |
| `Dashboard.TallyOfDistinct` | src/pages/Dashboard.jsx:21-26 | the keys of the counts object are exactly the distinct values present, each once |
| `Dashboard.TallyOfSum` | src/pages/Dashboard.jsx:21-26 | the counts add up to the number of values reduced |
| `Dashboard.TallyOfBuckets` | src/pages/Dashboard.jsx:21-26 | every entry's count equals the occurrences of its key and is positive, so no key has count 0 |
| `Dashboard.TallyOfOrder` | src/pages/Dashboard.jsx:21-26 | the keys are ordered by the position at which each value first occurs in the store |
| `Dashboard.Tally` | src/pages/Dashboard.jsx:22-25 | the one-pass reduction yields the counts object specified by `TallyOf`, with distinct keys, occurrence counts and total equal to the length |
| `Dashboard.RoleCounts` | src/pages/Dashboard.jsx:21-26 | for each role held by some user, the number of users holding it; undefined otherwise; counts sum to the number of users |
| `Dashboard.StatusCounts` | src/pages/Dashboard.jsx:28-33 | for each status held by some user, the number of users holding it; undefined otherwise; counts sum to the number of users |
| `UserTable.FilteredDataSpec` | src/components/UserTable.jsx:24-32 | a user is kept iff the lower-cased name contains the lower-cased term and the role filter is empty or equal to the role; the result is an ordered subsequence of the store that keeps every occurrence of a kept user |
| `UserTable.NoFilterShowsAll` | src/components/UserTable.jsx:24-32 | with an empty search term and no role selected, the filtered list is the store itself |
| `UserTable.EmptySearchFiltersByRoleOnly` | src/components/UserTable.jsx:26-30 | with an empty search term, filtering is filtering by the role test alone |
| `UserTable.PageCount` | src/components/UserTable.jsx:157 | the smallest number of 5-row pages that hold every filtered row: zero exactly for an empty list |
| `UserTable.SaveEditSpec` | src/components/UserTable.jsx:83-87 | Save keeps length and order, replaces each record whose id is the edited id by the draft spread over it, and leaves every other record unchanged |
| `UserTable.SaveEditKeepsIds` | src/components/UserTable.jsx:82-87 | with a draft that carries no id or the edited row's id, every record keeps its id, so unique ids stay unique |
| `UserTable.SaveUnchangedCopy` | src/components/UserTable.jsx:72-87 | Save right after Edit of a stored row, with no input in between, leaves the store unchanged (ids unique) |
| `UserTable.RemoveByIdSpec` | src/components/UserTable.jsx:94-96 | Delete keeps exactly the records whose id differs, every occurrence of them, in their order, and keeps ids unique |
| `UserTable.TableState.constructor` | src/components/UserTable.jsx:11-15 | empty search term, no role selected, no row being edited, empty draft |
| `UserTable.TableState.PageTotal` | src/components/UserTable.jsx:157 | the page count of the rows the session shows is never more than that of the whole store, and is zero exactly when no user passes the name and role filter |
| `UserTable.TableState.SetSearchTerm` | src/components/UserTable.jsx:176 | the search term becomes the typed text |
| `UserTable.TableState.SetSelectedRole` | src/components/UserTable.jsx:181 | the role filter becomes the chosen option |
| `UserTable.TableState.OnEditClick` | src/components/UserTable.jsx:72-75 | the session edits the row's id with a full copy of the row as draft; the store is untouched |
| `UserTable.TableState.OnCancelClick` | src/components/UserTable.jsx:77-80 | the session returns to Idle with the empty draft; the store is untouched |
| `UserTable.TableState.HandleInputChange` | src/components/UserTable.jsx:161-166 | only the named editable key of the draft changes; the id and the store are untouched |
| `UserTable.TableState.OnSaveClick` | src/components/UserTable.jsx:82-90 | the store becomes `SaveEdit` of the old store; every id stays in place, unique ids stay unique; the session returns to Idle |
| `UserTable.TableState.OnDeleteClick` | src/components/UserTable.jsx:92-101 | confirmed: the row's id is removed from the store, and the session goes Idle iff it was editing that id; declined: nothing changes |
| `AddUserModal.MaxOf` | src/components/AddUserModal.jsx:19 | the result is one of the ids and no id exceeds it |
| `AddUserModal.NextId` | src/components/AddUserModal.jsx:18-20 | 1 for an empty store; otherwise one more than some stored id and greater than every stored id |
| `AddUserModal.NewUser` | src/components/AddUserModal.jsx:13-28 | rejected with the required-fields alert iff the trimmed name or email is empty; otherwise a record with the next id, the non-empty trimmed name and email, and role and status passed through |
| `AddUserModal.NewUserKeepsIdsUnique` | src/components/AddUserModal.jsx:18-22 | appending the built record to a store with unique ids keeps ids unique |
| `AddUserModal.Form.constructor` | src/components/AddUserModal.jsx:4-7 | fields start as "", "", "Recruiter", "Active" |
| `AddUserModal.Form.HandleSubmit` | src/components/AddUserModal.jsx:11-35 | rejected: the alert is raised and neither the form nor the store changes; accepted: the record is appended, the fields return to their initial values and the dialog closes; unique ids stay unique |
| `Scenarios.SearchIsCaseInsensitiveSubstring` | src/components/UserTable.jsx:24-32 | searching "an" over Ann and Ben keeps only Ann |
| `Scenarios.NewIdsFollowTheLargest` | src/components/AddUserModal.jsx:18-20 | an empty store gives id 1; ids 1, 3, 5 give id 6 |
| `Scenarios.DeletedLargestIdIsReused` | src/components/AddUserModal.jsx:18-20 | after deleting id 2 from ids 1, 2 the next id is 2 again |
| `Scenarios.FirstUserGetsIdOne` | src/components/AddUserModal.jsx:13-28 | " Cy " and "c@x.com" on an empty store give user 1 named "Cy" with the default role and status |
| `Scenarios.BlanksTrimToNothing` | src/components/AddUserModal.jsx:13 | a name of blanks trims to the empty string and is therefore rejected |

## Left out

- The 500 ms loading indicator (src/components/UserTable.jsx:16-22) is left out. It is a timer that only changes what is displayed.
- Sorting and the page slice are left out. Both are done inside the external table library, which is not part of this model. So is the sorting state and the page index (src/components/UserTable.jsx:13, 148-159, 328-345). Only the page-count formula is modelled.
- The confirmation prompt and the alert are not dialogs here. The user's answer to the delete prompt is the parameter `confirmed` of `OnDeleteClick`. The alert text is the value `HandleSubmit` returns.
- The browser's own form checks are left out. The inputs' `required` and `type="email"` attributes can block a submission before the submit handler runs. `HandleSubmit` models the handler on any field values.
- The field setters of the form's inputs are left out. A client assigns the `Form` fields directly.
- `Text.LowerChar`: lower-cases ASCII letters only. JavaScript's Unicode case mapping (for example of accented capitals) is not modelled.
- Ids are unbounded integers. The model does not capture floating-point numbers, precision loss beyond 2^53, or the argument-count limit of spreading a very large list into `Math.max`.
- `Dashboard.TallyOfOrder`: states key insertion order. JavaScript lists keys that look like array indices (such as "3") first, in numeric order, and the model does not capture that. Role and status strings are words, so this does not arise with the shipped choices.
- Chart configuration, colours and the dark-mode lookup are left out (src/pages/Dashboard.jsx:35-89). So is all JSX rendering, including the per-row choice between the Edit/Delete and Save/Cancel buttons. src/components/Layout.jsx, src/main.jsx, src/context/UserContext.jsx and src/App.jsx are not part of this model. They hold routing, providers and markup only.
- The seed file is not modelled. The seed list is the parameter of the `Dashboard` constructor and can be any list of records.
- React's batching of state updates is not modelled. Each handler is one sequential step on the class fields.
- Role and status are plain strings. The select boxes that offer four roles and three statuses are rendering and are not modelled.
- `Dashboard.Tally`: treats every string as a key the counts object does not yet hold. The page's reductions start from an ordinary object that inherits Object.prototype. A role or status named like an inherited property ("constructor", "toString", "__proto__", ...) reads the inherited value instead of 0. For "constructor" the stored value becomes a string, not 1. A "__proto__" key is never stored, so the counts then add up to less than the number of users. The model does not capture this. Only seed data can carry such a value, because the selects offer plain role and status words.
- `Dashboard.RoleCounts`: its exact per-role counts, `undefined` for absent roles and total of `|users|` hold only for roles that are not names of Object.prototype properties, as described for `Dashboard.Tally`.
- `Dashboard.StatusCounts`: the same restriction as `Dashboard.RoleCounts`, for statuses.
