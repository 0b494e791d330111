# Appointment list: a verified model

This project models the appointment list of a browser-based scheduling
widget. The component keeps one ordered list of appointment records and
mirrors the list to the browser's storage slot after every change. Its
event handlers do four things:

- Add or edit from a form submission. Adding appends the payload under a
  generated id. Editing shallow-merges the payload into every record that
  carries the editing target's id.
- Delete in two steps. Opening the dialog remembers a pending id.
  Confirming filters out every record with that id. Cancelling only closes
  the dialog.
- Select a record for editing, and close the form without submitting.
- Show the rows whose status matches the chosen filter, or every row under
  "all", and colour each status badge.

Layout:

- `wrappers.dfy` holds `Option`. In an `Appointment` or `Payload` property,
  `None` means only that the property is absent. In the pending delete id,
  `None` is `null`.
- `js_arrays.dfy` holds `Array.prototype.map` and `filter` as `Map` and
  `Filter`. It also proves what filtering does: element counts, order,
  idempotence and the subsequence property.
- `appointment_list.dfy` holds the records and the pure list computations
  (`Merge`, `Create`, `Add`, `Edit`, `Upsert`, `Remove`, `View`,
  `StatusColor`) with their lemmas. It also holds class `Component`, whose
  fields are the component's state and whose methods are the event handlers.
- `session.dfy` is a client. It walks through an add, an edit and a delete,
  and its assertions are checked by the verifier against the method
  contracts alone.

Modelling choices:

- An `Appointment` has a required string `id`. Its seven other properties
  are each optional, because a record holds exactly what the form handed over.
- A `Payload` (the form's data) has the same properties, and its `id` is
  optional too. The two spreads in the source treat an id differently, and
  the model keeps that difference. In `{...data, id}` the generated id is
  written last and always wins (`Create`). In `{...a, ...data}` a payload id
  overwrites the record's id (`Merge`). So the uniqueness lemmas for edits
  require a payload that carries no id or the edited record's own id. The
  second case covers a form that sends back its `initialData`'s id; the form
  receives the edited record, id included, as `initialData` (page.jsx:79).
- The pending delete id is `Option<string>`, where `None` is `null`. The
  source filters with `a.id !== null`, which keeps every record, so
  confirming with nothing pending removes nothing (`RemoveNothingPending`).
- The generated id is a parameter of `HandleAddEdit`. The source does not
  check that it is fresh, so freshness is not a precondition. Uniqueness of
  ids after a submission is promised only when the id is fresh.
- The class invariant `Valid()` says two things. The stored copy equals the
  list. The delete dialog is open exactly while an id is pending.

Three facts about the code that the model keeps:

- A payload id replaces the record's id on an edit (page.jsx:21, `Merge`).
- A delete removes every record with the pending id, not just one
  (page.jsx:39, `RemoveCount`). `RemoveUnique` shows that with unique ids
  this is exactly one record.
- Editing a target whose id is gone changes nothing and appends nothing
  (page.jsx:19-22, `EditAbsent`).

## Model

| member | source | states |
|---|---|---|
| JsArrays.Map | src/components/AppointmentList/page.jsx:20-22 | `map` keeps the length and puts `f(s[i])` at every position i |
| JsArrays.Filter | src/components/AppointmentList/page.jsx:39 | `filter` returns no more elements than its input; every element it returns satisfies the predicate and comes from the input |
| JsArrays.FilterCount | src/components/AppointmentList/page.jsx:39 | `filter` keeps every occurrence of a satisfying element and drops every other element entirely (multiset counts) |
| JsArrays.FilterAppend | src/components/AppointmentList/page.jsx:132 | `filter` preserves order: filtering a concatenation gives the concatenation of the filtered parts |
| JsArrays.FilterIdentity | src/components/AppointmentList/page.jsx:132 | `filter` returns its input unchanged if and only if every element satisfies the predicate |
| JsArrays.FilterIsSubsequence | src/components/AppointmentList/page.jsx:39 | `filter`'s result is a subsequence of its input |
| JsArrays.FilterIdempotent | src/components/AppointmentList/page.jsx:39 | filtering twice with one predicate equals filtering once |
| AppointmentList.Merge | src/components/AppointmentList/page.jsx:21 | `{...a, ...data}`: a property the payload gives replaces the record's, every other property is kept, and a payload id replaces the record's id |
| AppointmentList.Create | src/components/AppointmentList/page.jsx:24 | `{...data, id}`: the new record has exactly the payload's properties, and its id is the generated one even when the payload carries an id |
| AppointmentList.MergeNoChanges | src/components/AppointmentList/page.jsx:21 | merging an empty payload leaves the record unchanged |
| AppointmentList.MergeIdempotent | src/components/AppointmentList/page.jsx:21 | merging the same payload twice equals merging it once |
| AppointmentList.MergeCompletePayload | src/components/AppointmentList/page.jsx:21 | a payload that gives every property and no id replaces all of the record's details and keeps its id |
| AppointmentList.Add | src/components/AppointmentList/page.jsx:23-25 | adding yields the old list unchanged plus exactly one record at the end, carrying the generated id and the payload's properties |
| AppointmentList.Edit | src/components/AppointmentList/page.jsx:19-22 | editing keeps the length and order; a record with a different id is unchanged; a record with the target id becomes its merge with the payload |
| AppointmentList.AddKeepsUniqueIds | src/components/AppointmentList/page.jsx:23-25 | adding under an id not yet in the list keeps all ids distinct |
| AppointmentList.EditAbsent | src/components/AppointmentList/page.jsx:19-22 | editing a target whose id no longer occurs leaves the list unchanged and does not append |
| AppointmentList.EditUnique | src/components/AppointmentList/page.jsx:19-22 | with unique ids, editing record i replaces exactly position i by its merge with the payload |
| AppointmentList.EditKeepsIds | src/components/AppointmentList/page.jsx:20-21 | a payload with no id, or with the target's own id, leaves every record's id in place, so unique ids stay unique |
| AppointmentList.EditIdempotent | src/components/AppointmentList/page.jsx:19-22 | submitting the same edit twice equals submitting it once |
| AppointmentList.Upsert | src/components/AppointmentList/page.jsx:18-26 | the submitted list: with no editing target, the old list plus the created record at the end; with a target, the same length, each record with the target's id merged with the payload and every other record unchanged (Add and Edit give the details) |
| AppointmentList.UpsertKeepsUniqueIds | src/components/AppointmentList/page.jsx:17-26 | a submission keeps ids unique when an added record's id is fresh and an edit's payload has no id or the edited record's own id |
| AppointmentList.Survives | src/components/AppointmentList/page.jsx:39 | the delete filter's callback `a.id !== deleteId` rejects a record exactly when the pending id is that record's id, so with no pending id (`null`) it keeps everything |
| AppointmentList.Remove | src/components/AppointmentList/page.jsx:39 | the list after confirming a delete is `filter` with Survives: no longer than the list, and made of list records none of which has the pending id; RemoveCount and RemoveSubsequence pin down the exact result |
| AppointmentList.RemoveCount | src/components/AppointmentList/page.jsx:39 | confirming a delete removes every record with the pending id and keeps every other record, each as often as before |
| AppointmentList.RemoveSubsequence | src/components/AppointmentList/page.jsx:39 | after a delete no record with the pending id is left, and the remaining records keep their order |
| AppointmentList.RemoveNothingPending | src/components/AppointmentList/page.jsx:38-39 | with no pending id (`null`) the filter keeps the whole list |
| AppointmentList.RemoveAbsent | src/components/AppointmentList/page.jsx:39 | deleting an id that does not occur leaves the list unchanged |
| AppointmentList.RemoveUnique | src/components/AppointmentList/page.jsx:39 | with unique ids, deleting the id of record i removes exactly that record: `s[..i] + s[i+1..]` |
| AppointmentList.FilterKeepsUniqueIds | src/components/AppointmentList/page.jsx:39 | any filter of a list with unique ids has unique ids |
| AppointmentList.RemoveKeepsUniqueIds | src/components/AppointmentList/page.jsx:39 | deleting keeps ids unique |
| AppointmentList.RemoveIdempotent | src/components/AppointmentList/page.jsx:39 | confirming the same delete twice equals confirming it once |
| AppointmentList.Shown | src/components/AppointmentList/page.jsx:132 | the row predicate (the filter is "all", or the status equals it): every record is shown under "all", and under any other filter exactly the records whose status equals it |
| AppointmentList.View | src/components/AppointmentList/page.jsx:131-132 | the rows on display are `filter` with Shown: no more than the list, and every row is a list record that Shown accepts; ViewAll and ViewStatus pin down the exact result |
| AppointmentList.ViewAll | src/components/AppointmentList/page.jsx:131-132 | under the filter "all" the view is the whole list in list order |
| AppointmentList.ViewStatus | src/components/AppointmentList/page.jsx:131-132 | under any other filter the view holds exactly the records with that status, each as often as in the list, in list order, and it is never longer than the list |
| AppointmentList.StatusColor | src/components/AppointmentList/page.jsx:57-68 | every status gets a colour; "completed", "pending" and "missed" get three distinct colours, each only for that status, and every other status, including an absent one, gets the default |
| AppointmentList.Component.constructor | src/components/AppointmentList/page.jsx:8-15 | after mounting, the list and its stored copy are the loaded list, nothing is being edited, no delete is pending and the dialog is closed |
| AppointmentList.Component.HandleAddEdit | src/components/AppointmentList/page.jsx:17-31 | the list becomes the submission's result, the stored copy equals it, the form is closed, the editing target is cleared, and the delete state is untouched; ids stay unique when an added record's id is fresh and an edit's payload has no id or the edited record's own id |
| AppointmentList.Component.OpenDeleteModal | src/components/AppointmentList/page.jsx:33-36 | sets the pending id and opens the dialog, and changes nothing else |
| AppointmentList.Component.ConfirmDelete | src/components/AppointmentList/page.jsx:38-45 | the list becomes the old list without the pending id's records, the stored copy equals it, and the dialog is closed with no pending id |
| AppointmentList.Component.CancelDelete | src/components/AppointmentList/page.jsx:47-50 | closes the dialog and clears the pending id, and changes nothing else |
| AppointmentList.Component.HandleEdit | src/components/AppointmentList/page.jsx:52-55 | sets the editing target and opens the form, and changes nothing else |
| AppointmentList.Component.CloseForm | src/components/AppointmentList/page.jsx:74-77 | closing the form without submitting clears the editing target and changes nothing else |
| AppointmentList.Component.Visible | src/components/AppointmentList/page.jsx:131-132 | the rows on display are list records that pass the status filter, and under "all" they are the whole list |
| AppointmentList.OpenThenCancel | src/components/AppointmentList/page.jsx:33-50 | opening the dialog and then cancelling leaves the list, its stored copy and the form alone, and ends with the dialog closed and no pending id |
| AppointmentList.OpenThenConfirm | src/components/AppointmentList/page.jsx:33-45 | opening the dialog on an id and confirming removes exactly that id's records, in memory and in storage; with unique ids that is the one record holding the id |

## Left out

- Storage (src/utils/localStorage.js): JSON serialisation, the browser storage API and the caught-and-logged exceptions are foreign calls. Storage is the `stored` field, written with the whole list after each change. A failed write, and a load that falls back to an empty list on corrupt data, are not modelled.
- The initial load (page.jsx:13-15) is the constructor, which takes the loaded list. The empty first render before the effect runs is not modelled.
- `Date.now().toString()` (page.jsx:24) reads the clock, so it is the `newId` parameter. Two submissions within one millisecond can reuse an id, so id uniqueness is promised only for a fresh `newId`.
- The success toast (page.jsx:42) is a notification side effect and is not modelled.
- Rendering, table layout and CSS are not modelled; the colour strings are opaque constants. The status capitalisation (page.jsx:156) needs Unicode case mapping and is left out.
- The form component's source is not part of this model. Its payload is assumed to carry at most the seven properties of the table plus an optional id. Extra properties, and a payload property explicitly set to `null` or `undefined` (which a spread would copy over the record's value, where `Merge` keeps the old value), are not represented.
- Records read back from storage are assumed to have a string `id`. A record without an id, or with non-string values, cannot be represented.
- `showForm` is a prop owned by the parent component. The parent's own writes to it, such as opening an empty form for adding, are outside this component and are not modelled; the constructor takes its initial value.
- React batches state updates and re-renders between events. The handlers are modelled as running one at a time, each on the state left by the previous one.
- Visible, StatusColor: a record with no status is shown under "all" with the default colour. In the source, under "all", the capitalisation at page.jsx:156 calls `charAt` on the missing (or `null`) status inside the component's own render, and the TypeError stops the whole component from rendering, so no row is shown at all. Under any other filter the record is already dropped at page.jsx:132, so the error does not arise.
