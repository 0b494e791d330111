/**
 The appointment list component: one ordered list of appointment records,
 the form and delete-confirmation state around it, and the mirror of the
 list kept in the browser's storage slot.

 The list computations (append, edit by id, delete by id, the status view
 and the status colour) are pure functions; the event handlers that update
 the component's state are the methods of class `Component`.
 */
module AppointmentList {
  import opened Wrappers
  import opened JsArrays

  // ---------------------------------------------------------------------------
  // Records
  // ---------------------------------------------------------------------------

  /**
   A stored appointment. Every record the component creates has an `id`; each
   of the other properties may be absent (`None`), since a record holds exactly
   the properties the form handed over.
   */
  datatype Appointment = Appointment(
    id: string,
    title: Option<string>,
    date: Option<string>,
    startTime: Option<string>,
    endTime: Option<string>,
    location: Option<string>,
    department: Option<string>,
    status: Option<string>)

  /**
   What the form submits: any subset of an appointment's properties, `id`
   included (nothing stops a payload from carrying one). `None` means the
   property is absent from the payload, never that it is given as `null`.
   */
  datatype Payload = Payload(
    id: Option<string>,
    title: Option<string>,
    date: Option<string>,
    startTime: Option<string>,
    endTime: Option<string>,
    location: Option<string>,
    department: Option<string>,
    status: Option<string>)

  /** The payload that gives no property at all. */
  const NoChanges := Payload(None, None, None, None, None, None, None, None)

  /** The number of properties besides `id`. */
  const DetailCount := 7

  /** The properties of a record besides its id, in declaration order. */
  function Details(a: Appointment): (d: seq<Option<string>>)
    ensures |d| == DetailCount
  {
    [a.title, a.date, a.startTime, a.endTime, a.location, a.department, a.status]
  }

  /**
   The properties a payload gives besides an id, in the same order as
   `Details`. Payload is a type of its own (its id is optional), so it needs
   its own view; lining the two views up is what lets `Merge` and `Create`
   be stated property by property.
   */
  function Given(p: Payload): (d: seq<Option<string>>)
    ensures |d| == DetailCount
  {
    [p.title, p.date, p.startTime, p.endTime, p.location, p.department, p.status]
  }

  /** A record is determined by its id and its other properties. */
  lemma DetailsDetermine(a: Appointment, b: Appointment)
    requires a.id == b.id && Details(a) == Details(b)
    ensures a == b
  {
  }

  /** One property of a spread merge: the given value if there is one, else the kept one. */
  function Override(kept: Option<string>, given: Option<string>): Option<string>
  {
    if given.Some? then given else kept
  }

  /**
   The shallow merge `{...a, ...data}`: every property the payload gives
   replaces the record's, every other one is kept. A payload id replaces the
   record's id as well.
   */
  function Merge(a: Appointment, data: Payload): (r: Appointment)
    ensures r.id == if data.id.Some? then data.id.value else a.id
    ensures forall k :: 0 <= k < DetailCount ==>
      Details(r)[k] == if Given(data)[k].Some? then Given(data)[k] else Details(a)[k]
  {
    Appointment(
      if data.id.Some? then data.id.value else a.id,
      Override(a.title, data.title),
      Override(a.date, data.date),
      Override(a.startTime, data.startTime),
      Override(a.endTime, data.endTime),
      Override(a.location, data.location),
      Override(a.department, data.department),
      Override(a.status, data.status))
  }

  /**
   The new record `{...data, id: newId}`: exactly the payload's properties,
   with the generated id written last, so it wins over any id in the payload.
   */
  function Create(data: Payload, newId: string): (r: Appointment)
    ensures r.id == newId
    ensures Details(r) == Given(data)
  {
    Appointment(newId, data.title, data.date, data.startTime, data.endTime,
                data.location, data.department, data.status)
  }

  /** Merging a payload that gives nothing leaves the record as it was. */
  lemma MergeNoChanges(a: Appointment)
    ensures Merge(a, NoChanges) == a
  {
  }

  /** Submitting the same payload twice has the effect of submitting it once. */
  lemma MergeIdempotent(a: Appointment, data: Payload)
    ensures Merge(Merge(a, data), data) == Merge(a, data)
  {
  }

  /**
   A payload that gives every property replaces the record's details
   entirely; without an id of its own it keeps the record's id.
   */
  lemma MergeCompletePayload(a: Appointment, data: Payload)
    requires forall k :: 0 <= k < DetailCount ==> Given(data)[k].Some?
    requires data.id.None?
    ensures Merge(a, data) == Create(data, a.id)
  {
    DetailsDetermine(Merge(a, data), Create(data, a.id));
  }

  // ---------------------------------------------------------------------------
  // Ids
  // ---------------------------------------------------------------------------

  /** Some record of `s` has id `x`. */
  ghost predicate HasId(s: seq<Appointment>, x: string)
  {
    exists i :: 0 <= i < |s| && s[i].id == x
  }

  /** No two records of `s` share an id. */
  ghost predicate UniqueIds(s: seq<Appointment>)
  {
    forall i, j :: 0 <= i < j < |s| ==> s[i].id != s[j].id
  }

  // ---------------------------------------------------------------------------
  // Add or edit
  // ---------------------------------------------------------------------------

  /** Adding: `[...appointments, {...data, id: newId}]`. */
  function Add(s: seq<Appointment>, data: Payload, newId: string): (r: seq<Appointment>)
    ensures |r| == |s| + 1 && r[..|s|] == s
    ensures r[|s|].id == newId && Details(r[|s|]) == Given(data)
  {
    s + [Create(data, newId)]
  }

  /** Editing: `appointments.map(a => a.id === targetId ? {...a, ...data} : a)`. */
  function Edit(s: seq<Appointment>, targetId: string, data: Payload): (r: seq<Appointment>)
    ensures |r| == |s|
    ensures forall i :: 0 <= i < |s| && s[i].id != targetId ==> r[i] == s[i]
    ensures forall i :: 0 <= i < |s| && s[i].id == targetId ==> r[i] == Merge(s[i], data)
  {
    Map(s, (a: Appointment) => if a.id == targetId then Merge(a, data) else a)
  }

  /**
   Submitting the form: with no editing target the payload is added under
   the new id, otherwise every record carrying the target's id is edited.
   */
  function Upsert(s: seq<Appointment>, editing: Option<Appointment>, data: Payload, newId: string)
    : (r: seq<Appointment>)
    ensures editing.None? ==> |r| == |s| + 1 && r[..|s|] == s && r[|s|] == Create(data, newId)
    ensures editing.Some? ==> |r| == |s| && forall i :: 0 <= i < |s| ==>
      r[i] == if s[i].id == editing.value.id then Merge(s[i], data) else s[i]
  {
    match editing
    case None => Add(s, data, newId)
    case Some(target) => Edit(s, target.id, data)
  }

  /** Adding under a fresh id keeps the ids unique. */
  lemma AddKeepsUniqueIds(s: seq<Appointment>, data: Payload, newId: string)
    requires UniqueIds(s) && !HasId(s, newId)
    ensures UniqueIds(Add(s, data, newId))
  {
  }

  /** Editing a target whose id no longer occurs in the list changes nothing (and adds nothing). */
  lemma EditAbsent(s: seq<Appointment>, targetId: string, data: Payload)
    requires !HasId(s, targetId)
    ensures Edit(s, targetId, data) == s
  {
  }

  /** With unique ids, an edit replaces the one matching record in place. */
  lemma EditUnique(s: seq<Appointment>, i: nat, data: Payload)
    requires UniqueIds(s) && i < |s|
    ensures Edit(s, s[i].id, data) == s[i := Merge(s[i], data)]
  {
  }

  /**
   A payload without an id, or one repeating the target's own id (as a form
   that sends back its initialData's id would), leaves every record's id where it was.
   */
  lemma EditKeepsIds(s: seq<Appointment>, targetId: string, data: Payload)
    requires data.id.None? || data.id == Some(targetId)
    ensures forall i :: 0 <= i < |s| ==> Edit(s, targetId, data)[i].id == s[i].id
    ensures UniqueIds(s) ==> UniqueIds(Edit(s, targetId, data))
  {
  }

  /** Submitting the same edit twice has the effect of submitting it once. */
  lemma EditIdempotent(s: seq<Appointment>, targetId: string, data: Payload)
    ensures Edit(Edit(s, targetId, data), targetId, data) == Edit(s, targetId, data)
  {
  }

  /**
   Ids stay unique through a form submission when an added record gets a
   fresh id and an edit's payload carries no id or the edited record's own id.
   */
  lemma UpsertKeepsUniqueIds(s: seq<Appointment>, editing: Option<Appointment>, data: Payload, newId: string)
    requires UniqueIds(s)
    requires editing.None? ==> !HasId(s, newId)
    requires editing.Some? ==> data.id.None? || data.id == Some(editing.value.id)
    ensures UniqueIds(Upsert(s, editing, data, newId))
  {
  }

  // ---------------------------------------------------------------------------
  // Delete
  // ---------------------------------------------------------------------------

  /**
   Confirming a delete: `appointments.filter(a => a.id !== deleteId)`, where
   `None` stands for a pending id of `null`.
   */
  function Remove(s: seq<Appointment>, deleteId: Option<string>): (r: seq<Appointment>)
    ensures |r| <= |s|
    ensures forall i :: 0 <= i < |r| ==> r[i] in s && Some(r[i].id) != deleteId
  {
    Filter(s, Survives(deleteId))
  }

  /** The filter callback `a => a.id !== deleteId`. */
  function Survives(deleteId: Option<string>): (keep: Appointment -> bool)
    ensures deleteId.None? ==> forall a :: keep(a)
    ensures forall a :: !keep(a) <==> deleteId == Some(a.id)
  {
    (a: Appointment) => Some(a.id) != deleteId
  }

  /** Remove drops every occurrence of a record with the pending id and keeps every other one. */
  lemma RemoveCount(s: seq<Appointment>, x: string, a: Appointment)
    ensures multiset(Remove(s, Some(x)))[a] == if a.id == x then 0 else multiset(s)[a]
  {
    FilterCount(s, Survives(Some(x)), a);
  }

  /** After Remove no record with the pending id is left, and the rest keep their order. */
  lemma RemoveSubsequence(s: seq<Appointment>, x: string)
    ensures !HasId(Remove(s, Some(x)), x)
    ensures IsSubsequence(Remove(s, Some(x)), s)
  {
    FilterIsSubsequence(s, Survives(Some(x)));
  }

  /** With no pending id (`null`) nothing is removed. */
  lemma RemoveNothingPending(s: seq<Appointment>)
    ensures Remove(s, None) == s
  {
    FilterIdentity(s, Survives(None));
  }

  /** Removing an id that does not occur leaves the list unchanged. */
  lemma RemoveAbsent(s: seq<Appointment>, x: string)
    requires !HasId(s, x)
    ensures Remove(s, Some(x)) == s
  {
    FilterIdentity(s, Survives(Some(x)));
  }

  /** With unique ids, removing the id of record i removes exactly that record. */
  lemma RemoveUnique(s: seq<Appointment>, i: nat)
    requires UniqueIds(s) && i < |s|
    ensures Remove(s, Some(s[i].id)) == s[..i] + s[i + 1..]
  {
    var x := s[i].id;
    var before, after := s[..i], s[i + 1..];
    assert s == before + ([s[i]] + after);
    assert !HasId(before, x) by {
      forall k | 0 <= k < |before| ensures before[k].id != x {
        assert before[k] == s[k];
      }
    }
    assert !HasId(after, x) by {
      forall k | 0 <= k < |after| ensures after[k].id != x {
        assert after[k] == s[i + 1 + k];
      }
    }
    RemoveAbsent(before, x);
    RemoveAbsent(after, x);
    FilterAppend(before, [s[i]] + after, Survives(Some(x)));
    FilterAppend([s[i]], after, Survives(Some(x)));
    assert Remove([s[i]], Some(x)) == [];
  }

  /** Any filter keeps ids unique. */
  lemma {:induction false} FilterKeepsUniqueIds(s: seq<Appointment>, p: Appointment -> bool)
    requires UniqueIds(s)
    ensures UniqueIds(Filter(s, p))
  {
    if s != [] {
      FilterKeepsUniqueIds(s[1..], p);
      var t := Filter(s[1..], p);
      if p(s[0]) {
        forall j | 0 <= j < |t| ensures t[j].id != s[0].id {
          var k :| 0 <= k < |s[1..]| && s[1..][k] == t[j];
          assert s[k + 1] == t[j];
        }
        assert Filter(s, p) == [s[0]] + t;
      }
    }
  }

  /** Deleting keeps ids unique. */
  lemma RemoveKeepsUniqueIds(s: seq<Appointment>, deleteId: Option<string>)
    requires UniqueIds(s)
    ensures UniqueIds(Remove(s, deleteId))
  {
    FilterKeepsUniqueIds(s, Survives(deleteId));
  }

  /** Confirming the same delete twice has the effect of confirming it once. */
  lemma RemoveIdempotent(s: seq<Appointment>, deleteId: Option<string>)
    ensures Remove(Remove(s, deleteId), deleteId) == Remove(s, deleteId)
  {
    FilterIdempotent(s, Survives(deleteId));
  }

  // ---------------------------------------------------------------------------
  // The status view and the status colour
  // ---------------------------------------------------------------------------

  /** The row filter `filter === "all" || a.status === filter`. */
  predicate Shown(a: Appointment, filter: string)
    ensures filter == "all" ==> Shown(a, filter)
    ensures filter != "all" ==> (Shown(a, filter) <==> a.status == Some(filter))
  {
    filter == "all" || a.status == Some(filter)
  }

  /** The rows on display for the chosen filter, in list order. */
  function View(s: seq<Appointment>, filter: string): (r: seq<Appointment>)
    ensures |r| <= |s|
    ensures forall i :: 0 <= i < |r| ==> r[i] in s && Shown(r[i], filter)
  {
    Filter(s, ShownUnder(filter))
  }

  /** `Shown` as the filter callback. */
  function ShownUnder(filter: string): Appointment -> bool
  {
    (a: Appointment) => Shown(a, filter)
  }

  /** Under the filter "all" every record is on display, in list order. */
  lemma ViewAll(s: seq<Appointment>)
    ensures View(s, "all") == s
  {
    FilterIdentity(s, ShownUnder("all"));
  }

  /**
   Under any other filter the view holds exactly the records with that status,
   each as often as in the list, in list order, and is never longer than the list.
   */
  lemma ViewStatus(s: seq<Appointment>, filter: string, a: Appointment)
    requires filter != "all"
    ensures multiset(View(s, filter))[a] == if a.status == Some(filter) then multiset(s)[a] else 0
    ensures IsSubsequence(View(s, filter), s)
    ensures |View(s, filter)| <= |s|
  {
    FilterCount(s, ShownUnder(filter), a);
    FilterIsSubsequence(s, ShownUnder(filter));
  }

  /** The class strings of the status badge. */
  const CompletedColor := "bg-green-100 text-green-800"
  const PendingColor := "bg-yellow-100 text-yellow-800"
  const MissedColor := "bg-red-100 text-red-800"
  const DefaultColor := "bg-gray-100 text-white"

  /**
   The badge colour of a status. Every status gets one: the three known
   statuses their own, distinct ones, anything else (an absent status
   included) the default.
   */
  function StatusColor(status: Option<string>): (r: string)
    ensures r == CompletedColor <==> status == Some("completed")
    ensures r == PendingColor <==> status == Some("pending")
    ensures r == MissedColor <==> status == Some("missed")
    ensures r == DefaultColor <==> status !in {Some("completed"), Some("pending"), Some("missed")}
  {
    match status
    case Some("completed") => CompletedColor
    case Some("pending") => PendingColor
    case Some("missed") => MissedColor
    case _ => DefaultColor
  }

  // ---------------------------------------------------------------------------
  // The component's state and event handlers
  // ---------------------------------------------------------------------------

  class Component {
    /** The list on display. */
    var appointments: seq<Appointment>
    /** The record whose edit form is open, or None when adding. */
    var editing: Option<Appointment>
    /** The id awaiting delete confirmation, or None (`null`). */
    var deleteId: Option<string>
    var showDeleteModal: bool
    var showForm: bool
    /** The list as last written to the browser's storage slot. */
    var stored: seq<Appointment>

    /**
     The storage mirror agrees with the list, and the delete dialog is open
     exactly while an id awaits confirmation.
     */
    ghost predicate Valid()
      reads this
    {
      stored == appointments && showDeleteModal == deleteId.Some?
    }

    /** The component after mounting, holding the list loaded from storage. */
    constructor (loaded: seq<Appointment>, formOpen: bool)
      ensures Valid()
      ensures appointments == loaded && stored == loaded
      ensures editing == None && deleteId == None && !showDeleteModal
      ensures showForm == formOpen
    {
      appointments := loaded;
      stored := loaded;
      editing := None;
      deleteId := None;
      showDeleteModal := false;
      showForm := formOpen;
    }

    /**
     Form submission: add or edit, write the new list to storage, close the
     form and forget the editing target. The delete state is untouched.
     */
    method HandleAddEdit(data: Payload, newId: string)
      requires Valid()
      modifies this`appointments, this`stored, this`showForm, this`editing
      ensures Valid()
      ensures appointments == Upsert(old(appointments), old(editing), data, newId)
      ensures stored == appointments
      ensures !showForm && editing == None
      ensures UniqueIds(old(appointments))
              && (old(editing).None? ==> !HasId(old(appointments), newId))
              && (old(editing).Some? ==> data.id.None? || data.id == Some(old(editing).value.id))
              ==> UniqueIds(appointments)
    {
      if UniqueIds(appointments) && (editing.None? ==> !HasId(appointments, newId))
         && (editing.Some? ==> data.id.None? || data.id == Some(editing.value.id)) {
        UpsertKeepsUniqueIds(appointments, editing, data, newId);
      }
      var updated := Upsert(appointments, editing, data, newId);
      appointments := updated;
      stored := updated;
      showForm := false;
      editing := None;
    }

    /** Asks for confirmation before deleting the record with id `id`. */
    method OpenDeleteModal(id: string)
      requires Valid()
      modifies this`deleteId, this`showDeleteModal
      ensures Valid()
      ensures deleteId == Some(id) && showDeleteModal
    {
      deleteId := Some(id);
      showDeleteModal := true;
    }

    /**
     Deletes every record with the pending id, writes the result to storage
     and closes the dialog.
     */
    method ConfirmDelete()
      requires Valid()
      modifies this`appointments, this`stored, this`deleteId, this`showDeleteModal
      ensures Valid()
      ensures appointments == Remove(old(appointments), old(deleteId))
      ensures stored == appointments
      ensures deleteId == None && !showDeleteModal
      ensures UniqueIds(old(appointments)) ==> UniqueIds(appointments)
    {
      if UniqueIds(appointments) {
        RemoveKeepsUniqueIds(appointments, deleteId);
      }
      var updated := Remove(appointments, deleteId);
      appointments := updated;
      stored := updated;
      showDeleteModal := false;
      deleteId := None;
    }

    /** Closes the dialog without deleting anything. */
    method CancelDelete()
      requires Valid()
      modifies this`deleteId, this`showDeleteModal
      ensures Valid()
      ensures deleteId == None && !showDeleteModal
    {
      showDeleteModal := false;
      deleteId := None;
    }

    /** Opens the form on record `a`. */
    method HandleEdit(a: Appointment)
      requires Valid()
      modifies this`editing, this`showForm
      ensures Valid()
      ensures editing == Some(a) && showForm
    {
      editing := Some(a);
      showForm := true;
    }

    /** Closing the form without submitting: the list is untouched. */
    method CloseForm()
      requires Valid()
      modifies this`editing, this`showForm
      ensures Valid()
      ensures editing == None && !showForm
    {
      showForm := false;
      editing := None;
    }

    /** The rows on display for the chosen filter. */
    function Visible(filter: string): (r: seq<Appointment>)
      reads this
      ensures filter == "all" ==> r == appointments
      ensures forall i :: 0 <= i < |r| ==> r[i] in appointments && Shown(r[i], filter)
    {
      ViewAll(appointments);
      View(appointments, filter)
    }
  }

  /**
   Opening the delete dialog and cancelling it leaves the list, its stored
   copy and the form alone, and ends with the dialog closed and no pending id.
   */
  method OpenThenCancel(c: Component, id: string)
    requires c.Valid()
    modifies c
    ensures c.Valid()
    ensures c.appointments == old(c.appointments) && c.stored == old(c.stored)
    ensures c.editing == old(c.editing) && c.showForm == old(c.showForm)
    ensures c.deleteId == None && !c.showDeleteModal
  {
    c.OpenDeleteModal(id);
    c.CancelDelete();
  }

  /**
   Opening the delete dialog on `id` and confirming removes exactly the
   records with that id, in memory and in storage; with unique ids that is
   the one record at position i.
   */
  method OpenThenConfirm(c: Component, id: string)
    requires c.Valid()
    modifies c
    ensures c.Valid()
    ensures c.appointments == Remove(old(c.appointments), Some(id)) && c.stored == c.appointments
    ensures forall i :: 0 <= i < |old(c.appointments)| && UniqueIds(old(c.appointments))
              && old(c.appointments)[i].id == id
              ==> c.appointments == old(c.appointments)[..i] + old(c.appointments)[i + 1..]
    ensures c.editing == old(c.editing) && c.showForm == old(c.showForm)
    ensures c.deleteId == None && !c.showDeleteModal
  {
    ghost var before := c.appointments;
    c.OpenDeleteModal(id);
    c.ConfirmDelete();
    forall i | 0 <= i < |before| && UniqueIds(before) && before[i].id == id
      ensures c.appointments == before[..i] + before[i + 1..]
    {
      RemoveUnique(before, i);
    }
  }
}
