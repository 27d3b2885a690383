/** The page controller (src/App.jsx): the day list, the highlights, the lock guards and the modal targets. */
module Controller {
  import opened Wrappers
  import opened JsText
  import opened Dates
  import opened Store
  import Form
  import Edit

  /** `Number(r.size) || 0`: a missing or non-numeric size counts as 0. */
  function SizeOrZero(r: Reservation): (n: int)
    ensures r.size.None? ==> n == 0
    ensures r.size.Some? ==> n == r.size.value
  {
    r.size.GetOr(0)
  }

  /** `totalSize`: the reduce from 0 over the rows, left to right. */
  function TotalSize(rows: seq<Reservation>): (total: int)
    ensures rows == [] ==> total == 0
    ensures (forall i :: 0 <= i < |rows| ==> SizeOrZero(rows[i]) >= 0) ==> total >= 0
  {
    if rows == [] then 0 else TotalSize(rows[..|rows| - 1]) + SizeOrZero(rows[|rows| - 1])
  }

  /** Appending a row adds its size, or 0 when it has none. */
  lemma TotalSizeAppend(rows: seq<Reservation>, r: Reservation)
    ensures TotalSize(rows + [r]) == TotalSize(rows) + SizeOrZero(r)
  {
    assert (rows + [r])[..|rows|] == rows;
  }

  /** The total of two lists put together is the sum of their totals. */
  lemma {:induction false} TotalSizeConcat(a: seq<Reservation>, b: seq<Reservation>)
    ensures TotalSize(a + b) == TotalSize(a) + TotalSize(b)
    decreases |b|
  {
    if b == [] {
      assert a + b == a;
    } else {
      var init := b[..|b| - 1];
      var last := b[|b| - 1];
      assert b == init + [last];
      assert a + b == (a + init) + [last];
      TotalSizeConcat(a, init);
      TotalSizeAppend(a + init, last);
      TotalSizeAppend(init, last);
    }
  }

  /**
   * `[...new Set(values)]`: each value once, in the order of its first
   * occurrence.
   */
  function Distinct<T(==)>(values: seq<T>): (unique: seq<T>)
    ensures forall i :: 0 <= i < |values| ==> values[i] in unique
    ensures forall k :: 0 <= k < |unique| ==> unique[k] in values
    ensures forall i, j :: 0 <= i < j < |unique| ==> unique[i] != unique[j]
    ensures |unique| <= |values|
  {
    if values == [] then []
    else
      var init := values[..|values| - 1];
      var seen := Distinct(init);
      var last := values[|values| - 1];
      assert forall i :: 0 <= i < |values| - 1 ==> values[i] == init[i];
      if last in seen then seen else seen + [last]
  }

  /** A list without repeats is its own de-duplication. */
  lemma {:induction false} DistinctOfDistinct<T>(values: seq<T>)
    requires forall i, j :: 0 <= i < j < |values| ==> values[i] != values[j]
    ensures Distinct(values) == values
  {
    if values != [] {
      var init := values[..|values| - 1];
      DistinctOfDistinct(init);
      assert values[|values| - 1] !in init;
    }
  }

  /** The list `fetchReservations` stores: the rows, or nothing when the select fails. */
  function LoadedList(reply: Fetched<seq<Reservation>>): seq<Reservation> {
    match reply
    case Rows(rows) => rows
    case Failed(_) => []
  }

  /** The error `fetchReservations` leaves: none, or the select's message. */
  function LoadError(reply: Fetched<seq<Reservation>>): (shown: string)
    ensures reply.Rows? <==> shown == ""
  {
    match reply
    case Rows(_) => ""
    case Failed(message) => ErrorText(message, LoadFailed)
  }

  /**
   * The highlights `fetchHighlightedDates` stores. The select returns the
   * `date` column only; `dates` is that column, row by row.
   */
  function Highlights(reply: Fetched<seq<Option<string>>>): (highlighted: seq<Option<string>>)
    ensures reply.Failed? ==> highlighted == []
    ensures reply.Rows? ==> forall d :: d in highlighted <==> d in reply.data
    ensures forall i, j :: 0 <= i < j < |highlighted| ==> highlighted[i] != highlighted[j]
  {
    match reply
    case Rows(dates) => Distinct(dates)
    case Failed(_) => []
  }

  class App {
    var selectedYMD: string
    /**
     * Today's key when `canModifySelectedDay` and `selectedIsPast` were last
     * computed. Both memos are keyed on `selectedYMD` alone, so the clock is
     * read only when another day is selected.
     */
    var lockedOn: string
    var reservations: seq<Reservation>
    var highlightedDates: seq<Option<string>>
    var editRes: Option<Reservation>
    var deleteResId: Option<Id>
    var loadingList: bool
    var loadingHighlights: bool
    var error: string

    /** The first render, on day `today`: today is selected and nothing is loaded yet. */
    constructor (today: string)
      ensures selectedYMD == today && lockedOn == today && CanModifySelectedDay()
      ensures reservations == [] && highlightedDates == []
      ensures editRes == None && deleteResId == None
      ensures !loadingList && !loadingHighlights && error == ""
    {
      selectedYMD, lockedOn := today, today;
      reservations, highlightedDates := [], [];
      editRes, deleteResId := None, None;
      loadingList, loadingHighlights, error := false, false, "";
    }

    /** `canModifySelectedDay`: the selected day was today or later when the memo was computed. */
    predicate CanModifySelectedDay()
      reads this
    {
      IsTodayOrFutureYMD(selectedYMD, lockedOn)
    }

    /** `selectedIsPast`: the selected day was before today when the memo was computed. */
    predicate SelectedIsPast()
      reads this
    {
      IsPastYMD(selectedYMD, lockedOn)
    }

    /** The two badges never disagree: the day is either past or modifiable. */
    lemma PastIffNotModifiable()
      ensures SelectedIsPast() <==> !CanModifySelectedDay()
    {
      PastIffNotTodayOrFuture(selectedYMD, lockedOn);
    }

    /** `fetchReservations`: the list of the selected day, or an error and an empty list. */
    method FetchReservations(reply: Fetched<seq<Reservation>>)
      modifies this
      ensures reservations == LoadedList(reply) && error == LoadError(reply) && !loadingList
      ensures selectedYMD == old(selectedYMD) && lockedOn == old(lockedOn) && highlightedDates == old(highlightedDates)
      ensures editRes == old(editRes) && deleteResId == old(deleteResId)
      ensures loadingHighlights == old(loadingHighlights)
    {
      loadingList := true;
      error := "";
      match reply {
        case Failed(message) =>
          error := ErrorText(message, LoadFailed);
          reservations := [];
        case Rows(rows) =>
          reservations := rows;
      }
      loadingList := false;
    }

    /** `fetchHighlightedDates`: the distinct dates of all rows, or none when the select fails. */
    method FetchHighlightedDates(reply: Fetched<seq<Option<string>>>)
      modifies this
      ensures highlightedDates == Highlights(reply) && !loadingHighlights
      ensures selectedYMD == old(selectedYMD) && lockedOn == old(lockedOn)
      ensures reservations == old(reservations) && error == old(error)
      ensures editRes == old(editRes) && deleteResId == old(deleteResId)
      ensures loadingList == old(loadingList)
    {
      loadingHighlights := true;
      match reply {
        case Failed(_) =>
          highlightedDates := [];
        case Rows(dates) =>
          var uniqueDates := Distinct(dates);
          highlightedDates := uniqueDates;
      }
      loadingHighlights := false;
    }

    /** `refreshAll`: both loads, taken one after the other. */
    method RefreshAll(listReply: Fetched<seq<Reservation>>, datesReply: Fetched<seq<Option<string>>>)
      modifies this
      ensures reservations == LoadedList(listReply) && error == LoadError(listReply)
      ensures highlightedDates == Highlights(datesReply)
      ensures !loadingList && !loadingHighlights
      ensures selectedYMD == old(selectedYMD) && lockedOn == old(lockedOn)
      ensures editRes == old(editRes) && deleteResId == old(deleteResId)
    {
      FetchReservations(listReply);
      FetchHighlightedDates(datesReply);
    }

    /**
     * Picking day `ymd` on the calendar, on day `today`. Another day makes
     * the memos read the clock again and the day's list load again;
     * picking the selected day again changes nothing.
     */
    method SelectDate(ymd: string, today: string, listReply: Fetched<seq<Reservation>>)
      modifies this
      ensures ymd == old(selectedYMD) ==> unchanged(this)
      ensures ymd != old(selectedYMD) ==>
        && selectedYMD == ymd && lockedOn == today
        && (CanModifySelectedDay() <==> IsTodayOrFutureYMD(ymd, today))
        && reservations == LoadedList(listReply) && error == LoadError(listReply) && !loadingList
        && highlightedDates == old(highlightedDates) && loadingHighlights == old(loadingHighlights)
        && editRes == old(editRes) && deleteResId == old(deleteResId)
    {
      if ymd == selectedYMD {
        return;
      }
      selectedYMD, lockedOn := ymd, today;
      FetchReservations(listReply);
    }

    /**
     * `deleteReservation(id)`. `reply` is what the store's delete returns;
     * `sent` is the id a delete was made for (None when none is made). The
     * lock it checks is the cached `canModifySelectedDay`.
     */
    method DeleteReservation(id: Id, reply: Reply,
                             listReply: Fetched<seq<Reservation>>, datesReply: Fetched<seq<Option<string>>>)
      returns (sent: Option<Id>)
      modifies this
      ensures selectedYMD == old(selectedYMD) && lockedOn == old(lockedOn) && editRes == old(editRes)
      ensures !CanModifySelectedDay() ==>
        && sent == None && error == DeleteLocked && deleteResId == None
        && reservations == old(reservations) && highlightedDates == old(highlightedDates)
        && loadingList == old(loadingList) && loadingHighlights == old(loadingHighlights)
      ensures CanModifySelectedDay() ==>
        && sent == Some(id) && !loadingList
        && (reply.Err? ==>
              && error == ErrorText(reply.message, DeleteFailed) && deleteResId == old(deleteResId)
              && reservations == old(reservations) && highlightedDates == old(highlightedDates)
              && loadingHighlights == old(loadingHighlights))
        && (reply.Ok? ==>
              && deleteResId == None
              && reservations == LoadedList(listReply) && error == LoadError(listReply)
              && highlightedDates == Highlights(datesReply) && !loadingHighlights)
    {
      if !CanModifySelectedDay() {
        error := DeleteLocked;
        deleteResId := None;
        return None;
      }

      loadingList := true;
      error := "";
      sent := Some(id);

      if reply.Err? {
        error := ErrorText(reply.message, DeleteFailed);
      } else {
        deleteResId := None;
        RefreshAll(listReply, datesReply);
      }

      loadingList := false;
    }

    /**
     * `deleteReservation(id)` with the lock decided by the clock at the
     * moment of the call: the memos are brought up to `now` first, then
     * `deleteReservation` runs as written. A selected day that has become
     * past is refused; any other day gets exactly the outcome of the delete.
     */
    method DeleteReservationAt(id: Id, now: string, reply: Reply,
                               listReply: Fetched<seq<Reservation>>, datesReply: Fetched<seq<Option<string>>>)
      returns (sent: Option<Id>)
      modifies this
      ensures lockedOn == now && selectedYMD == old(selectedYMD) && editRes == old(editRes)
      ensures IsPastYMD(selectedYMD, now) ==>
        && sent == None && error == DeleteLocked && deleteResId == None
        && reservations == old(reservations) && highlightedDates == old(highlightedDates)
        && loadingList == old(loadingList) && loadingHighlights == old(loadingHighlights)
      ensures IsTodayOrFutureYMD(selectedYMD, now) ==>
        && sent == Some(id) && !loadingList
        && (reply.Err? ==>
              && error == ErrorText(reply.message, DeleteFailed) && deleteResId == old(deleteResId)
              && reservations == old(reservations) && highlightedDates == old(highlightedDates)
              && loadingHighlights == old(loadingHighlights))
        && (reply.Ok? ==>
              && deleteResId == None
              && reservations == LoadedList(listReply) && error == LoadError(listReply)
              && highlightedDates == Highlights(datesReply) && !loadingHighlights)
      ensures sent.Some? ==> sent.value == id && IsTodayOrFutureYMD(selectedYMD, now)
    {
      lockedOn := now;
      PastIffNotModifiable();
      sent := DeleteReservation(id, reply, listReply, datesReply);
    }

    /** The Edit button of a row: opens the dialog for `r`, unless the day is locked. */
    method EditClicked(r: Reservation)
      modifies this
      ensures selectedYMD == old(selectedYMD) && lockedOn == old(lockedOn) && reservations == old(reservations)
      ensures highlightedDates == old(highlightedDates) && deleteResId == old(deleteResId)
      ensures loadingList == old(loadingList) && loadingHighlights == old(loadingHighlights)
      ensures !CanModifySelectedDay() ==> error == EditLocked && editRes == old(editRes)
      ensures CanModifySelectedDay() ==> error == old(error) && editRes == Some(r)
    {
      if !CanModifySelectedDay() {
        error := EditLocked;
        return;
      }
      editRes := Some(r);
    }

    /** The Delete button of a row: asks to confirm deleting `r`, unless the day is locked. */
    method DeleteClicked(r: Reservation)
      modifies this
      ensures selectedYMD == old(selectedYMD) && lockedOn == old(lockedOn) && reservations == old(reservations)
      ensures highlightedDates == old(highlightedDates) && editRes == old(editRes)
      ensures loadingList == old(loadingList) && loadingHighlights == old(loadingHighlights)
      ensures !CanModifySelectedDay() ==> error == DeleteLocked && deleteResId == old(deleteResId)
      ensures CanModifySelectedDay() ==> error == old(error) && deleteResId == Some(r.id)
    {
      if !CanModifySelectedDay() {
        error := DeleteLocked;
        return;
      }
      deleteResId := Some(r.id);
    }

    /** The confirmation is shown while `deleteResId` is truthy: an id of 0 shows nothing. */
    predicate ConfirmShown()
      reads this
    {
      deleteResId.Some? && deleteResId.value != 0
    }

    /**
     * The confirmation's OK: `deleteReservation(deleteResId)`. Without a
     * shown confirmation there is no button and nothing happens.
     */
    method ConfirmDelete(reply: Reply,
                         listReply: Fetched<seq<Reservation>>, datesReply: Fetched<seq<Option<string>>>)
      returns (sent: Option<Id>)
      modifies this
      ensures !old(ConfirmShown()) ==> sent == None && unchanged(this)
      ensures selectedYMD == old(selectedYMD) && lockedOn == old(lockedOn) && editRes == old(editRes)
      ensures old(ConfirmShown()) && !CanModifySelectedDay() ==>
        && sent == None && error == DeleteLocked && deleteResId == None
        && reservations == old(reservations) && highlightedDates == old(highlightedDates)
        && loadingList == old(loadingList) && loadingHighlights == old(loadingHighlights)
      ensures old(ConfirmShown()) && CanModifySelectedDay() ==>
        && sent == old(deleteResId) && !loadingList
        && (reply.Err? ==>
              && error == ErrorText(reply.message, DeleteFailed) && deleteResId == old(deleteResId)
              && reservations == old(reservations) && highlightedDates == old(highlightedDates)
              && loadingHighlights == old(loadingHighlights))
        && (reply.Ok? ==>
              && deleteResId == None
              && reservations == LoadedList(listReply) && error == LoadError(listReply)
              && highlightedDates == Highlights(datesReply) && !loadingHighlights)
    {
      sent := None;
      if ConfirmShown() {
        sent := DeleteReservation(deleteResId.value, reply, listReply, datesReply);
      }
    }

    /** The confirmation's Cancel. */
    method CancelDelete()
      modifies this
      ensures deleteResId == None
      ensures selectedYMD == old(selectedYMD) && lockedOn == old(lockedOn)
      ensures reservations == old(reservations) && error == old(error)
      ensures highlightedDates == old(highlightedDates) && editRes == old(editRes)
      ensures loadingList == old(loadingList) && loadingHighlights == old(loadingHighlights)
    {
      deleteResId := None;
    }

    /** The dialog's `close`. */
    method CloseEdit()
      modifies this
      ensures editRes == None
      ensures selectedYMD == old(selectedYMD) && lockedOn == old(lockedOn)
      ensures reservations == old(reservations) && error == old(error)
      ensures highlightedDates == old(highlightedDates) && deleteResId == old(deleteResId)
      ensures loadingList == old(loadingList) && loadingHighlights == old(loadingHighlights)
    {
      editRes := None;
    }

    /**
     * The add form's first render, on day `today`: it gets the selected day
     * and `disabled = !canModifySelectedDay`, so a locked page always
     * disables it.
     */
    method MountForm(today: string) returns (form: Form.ReservationForm)
      ensures fresh(form)
      ensures form.dateYMD == selectedYMD && form.disabledProp == !CanModifySelectedDay() && form.lockedOn == today
      ensures form.name == "" && form.phoneRaw == "" && form.size == Some(1) && form.time == ""
      ensures !CanModifySelectedDay() ==> form.Disabled()
      ensures today == lockedOn ==> (form.Disabled() <==> SelectedIsPast())
    {
      PastIffNotModifiable();
      form := new Form.ReservationForm(selectedYMD, !CanModifySelectedDay(), today);
    }

    /**
     * The page renders the mounted add form again, on day `today`, with its
     * current props. The form keeps what was typed into it.
     */
    method PassFormProps(form: Form.ReservationForm, today: string)
      modifies form
      ensures form.dateYMD == selectedYMD && form.disabledProp == !CanModifySelectedDay()
      ensures form.lockedOn == if selectedYMD == old(form.dateYMD) then old(form.lockedOn) else today
      ensures form.name == old(form.name) && form.phoneRaw == old(form.phoneRaw)
      ensures form.size == old(form.size) && form.time == old(form.time)
      ensures form.saving == old(form.saving) && form.error == old(form.error) && form.success == old(form.success)
      ensures !CanModifySelectedDay() ==> form.Disabled()
    {
      form.ReceiveProps(selectedYMD, !CanModifySelectedDay(), today);
    }

    /** The add form's `save`, with `refresh` bound to `refreshAll`. */
    method SaveNew(form: Form.ReservationForm, reply: Reply,
                   listReply: Fetched<seq<Reservation>>, datesReply: Fetched<seq<Option<string>>>)
      returns (sent: Option<Record>)
      modifies this, form
      ensures form.dateYMD == old(form.dateYMD) && form.disabledProp == old(form.disabledProp)
      ensures form.lockedOn == old(form.lockedOn)
      ensures var failure := Form.SaveCheck(old(form.Disabled()), old(form.name), old(form.size),
                                            old(form.PhoneFormatted()), old(form.time));
        if failure.Some? then
          && sent == None && form.error == failure.value && form.success == ""
          && form.name == old(form.name) && form.phoneRaw == old(form.phoneRaw)
          && form.size == old(form.size) && form.time == old(form.time) && form.saving == old(form.saving)
        else
          && sent == Some(Record(Trim(old(form.name)), old(form.PhoneFormatted()), old(form.size).value,
                                 Some(old(form.time)), Some(old(form.dateYMD))))
          && !form.saving
          && (reply.Err? ==>
                && form.error == ErrorText(reply.message, SaveFailed) && form.success == ""
                && form.name == old(form.name) && form.phoneRaw == old(form.phoneRaw)
                && form.size == old(form.size) && form.time == old(form.time))
          && (reply.Ok? ==>
                && form.error == "" && form.success == Saved
                && form.name == "" && form.phoneRaw == "" && form.size == Some(1) && form.time == "")
      ensures sent.Some? ==> !form.Disabled() && Form.Admissible(sent.value)
      ensures sent.Some? && reply.Ok? ==>
        && reservations == LoadedList(listReply) && error == LoadError(listReply)
        && highlightedDates == Highlights(datesReply) && !loadingList && !loadingHighlights
      ensures sent.None? || reply.Err? ==>
        && reservations == old(reservations) && highlightedDates == old(highlightedDates) && error == old(error)
        && loadingList == old(loadingList) && loadingHighlights == old(loadingHighlights)
      ensures selectedYMD == old(selectedYMD) && lockedOn == old(lockedOn)
      ensures editRes == old(editRes) && deleteResId == old(deleteResId)
    {
      var refreshRequested;
      sent, refreshRequested := form.Save(reply);
      if refreshRequested {
        RefreshAll(listReply, datesReply);
      }
    }

    /**
     * The edit dialog's `handleSave`, with `refresh` bound to `refreshAll`
     * and `close` clearing `editRes`: on success the lists are reloaded and
     * the dialog closes; on failure it stays open with its error.
     */
    method SaveEdit(modal: Edit.EditModal, reply: Reply,
                    listReply: Fetched<seq<Reservation>>, datesReply: Fetched<seq<Option<string>>>)
      returns (sent: Option<Update>)
      modifies this, modal
      ensures modal.name == old(modal.name) && modal.phone == old(modal.phone)
      ensures modal.size == old(modal.size) && modal.time == old(modal.time)
      ensures var failure := Edit.EditCheck(modal.IsLocked(), old(modal.name), old(modal.size));
        if failure.Some? then
          && sent == None && modal.error == failure.value && modal.saving == old(modal.saving)
        else
          && sent == Some(Update(modal.reservation.id,
                Record(Trim(old(modal.name)), Trim(old(modal.phone)), old(modal.size).value,
                       Edit.StoredTime(old(modal.time)), modal.reservation.date)))
          && !modal.saving
          && (reply.Err? ==> modal.error == ErrorText(reply.message, UpdateFailed))
          && (reply.Ok? ==> modal.error == "")
      ensures sent.Some? && reply.Ok? ==>
        && editRes == None
        && reservations == LoadedList(listReply) && error == LoadError(listReply)
        && highlightedDates == Highlights(datesReply) && !loadingList && !loadingHighlights
      ensures sent.None? || reply.Err? ==>
        && editRes == old(editRes) && reservations == old(reservations) && highlightedDates == old(highlightedDates)
        && error == old(error) && loadingList == old(loadingList) && loadingHighlights == old(loadingHighlights)
      ensures selectedYMD == old(selectedYMD) && lockedOn == old(lockedOn) && deleteResId == old(deleteResId)
    {
      var refreshRequested, closeRequested;
      sent, refreshRequested, closeRequested := modal.HandleSave(reply);
      if refreshRequested {
        RefreshAll(listReply, datesReply);
      }
      if closeRequested {
        CloseEdit();
      }
    }
  }

  /**
   * The page is opened on 2026-10-16 and a delete of that day's row 7 is
   * asked for; it is confirmed after midnight. The cached lock lets the
   * delete through for a day that is now past, while DeleteReservationAt
   * refuses it.
   */
  method StaleLockDelete() returns (sent: Option<Id>, sentAt: Option<Id>)
    ensures sent == Some(7) && IsPastYMD("2026-10-16", "2026-10-17")
    ensures sentAt == None
  {
    MidnightRollover();
    var r := Reservation(7, Some("2026-10-16"), "Ana", "+1 720-123-4567", Some(2), Some("6:00 PM"));
    var app := new App("2026-10-16");
    app.DeleteClicked(r);
    sent := app.ConfirmDelete(Ok, Rows([]), Rows([]));

    var later := new App("2026-10-16");
    sentAt := later.DeleteReservationAt(7, "2026-10-17", Ok, Rows([]), Rows([]));
  }
}
