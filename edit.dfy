/** The edit dialog (src/EditModal.jsx): its lock, its gates and `handleSave`. */
module Edit {
  import opened Wrappers
  import opened JsText
  import opened Dates
  import opened Store

  /**
   * `locked`: a reservation is locked when it has a date and that date is
   * before today. A missing or empty date never locks.
   */
  function Locked(date: Option<string>, today: string): (locked: bool)
    ensures date.None? || date.value == "" ==> !locked
    ensures date.Some? && date.value != "" ==> (locked <==> !IsTodayOrFutureYMD(date.value, today))
  {
    if date.None? || date.value == "" then false
    else
      PastIffNotTodayOrFuture(date.value, today);
      IsPastYMD(date.value, today)
  }

  /** The checks `handleSave` makes, in order: the message of the first that fails. */
  function EditCheck(locked: bool, name: string, size: Option<int>): (failure: Option<string>)
    ensures failure == None <==> !locked && Trim(name) != "" && SizeAccepted(size)
    ensures locked ==> failure == Some(EditLocked)
    ensures !locked && Trim(name) == "" ==> failure == Some(NameRequired)
    ensures !locked && Trim(name) != "" && !SizeAccepted(size) ==> failure == Some(SizeTooSmall)
  {
    if locked then Some(EditLocked)
    else if Trim(name) == "" then Some(NameRequired)
    else if !SizeAccepted(size) then Some(SizeTooSmall)
    else None
  }

  /** `canSave`: no check fails and no save is running. The phone is not checked. */
  function CanSave(locked: bool, saving: bool, name: string, size: Option<int>): (enabled: bool)
    ensures enabled <==> !saving && EditCheck(locked, name, size) == None
  {
    if locked || saving then false
    else if Trim(name) == "" then false
    else SizeAccepted(size)
  }

  /** `time ? time : null`: an empty time is stored as `null`. */
  function StoredTime(time: string): (stored: Option<string>)
    ensures stored.None? <==> time == ""
    ensures stored.Some? ==> stored.value == time
  {
    if time == "" then None else Some(time)
  }

  class EditModal {
    /** The `reservation` prop. */
    const reservation: Reservation
    /**
     * Today's key when `locked` was computed. The memo is keyed on the
     * reservation's date, which a mounted dialog never changes, so the code
     * takes it once, when the dialog opens.
     */
    var lockedOn: string
    var name: string
    var phone: string
    /** `Number(size)`, None when that is not finite. */
    var size: Option<int>
    var time: string
    var saving: bool
    var error: string

    /**
     * The dialog opened on day `today`: the reservation's columns, a missing
     * size read as 1, a missing time as "".
     */
    constructor (reservation: Reservation, today: string)
      ensures this.reservation == reservation && lockedOn == today
      ensures name == reservation.name && phone == reservation.phone
      ensures size == Some(reservation.size.GetOr(1)) && time == reservation.time.GetOr("")
      ensures !saving && error == ""
    {
      this.reservation := reservation;
      lockedOn := today;
      name, phone := reservation.name, reservation.phone;
      size, time := Some(reservation.size.GetOr(1)), reservation.time.GetOr("");
      saving, error := false, "";
    }

    /** `locked`, as computed when the dialog opened. */
    predicate IsLocked()
      reads this
    {
      Locked(reservation.date, lockedOn)
    }

    /** `canSave` as rendered: the save button's state (also the Ctrl+S gate). */
    predicate SaveEnabled()
      reads this
    {
      CanSave(IsLocked(), saving, name, size)
    }

    /** The update half of `handleSave`: `saving` is set for the call, then the reply decides. */
    method Submit(reply: Reply) returns (refreshRequested: bool, closeRequested: bool)
      modifies this
      ensures name == old(name) && phone == old(phone) && size == old(size) && time == old(time) && !saving
      ensures lockedOn == old(lockedOn)
      ensures reply.Err? ==> error == ErrorText(reply.message, UpdateFailed) && !refreshRequested && !closeRequested
      ensures reply.Ok? ==> error == "" && refreshRequested && closeRequested
    {
      // `saving` is held for the awaited update, which is the reply passed in.
      saving := true;
      error := "";
      saving := false;
      if reply.Err? {
        error := ErrorText(reply.message, UpdateFailed);
        return false, false;
      }
      refreshRequested, closeRequested := true, true;
    }

    /**
     * `handleSave`. `reply` is what the store's update returns; `sent` is
     * the update made (None when none is made). On success the dialog asks
     * for a refresh and then to be closed; on failure it stays open. The
     * lock it checks is the one computed when the dialog opened.
     */
    method HandleSave(reply: Reply) returns (sent: Option<Update>, refreshRequested: bool, closeRequested: bool)
      modifies this
      ensures name == old(name) && phone == old(phone) && size == old(size) && time == old(time)
      ensures lockedOn == old(lockedOn)
      ensures var failure := EditCheck(IsLocked(), old(name), old(size));
        if failure.Some? then
          && sent == None && !refreshRequested && !closeRequested
          && error == failure.value && saving == old(saving)
        else
          && sent == Some(Update(reservation.id,
                Record(Trim(old(name)), Trim(old(phone)), old(size).value, StoredTime(old(time)), reservation.date)))
          && !saving
          && (reply.Err? ==> error == ErrorText(reply.message, UpdateFailed) && !refreshRequested && !closeRequested)
          && (reply.Ok? ==> error == "" && refreshRequested && closeRequested)
      ensures sent.Some? ==>
        && sent.value.id == reservation.id && sent.value.patch.date == reservation.date
        && !Locked(reservation.date, lockedOn)
        && sent.value.patch.name != "" && sent.value.patch.size >= 1
      ensures !old(saving) ==> (sent.Some? <==> old(SaveEnabled()))
    {
      var typedName, typedPhone, typedSize, typedTime := name, phone, size, time;
      var failure := EditCheck(IsLocked(), typedName, typedSize);
      sent, refreshRequested, closeRequested := None, false, false;
      if failure.Some? {
        error := failure.value;
        return;
      }

      var patch := Record(Trim(typedName), Trim(typedPhone), typedSize.value, StoredTime(typedTime), reservation.date);
      sent := Some(Update(reservation.id, patch));
      refreshRequested, closeRequested := Submit(reply);
    }

    /**
     * `handleSave` with the lock decided by the clock at the moment of the
     * call, instead of when the dialog opened: the lock is taken again at
     * `now`, then `handleSave` runs as written. A reservation whose day has
     * become past is refused; any other gets exactly the outcome of `handleSave`.
     */
    method HandleSaveAt(now: string, reply: Reply) returns (sent: Option<Update>, refreshRequested: bool, closeRequested: bool)
      modifies this
      ensures lockedOn == now && (IsLocked() <==> Locked(reservation.date, now))
      ensures name == old(name) && phone == old(phone) && size == old(size) && time == old(time)
      ensures var failure := EditCheck(Locked(reservation.date, now), old(name), old(size));
        if failure.Some? then
          && sent == None && !refreshRequested && !closeRequested
          && error == failure.value && saving == old(saving)
        else
          && sent == Some(Update(reservation.id,
                Record(Trim(old(name)), Trim(old(phone)), old(size).value, StoredTime(old(time)), reservation.date)))
          && !saving
          && (reply.Err? ==> error == ErrorText(reply.message, UpdateFailed) && !refreshRequested && !closeRequested)
          && (reply.Ok? ==> error == "" && refreshRequested && closeRequested)
      ensures Locked(reservation.date, now) ==> sent == None && error == EditLocked && !refreshRequested && !closeRequested
      ensures !Locked(reservation.date, now) && EditCheck(false, old(name), old(size)) == None ==> sent.Some?
      ensures sent.Some? ==>
        && !Locked(reservation.date, now)
        && sent.value.id == reservation.id && sent.value.patch.date == reservation.date
    {
      lockedOn := now;
      sent, refreshRequested, closeRequested := HandleSave(reply);
    }
  }

  /**
   * The dialog is opened on 2026-10-16 for a reservation of that day and
   * saved after midnight. The lock kept from the opening lets the update
   * through for a day that is now past, while HandleSaveAt refuses it.
   */
  method StaleLockEdit() returns (sent: Option<Update>, sentAt: Option<Update>)
    ensures sent.Some? && sent.value.patch.date == Some("2026-10-16") && IsPastYMD("2026-10-16", "2026-10-17")
    ensures sentAt == None
  {
    MidnightRollover();
    var r := Reservation(7, Some("2026-10-16"), "Ana", "+1 720-123-4567", Some(2), Some("6:00 PM"));
    assert !IsJsSpace(r.name[0]);
    var modal := new EditModal(r, "2026-10-16");
    var refreshRequested, closeRequested;
    sent, refreshRequested, closeRequested := modal.HandleSave(Ok);

    var later := new EditModal(r, "2026-10-16");
    sentAt, refreshRequested, closeRequested := later.HandleSaveAt("2026-10-17", Ok);
  }
}
