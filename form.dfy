/** The add-reservation form (src/ReservationForm.jsx): its gates and `save`. */
module Form {
  import opened Wrappers
  import opened JsText
  import opened Dates
  import opened Phone
  import opened Store

  /**
   * The checks `save` makes, in order: the message of the first that fails,
   * or None when the reservation is sent.
   */
  function SaveCheck(disabled: bool, name: string, size: Option<int>, phoneFormatted: string, time: string)
    : (failure: Option<string>)
    ensures failure == None <==>
      !disabled && Trim(name) != "" && SizeAccepted(size) && IsCompletePhone(phoneFormatted) && time != ""
    ensures disabled ==> failure == Some(AddLocked)
    ensures !disabled && Trim(name) == "" ==> failure == Some(NameRequired)
    ensures !disabled && Trim(name) != "" && !SizeAccepted(size) ==> failure == Some(SizeTooSmall)
    ensures !disabled && Trim(name) != "" && SizeAccepted(size) && !IsCompletePhone(phoneFormatted)
      ==> failure == Some(PhoneInvalid)
    ensures !disabled && Trim(name) != "" && SizeAccepted(size) && IsCompletePhone(phoneFormatted) && time == ""
      ==> failure == Some(TimeRequired)
  {
    if disabled then Some(AddLocked)
    else if Trim(name) == "" then Some(NameRequired)
    else if !SizeAccepted(size) then Some(SizeTooSmall)
    else if |Digits(phoneFormatted)| != 11 then Some(PhoneInvalid)
    else if time == "" then Some(TimeRequired)
    else None
  }

  /** `canSave`: the save button is enabled exactly when no save check fails and no save is running. */
  function CanSave(disabled: bool, saving: bool, name: string, size: Option<int>, phoneFormatted: string, time: string)
    : (enabled: bool)
    ensures enabled <==> !saving && SaveCheck(disabled, name, size, phoneFormatted, time) == None
  {
    if disabled || saving then false
    else if Trim(name) == "" then false
    else if !SizeAccepted(size) then false
    else if |Digits(phoneFormatted)| != 11 then false
    else time != ""
  }

  /** What an insert may carry: a trimmed non-empty name, a complete phone, a size of at least 1, a time. */
  predicate Admissible(record: Record) {
    && record.name != "" && Trim(record.name) == record.name
    && IsCompletePhone(record.phone)
    && record.size >= 1
    && record.time.Some? && record.time.value != ""
  }

  class ReservationForm {
    /** `toLocalYMD(selectedDate)` of the `selectedDate` prop. */
    var dateYMD: string
    /** The `disabled` prop. */
    var disabledProp: bool
    /**
     * Today's key at the moment `locked` was last computed. The memo is keyed
     * on `dateYMD` alone, so the clock is read only when the date changes.
     */
    var lockedOn: string
    var name: string
    var phoneRaw: string
    /** `Number(sizeText)`, None when that is not finite. */
    var size: Option<int>
    var time: string
    var saving: bool
    var error: string
    var success: string

    /** The first render, on day `today`: empty entries, size 1, no message. */
    constructor (dateYMD: string, disabledProp: bool, today: string)
      ensures this.dateYMD == dateYMD && this.disabledProp == disabledProp && lockedOn == today
      ensures name == "" && phoneRaw == "" && size == Some(1) && time == ""
      ensures !saving && error == "" && success == ""
    {
      this.dateYMD := dateYMD;
      this.disabledProp := disabledProp;
      lockedOn := today;
      name, phoneRaw, size, time := "", "", Some(1), "";
      saving, error, success := false, "", "";
    }

    /** `locked`: the form's date was before today when the memo was computed. */
    predicate Locked()
      reads this
    {
      IsPastYMD(dateYMD, lockedOn)
    }

    /** `disabled = Boolean(disabledProp) || locked` */
    predicate Disabled()
      reads this
    {
      disabledProp || Locked()
    }

    /** `phoneFormatted`: the phone as the form shows and sends it. */
    function PhoneFormatted(): (formatted: string)
      reads this
      ensures Digits(formatted) == "1" + CleanDigits(phoneRaw)
    {
      FormattedDigits(phoneRaw);
      FormatUSPhone(phoneRaw)
    }

    /** `canSave` as rendered: the save button's state. */
    predicate SaveEnabled()
      reads this
    {
      CanSave(Disabled(), saving, name, size, PhoneFormatted(), time)
    }

    /**
     * A re-render with new props, on day `today`. The component stays
     * mounted, so the entries and messages are kept; `locked` is computed
     * again only when the date key changed.
     */
    method ReceiveProps(dateYMD: string, disabledProp: bool, today: string)
      modifies this
      ensures this.dateYMD == dateYMD && this.disabledProp == disabledProp
      ensures lockedOn == if dateYMD == old(this.dateYMD) then old(lockedOn) else today
      ensures name == old(name) && phoneRaw == old(phoneRaw) && size == old(size) && time == old(time)
      ensures saving == old(saving) && error == old(error) && success == old(success)
    {
      if dateYMD != this.dateYMD {
        lockedOn := today;
      }
      this.dateYMD := dateYMD;
      this.disabledProp := disabledProp;
    }

    /**
     * The insert half of `save`, once every check has passed: `saving` is
     * set for the duration of the call; on success the entry fields are
     * reset, the success message is shown and a refresh is requested.
     */
    method Submit(reply: Reply) returns (refreshRequested: bool)
      modifies this
      ensures dateYMD == old(dateYMD) && disabledProp == old(disabledProp) && lockedOn == old(lockedOn) && !saving
      ensures reply.Err? ==>
        && error == ErrorText(reply.message, SaveFailed) && success == old(success) && !refreshRequested
        && name == old(name) && phoneRaw == old(phoneRaw) && size == old(size) && time == old(time)
      ensures reply.Ok? ==>
        && error == old(error) && success == Saved && refreshRequested
        && name == "" && phoneRaw == "" && size == Some(1) && time == ""
    {
      // `saving` is held for the awaited insert, which is the reply passed in.
      saving := true;
      saving := false;
      if reply.Err? {
        error := ErrorText(reply.message, SaveFailed);
        return false;
      }
      name, phoneRaw, size, time := "", "", Some(1), "";
      success := Saved;
      refreshRequested := true;
    }

    /**
     * `save`. `reply` is what the store's insert returns; `sent` is the
     * record handed to it (None when no insert is made) and
     * `refreshRequested` says whether `refresh` is awaited afterwards.
     * The lock it checks is the cached `disabled`; the clock is not read.
     */
    method Save(reply: Reply) returns (sent: Option<Record>, refreshRequested: bool)
      modifies this
      ensures dateYMD == old(dateYMD) && disabledProp == old(disabledProp) && lockedOn == old(lockedOn)
      ensures var failure := SaveCheck(Disabled(), old(name), old(size), FormatUSPhone(old(phoneRaw)), old(time));
        if failure.Some? then
          && sent == None && !refreshRequested
          && error == failure.value && success == ""
          && name == old(name) && phoneRaw == old(phoneRaw) && size == old(size) && time == old(time)
          && saving == old(saving)
        else
          && sent == Some(Record(Trim(old(name)), FormatUSPhone(old(phoneRaw)), old(size).value, Some(old(time)), Some(dateYMD)))
          && !saving
          && (reply.Err? ==>
                && error == ErrorText(reply.message, SaveFailed) && success == "" && !refreshRequested
                && name == old(name) && phoneRaw == old(phoneRaw) && size == old(size) && time == old(time))
          && (reply.Ok? ==>
                && error == "" && success == Saved && refreshRequested
                && name == "" && phoneRaw == "" && size == Some(1) && time == "")
      ensures sent.Some? ==> !disabledProp && !IsPastYMD(dateYMD, lockedOn) && Admissible(sent.value) && sent.value.date == Some(dateYMD)
      ensures !old(saving) ==> (sent.Some? <==> old(SaveEnabled()))
    {
      // The handler sees the state of the render it was created in.
      var typedName, typedSize, typedTime := name, size, time;
      var cleanedName := Trim(typedName);
      var formatted := PhoneFormatted();
      var failure := SaveCheck(Disabled(), typedName, typedSize, formatted, typedTime);

      error := "";
      success := "";
      sent, refreshRequested := None, false;
      if failure.Some? {
        error := failure.value;
        return;
      }

      TrimIdempotent(typedName);
      sent := Some(Record(cleanedName, formatted, typedSize.value, Some(typedTime), Some(dateYMD)));
      refreshRequested := Submit(reply);
    }

    /**
     * `save` with the lock decided by the clock at the moment of the call,
     * instead of by the day the date was chosen on: the lock is taken again
     * at `now`, then `save` runs as written. A day that has become past is
     * refused; any other day gets exactly the outcome of `save`.
     */
    method SaveAt(now: string, reply: Reply) returns (sent: Option<Record>, refreshRequested: bool)
      modifies this
      ensures lockedOn == now && dateYMD == old(dateYMD) && disabledProp == old(disabledProp)
      ensures Disabled() <==> disabledProp || IsPastYMD(dateYMD, now)
      ensures var failure := SaveCheck(Disabled(), old(name), old(size), FormatUSPhone(old(phoneRaw)), old(time));
        if failure.Some? then
          && sent == None && !refreshRequested
          && error == failure.value && success == ""
          && name == old(name) && phoneRaw == old(phoneRaw) && size == old(size) && time == old(time)
          && saving == old(saving)
        else
          && sent == Some(Record(Trim(old(name)), FormatUSPhone(old(phoneRaw)), old(size).value, Some(old(time)), Some(dateYMD)))
          && !saving
          && (reply.Err? ==>
                && error == ErrorText(reply.message, SaveFailed) && success == "" && !refreshRequested
                && name == old(name) && phoneRaw == old(phoneRaw) && size == old(size) && time == old(time))
          && (reply.Ok? ==>
                && error == "" && success == Saved && refreshRequested
                && name == "" && phoneRaw == "" && size == Some(1) && time == "")
      ensures IsPastYMD(dateYMD, now) ==>
        && sent == None && error == AddLocked && !refreshRequested
        && name == old(name) && phoneRaw == old(phoneRaw) && size == old(size) && time == old(time)
      ensures !disabledProp && !IsPastYMD(dateYMD, now)
        && SaveCheck(false, old(name), old(size), FormatUSPhone(old(phoneRaw)), old(time)) == None
        ==> sent == Some(Record(Trim(old(name)), FormatUSPhone(old(phoneRaw)), old(size).value, Some(old(time)), Some(dateYMD)))
      ensures sent.Some? ==> !IsPastYMD(dateYMD, now) && Admissible(sent.value) && sent.value.date == Some(dateYMD)
    {
      lockedOn := now;
      sent, refreshRequested := Save(reply);
    }
  }

  /**
   * The form is mounted on 2026-10-16 for that day and filled in with
   * entries that pass every check; it is saved after midnight. The cached
   * lock lets the insert through for a day that is now past, while SaveAt
   * refuses it.
   */
  method StaleLockSave(name: string, phoneRaw: string, size: Option<int>, time: string)
    returns (sent: Option<Record>, sentAt: Option<Record>)
    requires SaveCheck(false, name, size, FormatUSPhone(phoneRaw), time) == None
    ensures sent.Some? && sent.value.date == Some("2026-10-16") && IsPastYMD("2026-10-16", "2026-10-17")
    ensures sentAt == None
  {
    MidnightRollover();
    var form := new ReservationForm("2026-10-16", false, "2026-10-16");
    form.name, form.phoneRaw, form.size, form.time := name, phoneRaw, size, time;
    assert !form.Disabled();
    var refreshRequested;
    sent, refreshRequested := form.Save(Ok);

    var later := new ReservationForm("2026-10-16", false, "2026-10-16");
    later.name, later.phoneRaw, later.size, later.time := name, phoneRaw, size, time;
    sentAt, refreshRequested := later.SaveAt("2026-10-17", Ok);
  }
}
