/**
 * The reservation records and the replies of the hosted store. The store
 * itself (select, insert, update, delete) is outside the model: each call is
 * represented by the reply it returns, passed in by the caller.
 */
module Store {
  import opened Wrappers

  /** The store's key for a reservation; assigned by the store, never by the screens. */
  type Id = int

  /** A row as the store returns it; `null` columns are `None`. */
  datatype Reservation = Reservation(
    id: Id,
    date: Option<string>,
    name: string,
    phone: string,
    size: Option<int>,
    time: Option<string>)

  /** The object an insert or an update sends: the columns the screens write. */
  datatype Record = Record(name: string, phone: string, size: int, time: Option<string>, date: Option<string>)

  /** An update: the patch and the id it is filtered on (`.eq("id", id)`). */
  datatype Update = Update(id: Id, patch: Record)

  /** What a mutating call returns: no error, or an error whose message may be empty. */
  datatype Reply = Ok | Err(message: string)

  /** What a select returns: rows, or an error. */
  datatype Fetched<T> = Rows(data: T) | Failed(message: string)

  /** The party-size rule of both screens: `Number.isFinite(size) && size >= 1`. */
  predicate SizeAccepted(size: Option<int>) {
    size.Some? && size.value >= 1
  }

  /** `error.message || fallback`: the message shown for a failed call. */
  function ErrorText(message: string, fallback: string): (shown: string)
    ensures shown != "" <== fallback != ""
    ensures message != "" ==> shown == message
    ensures message == "" ==> shown == fallback
  {
    if message == "" then fallback else message
  }

  const LoadFailed := "Failed to load reservations."
  const DeleteFailed := "Failed to delete reservation."
  const SaveFailed := "Failed to save reservation."
  const UpdateFailed := "Failed to update reservation."

  const EditLocked := "Past dates are locked. You can\U{2019}t edit old reservations."
  const DeleteLocked := "Past dates are locked. You can\U{2019}t delete old reservations."
  const AddLocked := "This date is locked. You can\U{2019}t add reservations to past days."
  const NameRequired := "Name is required."
  const SizeTooSmall := "Party size must be at least 1."
  const PhoneInvalid := "Phone must be a valid US number (10 digits)."
  const TimeRequired := "Please select a time."
  const Saved := "\U{2705} Reservation saved!"
}
