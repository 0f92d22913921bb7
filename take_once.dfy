/** A slot whose value can be moved out once and only once (the `TakeOnce` guard). */
module TakeOnceCell {
  import opened Wrappers

  class TakeOnce<T> {
    var slot: Option<T>

    constructor NewWith(value: T)
      ensures slot == Some(value)
    {
      slot := Some(value);
    }

    /** Moves the value out; the slot is empty afterwards, so a second take yields `None`. */
    method Take() returns (taken: Option<T>)
      modifies this
      ensures taken == old(slot)
      ensures slot == None
    {
      taken := slot;
      slot := None;
    }
  }
}
