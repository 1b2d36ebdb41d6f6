/** One browser `localStorage` key that a page writes a saved record into. */
module Storage {
  import opened Wrappers

  class Slot<T> {
    /** The stored record; `None` while the key is absent. */
    var value: Option<T>

    constructor ()
      ensures value == None
    {
      value := None;
    }
  }
}
