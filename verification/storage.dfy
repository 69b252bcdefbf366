/** One `localStorage` key holding a JSON array, seen through the page's
    `window`. The serialized text is abstracted to what parsing it yields, and
    the change notification to a count of dispatched events. */
module Storage {

  /** What `localStorage.getItem(key)` followed by `JSON.parse` gives: nothing
      (a missing key or an empty string), text that does not parse as an array
      of entries, or the entries. */
  datatype Blob<T> = Absent | Corrupt | Present(items: seq<T>)

  /** A collection's key. `hasWindow` is false when the code runs outside a
      browser (`typeof window === "undefined"`); `events` counts the change
      notifications dispatched so far. */
  datatype Slot<T> = Slot(hasWindow: bool, blob: Blob<T>, events: nat)

  /** The entries as stored, before any sorting; every failure reads as empty. */
  function Load<T>(slot: Slot<T>): seq<T> {
    if slot.hasWindow && slot.blob.Present? then slot.blob.items else []
  }

  /** Writes the whole collection and dispatches one change event; does
      nothing without a window. */
  function Save<T>(slot: Slot<T>, items: seq<T>): Slot<T> {
    if slot.hasWindow then slot.(blob := Present(items), events := slot.events + 1)
    else slot
  }
}
