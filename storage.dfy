/** Browser key/value storage, seen one key at a time after JSON decoding.
    The text encoding itself is not modelled: a key either holds nothing
    usable as a value (missing, or the empty string, which is falsy), text
    that does not parse, or text that parses to a value of the expected shape. */
module Storage {

  datatype Slot<T> = Empty | Unparsable | Parsed(value: T)

  /** What a reader of one key returns: the parsed value when there is a
      browser window and the key parses, otherwise the reader's fallback. */
  function ReadOr<T>(hasWindow: bool, slot: Slot<T>, fallback: T): (v: T)
    ensures hasWindow && slot.Parsed? ==> v == slot.value
    ensures !hasWindow || slot.Empty? || slot.Unparsable? ==> v == fallback
  {
    if hasWindow && slot.Parsed? then slot.value else fallback
  }
}
