/** Browser key-value storage as the model sees it: a slot is absent, holds text that does
    not parse, or holds a parsed value (the JSON round trip itself is taken for granted). */
module Storage {
  datatype Slot<+T> = Missing | Corrupt | Stored(value: T)
}
