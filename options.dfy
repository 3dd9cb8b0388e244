/** The optional value used wherever the source may produce "nothing usable"
    (a non-finite number, a failed parse, an absent grouping). */
module Options {
  datatype Option<+T> = None | Some(value: T)
}
