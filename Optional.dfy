/** The Some/None value used for Swift optionals (`T?`) and failable casts (`as?`). */
module Optional {
  datatype Option<+T> = None | Some(value: T)
}
