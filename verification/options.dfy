/** The conventional Some/None datatype, used for JavaScript's `null`/`NaN`
    sentinels and for optional configuration values. */
module Options {

  datatype Option<+T> = None | Some(value: T)
}
