/** A value that may be absent: the pointer fields of the Go records, where nil means "not set". */
module Options {

  datatype Option<+T> = None | Some(value: T) {

    function GetOr(fallback: T): T {
      if Some? then value else fallback
    }
  }
}
