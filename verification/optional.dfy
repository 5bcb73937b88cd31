/** A value that may be absent: a null pointer, a null object returned across the
    managed boundary, `npos` from a search, or a static not yet initialised. */
module Optional {

  datatype Option<T> = None | Some(value: T)
}
