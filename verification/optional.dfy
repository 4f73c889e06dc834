/** A value that may be missing: an empty entity field, a query that finds
    nothing, a switch with no matching case. */
module Optional {
  datatype Option<+T> = None | Some(value: T) {
    /** The value if present, else `fallback`. */
    function GetOr(fallback: T): T { if Some? then value else fallback }
  }
}
