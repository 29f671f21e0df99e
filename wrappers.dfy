/** Failure-carrying results and the error kinds of the tile-grid core. */
module Wrappers {

  datatype Option<+T> = None | Some(value: T)

  /** The exceptions the core raises, one constructor per kind of failure. */
  datatype Error =
    | EmptyInput          // an empty tile array or feature list (IndexError/ValueError when unpacking)
    | InvalidShape        // a tile array that is not n x 3 (or too narrow to index), or a negative raster shape
    | MalformedTile       // a tile name that does not begin with digits-digits-digits (match returns None)
    | MixedZoom           // tiles of different zoom levels
    | DegenerateRange     // a tile range with zero width or height (ZeroDivisionError)
    | UnsupportedGeometry // a geometry type the extrema code has no branch for
    | MissingGeometry     // a feature without a "geometry" member (KeyError)

  datatype Result<+T> = Ok(value: T) | Err(error: Error) {
    predicate IsFailure() { Err? }
    function PropagateFailure<U>(): Result<U>
      requires Err?
    {
      Err(error)
    }
    function Extract(): T
      requires Ok?
    {
      value
    }
  }
}
