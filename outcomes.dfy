/** Error results of the query engine: Go's `error` return values. */
module Outcomes {

  /** The two failures the core reports. */
  datatype Error =
    | InvalidCentre          // GetBoundingBox: centre nil or shorter than two components
    | NotFound(cartoID: int) // GetFeaturesNear: no indexed feature carries the origin id

  /** A value together with Go's `error`: exactly one of the two is meaningful. */
  datatype Result<+T> = Ok(value: T) | Err(error: Error)
}
