/** Points on the map. Great-circle (haversine) distance is floating-point
    trigonometry; the models that measure distance take it as a parameter
    of type `(Coordinates, Coordinates) -> real` and state their results
    relative to it. */
module Geo {
  /** Latitude and longitude in decimal degrees. */
  datatype Coordinates = Coordinates(lat: real, lng: real)
}
