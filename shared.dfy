/** Sample shapes exchanged between the sensor threads and the loggers. */
module Shared {

  datatype Option<T> = None | Some(value: T)

  /** A blendshape table, listed in the iteration order of the producer's hash map. */
  type Blendshapes = seq<(string, real)>

  /** One face sample as decoded from a line of the face socket. */
  datatype FaceData = FaceData(
    sourceTimestamp: real,
    blendshapes: Blendshapes,
    avgRgb: seq<real>)            // normally [r, g, b]; the wire may carry any length

  /** A three-component vector; the inertial producer always fills exactly three entries. */
  datatype Vec3 = Vec3(x: real, y: real, z: real)

  datatype ImuData = ImuData(sourceTimestamp: real, accel: Vec3, gyro: Vec3)

  datatype GpsData = GpsData(sourceTimestamp: real, lat: real, lon: real, speed: real)
}
