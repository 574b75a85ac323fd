/** Time as every module measures it. */
module Clock {
  // Nanoseconds since the zero time of the `time` package.
  type Time = int
}
