/**
 * The score and depth limits both engines share (`INF`, `MATE`,
 * `MATE_IN_MAX`, `MAX_PLY`): a score beyond `MATE - 100` in either
 * direction encodes a mate.
 */
module Limits {
  const Inf := 50000
  const Mate := 49000
  const MateInMax := 48900
  const MaxPly := 128
}
