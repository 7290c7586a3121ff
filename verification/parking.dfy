/** Sizes and basic types the three programs share (PARKING.h, simulator.c line 10). */
module Parking {
  const ENTRANCES := 5
  const EXITS := 5
  const LEVELS := 5
  const LEVEL_CAPACITY := 10
  const PLATE_LENGTH := 6

  /** A C char. Signed, as on the platform the programs are built for. */
  newtype Char = x: int | -128 <= x < 128

  type Plate = p: seq<Char> | |p| == PLATE_LENGTH witness [0, 0, 0, 0, 0, 0]
}
