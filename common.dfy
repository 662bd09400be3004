/**
 * Machine integer ranges and the comparison result used by the power ranker.
 */
module Common {

  /** An unsigned 8-bit integer (team ids, outcomes, win and loss counts). */
  type u8 = x: int | 0 <= x < 0x100

  /** An unsigned 16-bit integer (all-play win counts). */
  type u16 = x: int | 0 <= x < 0x1_0000

  /** The result of a comparator handed to a sort: Less puts the first argument first. */
  datatype Ordering = Less | Equal | Greater
}
