/** Places of map blocks. */
module Blocks {

  datatype BlockPos = BlockPos(x: int, y: int, z: int)
}
