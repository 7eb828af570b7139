/** Limits that several parts of the kernel share (param.h). */
module Params {

  const MAXOPBLOCKS := 10       // blocks that one file-system operation may log
}
