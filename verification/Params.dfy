/** The constants of kernel/param.h and kernel/fs.h that the log and the file system share. */
module Params {
  const BSIZE := 1024
  const MAXOPBLOCKS := 10
  const LOGBLOCKS := 3 * MAXOPBLOCKS
}
