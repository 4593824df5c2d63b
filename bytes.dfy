/** The byte type shared by the permutation tables and the pixmap files. */
module Bytes {

  /** `unsigned char`. */
  type Byte = n: int | 0 <= n < 256
}
