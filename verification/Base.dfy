/** Values shared by every component. */
module Base {
  datatype Option<+T> = None | Some(value: T) {
    function GetOr(default: T): T {
      if None? then default else value
    }
  }

  newtype byte = x: int | 0 <= x < 256

  type Bytes = seq<byte>

  /** A vault-relative path with `/` separators; the empty path stands for a missing one. */
  type Path = string

  /**
    SHA-256 seen as an injective function: two digests are equal exactly when the hashed bytes are.
    The program only ever compares digests, so nothing else about them matters.
  */
  datatype Digest = Sha256(preimage: Bytes)
}
