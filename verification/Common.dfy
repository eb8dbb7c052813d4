// What several parts share.
module Common {
  // A shard identifier is a byte.
  type Shard = n: nat | n < 256

  datatype Option<T> = None | Some(value: T)
}
