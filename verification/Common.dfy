/** Small shared vocabulary: optional values and bytes. */
module Common {
  datatype Option<+T> = None | Some(value: T)

  /** One octet, as `unsigned char` holds it. */
  type Byte = b: int | 0 <= b < 256

  lemma ConcatIsAssociative<T>(a: seq<T>, b: seq<T>, c: seq<T>)
    ensures a + b + c == a + (b + c)
  {
  }

  /** Overwrites `buf` from `at` on. */
  function Overlay(buf: seq<Byte>, at: nat, bytes: seq<Byte>): (r: seq<Byte>)
    requires at + |bytes| <= |buf|
    ensures |r| == |buf|
    ensures r[at..at + |bytes|] == bytes
  {
    buf[..at] + bytes + buf[at + |bytes|..]
  }

  function Zeros(size: nat): (bytes: seq<Byte>)
    ensures |bytes| == size && forall k :: 0 <= k < size ==> bytes[k] == 0
  {
    seq(size, _ => 0)
  }
}
