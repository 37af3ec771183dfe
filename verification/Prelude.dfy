/** Shared vocabulary: optional values, bytes, histories, and the constants that several components use. */
module Prelude {

  datatype Option<+T> = None | Some(value: T)

  type byte = b: int | 0 <= b < 256

  type bytes = seq<byte>

  /** One turn of a 32-bit counter. */
  const INT32 := 0x1_0000_0000

  /** The size of a buffered reader's buffer. */
  const BUF_SIZE := 64 * 1024

  /** The size of the receive loop's read buffer. */
  const RX_CHUNK := 4096

  /** The capacity of outCh. */
  const OUT_CAP := 64

  /** The lifecycle state of a session. */
  datatype Life = Active | Foreground | Background | Dead

  /** A history, latest entry outermost. */
  datatype Log<+T> = Start | Then(before: Log<T>, last: T)

  /** The concatenation of a sequence of sequences. */
  function Flatten<T>(xss: seq<seq<T>>): seq<T>
  {
    if xss == [] then [] else xss[0] + Flatten(xss[1..])
  }

  lemma {:induction false} FlattenAppend<T>(xss: seq<seq<T>>, yss: seq<seq<T>>)
    ensures Flatten(xss + yss) == Flatten(xss) + Flatten(yss)
  {
    if xss == [] {
      assert xss + yss == yss;
    } else {
      assert (xss + yss)[1..] == xss[1..] + yss;
      FlattenAppend(xss[1..], yss);
    }
  }
}
