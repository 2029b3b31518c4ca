/**
 The layout hasher, modelled as the append-only stream of values written to
 it: one token per `hash` call. Two widget trees whose streams are equal get
 the same layout hash; the hash function itself is not modelled.
 */
module Hashing {
  import opened Primitives

  datatype Token =
    | IntToken(i: int)
    | LengthToken(length: Length)
    | AlignToken(align: Align)
    | OptionalAlignToken(optionalAlign: Option<Align>)
    | JustifyToken(justify: Justify)
    | U16Token(u16: U16)
    | U32Token(u32: U32)
    | OptionalU16Token(optionalU16: Option<U16>)
    /** The type identity of a widget-local marker type. */
    | MarkerToken(name: string)

  /** The stream left in the hasher after writing each stream of `streams` in order. */
  function Flatten(streams: seq<seq<Token>>): seq<Token>
  {
    if |streams| == 0 then [] else Flatten(streams[..|streams| - 1]) + streams[|streams| - 1]
  }

  /** When every stream has the same length `len`, the output has `|streams| * len` tokens. */
  lemma {:induction false} FlattenUniformLength(streams: seq<seq<Token>>, len: nat)
    requires forall i :: 0 <= i < |streams| ==> |streams[i]| == len
    ensures |Flatten(streams)| == |streams| * len
    decreases |streams|
  {
    if |streams| > 0 {
      var init := streams[..|streams| - 1];
      FlattenUniformLength(init, len);
      assert |Flatten(streams)| == |init| * len + len;
    }
  }
}
