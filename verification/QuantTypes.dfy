/** The tensor types of the quantisation library: codes, block sizes, and what the kernels refuse. */
module QuantTypes {
  import opened Common
  import opened Layout

  const F32: nat := 0
  const F16: nat := 1
  const Q8_0: nat := 8
  const Q4_K: nat := 12
  const Q6_K: nat := 14
  const BF16: nat := 30

  /** The tensor type codes the quantisation library knows. */
  predicate KnownKind(kind: nat) {
    kind <= 3 || 6 <= kind <= 30
  }

  /** Elements of one block of a tensor type; none for types without a layout here. */
  function BlockSize(kind: nat): Option<nat> {
    if kind == 0 || kind == 1 || 24 <= kind <= 28 || kind == 30 then Some(1)
    else if kind == 2 || kind == 3 || 6 <= kind <= 9 then Some(32)
    else if 10 <= kind <= 15 then Some(256)
    else None
  }

  /** Bytes of one block. */
  function TypeSize(kind: nat): Option<nat> {
    if kind == 0 || kind == 26 then Some(4)
    else if kind == 1 || kind == 30 || kind == 25 then Some(2)
    else if kind == 24 then Some(1)
    else if kind == 27 || kind == 28 then Some(8)
    else if kind == 2 then Some(18) else if kind == 3 then Some(20)
    else if kind == 6 then Some(22) else if kind == 7 then Some(24)
    else if kind == 8 then Some(34) else if kind == 9 then Some(36)
    else if kind == 10 then Some(84) else if kind == 11 then Some(110)
    else if kind == 12 then Some(144) else if kind == 13 then Some(176)
    else if kind == 14 then Some(210) else if kind == 15 then Some(292)
    else None
  }

  /** The types the kernels can decode. */
  predicate Decodable(kind: nat) {
    kind == F32 || kind == F16 || kind == BF16 || kind == Q8_0 || kind == Q4_K || kind == Q6_K
  }

  datatype QuantError =
    | UnsupportedType(kind: nat) | BufferTooSmall(expected: nat, actual: nat)
    | DimensionMisaligned(dim: nat, block: nat) | ArithmeticOverflow
}
