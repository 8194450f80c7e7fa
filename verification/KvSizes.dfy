/** How many cells a row of the KV cache takes in each precision. */
module KvSizes {
  import opened Common
  import opened KvCache
  import QuantTypes
  import TurboQuant

  /** A quantised row is the fewest whole blocks that hold the vector. */
  lemma Q8Row(kvDim: nat, blocks: nat)
    requires 32 * blocks >= kvDim && (blocks > 0 ==> 32 * (blocks - 1) < kvDim)
    ensures QuantTypes.BlockSize(QuantTypes.Q8_0) == Some(32) && QuantTypes.TypeSize(QuantTypes.Q8_0) == Some(34)
    ensures RowCells(Q8, kvDim) == 34 * blocks
  {
    assert (kvDim + 31) / 32 == blocks;
  }

  /** A TurboQuant row is a four-byte norm and the packed codes. */
  lemma TurboRows(kvDim: nat)
    ensures RowCells(TurboQuant4, kvDim) == 4 + TurboQuant.PackedLen(TurboQuant.Four, kvDim)
    ensures RowCells(TurboQuant2, kvDim) == 4 + TurboQuant.PackedLen(TurboQuant.Two, kvDim)
    ensures 2 * TurboQuant.PackedLen(TurboQuant.Four, kvDim) >= kvDim > 2 * TurboQuant.PackedLen(TurboQuant.Four, kvDim) - 2
    ensures 4 * TurboQuant.PackedLen(TurboQuant.Two, kvDim) >= kvDim > 4 * TurboQuant.PackedLen(TurboQuant.Two, kvDim) - 4
  {
  }

  /** An exported row travels in the fewest whole floats: as itself, or four bytes to a float. */
  lemma CarrierIs(precision: Precision, kvDim: nat)
    ensures RowCells(F32, kvDim) == CarrierFloats(F32, kvDim) == CarrierCells(F32, kvDim) == kvDim
    ensures var floats := CarrierFloats(precision, kvDim);
      !precision.F32? ==> CarrierCells(precision, kvDim) == 4 * floats && 4 * floats >= RowCells(precision, kvDim) > 4 * floats - 4
  {
  }
}
