/** Virtual sizes and fees (internal/coinselect/vsize.go). */
module VSize {

  const INPUT_VBYTES := 68
  const OUTPUT_VBYTES := 31
  const OVERHEAD_VBYTES := 11
  const DUST := 294

  function EstimateVSizeOut(numInputs: int, recipientVBytes: int, extraOuts: int): int {
    var n := if numInputs < 0 then 0 else numInputs;
    var r := if recipientVBytes <= 0 then OUTPUT_VBYTES else recipientVBytes;
    var x := if extraOuts < 0 then 0 else extraOuts;
    OVERHEAD_VBYTES + n * INPUT_VBYTES + r + x * OUTPUT_VBYTES
  }

  function VarIntSize(n: int): int {
    if n < 0xfd then 1 else if n <= 0xffff then 3 else if n <= 0xffff_ffff then 5 else 9
  }

  function OutputVBytes(scriptLen: int): int {
    var n := if scriptLen < 0 then 0 else scriptLen;
    8 + VarIntSize(n) + n
  }

  function FeeFor(vsize: int, rate: int): int {
    if vsize < 0 || rate < 0 then 0 else vsize * rate
  }

  /** There is no fee below zero. */
  lemma FeeIsNeverNegative(vsize: int, rate: int)
    ensures FeeFor(vsize, rate) == if vsize >= 0 && rate >= 0 then vsize * rate else 0
    ensures FeeFor(vsize, rate) >= 0
  {
  }

  /** Counts below zero are none, and a size that is not positive is that of a P2WPKH output. */
  lemma EstimateDefaults(numInputs: int, recipientVBytes: int, extraOuts: int)
    ensures numInputs < 0 ==> EstimateVSizeOut(numInputs, recipientVBytes, extraOuts) == EstimateVSizeOut(0, recipientVBytes, extraOuts)
    ensures extraOuts < 0 ==> EstimateVSizeOut(numInputs, recipientVBytes, extraOuts) == EstimateVSizeOut(numInputs, recipientVBytes, 0)
    ensures recipientVBytes <= 0 ==> EstimateVSizeOut(numInputs, recipientVBytes, extraOuts) == EstimateVSizeOut(numInputs, 31, extraOuts)
  {
  }

  /** The weight BIP-141 ("Transaction size calculations") gives a signed transaction: four per
      base byte, one per witness byte. Inputs spend P2WPKH outputs with the longest low-S signature. */
  function SignedWeight(inputs: nat, recipientVBytes: nat, changeOuts: nat): nat {
    var base := 4 + VarIntSize(inputs) + inputs * (32 + 4 + 1 + 4)
                + VarIntSize(1 + changeOuts) + recipientVBytes + changeOuts * OutputVBytes(22) + 4;
    var witnessBytes := 2 + inputs * (1 + 1 + 72 + 1 + 33);
    4 * base + witnessBytes
  }

  /** The closed form is the exact BIP-141 virtual size up to the one-byte input counter, and
      two vBytes short of it from the 253rd input to the 65535th. */
  lemma EstimateIsExactUpTo252Inputs(inputs: nat, recipientVBytes: nat, changeOuts: nat)
    requires recipientVBytes > 0 && changeOuts <= 1
    ensures var size := (SignedWeight(inputs, recipientVBytes, changeOuts) + 3) / 4;
            && (EstimateVSizeOut(inputs, recipientVBytes, changeOuts) == size <==> inputs <= 252)
            && (252 < inputs <= 0xffff ==> EstimateVSizeOut(inputs, recipientVBytes, changeOuts) == size - 2)
  {
    assert OutputVBytes(22) == 31;
    var w := SignedWeight(inputs, recipientVBytes, changeOuts);
    assert w == 4 * (9 + VarIntSize(inputs) + 68 * inputs + recipientVBytes + changeOuts * 31) + 2;
    assert (w + 3) / 4 == 10 + VarIntSize(inputs) + 68 * inputs + recipientVBytes + changeOuts * 31;
  }
}
