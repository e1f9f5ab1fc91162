/** The 32-bit frame check sequence, as a shift register held most significant bit first. */
module Fcs {
  type Bits = seq<bool>

  // 0x04C11DB7
  const POLYNOMIAL: Bits :=
    [false, false, false, false, false, true, false, false, true, true, false, false, false, false, false, true,
     false, false, false, true, true, true, false, true, true, false, true, true, false, true, true, true]

  // All ones, shifted left when fewer than 32 bits are covered. For an empty range a
  // release build masks the shift count 32 to 0 and leaves the register alone.
  function InitialRegister(length: nat): (r: Bits)
    ensures |r| == 32
  {
    seq(32, i => length == 0 || i < length)
  }

  function Shift(register: Bits, bit: bool): (r: Bits)
    requires |register| == 32
    ensures |r| == 32
  {
    var shifted := register[1..] + [false];
    if bit != register[0] then seq(32, i requires 0 <= i < 32 => shifted[i] != POLYNOMIAL[i]) else shifted
  }

  function Divide(register: Bits, bits: Bits): (r: Bits)
    requires |register| == 32
    ensures |r| == 32
  {
    if bits == [] then register else Shift(Divide(register, bits[..|bits| - 1]), bits[|bits| - 1])
  }

  function Checksum(bits: Bits): (r: Bits)
    ensures |r| == 32
  {
    var remainder := Divide(InitialRegister(|bits|), bits);
    seq(32, i requires 0 <= i < 32 => !remainder[i])
  }

  predicate Check(bits: Bits) {
    |bits| >= 32 && Checksum(bits[..|bits| - 32]) == bits[|bits| - 32..]
  }

  function Protect(sdu: Bits): (r: Bits)
    ensures |r| == |sdu| + 32
  {
    sdu + Checksum(sdu)
  }

  method ComputeFcs(bits: Bits) returns (checksum: Bits)
    ensures checksum == Checksum(bits)
  {
    var register := InitialRegister(|bits|);
    for i := 0 to |bits|
      invariant |register| == 32
      invariant register == Divide(InitialRegister(|bits|), bits[..i])
    {
      register := Shift(register, bits[i]);
      assert bits[..i + 1][..i] == bits[..i];
    }
    assert bits[..|bits|] == bits;
    checksum := seq(32, i requires 0 <= i < 32 => !register[i]);
  }

  lemma ProtectedPassesCheck(sdu: Bits)
    ensures Check(Protect(sdu)) && Protect(sdu)[..|sdu|] == sdu
  {
    assert Protect(sdu)[..|sdu|] == sdu;
    assert Protect(sdu)[|sdu|..] == Checksum(sdu);
  }
}
