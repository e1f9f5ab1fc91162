/**
 What the frame check sequence detects: an error goes unnoticed exactly when the generator
 polynomial divides it, and no burst of up to 32 bits does.
 */
module FcsDetection {
  import opened Fcs

  function Xor(a: Bits, b: Bits): (c: Bits)
    requires |a| == |b|
    ensures |c| == |a|
  {
    seq(|a|, i requires 0 <= i < |a| => a[i] != b[i])
  }

  function Zeros(n: nat): (z: Bits)
    ensures |z| == n
  {
    seq(n, _ => false)
  }

  function Ones(n: nat): (z: Bits)
    ensures |z| == n
  {
    seq(n, _ => true)
  }

  // ----- The register and the polynomial

  function HexDigit(eight: bool, four: bool, two: bool, one: bool): nat {
    (if eight then 8 else 0) + (if four then 4 else 0) + (if two then 2 else 0) + if one then 1 else 0
  }

  // The digit at place `k`.
  function DigitAt(bits: Bits, k: nat): nat
    requires 4 * k + 4 <= |bits|
  {
    HexDigit(bits[4 * k], bits[4 * k + 1], bits[4 * k + 2], bits[4 * k + 3])
  }

  lemma Digit0()
    ensures DigitAt(POLYNOMIAL, 0) == 0x0
  {
  }

  lemma Digit1()
    ensures DigitAt(POLYNOMIAL, 1) == 0x4
  {
  }

  lemma Digit2()
    ensures DigitAt(POLYNOMIAL, 2) == 0xC
  {
  }

  lemma Digit3()
    ensures DigitAt(POLYNOMIAL, 3) == 0x1
  {
  }

  lemma Digit4()
    ensures DigitAt(POLYNOMIAL, 4) == 0x1
  {
  }

  lemma Digit5()
    ensures DigitAt(POLYNOMIAL, 5) == 0xD
  {
  }

  lemma Digit6()
    ensures DigitAt(POLYNOMIAL, 6) == 0xB
  {
  }

  lemma Digit7()
    ensures DigitAt(POLYNOMIAL, 7) == 0x7
  {
  }

  /** The polynomial is that of the standard. */
  lemma GeneratorIs04C11DB7()
    ensures DigitAt(POLYNOMIAL, 0) == 0x0 && DigitAt(POLYNOMIAL, 1) == 0x4 && DigitAt(POLYNOMIAL, 2) == 0xC
    ensures DigitAt(POLYNOMIAL, 3) == 0x1 && DigitAt(POLYNOMIAL, 4) == 0x1 && DigitAt(POLYNOMIAL, 5) == 0xD
    ensures DigitAt(POLYNOMIAL, 6) == 0xB && DigitAt(POLYNOMIAL, 7) == 0x7
  {
    hide DigitAt;
    Digit0();
    Digit1();
    Digit2();
    Digit3();
    Digit4();
    Digit5();
    Digit6();
    Digit7();
  }

  // All ones to begin with, less one for each bit fewer than 32; none less for no bits at all.
  lemma RegisterBegins(length: nat)
    ensures InitialRegister(length) == if 0 < length < 32 then Ones(length) + Zeros(32 - length) else Ones(32)
  {
  }

  // ----- Division is linear

  lemma ShiftIsLinear(r: Bits, s: Bits, a: bool, b: bool)
    requires |r| == |s| == 32
    ensures Shift(Xor(r, s), a != b) == Xor(Shift(r, a), Shift(s, b))
  {
    hide POLYNOMIAL;
    forall i | 0 <= i < 32
      ensures Shift(Xor(r, s), a != b)[i] == Xor(Shift(r, a), Shift(s, b))[i]
    {
    }
  }

  lemma {:induction false} DivideIsLinear(r: Bits, s: Bits, m: Bits, n: Bits)
    requires |r| == |s| == 32 && |m| == |n|
    ensures Divide(Xor(r, s), Xor(m, n)) == Xor(Divide(r, m), Divide(s, n))
    decreases |m|
  {
    hide Shift;
    if m != [] {
      var last := |m| - 1;
      DivideIsLinear(r, s, m[..last], n[..last]);
      ShiftIsLinear(Divide(r, m[..last]), Divide(s, n[..last]), m[last], n[last]);
      assert Xor(m, n)[..last] == Xor(m[..last], n[..last]);
    }
  }

  lemma {:induction false} DivideJoined(r: Bits, a: Bits, b: Bits)
    requires |r| == 32
    ensures Divide(r, a + b) == Divide(Divide(r, a), b)
    decreases |b|
  {
    hide Shift;
    if b == [] {
      assert a + b == a;
    } else {
      var last := |b| - 1;
      DivideJoined(r, a, b[..last]);
      assert (a + b)[..|a + b| - 1] == a + b[..last];
    }
  }

  // ----- Nothing divides to nothing, and something short to something

  lemma ShiftOfZeros()
    ensures Shift(Zeros(32), false) == Zeros(32)
  {
  }

  lemma {:induction false} ZerosDivide(n: nat)
    ensures Divide(Zeros(32), Zeros(n)) == Zeros(32)
  {
    hide Shift;
    if n > 0 {
      ZerosDivide(n - 1);
      ShiftOfZeros();
      assert Zeros(n)[..n - 1] == Zeros(n - 1);
    }
  }

  // The constant term of the polynomial keeps a register from becoming zero.
  lemma ShiftKeepsSome(r: Bits)
    requires |r| == 32
    ensures Shift(r, false) == Zeros(32) ==> r == Zeros(32)
  {
    var shifted := r[1..] + [false];
    if r[0] {
      assert Shift(r, false)[31];
    } else {
      assert forall i | 1 <= i < 32 :: Shift(r, false)[i - 1] == r[i];
    }
  }

  lemma {:induction false} ZerosKeepSome(r: Bits, n: nat)
    requires |r| == 32
    ensures Divide(r, Zeros(n)) == Zeros(32) <==> r == Zeros(32)
  {
    hide Shift;
    if n > 0 {
      ZerosKeepSome(r, n - 1);
      assert Zeros(n)[..n - 1] == Zeros(n - 1);
      ShiftOfZeros();
      ShiftKeepsSome(Divide(r, Zeros(n - 1)));
    }
  }

  // A register shifted out by its own bits leaves nothing.
  lemma {:induction false} OwnBits(r: Bits, n: nat)
    requires |r| == 32 && n <= 32
    ensures Divide(r, r[..n]) == r[n..] + Zeros(n)
  {
    hide Shift;
    if n > 0 {
      OwnBits(r, n - 1);
      assert r[..n][..n - 1] == r[..n - 1];
      OwnBit(r[n - 1..] + Zeros(n - 1));
      assert (r[n - 1..] + Zeros(n - 1))[1..] + [false] == r[n..] + Zeros(n);
    } else {
      assert r[n..] + Zeros(n) == r;
    }
  }

  lemma OwnBit(r: Bits)
    requires |r| == 32
    ensures Shift(r, r[0]) == r[1..] + [false]
  {
  }

  /** No 32 bits but zeros leave no remainder. */
  lemma ShortLeavesSome(e: Bits)
    requires |e| == 32
    ensures Divide(Zeros(32), e) == Zeros(32) <==> e == Zeros(32)
  {
    hide Divide;
    OwnBits(e, 32);
    assert e[..32] == e && e[32..] + Zeros(32) == Zeros(32);
    DivideIsLinear(e, e, Zeros(32), e);
    assert Xor(e, e) == Zeros(32) && Xor(Zeros(32), e) == e;
    var over := Divide(e, Zeros(32));
    assert Xor(over, Zeros(32)) == over;
    ZerosKeepSome(e, 32);
  }

  // ----- What the check finds

  // What an intact TL-SDU with its FCS leaves in the register.
  function Residue(): (r: Bits)
    ensures |r| == 32
  {
    Divide(Zeros(32), Ones(32))
  }

  lemma RegisterAndFcs(r: Bits, c: Bits)
    requires |r| == |c| == 32
    ensures Divide(r, c) == Residue() <==> c == Xor(r, Ones(32))
  {
    hide Divide;
    var e := Xor(c, Xor(r, Ones(32)));
    OwnBits(r, 32);
    assert r[..32] == r && r[32..] + Zeros(32) == Zeros(32);
    DivideIsLinear(r, Zeros(32), r, Ones(32));
    assert Xor(r, Zeros(32)) == r;
    assert Xor(Zeros(32), Residue()) == Residue();
    DivideIsLinear(r, Zeros(32), Xor(r, Ones(32)), e);
    assert Xor(Xor(r, Ones(32)), e) == c;
    var left := Divide(Zeros(32), e);
    ShortLeavesSome(e);
    assert Xor(Residue(), left) == Residue() <==> left == Zeros(32) by {
      SameOnlyWithZeros(Residue(), left);
    }
    assert e == Zeros(32) <==> c == Xor(r, Ones(32)) by {
      ZerosIfSame(c, Xor(r, Ones(32)));
    }
  }

  lemma SameOnlyWithZeros(a: Bits, b: Bits)
    requires |a| == |b|
    ensures Xor(a, b) == a <==> b == Zeros(|b|)
  {
    if Xor(a, b) == a {
      assert forall i | 0 <= i < |b| :: Xor(a, b)[i] == (a[i] != b[i]);
    }
  }

  lemma ZerosIfSame(a: Bits, b: Bits)
    requires |a| == |b|
    ensures Xor(a, b) == Zeros(|a|) <==> a == b
  {
    if Xor(a, b) == Zeros(|a|) {
      assert forall i | 0 <= i < |a| :: Xor(a, b)[i] == (a[i] != b[i]);
    }
  }

  /** Bits pass the check exactly when, divided to the end, they leave the residue. */
  lemma CheckIsResidue(bits: Bits)
    requires |bits| >= 32
    ensures Check(bits) <==> Divide(InitialRegister(|bits| - 32), bits) == Residue()
  {
    hide *;
    var n := |bits| - 32;
    assert bits == bits[..n] + bits[n..];
    SplitCheck(bits[..n], bits[n..]);
  }

  lemma SplitCheck(m: Bits, c: Bits)
    requires |c| == 32
    ensures Check(m + c) <==> Divide(InitialRegister(|m|), m + c) == Residue()
  {
    hide *;
    DivideJoined(InitialRegister(|m|), m, c);
    RegisterAndFcs(Divide(InitialRegister(|m|), m), c);
    ChecksumIsInverse(m);
    CheckIs(m, c);
  }

  lemma CheckIs(m: Bits, c: Bits)
    requires |c| == 32
    ensures Check(m + c) <==> c == Checksum(m)
  {
    hide Checksum;
    assert (m + c)[..|m|] == m && (m + c)[|m|..] == c;
  }

  lemma ChecksumIsInverse(bits: Bits)
    ensures Checksum(bits) == Xor(Divide(InitialRegister(|bits|), bits), Ones(32))
  {
    hide Divide;
  }

  /**
   An error in bits that passed the check, wherever it lies, goes unnoticed if and only if the
   polynomial divides it.
   */
  lemma UndetectedErrors(sent: Bits, received: Bits)
    requires |sent| == |received| && Check(sent)
    ensures Check(received) <==> Divide(Zeros(32), Xor(sent, received)) == Zeros(32)
  {
    hide Divide, Check;
    LongEnough(sent);
    CheckIsResidue(sent);
    CheckIsResidue(received);
    var init := InitialRegister(|sent| - 32);
    DivideIsLinear(init, init, sent, received);
    assert Xor(init, init) == Zeros(32);
    ZerosIfSame(Divide(init, sent), Divide(init, received));
  }

  lemma LongEnough(bits: Bits)
    requires Check(bits)
    ensures |bits| >= 32
  {
  }

  // The two differ, and only within 32 consecutive bits.
  predicate ShortBurst(sent: Bits, received: Bits, from: nat) {
    && |sent| == |received| && sent != received
    && forall i | 0 <= i < |sent| :: sent[i] != received[i] ==> from <= i < from + 32
  }

  /** Every burst of errors no longer than 32 bits is detected, a single flipped bit among them. */
  lemma BurstsAreDetected(sent: Bits, received: Bits, from: nat)
    requires Check(sent) && ShortBurst(sent, received, from)
    ensures !Check(received)
  {
    hide Divide, Check;
    LongEnough(sent);
    UndetectedErrors(sent, received);
    var start := if from + 32 <= |sent| then from else |sent| - 32;
    var error := Xor(sent, received);
    var a, b := error[..start], error[start..start + 32];
    assert a == Zeros(start);
    assert error[start + 32..] == Zeros(|sent| - start - 32);
    assert error == a + (b + error[start + 32..]);
    DivideJoined(Zeros(32), a, b + error[start + 32..]);
    ZerosDivide(start);
    DivideJoined(Zeros(32), b, error[start + 32..]);
    ZerosKeepSome(Divide(Zeros(32), b), |sent| - start - 32);
    ShortLeavesSome(b);
    var i :| 0 <= i < |sent| && sent[i] != received[i];
    assert b[i - start] == error[i];
  }

  /** Flipping one bit of a protected TL-SDU, or of its FCS, fails the check. */
  lemma OneFlippedBit(sdu: Bits, i: nat)
    requires i < |sdu| + 32
    ensures !Check(Protect(sdu)[i := !Protect(sdu)[i]])
  {
    hide Check, Checksum;
    ProtectedPassesCheck(sdu);
    var sent := Protect(sdu);
    var received := sent[i := !sent[i]];
    assert received[i] != sent[i];
    BurstsAreDetected(sent, received, i);
  }
}
