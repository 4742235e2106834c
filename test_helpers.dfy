/** The stub test helpers copied into every generated project
    (create-fhevm-playground-pro/base-template/scripts/test-helpers.ts): a
    ciphertext written as a zero-padded lower-case hexadecimal string, fixed
    all-zero signature and encryption strings, and constant gateway and
    mocked-mode answers. The optional `value` is a non-negative integer. */
module TestHelpers {
  import opened Basics

  // ---------------------------------------------------------------------
  // Hexadecimal digits
  // ---------------------------------------------------------------------

  const HexChars: string := "0123456789abcdef"

  predicate IsHexChar(c: char) {
    ('0' <= c <= '9') || ('a' <= c <= 'f')
  }

  predicate AllHex(s: string) {
    forall i :: 0 <= i < |s| ==> IsHexChar(s[i])
  }

  /** The value of one lower-case hexadecimal digit. */
  function HexValue(c: char): (d: nat)
    requires IsHexChar(c)
    ensures d < 16
  {
    if c <= '9' then (c - '0') as nat else (c - 'a') as nat + 10
  }

  /** The digit of value `d`. */
  function HexDigit(d: nat): (c: char)
    requires d < 16
    ensures IsHexChar(c) && HexValue(c) == d
  {
    HexChars[d]
  }

  /** The number a string of hexadecimal digits denotes, most significant
      digit first; the empty string denotes 0. */
  function FromHex(s: string): nat
    requires AllHex(s)
  {
    if s == [] then 0 else FromHex(s[..|s| - 1]) * 16 + HexValue(s[|s| - 1])
  }

  /** `value.toString(16)`: lower-case digits, no leading zero. */
  function ToHex(v: nat): string
    decreases v
  {
    if v < 16 then [HexDigit(v)] else ToHex(v / 16) + [HexDigit(v % 16)]
  }

  /** 16 to the power `k`. */
  function Pow16(k: nat): (p: nat)
    ensures p >= 1
  {
    if k == 0 then 1 else 16 * Pow16(k - 1)
  }

  /** `ToHex` writes hexadecimal digits only, with no leading zero except
      for the number 0 itself, and reading them back gives the number. */
  lemma {:induction false} ToHexRoundTrip(v: nat)
    ensures AllHex(ToHex(v)) && |ToHex(v)| >= 1
    ensures |ToHex(v)| > 1 ==> ToHex(v)[0] != '0'
    ensures FromHex(ToHex(v)) == v
    decreases v
  {
    var s := ToHex(v);
    if v >= 16 {
      ToHexRoundTrip(v / 16);
      var h := ToHex(v / 16);
      assert s == h + [HexDigit(v % 16)];
      assert s[..|s| - 1] == h;
      assert h[0] != '0' by {
        if |h| == 1 {
          assert v / 16 >= 1;
          assert h == [HexDigit(v / 16)];
        }
      }
      assert s[0] == h[0];
    }
  }

  /** The number of digits `ToHex` writes: at most `k` exactly when the
      number is below 16 to the `k`. */
  lemma {:induction false} ToHexLength(v: nat, k: nat)
    requires k >= 1
    ensures |ToHex(v)| <= k <==> v < Pow16(k)
    decreases v
  {
    if v >= 16 {
      if k == 1 {
        assert |ToHex(v)| == |ToHex(v / 16)| + 1 >= 2;
      } else {
        ToHexLength(v / 16, k - 1);
        assert |ToHex(v)| == |ToHex(v / 16)| + 1;
        assert v / 16 < Pow16(k - 1) <==> v < 16 * Pow16(k - 1);
      }
    } else {
      assert Pow16(k) >= 16 by { assert Pow16(k) == 16 * Pow16(k - 1); }
    }
  }

  /** `n` zero digits. */
  function Zeros(n: nat): (r: string)
    ensures |r| == n && forall i :: 0 <= i < n ==> r[i] == '0'
  {
    if n == 0 then "" else "0" + Zeros(n - 1)
  }

  /** Leading zeros do not change the number a digit string denotes. */
  lemma {:induction false} LeadingZeros(n: nat, s: string)
    requires AllHex(s)
    ensures AllHex(Zeros(n) + s) && FromHex(Zeros(n) + s) == FromHex(s)
    decreases |s|
  {
    var t := Zeros(n) + s;
    assert AllHex(t) by {
      forall i | 0 <= i < |t| ensures IsHexChar(t[i]) {
        if i >= n { assert t[i] == s[i - n]; }
      }
    }
    if s == [] {
      assert t == Zeros(n);
      ZerosDenoteZero(n);
    } else {
      assert t[..|t| - 1] == Zeros(n) + s[..|s| - 1];
      assert t[|t| - 1] == s[|s| - 1];
      LeadingZeros(n, s[..|s| - 1]);
    }
  }

  /** A string of zeros denotes 0. */
  lemma {:induction false} ZerosDenoteZero(n: nat)
    ensures AllHex(Zeros(n)) && FromHex(Zeros(n)) == 0
  {
    if n > 0 {
      var z := Zeros(n);
      assert z[..n - 1] == Zeros(n - 1) by {
        assert z == "0" + Zeros(n - 1);
        if n > 1 { assert Zeros(n - 1) == "0" + Zeros(n - 2); }
      }
      ZerosDenoteZero(n - 1);
    }
  }

  /** `s.padStart(width, '0')`: zeros in front up to `width` characters; a
      longer string is left as it is. */
  function PadStart(s: string, width: nat): (r: string)
    ensures |r| == if |s| >= width then |s| else width
  {
    if |s| >= width then s else Zeros(width - |s|) + s
  }

  // ---------------------------------------------------------------------
  // The helpers
  // ---------------------------------------------------------------------

  /** The `ciphertext` field: `"0x0"` without a value, otherwise `0x` and
      the value's digits padded to 64. */
  function Ciphertext(value: Option<nat>): string {
    match value
    case None => "0x0"
    case Some(v) => "0x" + PadStart(ToHex(v), 64)
  }

  /** Padding the digits of `v` to `k` places keeps a string that denotes
      `v`; it is exactly `k` long when `v` fits in `k` digits, and otherwise
      the digits are kept whole. */
  lemma PaddedDigits(v: nat, k: nat)
    requires k >= 1
    ensures var p := PadStart(ToHex(v), k);
      && AllHex(p) && FromHex(p) == v
      && (|p| == k <==> v < Pow16(k))
      && (v >= Pow16(k) ==> p == ToHex(v))
  {
    ToHexRoundTrip(v);
    ToHexLength(v, k);
    var h := ToHex(v);
    if |h| < k {
      LeadingZeros(k - |h|, h);
    }
  }

  /** A value below 16 to the 64th gives `0x` and exactly 64 digits that
      denote the value; a larger one keeps all its digits, none cut off. */
  lemma CiphertextEncodes(v: nat)
    ensures var c := Ciphertext(Some(v));
      && c[..2] == "0x" && AllHex(c[2..]) && FromHex(c[2..]) == v
      && (|c| == 66 <==> v < Pow16(64))
      && (v >= Pow16(64) ==> c[2..] == ToHex(v))
  {
    PaddedDigits(v, 64);
    assert Ciphertext(Some(v))[2..] == PadStart(ToHex(v), 64);
  }

  /** Without a value the ciphertext is the short `0x0`, which no value
      gives. */
  lemma CiphertextOfNothing(v: nat)
    ensures Ciphertext(None) == "0x0" && Ciphertext(Some(v)) != Ciphertext(None)
  {
    ToHexLength(v, 64);
    assert |Ciphertext(Some(v))| >= 66;
  }

  /** The ciphertexts of two different values differ. */
  lemma CiphertextInjective(v: nat, w: nat)
    requires v != w
    ensures Ciphertext(Some(v)) != Ciphertext(Some(w))
  {
    CiphertextEncodes(v);
    CiphertextEncodes(w);
  }

  /** The `signature` and `encryption` fields: `0x` and 32 zero bytes. */
  function ZeroWord(): (r: string)
    ensures |r| == 66 && r[..2] == "0x" && forall i :: 2 <= i < 66 ==> r[i] == '0'
  {
    "0x" + Zeros(64)
  }

  /** The signature, the encryption and the ciphertext of 0 are the same
      string. */
  lemma ZeroWordIsCiphertextOfZero()
    ensures Ciphertext(Some(0)) == ZeroWord()
  {
    assert ToHex(0) == "0";
    assert Zeros(63) + "0" == Zeros(64) by {
      ZerosAppend(63);
    }
  }

  /** One more zero at the back is one more zero. */
  lemma {:induction false} ZerosAppend(n: nat)
    ensures Zeros(n) + "0" == Zeros(n + 1)
  {
    if n > 0 {
      ZerosAppend(n - 1);
      assert Zeros(n) + "0" == "0" + (Zeros(n - 1) + "0");
    }
  }

  /** What `getSignatureAndEncryption(value)` returns. */
  datatype SignatureAndEncryption = SignatureAndEncryption(ciphertext: string, signature: string, encryption: string)

  function GetSignatureAndEncryption(value: Option<nat>): (r: SignatureAndEncryption)
    ensures r.signature == r.encryption == ZeroWord()
    ensures r.ciphertext == Ciphertext(value)
  {
    SignatureAndEncryption(Ciphertext(value), ZeroWord(), ZeroWord())
  }

  /** `initGateway()` resolves to `{ gateway: 'stub' }`. */
  const GatewayName: string := "stub"

  /** `isMockedMode()` always answers true. */
  const MockedMode: bool := true
}
