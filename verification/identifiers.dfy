/** The two identifier domains. The durable store issues 24-digit hexadecimal object
    ids; the in-process store issues `Date.now().toString()`. Every dispatch in the
    backend asks `IsMongoId` which domain an id belongs to. */
module Identifiers {

  predicate IsHexDigit(c: char)
  {
    '0' <= c <= '9' || 'a' <= c <= 'f' || 'A' <= c <= 'F'
  }

  /** `id && /^[0-9a-fA-F]{24}$/.test(id)`: exactly 24 hexadecimal digits, either case. */
  predicate IsMongoId(id: string)
  {
    |id| == 24 && forall i :: 0 <= i < |id| ==> IsHexDigit(id[i])
  }

  /** The largest time value a JavaScript `Date` can hold, in milliseconds. */
  const MaxTimeValue: nat := 8_640_000_000_000_000

  /** A reading of `Date.now()`. */
  type Clock = t: nat | t <= MaxTimeValue

  function Digit(d: nat): char
    requires d < 10
  {
    "0123456789"[d]
  }

  /** `n.toString()` for a whole number below 10^21 (beyond that JavaScript switches
      to exponent notation, which no clock reading reaches). */
  function DecimalString(n: nat): (s: string)
    ensures |s| >= 1
    ensures forall i :: 0 <= i < |s| ==> '0' <= s[i] <= '9'
  {
    if n < 10 then [Digit(n)] else DecimalString(n / 10) + [Digit(n % 10)]
  }

  function Pow10(k: nat): (p: nat)
    ensures p >= 1
  {
    if k == 0 then 1 else 10 * Pow10(k - 1)
  }

  /** A number below 10^k has at most k digits. */
  lemma {:induction false} DecimalLength(n: nat, k: nat)
    requires k >= 1 && n < Pow10(k)
    ensures |DecimalString(n)| <= k
  {
    if n >= 10 {
      assert k >= 2;
      DecimalLength(n / 10, k - 1);
    }
  }

  /** An id the in-process store issues is never taken for a durable-store id, so
      every lookup of such an id goes straight to the in-process store. */
  lemma MemoryIdsAreNotMongoIds(now: Clock)
    ensures !IsMongoId(DecimalString(now))
  {
    assert Pow10(1) == 10;
    assert Pow10(2) == 100;
    assert Pow10(3) == 1_000;
    assert Pow10(4) == 10_000;
    assert Pow10(5) == 100_000;
    assert Pow10(6) == 1_000_000;
    assert Pow10(7) == 10_000_000;
    assert Pow10(8) == 100_000_000;
    assert Pow10(9) == 1_000_000_000;
    assert Pow10(10) == 10_000_000_000;
    assert Pow10(11) == 100_000_000_000;
    assert Pow10(12) == 1_000_000_000_000;
    assert Pow10(13) == 10_000_000_000_000;
    assert Pow10(14) == 100_000_000_000_000;
    assert Pow10(15) == 1_000_000_000_000_000;
    assert Pow10(16) == 10_000_000_000_000_000;
    DecimalLength(now, 16);
  }

  /** The test ignores letter case. */
  lemma MongoIdIgnoresCase(id: string, other: string)
    requires |id| == |other|
    requires forall i :: 0 <= i < |id| ==> Lower(id[i]) == Lower(other[i])
    ensures IsMongoId(id) <==> IsMongoId(other)
  {
    if IsMongoId(id) {
      assert forall i :: 0 <= i < |other| ==> IsHexDigit(other[i]) by {
        forall i | 0 <= i < |other| ensures IsHexDigit(other[i]) {
          assert IsHexDigit(id[i]);
        }
      }
    }
    if IsMongoId(other) {
      assert forall i :: 0 <= i < |id| ==> IsHexDigit(id[i]) by {
        forall i | 0 <= i < |id| ensures IsHexDigit(id[i]) {
          assert IsHexDigit(other[i]);
        }
      }
    }
  }

  /** ASCII lower-casing, the part of `toLowerCase` that ids and search terms use. */
  function Lower(c: char): char
  {
    if 'A' <= c <= 'Z' then (c as int + 32) as char else c
  }

  /** `toLowerCase()` on the ASCII letters. Casting a hexadecimal string to an object
      id does the same to its digits, since an object id prints in lower case. */
  function LowerCase(s: string): (r: string)
    ensures |r| == |s| && forall i :: 0 <= i < |s| ==> r[i] == Lower(s[i])
  {
    seq(|s|, i requires 0 <= i < |s| => Lower(s[i]))
  }
}
