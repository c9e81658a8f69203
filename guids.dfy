/** `System.Guid` as its 32 hexadecimal digits in display order. */
module Guids {

  type Nibble = n: nat | n < 16

  /** `Guid.Empty`: thirty-two zero digits. */
  const EmptyGuid: seq<Nibble> := [0, 0, 0, 0, 0, 0, 0, 0, 0, 0, 0, 0, 0, 0, 0, 0,
                                   0, 0, 0, 0, 0, 0, 0, 0, 0, 0, 0, 0, 0, 0, 0, 0]

  type Guid = s: seq<Nibble> | |s| == 32 witness EmptyGuid

  function HexChar(n: Nibble): char {
    "0123456789abcdef"[n]
  }

  function HexString(s: seq<Nibble>): (r: string)
    ensures |r| == |s|
    ensures forall i :: 0 <= i < |s| ==> r[i] == HexChar(s[i])
  {
    seq(|s|, i requires 0 <= i < |s| => HexChar(s[i]))
  }

  /** `Guid.ToString()`: the "D" format, lower-case hexadecimal digits in groups
      of 8, 4, 4, 4 and 12 separated by hyphens. */
  function GuidToString(g: Guid): (r: string)
    ensures |r| == 36
    ensures r[8] == '-' && r[13] == '-' && r[18] == '-' && r[23] == '-'
  {
    HexString(g[0..8]) + "-" + HexString(g[8..12]) + "-" + HexString(g[12..16]) + "-" +
    HexString(g[16..20]) + "-" + HexString(g[20..32])
  }

  lemma HexCharInjective(a: Nibble, b: Nibble)
    requires HexChar(a) == HexChar(b)
    ensures a == b
  {
  }

  /** The position in `GuidToString(g)` at which digit `k` of `g` is written. */
  function DigitPosition(k: nat): nat {
    if k < 8 then k else if k < 12 then k + 1 else if k < 16 then k + 2 else if k < 20 then k + 3 else k + 4
  }

  lemma DigitAtPosition(g: Guid, k: nat)
    requires k < 32
    ensures GuidToString(g)[DigitPosition(k)] == HexChar(g[k])
  {
    var r := GuidToString(g);
    if k < 8 {
      assert r[k] == HexString(g[0..8])[k];
    } else if k < 12 {
      assert r[k + 1] == HexString(g[8..12])[k - 8];
    } else if k < 16 {
      assert r[k + 2] == HexString(g[12..16])[k - 12];
    } else if k < 20 {
      assert r[k + 3] == HexString(g[16..20])[k - 16];
    } else {
      assert r[k + 4] == HexString(g[20..32])[k - 20];
    }
  }

  /** Distinct identifiers have distinct renderings, so the string a handler
      returns names exactly one record. */
  lemma GuidToStringInjective(a: Guid, b: Guid)
    requires GuidToString(a) == GuidToString(b)
    ensures a == b
  {
    forall k | 0 <= k < 32 ensures a[k] == b[k] {
      DigitAtPosition(a, k);
      DigitAtPosition(b, k);
      HexCharInjective(a[k], b[k]);
    }
  }
}
