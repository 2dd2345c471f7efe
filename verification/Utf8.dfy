/** UTF-8 (section 3 of RFC 3629), a strict decoder for it, and the longest prefix that fits a byte budget. */
module Utf8 {
  import opened Prelude

  type Byte = b: int | 0 <= b < 256

  predicate Scalar(cp: int) {
    0 <= cp < 0xD800 || 0xE000 <= cp < 0x11_0000
  }

  predicate Continuation(b: Byte) {
    0x80 <= b < 0xC0
  }

  function EncodeOne(c: char): (bytes: seq<Byte>)
    ensures 1 <= |bytes| <= 4
    ensures !Continuation(bytes[0])
    ensures forall i | 1 <= i < |bytes| :: Continuation(bytes[i])
    ensures |bytes| == 1 <==> c as int < 0x80
  {
    var cp := c as int;
    if cp < 0x80 then [cp]
    else if cp < 0x800 then [0xC0 + cp / 64, 0x80 + cp % 64]
    else if cp < 0x1_0000 then [0xE0 + cp / 64 / 64, 0x80 + cp / 64 % 64, 0x80 + cp % 64]
    else [0xF0 + cp / 64 / 64 / 64, 0x80 + cp / 64 / 64 % 64, 0x80 + cp / 64 % 64, 0x80 + cp % 64]
  }

  function Encode(s: string): seq<Byte> {
    if s == [] then [] else EncodeOne(s[0]) + Encode(s[1..])
  }

  // ----- decoding -----

  datatype Decoded = Decoded(c: char, size: nat)

  /** `high` followed by the six payload bits of a continuation byte. */
  function Shifted(high: int, b: int): int {
    high * 64 + (b - 0x80)
  }

  /** The character `bytes` starts with; overlong forms, surrogates and values past the last plane are refused. */
  function DecodeOne(bytes: seq<Byte>): (d: Option<Decoded>)
    requires bytes != []
    ensures d.Some? ==> 1 <= d.value.size <= |bytes|
  {
    var a: int := bytes[0];
    if a < 0x80 then Some(Decoded(a as char, 1))
    else if 0xC0 <= a < 0xE0 && |bytes| >= 2 && Continuation(bytes[1]) then
      Checked(Shifted(a - 0xC0, bytes[1]), 0x80, 2)
    else if 0xE0 <= a < 0xF0 && |bytes| >= 3 && Continuation(bytes[1]) && Continuation(bytes[2]) then
      Checked(Shifted(Shifted(a - 0xE0, bytes[1]), bytes[2]), 0x800, 3)
    else if 0xF0 <= a < 0xF8 && |bytes| >= 4 && Continuation(bytes[1]) && Continuation(bytes[2])
            && Continuation(bytes[3]) then
      Checked(Shifted(Shifted(Shifted(a - 0xF0, bytes[1]), bytes[2]), bytes[3]), 0x1_0000, 4)
    else None
  }

  function Checked(cp: int, least: nat, size: nat): (d: Option<Decoded>)
    ensures d.Some? ==> d.value.size == size
  {
    if least <= cp && Scalar(cp) then Some(Decoded(cp as char, size)) else None
  }

  function Decode(bytes: seq<Byte>): Option<string>
    decreases |bytes|
  {
    if bytes == [] then Some([])
    else
      match DecodeOne(bytes)
      case None => None
      case Some(d) =>
        match Decode(bytes[d.size..])
        case None => None
        case Some(rest) => Some([d.c] + rest)
  }

  lemma ShiftedBack(n: nat)
    ensures Shifted(n / 64, 0x80 + n % 64) == n
  {
  }

  lemma ShiftedDigits(high: nat, b: int)
    requires 0x80 <= b < 0xC0
    ensures Shifted(high, b) / 64 == high && 0x80 + Shifted(high, b) % 64 == b
  {
  }

  lemma DecodeOneEncoded(c: char, rest: seq<Byte>)
    ensures DecodeOne(EncodeOne(c) + rest) == Some(Decoded(c, |EncodeOne(c)|))
  {
    hide Shifted;
    var cp := c as int;
    ShiftedBack(cp);
    ShiftedBack(cp / 64);
    ShiftedBack(cp / 64 / 64);
    var head := EncodeOne(c);
    assert forall i | 0 <= i < |head| :: (head + rest)[i] == head[i];
  }

  lemma {:induction false} DecodeEncode(s: string)
    ensures Decode(Encode(s)) == Some(s)
  {
    if s != [] {
      var head, tail := EncodeOne(s[0]), Encode(s[1..]);
      DecodeOneEncoded(s[0], tail);
      assert (head + tail)[|head|..] == tail;
      DecodeEncode(s[1..]);
      assert Encode(s) == head + tail;
      assert [s[0]] + s[1..] == s;
    }
  }

  lemma EncodeOneDecoded(bytes: seq<Byte>)
    requires bytes != [] && DecodeOne(bytes).Some?
    ensures EncodeOne(DecodeOne(bytes).value.c) == bytes[..DecodeOne(bytes).value.size]
  {
    var a: int := bytes[0];
    var size := DecodeOne(bytes).value.size;
    if size == 2 {
      ShiftedDigits(a - 0xC0, bytes[1]);
    } else if size == 3 {
      ShiftedDigits(a - 0xE0, bytes[1]);
      ShiftedDigits(Shifted(a - 0xE0, bytes[1]), bytes[2]);
    } else if size == 4 {
      ShiftedDigits(a - 0xF0, bytes[1]);
      ShiftedDigits(Shifted(a - 0xF0, bytes[1]), bytes[2]);
      ShiftedDigits(Shifted(Shifted(a - 0xF0, bytes[1]), bytes[2]), bytes[3]);
    }
  }

  /** The decoder inverts the encoder and accepts nothing else, so bytes and text determine each other. */
  lemma {:induction false} DecodesExactlyEncodings(bytes: seq<Byte>, s: string)
    ensures Decode(bytes) == Some(s) <==> bytes == Encode(s)
    decreases |bytes|
  {
    DecodeEncode(s);
    if bytes != [] && Decode(bytes) == Some(s) {
      var size := DecodeOne(bytes).value.size;
      EncodeOneDecoded(bytes);
      DecodesExactlyEncodings(bytes[size..], s[1..]);
      assert bytes == bytes[..size] + bytes[size..];
    }
  }

  // ----- where characters start -----

  /** `p` is the length of the encoding of the first `k` characters. */
  ghost predicate StartsAt(s: string, k: nat, p: nat) {
    k <= |s| && p == |Encode(s[..k])|
  }

  lemma {:induction false} EncodeSplit(s: string, k: nat)
    requires k <= |s|
    ensures Encode(s) == Encode(s[..k]) + Encode(s[k..])
  {
    if k == 0 {
      assert s[..0] == [] && s[0..] == s;
    } else {
      EncodeSplit(s[1..], k - 1);
      assert s[..k][0] == s[0] && s[..k][1..] == s[1..][..k - 1] && s[1..][k - 1..] == s[k..];
    }
  }

  lemma EncodeGrows(s: string, j: nat, k: nat)
    requires j < k <= |s|
    ensures |Encode(s[..j])| < |Encode(s[..k])|
  {
    EncodeSplit(s[..k], j);
    assert s[..k][..j] == s[..j];
    assert s[..k][j..] != [];
  }

  /** A byte that does not continue a character starts one, and only those do. */
  lemma {:induction false} CharacterStarts(s: string, p: nat)
    requires p < |Encode(s)|
    ensures !Continuation(Encode(s)[p]) <==> exists k: nat :: StartsAt(s, k, p)
  {
    var head, rest := EncodeOne(s[0]), s[1..];
    if p < |head| {
      if p == 0 {
        assert s[..0] == [];
        assert StartsAt(s, 0, 0);
      } else {
        forall k: nat | StartsAt(s, k, p) ensures false {
          StartBeyondHead(s, k);
        }
      }
    } else {
      var q := p - |head|;
      CharacterStarts(rest, q);
      if k: nat :| StartsAt(rest, k, q) {
        assert s[..k + 1][0] == s[0] && s[..k + 1][1..] == rest[..k];
        assert StartsAt(s, k + 1, p);
      }
      forall k: nat | StartsAt(s, k, p) ensures k > 0 && StartsAt(rest, k - 1, q) {
        StartBeyondHead(s, k);
        assert s[..k][0] == s[0] && s[..k][1..] == rest[..k - 1];
      }
    }
  }

  lemma StartBeyondHead(s: string, k: nat)
    requires 0 < |s| && k <= |s|
    ensures |Encode(s[..k])| == 0 || |Encode(s[..k])| >= |EncodeOne(s[0])|
    ensures k > 0 ==> |Encode(s[..k])| >= |EncodeOne(s[0])|
    ensures k == 0 ==> |Encode(s[..k])| == 0
  {
    if k > 0 {
      assert s[..k][0] == s[0];
    }
  }

  // ----- the longest prefix that fits -----

  /** How many characters of `s` fit into `budget` bytes. */
  function Fitting(s: string, budget: nat): (k: nat)
    ensures k <= |s|
  {
    if s == [] || |EncodeOne(s[0])| > budget then 0 else 1 + Fitting(s[1..], budget - |EncodeOne(s[0])|)
  }

  lemma {:induction false} FittingIsLongest(s: string, budget: nat, j: nat)
    requires j <= |s|
    ensures |Encode(s[..j])| <= budget <==> j <= Fitting(s, budget)
  {
    if j == 0 {
      assert s[..0] == [];
    } else {
      assert s[..j][0] == s[0] && s[..j][1..] == s[1..][..j - 1];
      if |EncodeOne(s[0])| <= budget {
        FittingIsLongest(s[1..], budget - |EncodeOne(s[0])|, j - 1);
      }
    }
  }

  /** The prefix up to the last character start that fits is the longest one. */
  lemma LastStartIsFitting(s: string, budget: nat, k: nat, end: nat)
    requires budget < |Encode(s)| && StartsAt(s, k, end) && end <= budget
    requires forall p | end < p <= budget :: Continuation(Encode(s)[p])
    ensures k == Fitting(s, budget)
  {
    FittingIsLongest(s, budget, k);
    if k < |s| {
      FittingIsLongest(s, budget, k + 1);
      var next := |Encode(s[..k + 1])|;
      EncodeGrows(s, k, k + 1);
      if next <= budget {
        assert StartsAt(s, k + 1, next);
        CharacterStarts(s, next);
      }
    }
  }

  /** `utf8Prefix`: cut at the budget, then back up to a character start. */
  method Utf8Prefix(text: string, budget: nat) returns (prefix: string)
    ensures prefix == text[..Fitting(text, budget)]
  {
    var bytes := Encode(text);
    if |bytes| <= budget {
      FittingIsLongest(text, budget, |text|);
      assert text[..|text|] == text;
      return text;
    }
    var end := budget;
    while end > 0 && Continuation(bytes[end])
      invariant 0 <= end <= budget
      invariant forall p | end < p <= budget :: Continuation(bytes[p])
    {
      end := end - 1;
    }
    if end == 0 {
      assert text[..0] == [];
      assert StartsAt(text, 0, 0);
    }
    CharacterStarts(text, end);
    ghost var k: nat :| StartsAt(text, k, end);
    LastStartIsFitting(text, budget, k, end);
    EncodeSplit(text, k);
    assert bytes[..end] == Encode(text[..k]);
    DecodeEncode(text[..k]);
    prefix := Decode(bytes[..end]).value;
  }

  // ----- ASCII -----

  lemma {:induction false} AsciiLength(s: string)
    requires forall i | 0 <= i < |s| :: s[i] as int < 0x80
    ensures |Encode(s)| == |s|
  {
    if s != [] {
      AsciiLength(s[1..]);
    }
  }

  lemma {:induction false} EncodeAppend(a: string, b: string)
    ensures Encode(a + b) == Encode(a) + Encode(b)
  {
    EncodeSplit(a + b, |a|);
    assert (a + b)[..|a|] == a && (a + b)[|a|..] == b;
  }
}
