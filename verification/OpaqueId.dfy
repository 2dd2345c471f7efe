/** Public ids: 128 bits as 26 characters of a 32-letter alphabet. */
module OpaqueId {
  import opened Prelude
  import opened Utf8

  const PUBLIC_ID_ALPHABET := "0123456789abcdefghjkmnpqrstvwxyz"
  const ID_LENGTH := 26

  function Power(base: nat, n: nat): (p: nat)
    ensures base > 0 ==> p > 0
  {
    if n == 0 then 1 else base * Power(base, n - 1)
  }

  function Letter(d: nat): char
    requires d < 32
  {
    PUBLIC_ID_ALPHABET[d]
  }

  /** The letters stand in ascending order, so they compare as the digits they stand for. */
  lemma LettersAscend()
    ensures forall i, j | 0 <= i < j < 32 :: Letter(i) < Letter(j)
  {
    assert |PUBLIC_ID_ALPHABET| == 32;
    assert forall i | 0 <= i < 31 :: Letter(i) < Letter(i + 1);
    forall i, j | 0 <= i < j < 32 ensures Letter(i) < Letter(j) {
      AscendingFrom(i, j);
    }
  }

  lemma AscendingFrom(i: nat, j: nat)
    requires i < j < 32 && forall k | 0 <= k < 31 :: Letter(k) < Letter(k + 1)
    ensures Letter(i) < Letter(j)
    decreases j - i
  {
    if i + 1 < j {
      AscendingFrom(i + 1, j);
    }
  }

  // ----- the value of the bytes -----

  function ValueOf(bytes: seq<Byte>): nat {
    if bytes == [] then 0 else 256 * ValueOf(bytes[..|bytes| - 1]) + bytes[|bytes| - 1]
  }

  lemma {:induction false} ValueBound(bytes: seq<Byte>)
    ensures ValueOf(bytes) < Power(256, |bytes|)
  {
    if bytes != [] {
      ValueBound(bytes[..|bytes| - 1]);
    }
  }

  lemma {:induction false} ValueInjective(a: seq<Byte>, b: seq<Byte>)
    requires |a| == |b| && ValueOf(a) == ValueOf(b)
    ensures a == b
  {
    if a != [] {
      var n := |a| - 1;
      assert ValueOf(a[..n]) == ValueOf(b[..n]) && a[n] == b[n];
      ValueInjective(a[..n], b[..n]);
      assert a == a[..n] + [a[n]] && b == b[..n] + [b[n]];
    }
  }

  // ----- encoding -----

  /** The last `n` base-32 digits of `value`. */
  function Digits(value: nat, n: nat): (s: string)
    ensures |s| == n
  {
    if n == 0 then "" else Digits(value / 32, n - 1) + [Letter(value % 32)]
  }

  /** `encodeOpaquePublicId`: the low five bits go in front of what is there, 26 times. */
  method EncodeOpaquePublicId(bytes: seq<Byte>) returns (encoded: string)
    requires |bytes| >= 16
    ensures encoded == Digits(ValueOf(bytes[..16]), ID_LENGTH)
  {
    var value := ValueOf(bytes[..16]);
    encoded := "";
    ghost var start := value;
    for index := 0 to ID_LENGTH
      invariant Digits(value, ID_LENGTH - index) + encoded == Digits(start, ID_LENGTH)
    {
      encoded := [Letter(value % 32)] + encoded;
      value := value / 32;
    }
  }

  /** The place of `c` in the alphabet, looked for from `i` on. */
  function LetterFrom(c: char, i: nat): Option<nat>
    requires i <= 32
    decreases 32 - i
  {
    if i == 32 then None else if Letter(i) == c then Some(i) else LetterFrom(c, i + 1)
  }

  function Decode(s: string): Option<nat> {
    if s == "" then Some(0)
    else
      match (Decode(s[..|s| - 1]), LetterFrom(s[|s| - 1], 0))
      case (Some(high), Some(low)) => Some(32 * high + low)
      case _ => None
  }

  lemma {:induction false} LetterFound(d: nat, i: nat)
    requires i <= d < 32
    ensures LetterFrom(Letter(d), i) == Some(d)
    decreases d - i
  {
    LettersAscend();
    if i < d {
      LetterFound(d, i + 1);
    }
  }

  /** Decoding gives the value back, as long as it fits into the digits. */
  lemma {:induction false} DecodeDigits(value: nat, n: nat)
    requires value < Power(32, n)
    ensures Decode(Digits(value, n)) == Some(value)
  {
    if n > 0 {
      DecodeDigits(value / 32, n - 1);
      LetterFound(value % 32, 0);
      var s := Digits(value, n);
      assert s[..|s| - 1] == Digits(value / 32, n - 1);
    }
  }

  /** 128 bits fit into 26 digits of five bits. */
  lemma PowersFit()
    ensures Power(256, 16) == 8 * Power(32, 25) && Power(256, 16) < Power(32, 26)
  {
    assert Power(256, 4) == 0x1_0000_0000;
    assert Power(256, 8) == 0x1_0000_0000_0000_0000;
    assert Power(256, 12) == 0x1_0000_0000_0000_0000_0000_0000;
    assert Power(256, 16) == 0x1_0000_0000_0000_0000_0000_0000_0000_0000;
    assert Power(32, 5) == 0x200_0000;
    assert Power(32, 10) == 0x4_0000_0000_0000;
    assert Power(32, 15) == 0x800_0000_0000_0000_0000;
    assert Power(32, 20) == 0x10_0000_0000_0000_0000_0000_0000;
    assert Power(32, 25) == 0x2000_0000_0000_0000_0000_0000_0000_0000;
  }

  lemma {:induction false} LeadingDigit(value: nat, n: nat, d: nat)
    requires n > 0 && d < 32 && d * Power(32, n - 1) <= value < (d + 1) * Power(32, n - 1)
    ensures Digits(value, n)[0] == Letter(d)
  {
    if n == 1 {
      assert Power(32, 0) == 1;
      assert value == d;
    } else {
      assert d * Power(32, n - 1) == 32 * (d * Power(32, n - 2));
      assert (d + 1) * Power(32, n - 1) == 32 * ((d + 1) * Power(32, n - 2));
      LeadingDigit(value / 32, n - 1, d);
    }
  }

  /** Before in the order of the database's text comparison, for strings of one length. */
  predicate Precedes(a: string, b: string)
    requires |a| == |b|
  {
    a != "" && (a[0] < b[0] || (a[0] == b[0] && Precedes(a[1..], b[1..])))
  }

  lemma {:induction false} PrecedesExtended(a: string, b: string, x: char, y: char)
    requires |a| == |b|
    ensures Precedes(a, b) ==> Precedes(a + [x], b + [y])
    ensures a == b && x < y ==> Precedes(a + [x], b + [y])
  {
    if a == "" {
      assert b == "" && a + [x] == [x] && b + [y] == [y];
    } else {
      PrecedesExtended(a[1..], b[1..], x, y);
      assert (a + [x])[1..] == a[1..] + [x] && (b + [y])[1..] == b[1..] + [y];
    }
  }

  /** Smaller numbers have earlier ids. */
  lemma {:induction false} DigitsKeepOrder(v: nat, w: nat, n: nat)
    requires v < w < Power(32, n)
    ensures Precedes(Digits(v, n), Digits(w, n))
  {
    if n > 0 {
      hide Precedes, Letter;
      LettersAscend();
      var x, y := Letter(v % 32), Letter(w % 32);
      if v / 32 < w / 32 {
        DigitsKeepOrder(v / 32, w / 32, n - 1);
      }
      PrecedesExtended(Digits(v / 32, n - 1), Digits(w / 32, n - 1), x, y);
    }
  }

  lemma {:induction false} OnlyLetters(value: nat, n: nat)
    ensures forall i | 0 <= i < n :: Digits(value, n)[i] in PUBLIC_ID_ALPHABET
  {
    if n > 0 {
      OnlyLetters(value / 32, n - 1);
      assert PUBLIC_ID_ALPHABET[value % 32] in PUBLIC_ID_ALPHABET;
    }
  }

  /** What the id of these bytes is. */
  function IdOf(bytes: seq<Byte>): string
    requires |bytes| >= 16
  {
    Digits(ValueOf(bytes[..16]), ID_LENGTH)
  }

  /** A digit or a lower-case letter, but none that is easily taken for another. */
  predicate IsIdLetter(c: char) {
    '0' <= c <= '9' || ('a' <= c <= 'z' && c != 'i' && c != 'l' && c != 'o' && c != 'u')
  }

  lemma FirstLetters(d: nat)
    ensures d < 10 ==> Letter(d) as int == '0' as int + d
    ensures 10 <= d < 18 ==> Letter(d) as int == 'a' as int + d - 10
  {
  }

  lemma LastLetters(d: nat)
    ensures 18 <= d < 20 ==> Letter(d) as int == 'j' as int + d - 18
    ensures 20 <= d < 22 ==> Letter(d) as int == 'm' as int + d - 20
    ensures 22 <= d < 27 ==> Letter(d) as int == 'p' as int + d - 22
    ensures 27 <= d < 32 ==> Letter(d) as int == 'v' as int + d - 27
  {
  }

  lemma LetterExists(c: char)
    requires IsIdLetter(c)
    ensures exists d: nat :: d < 32 && Letter(d) == c
  {
    hide Letter;
    var n := c as int;
    var d: nat := if n <= '9' as int then n - '0' as int
                  else if n <= 'h' as int then 10 + n - 'a' as int
                  else if n <= 'k' as int then 18 + n - 'j' as int
                  else if n <= 'n' as int then 20 + n - 'm' as int
                  else if n <= 't' as int then 22 + n - 'p' as int
                  else 27 + n - 'v' as int;
    FirstLetters(d);
    LastLetters(d);
  }

  /** The alphabet is just these letters. */
  lemma AlphabetExactly(c: char)
    ensures c in PUBLIC_ID_ALPHABET <==> IsIdLetter(c)
  {
    hide Letter;
    assert |PUBLIC_ID_ALPHABET| == 32;
    if c in PUBLIC_ID_ALPHABET {
      var d: nat :| d < |PUBLIC_ID_ALPHABET| && PUBLIC_ID_ALPHABET[d] == c;
      LetterAt(d);
      FirstLetters(d);
      LastLetters(d);
    }
    if IsIdLetter(c) {
      LetterExists(c);
      var d: nat :| d < 32 && Letter(d) == c;
      LetterAt(d);
    }
  }

  lemma LetterAt(d: nat)
    requires d < 32
    ensures Letter(d) == PUBLIC_ID_ALPHABET[d]
  {
  }

  /**
   * The format the database asks of an id: 26 digits and lower-case letters without `i`, `l`, `o` and `u`, the first
   * no later than `7`.
   */
  lemma IdFormat(bytes: seq<Byte>)
    requires |bytes| >= 16
    ensures |IdOf(bytes)| == 26
    ensures forall i | 0 <= i < 26 :: IsIdLetter(IdOf(bytes)[i])
    ensures '0' <= IdOf(bytes)[0] <= '7'
  {
    hide Digits, Power, ValueOf, IsIdLetter;
    var value := ValueOf(bytes[..16]);
    OnlyLetters(value, 26);
    ValueBound(bytes[..16]);
    PowersFit();
    FirstLetter(value, Power(32, 25));
    forall i | 0 <= i < 26 ensures IsIdLetter(IdOf(bytes)[i]) {
      AlphabetExactly(IdOf(bytes)[i]);
    }
  }

  lemma FirstLetter(value: nat, unit: nat)
    requires unit == Power(32, 25) && value < 8 * unit
    ensures '0' <= Digits(value, 26)[0] <= '7'
  {
    hide Digits, Power;
    DivisionBounds(value, unit);
    LeadingDigit(value, 26, value / unit);
    LowLetters(value / unit);
  }

  lemma LowLetters(d: nat)
    requires d < 8
    ensures '0' <= Letter(d) <= '7'
  {
  }

  lemma DivisionBounds(value: nat, unit: nat)
    requires unit > 0
    ensures value / unit * unit <= value < (value / unit + 1) * unit
    ensures value < 8 * unit ==> value / unit < 8
  {
    var d := value / unit;
    assert value == d * unit + value % unit;
    assert (d + 1) * unit == d * unit + unit;
    assert d >= 8 ==> d * unit >= 8 * unit;
  }

  // ----- ids sort as the bytes do -----

  /** The first byte in which the two differ is smaller in `a`. */
  ghost predicate BytesBefore(a: seq<Byte>, b: seq<Byte>) {
    exists i :: 0 <= i < |a| && i < |b| && a[..i] == b[..i] && a[i] < b[i]
  }

  /** The first letter in which the two differ is smaller in `a`. */
  ghost predicate LettersBefore(a: string, b: string) {
    exists i :: 0 <= i < |a| && i < |b| && a[..i] == b[..i] && a[i] < b[i]
  }

  lemma BytesBeforeFront(a: seq<Byte>, b: seq<Byte>, n: nat)
    requires |a| == |b| == n + 1
    ensures BytesBefore(a, b) <==> BytesBefore(a[..n], b[..n]) || (a[..n] == b[..n] && a[n] < b[n])
  {
    if BytesBefore(a, b) {
      var i :| 0 <= i < |a| && a[..i] == b[..i] && a[i] < b[i];
      if i < n {
        assert a[..n][..i] == a[..i] && b[..n][..i] == b[..i];
      }
    }
    if BytesBefore(a[..n], b[..n]) {
      var i :| 0 <= i < n && a[..n][..i] == b[..n][..i] && a[..n][i] < b[..n][i];
      assert a[..i] == a[..n][..i] && b[..i] == b[..n][..i];
    }
  }

  lemma {:induction false} ValuesSortAsBytes(a: seq<Byte>, b: seq<Byte>)
    requires |a| == |b|
    ensures ValueOf(a) < ValueOf(b) <==> BytesBefore(a, b)
  {
    if a != [] {
      hide BytesBefore;
      var n := |a| - 1;
      ValuesSortAsBytes(a[..n], b[..n]);
      BytesBeforeFront(a, b, n);
      if ValueOf(a[..n]) == ValueOf(b[..n]) {
        ValueInjective(a[..n], b[..n]);
      }
    }
  }

  lemma {:induction false} PrecedesExactly(a: string, b: string)
    requires |a| == |b|
    ensures Precedes(a, b) <==> LettersBefore(a, b)
  {
    if a != "" {
      var x, y := a[1..], b[1..];
      PrecedesExactly(x, y);
      if a[0] < b[0] {
        assert a[..0] == b[..0];
      } else if a[0] == b[0] && LettersBefore(x, y) {
        var i :| 0 <= i < |x| && x[..i] == y[..i] && x[i] < y[i];
        assert a[..i + 1] == [a[0]] + x[..i] && b[..i + 1] == [b[0]] + y[..i];
      }
      if LettersBefore(a, b) {
        var i :| 0 <= i < |a| && a[..i] == b[..i] && a[i] < b[i];
        if i > 0 {
          assert a[0] == a[..i][0] == b[..i][0] == b[0];
          assert x[..i - 1] == a[..i][1..] && y[..i - 1] == b[..i][1..];
        }
      }
    }
  }

  lemma {:induction false} PrecedesOneWay(a: string, b: string)
    requires |a| == |b|
    ensures !(Precedes(a, b) && Precedes(b, a)) && !Precedes(a, a)
  {
    if a != "" {
      PrecedesOneWay(a[1..], b[1..]);
    }
  }

  /**
   * The id determines the first sixteen bytes and can be decoded to their value, and ids sort in text order exactly
   * as the bytes do.
   */
  lemma IdsAreInjectiveAndOrdered(a: seq<Byte>, b: seq<Byte>)
    requires |a| >= 16 && |b| >= 16
    ensures Decode(IdOf(a)) == Some(ValueOf(a[..16]))
    ensures IdOf(a) == IdOf(b) <==> a[..16] == b[..16]
    ensures LettersBefore(IdOf(a), IdOf(b)) <==> BytesBefore(a[..16], b[..16])
  {
    hide *;
    IdDecodes(a);
    IdDecodes(b);
    if ValueOf(a[..16]) == ValueOf(b[..16]) {
      ValueInjective(a[..16], b[..16]);
    }
    SixteenBytes(a, b);
    PrecedesExactly(IdOf(a), IdOf(b));
    PrecedesOneWay(IdOf(a), IdOf(b));
    ValuesSortAsBytes(a[..16], b[..16]);
    IdsKeepOrder(a, b);
    IdsKeepOrder(b, a);
  }

  lemma IdDecodes(a: seq<Byte>)
    requires |a| >= 16
    ensures Decode(IdOf(a)) == Some(ValueOf(a[..16])) && |IdOf(a)| == 26
  {
    hide Digits, Decode, Power, ValueOf;
    ValueBound(a[..16]);
    PowersFit();
    DecodeDigits(ValueOf(a[..16]), 26);
  }

  lemma IdsKeepOrder(a: seq<Byte>, b: seq<Byte>)
    requires |a| >= 16 && |b| >= 16
    ensures |IdOf(a)| == |IdOf(b)|
    ensures ValueOf(a[..16]) < ValueOf(b[..16]) ==> Precedes(IdOf(a), IdOf(b))
  {
    hide Digits, Power, ValueOf, Precedes;
    ValueBound(b[..16]);
    PowersFit();
    if ValueOf(a[..16]) < ValueOf(b[..16]) {
      DigitsKeepOrder(ValueOf(a[..16]), ValueOf(b[..16]), 26);
    }
  }

  lemma SixteenBytes(a: seq<Byte>, b: seq<Byte>)
    requires |a| >= 16 && |b| >= 16
    ensures a[..16] == b[..16] ==> IdOf(a) == IdOf(b)
  {
    hide Digits, ValueOf;
  }
}
