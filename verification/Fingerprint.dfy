/**
  A paired client's fingerprint (internal/config/clients.go): the strict
  base64 of a 32-byte hash, against what that encoding is.
*/
module Fingerprint {
  import opened Common

  function Base64(c: char): int {
    if 'A' <= c <= 'Z' then c as int - 'A' as int
    else if 'a' <= c <= 'z' then c as int - 'a' as int + 26
    else if '0' <= c <= '9' then c as int - '0' as int + 52
    else if c == '+' then 62
    else if c == '/' then 63
    else -1
  }

  /** The canonical base64 of 32 bytes: 43 digits, the last with two spare bits of zero, and one pad. */
  predicate ValidFingerprint(s: string) {
    |s| == 44 && (forall i :: 0 <= i < 43 ==> Base64(s[i]) >= 0) && Base64(s[42]) % 4 == 0 && s[43] == '='
  }

  const Decimals := "0123456789"

  /** The digit worth v: capitals, smalls, decimals, a plus and a slash. */
  function Digit(v: int): char
    requires 0 <= v < 64
  {
    if v < 26 then Capitals[v] else if v < 52 then Smalls[v - 26] else if v < 62 then Decimals[v - 52]
    else if v == 62 then '+' else '/'
  }

  lemma DigitsSpellTheirPlace(v: int)
    requires 0 <= v < 64
    ensures Base64(Digit(v)) == v
  {
    if v < 26 {
      CapitalsAndSmalls(v);
    } else if v < 52 {
      CapitalsAndSmalls(v - 26);
    }
  }

  lemma OnlyDigitsDo(c: char)
    requires Base64(c) >= 0
    ensures Base64(c) < 64 && Digit(Base64(c)) == c
  {
    if 'A' <= c <= 'Z' {
      CapitalsAndSmalls(Base64(c));
    } else if 'a' <= c <= 'z' {
      CapitalsAndSmalls(Base64(c) - 26);
    }
  }

  type Byte = b: int | 0 <= b < 256

  /** The base64 of section 4 of RFC 4648: three bytes to four digits, and the last two bytes to three and a pad. */
  predicate Spells(s: string, bytes: seq<Byte>) {
    && |s| == 44 && |bytes| == 32 && s[43] == '='
    && (forall i :: 0 <= i < 10 ==>
          && s[4 * i] == Digit(bytes[3 * i] / 4)
          && s[4 * i + 1] == Digit(bytes[3 * i] % 4 * 16 + bytes[3 * i + 1] / 16)
          && s[4 * i + 2] == Digit(bytes[3 * i + 1] % 16 * 4 + bytes[3 * i + 2] / 64)
          && s[4 * i + 3] == Digit(bytes[3 * i + 2] % 64))
    && s[40] == Digit(bytes[30] / 4) && s[41] == Digit(bytes[30] % 4 * 16 + bytes[31] / 16)
    && s[42] == Digit(bytes[31] % 16 * 4)
  }

  /** The byte at a place, from the digits that carry it. */
  function ByteAt(s: string, k: nat): Byte
    requires k < 32 && ValidFingerprint(s)
  {
    var i := k / 3 * 4;
    OnlyDigitsDo(s[i + k % 3]);
    OnlyDigitsDo(s[i + k % 3 + 1]);
    var a, b := Base64(s[i + k % 3]), Base64(s[i + k % 3 + 1]);
    if k % 3 == 0 then a * 4 + b / 16 else if k % 3 == 1 then a % 16 * 16 + b / 4 else a % 4 * 64 + b
  }

  lemma FourDigitsSpell(a: int, b: int, c: int, d: int)
    requires 0 <= a < 64 && 0 <= b < 64 && 0 <= c < 64 && 0 <= d < 64
    ensures var x, y, z := a * 4 + b / 16, b % 16 * 16 + c / 4, c % 4 * 64 + d;
            && x / 4 == a && x % 4 * 16 + y / 16 == b && y % 16 * 4 + z / 64 == c && z % 64 == d
  {
  }

  lemma GroupSpells(s: string, i: nat)
    requires ValidFingerprint(s) && i < 10
    ensures var x, y, z := ByteAt(s, 3 * i), ByteAt(s, 3 * i + 1), ByteAt(s, 3 * i + 2);
            && s[4 * i] == Digit(x / 4) && s[4 * i + 1] == Digit(x % 4 * 16 + y / 16)
            && s[4 * i + 2] == Digit(y % 16 * 4 + z / 64) && s[4 * i + 3] == Digit(z % 64)
  {
    hide Base64, Digit;
    OnlyDigitsDo(s[4 * i]);
    OnlyDigitsDo(s[4 * i + 1]);
    OnlyDigitsDo(s[4 * i + 2]);
    OnlyDigitsDo(s[4 * i + 3]);
    FourDigitsSpell(Base64(s[4 * i]), Base64(s[4 * i + 1]), Base64(s[4 * i + 2]), Base64(s[4 * i + 3]));
  }

  /** A fingerprint is valid exactly when it is the spelling of some 32 bytes. */
  lemma AFingerprintIsThirtyTwoBytes(s: string)
    ensures ValidFingerprint(s) <==> exists bytes: seq<Byte> :: Spells(s, bytes)
  {
    if ValidFingerprint(s) {
      var bytes: seq<Byte> := seq(32, k requires 0 <= k < 32 => ByteAt(s, k));
      SpelledOut(s, bytes);
    }
    if bytes: seq<Byte> :| Spells(s, bytes) {
      SpelledIsValid(s, bytes);
    }
  }

  /** And the only spelling of them. */
  lemma NoOtherSpelling(s: string, t: string, bytes: seq<Byte>)
    requires Spells(s, bytes) && Spells(t, bytes)
    ensures s == t
  {
    hide Digit;
    forall j | 0 <= j < 44 ensures s[j] == t[j] {
      var i := j / 4;
      assert j == 4 * i + j % 4;
    }
  }

  lemma SpelledOut(s: string, bytes: seq<Byte>)
    requires ValidFingerprint(s) && |bytes| == 32 && forall k :: 0 <= k < 32 ==> bytes[k] == ByteAt(s, k)
    ensures Spells(s, bytes)
  {
    hide ByteAt, Base64, Digit;
    forall i | 0 <= i < 10
      ensures && s[4 * i] == Digit(bytes[3 * i] / 4)
              && s[4 * i + 1] == Digit(bytes[3 * i] % 4 * 16 + bytes[3 * i + 1] / 16)
              && s[4 * i + 2] == Digit(bytes[3 * i + 1] % 16 * 4 + bytes[3 * i + 2] / 64)
              && s[4 * i + 3] == Digit(bytes[3 * i + 2] % 64)
    {
      GroupSpells(s, i);
    }
    LastSpells(s);
  }

  lemma LastSpells(s: string)
    requires ValidFingerprint(s)
    ensures var x, y := ByteAt(s, 30), ByteAt(s, 31);
            && s[40] == Digit(x / 4) && s[41] == Digit(x % 4 * 16 + y / 16) && s[42] == Digit(y % 16 * 4)
  {
    hide Base64, Digit;
    OnlyDigitsDo(s[40]);
    OnlyDigitsDo(s[41]);
    OnlyDigitsDo(s[42]);
    FourDigitsSpell(Base64(s[40]), Base64(s[41]), Base64(s[42]), 0);
  }

  lemma SpelledIsValid(s: string, bytes: seq<Byte>)
    requires Spells(s, bytes)
    ensures ValidFingerprint(s)
  {
    hide Base64, Digit;
    forall j | 0 <= j < 40 ensures Base64(s[j]) >= 0 {
      var i := j / 4;
      assert j == 4 * i + j % 4;
      DigitsSpellTheirPlace(bytes[3 * i] / 4);
      DigitsSpellTheirPlace(bytes[3 * i] % 4 * 16 + bytes[3 * i + 1] / 16);
      DigitsSpellTheirPlace(bytes[3 * i + 1] % 16 * 4 + bytes[3 * i + 2] / 64);
      DigitsSpellTheirPlace(bytes[3 * i + 2] % 64);
    }
    DigitsSpellTheirPlace(bytes[30] / 4);
    DigitsSpellTheirPlace(bytes[30] % 4 * 16 + bytes[31] / 16);
    DigitsSpellTheirPlace(bytes[31] % 16 * 4);
  }
}
