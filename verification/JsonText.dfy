/**
  The inside of a JSON string literal (section 7 of RFC 8259) and its meaning
  as UTF-16 code units: joining insides without decoding them
  (internal/gateway/assemble.go), and the scan for a surrogate escape that is
  not half of a pair (internal/gateway/generation_refusal.go).
*/
module JsonText {
  import opened Common

  predicate IsHex(c: char) {
    '0' <= c <= '9' || 'a' <= c <= 'f' || 'A' <= c <= 'F'
  }

  function HexValue(c: char): (v: int)
    requires IsHex(c)
    ensures 0 <= v < 16
  {
    if c <= '9' then c as int - '0' as int
    else if c <= 'F' then c as int - 'A' as int + 10
    else c as int - 'a' as int + 10
  }

  /** A \u escape of four hexadecimal digits stands at the front of s. */
  predicate UnicodeEscape(s: string) {
    |s| >= 6 && s[0] == '\\' && s[1] == 'u' && IsHex(s[2]) && IsHex(s[3]) && IsHex(s[4]) && IsHex(s[5])
  }

  function EscapeValue(s: string): (v: int)
    requires UnicodeEscape(s)
    ensures 0 <= v < 0x10000
  {
    HexValue(s[2]) * 0x1000 + HexValue(s[3]) * 0x100 + HexValue(s[4]) * 0x10 + HexValue(s[5])
  }

  /** The code unit a two-character escape stands for, if it is one. */
  function ShortEscape(c: char): Option<int> {
    match c
    case '"' => Some(0x22)
    case '\\' => Some(0x5C)
    case '/' => Some(0x2F)
    case 'b' => Some(0x08)
    case 'f' => Some(0x0C)
    case 'n' => Some(0x0A)
    case 'r' => Some(0x0D)
    case 't' => Some(0x09)
    case _ => None
  }

  function Utf16(c: char): seq<int> {
    if c as int < 0x10000 then [c as int]
    else [0xD800 + (c as int - 0x10000) / 0x400, 0xDC00 + (c as int - 0x10000) % 0x400]
  }

  /** The code units a string literal's inside stands for, if it is one. */
  function Decode(s: string): Option<seq<int>>
    decreases |s|
  {
    if s == [] then Some([]) else
    if s[0] == '\\' then
      if UnicodeEscape(s) then Follow([EscapeValue(s)], Decode(s[6..]))
      else if |s| > 1 && ShortEscape(s[1]).Some? then Follow([ShortEscape(s[1]).value], Decode(s[2..]))
      else None
    else if s[0] == '"' || s[0] < ' ' then None
    else Follow(Utf16(s[0]), Decode(s[1..]))
  }

  function Follow(units: seq<int>, rest: Option<seq<int>>): Option<seq<int>> {
    if rest.None? then None else Some(units + rest.value)
  }

  /** How much of a literal's inside its first unit or escape takes, and what that stands for. */
  function Width(s: string): nat
    requires s != ""
  {
    if s[0] != '\\' then 1 else if UnicodeEscape(s) then 6 else 2
  }

  function Head(s: string): seq<int>
    requires s != "" && Decode(s).Some?
  {
    if s[0] != '\\' then Utf16(s[0]) else if UnicodeEscape(s) then [EscapeValue(s)] else [ShortEscape(s[1]).value]
  }

  lemma DecodeStep(a: string, b: string)
    requires a != "" && Decode(a).Some?
    ensures 0 < Width(a) <= |a| && Decode(a) == Follow(Head(a), Decode(a[Width(a)..])) && Decode(a[Width(a)..]).Some?
    ensures Decode(a + b) == Follow(Head(a), Decode(a[Width(a)..] + b))
  {
    hide Utf16;
    assert (a + b)[Width(a)..] == a[Width(a)..] + b;
    assert UnicodeEscape(a + b) == UnicodeEscape(a);
    assert UnicodeEscape(a) ==> EscapeValue(a + b) == EscapeValue(a);
  }

  /**
    Joining the insides of two literals is the inside of the literal for the
    joined strings: every escape is complete within the literal it came from.
  */
  lemma {:induction false} JoinedInsidesDecode(a: string, b: string)
    requires Decode(a).Some?
    ensures Decode(a + b) == Follow(Decode(a).value, Decode(b))
    decreases |a|
  {
    hide Decode, Head, Width;
    if a == [] {
      assert a + b == b;
      DecodeNothing(a);
      assert Decode(b).Some? ==> [] + Decode(b).value == Decode(b).value;
    } else {
      DecodeStep(a, b);
      var head, rest := Head(a), a[Width(a)..];
      JoinedInsidesDecode(rest, b);
      if Decode(b).Some? {
        assert head + (Decode(rest).value + Decode(b).value) == (head + Decode(rest).value) + Decode(b).value;
      }
    }
  }

  lemma DecodeNothing(s: string)
    requires s == []
    ensures Decode(s) == Some([])
  {
  }

  // -------------------------------------------------- what the units are

  const SmallHex := "0123456789abcdef"
  const CapitalHex := "0123456789ABCDEF"

  /** A hexadecimal digit is worth its place among them, in either case. */
  lemma DigitsAreWorthTheirPlace(v: nat)
    requires v < 16
    ensures IsHex(SmallHex[v]) && HexValue(SmallHex[v]) == v
    ensures IsHex(CapitalHex[v]) && HexValue(CapitalHex[v]) == v
  {
  }

  predicate IsUnit(u: int) {
    0 <= u < 0x10000
  }

  /** A unit written as an escape of four digits. */
  function Escaped(u: int): string
    requires IsUnit(u)
  {
    ['\\', 'u', SmallHex[u / 0x1000], SmallHex[u / 0x100 % 0x10], SmallHex[u / 0x10 % 0x10], SmallHex[u % 0x10]]
  }

  function AllEscaped(us: seq<int>): string
    requires forall u :: u in us ==> IsUnit(u)
  {
    if us == [] then "" else Escaped(us[0]) + AllEscaped(us[1..])
  }

  lemma FourDigits(u: int)
    requires IsUnit(u)
    ensures u == u / 0x1000 * 0x1000 + u / 0x100 % 0x10 * 0x100 + u / 0x10 % 0x10 * 0x10 + u % 0x10
    ensures 0 <= u / 0x1000 < 0x10
  {
    var a := u / 0x10;
    var b := a / 0x10;
    assert u == a * 0x10 + u % 0x10 && a == b * 0x10 + a % 0x10 && b == b / 0x10 * 0x10 + b % 0x10;
    assert u / 0x100 == b && u / 0x1000 == b / 0x10;
  }

  lemma EscapedMeansItsUnit(u: int)
    requires IsUnit(u)
    ensures UnicodeEscape(Escaped(u)) && EscapeValue(Escaped(u)) == u
  {
    hide HexValue, IsHex;
    FourDigits(u);
    DigitsAreWorthTheirPlace(u / 0x1000);
    DigitsAreWorthTheirPlace(u / 0x100 % 0x10);
    DigitsAreWorthTheirPlace(u / 0x10 % 0x10);
    DigitsAreWorthTheirPlace(u % 0x10);
  }

  lemma EscapeComesFirst(u: int, rest: string)
    requires IsUnit(u)
    ensures var s := Escaped(u) + rest;
            && Decode(s) == Follow([u], Decode(rest)) && Escapes(s) == [u] + Escapes(rest)
  {
    EscapedMeansItsUnit(u);
    var first, s := Escaped(u), Escaped(u) + rest;
    hide EscapeValue, IsHex, Utf16, Escaped;
    EscapedIsSix(u);
    assert s[..6] == first && s[6..] == rest;
    assert forall i :: 0 <= i < 6 ==> s[i] == first[i];
    assert UnicodeEscape(s);
    SameEscape(first, s);
  }

  lemma EscapedIsSix(u: int)
    requires IsUnit(u)
    ensures |Escaped(u)| == 6
  {
  }

  lemma SameEscape(a: string, b: string)
    requires UnicodeEscape(a) && UnicodeEscape(b) && a[..6] == b[..6]
    ensures EscapeValue(a) == EscapeValue(b)
  {
    assert forall i :: 0 <= i < 6 ==> a[i] == a[..6][i] && b[i] == b[..6][i];
  }

  /** Any units at all, written as escapes, are decoded again, and the scan reads the same of them. */
  lemma {:induction false} EscapingIsUndone(us: seq<int>)
    requires forall u :: u in us ==> IsUnit(u)
    ensures Decode(AllEscaped(us)) == Some(us) && Escapes(AllEscaped(us)) == us
  {
    if us != [] {
      hide Decode, Escapes, Escaped;
      assert us[0] in us;
      EscapingIsUndone(us[1..]);
      EscapeComesFirst(us[0], AllEscaped(us[1..]));
      assert [us[0]] + us[1..] == us;
    }
  }

  /** A character outside the basic plane is a pair that gives it back, and any other is its own unit. */
  lemma UnitsGiveTheCharacterBack(c: char)
    ensures var us := Utf16(c);
            if c as int < 0x10000 then us == [c as int]
            else |us| == 2 && High(us[0]) && Low(us[1])
                 && 0x10000 + (us[0] - 0xD800) * 0x400 + (us[1] - 0xDC00) == c as int
  {
  }

  /** Any character but a control, a quote and a backslash stands for itself, and those for nothing. */
  lemma ACharacterStandsForItself(c: char)
    ensures Decode([c]) ==
            if c < ' ' || c == '"' || c == '\\' then None else Some(Utf16(c))
  {
    assert [c][1..] == [] && Decode([]) == Some([]);
    assert Utf16(c) + [] == Utf16(c);
  }

  /** The eight short escapes of section 7 of RFC 8259. */
  lemma ShortEscapesAre()
    ensures Decode("\\\"") == Some(['"' as int]) && Decode("\\\\") == Some(['\\' as int])
    ensures Decode("\\/") == Some(['/' as int]) && Decode("\\n") == Some(['\n' as int])
    ensures Decode("\\r") == Some(['\r' as int]) && Decode("\\t") == Some(['\t' as int])
    ensures Decode("\\b") == Some([8]) && Decode("\\f") == Some([12])
  {
    ShortEscapeAlone('"');
    ShortEscapeAlone('\\');
    ShortEscapeAlone('/');
    ShortEscapeAlone('n');
    ShortEscapeAlone('r');
    ShortEscapeAlone('t');
    ShortEscapeAlone('b');
    ShortEscapeAlone('f');
  }

  lemma ShortEscapeAlone(c: char)
    requires ShortEscape(c).Some?
    ensures Decode(['\\', c]) == Some([ShortEscape(c).value])
  {
    assert ['\\', c][2..] == [] && Decode([]) == Some([]);
    var u := ShortEscape(c).value;
    assert [u] + [] == [u];
  }

  function Concat(parts: seq<string>): string {
    if parts == [] then [] else parts[0] + Concat(parts[1..])
  }

  function DecodeAll(parts: seq<string>): Option<seq<int>> {
    if parts == [] then Some([]) else
    if Decode(parts[0]).None? then None else
    Follow(Decode(parts[0]).value, DecodeAll(parts[1..]))
  }

  /** Any number of chunks of a string, joined undecoded, mean what they mean joined decoded. */
  lemma {:induction false} ConcatDecodes(parts: seq<string>)
    requires DecodeAll(parts).Some?
    ensures Decode(Concat(parts)) == DecodeAll(parts)
  {
    if parts != [] {
      ConcatDecodes(parts[1..]);
      JoinedInsidesDecode(parts[0], Concat(parts[1..]));
    }
  }

  // ------------------------------------------------------ lone surrogates

  predicate High(u: int) {
    0xD800 <= u <= 0xDBFF
  }

  predicate Low(u: int) {
    0xDC00 <= u <= 0xDFFF
  }

  /** Every surrogate is half of an adjacent high-then-low pair. */
  ghost predicate WellFormed(us: seq<int>) {
    && (forall i :: 0 <= i < |us| && High(us[i]) ==> i + 1 < |us| && Low(us[i + 1]))
    && (forall i :: 0 <= i < |us| && Low(us[i]) ==> i > 0 && High(us[i - 1]))
  }

  /** The same, read from the front. */
  predicate PairsUp(us: seq<int>)
    decreases |us|
  {
    us == [] ||
    if High(us[0]) then |us| > 1 && Low(us[1]) && PairsUp(us[2..])
    else !Low(us[0]) && PairsUp(us[1..])
  }

  lemma {:induction false} PairsUpIsWellFormed(us: seq<int>)
    ensures PairsUp(us) <==> WellFormed(us)
    decreases |us|
  {
    if us != [] && !Low(us[0]) && (High(us[0]) ==> |us| > 1 && Low(us[1])) {
      var n := if High(us[0]) then 2 else 1;
      var rest := us[n..];
      PairsUpIsWellFormed(rest);
      assert forall i :: 0 <= i < |rest| ==> rest[i] == us[n + i];
      assert forall i :: n <= i < |us| ==> us[i] == rest[i - n];
    }
  }

  /**
    Raw JSON character by character: the value of each \u escape, 0 for any
    other character or escape. A backslash escaped by another starts none.
  */
  function Escapes(s: string): seq<int>
    decreases |s|
  {
    if s == [] then []
    else if s[0] != '\\' then [0] + Escapes(s[1..])
    else if |s| > 1 && s[1] != 'u' then [0] + Escapes(s[2..])
    else if UnicodeEscape(s) then [EscapeValue(s)] + Escapes(s[6..])
    else [0] + Escapes(s[1..])
  }

  lemma SkipOne(u: int, rest: seq<int>)
    requires !High(u)
    ensures PairsUp([u] + rest) <==> !Low(u) && PairsUp(rest)
  {
    assert ([u] + rest)[1..] == rest;
  }

  lemma SkipHigh(u: int, rest: seq<int>)
    requires High(u)
    ensures PairsUp([u] + rest) <==> rest != [] && Low(rest[0]) && PairsUp(rest[1..])
  {
    if rest != [] {
      assert ([u] + rest)[2..] == rest[1..];
    }
  }

  /** loneSurrogateEscape, index by index. */
  method LoneSurrogateEscape(raw: string) returns (lone: bool)
    ensures lone <==> !WellFormed(Escapes(raw))
  {
    PairsUpIsWellFormed(Escapes(raw));
    var i := 0;
    assert raw[0..] == raw;
    while i < |raw|
      invariant 0 <= i <= |raw|
      invariant PairsUp(Escapes(raw)) <==> PairsUp(Escapes(raw[i..]))
    {
      var rest := raw[i..];
      if raw[i] != '\\' {
        assert raw[i + 1..] == rest[1..];
        SkipOne(0, Escapes(rest[1..]));
        i := i + 1;
        continue;
      }
      if i + 1 < |raw| && raw[i + 1] != 'u' {
        assert raw[i + 2..] == rest[2..];
        SkipOne(0, Escapes(rest[2..]));
        i := i + 2;
        continue;
      }
      if !UnicodeEscape(rest) {
        assert raw[i + 1..] == rest[1..];
        SkipOne(0, Escapes(rest[1..]));
        i := i + 1;
        continue;
      }
      var v, next := EscapeValue(rest), rest[6..];
      assert raw[i + 6..] == next;
      if High(v) {
        SkipHigh(v, Escapes(next));
        if UnicodeEscape(next) && Low(EscapeValue(next)) {
          assert raw[i + 12..] == next[6..];
          i := i + 12;
          continue;
        }
        return true;
      }
      SkipOne(v, Escapes(next));
      if Low(v) {
        return true;
      }
      i := i + 6;
    }
    lone := false;
  }

  /** The text a literal stands for begins with a low surrogate only by an escape. */
  lemma FirstUnit(s: string)
    requires Decode(s).Some? && Decode(s).value != []
    ensures s != [] && Escapes(s) != []
    ensures Low(Decode(s).value[0]) <==> Low(Escapes(s)[0])
  {
  }

  lemma {:induction false} EscapesPairLikeUnits(s: string)
    requires Decode(s).Some?
    ensures PairsUp(Escapes(s)) <==> PairsUp(Decode(s).value)
    decreases |s|
  {
    if s != [] {
      if UnicodeEscape(s) {
        var v, next := EscapeValue(s), s[6..];
        var units := Decode(next).value;
        if High(v) {
          SkipHigh(v, Escapes(next));
          SkipHigh(v, units);
          if units != [] {
            FirstUnit(next);
          }
          if UnicodeEscape(next) && Low(EscapeValue(next)) {
            EscapesPairLikeUnits(next[6..]);
            assert Escapes(next)[1..] == Escapes(next[6..]);
            assert units[1..] == Decode(next[6..]).value;
          } else {
            LowOnlyByEscape(next);
          }
        } else {
          EscapesPairLikeUnits(next);
          SkipOne(v, Escapes(next));
          SkipOne(v, units);
        }
      } else {
        PlainPairs(s);
        EscapesPairLikeUnits(s[if s[0] == '\\' then 2 else 1..]);
      }
    }
  }

  lemma LowOnlyByEscape(s: string)
    ensures Escapes(s) != [] && Low(Escapes(s)[0]) ==> UnicodeEscape(s) && Low(EscapeValue(s))
  {
  }

  /** A character, or an escape of two, changes nothing about pairing. */
  lemma PlainPairs(s: string)
    requires Decode(s).Some? && s != [] && !UnicodeEscape(s)
    ensures var rest := s[if s[0] == '\\' then 2 else 1..];
            && Decode(rest).Some?
            && (PairsUp(Escapes(s)) <==> PairsUp(Escapes(rest)))
            && (PairsUp(Decode(s).value) <==> PairsUp(Decode(rest).value))
  {
    var n := if s[0] == '\\' then 2 else 1;
    var rest := s[n..];
    SkipOne(0, Escapes(rest));
    var units := Decode(rest).value;
    if n == 2 {
      SkipOne(ShortEscape(s[1]).value, units);
    } else if s[0] as int < 0x10000 {
      SkipOne(s[0] as int, units);
    } else {
      var u := Utf16(s[0]);
      assert u + units == [u[0]] + ([u[1]] + units);
      SkipHigh(u[0], [u[1]] + units);
      assert ([u[1]] + units)[1..] == units;
    }
  }

  lemma EscapesStep(a: string, b: string)
    requires a != "" && Decode(a).Some? && 0 < Width(a) <= |a|
    ensures var rest := a[Width(a)..];
            exists u :: Escapes(a) == [u] + Escapes(rest) && Escapes(a + b) == [u] + Escapes(rest + b)
  {
    hide Utf16;
    var n := Width(a);
    assert (a + b)[n..] == a[n..] + b;
    assert UnicodeEscape(a + b) == UnicodeEscape(a);
    assert UnicodeEscape(a) ==> EscapeValue(a + b) == EscapeValue(a);
    var u := Escapes(a)[0];
    assert Escapes(a) == [u] + Escapes(a[n..]);
    assert Escapes(a + b) == [u] + Escapes(a[n..] + b);
  }

  lemma {:induction false} EscapesJoin(a: string, b: string)
    requires Decode(a).Some?
    ensures Escapes(a + b) == Escapes(a) + Escapes(b)
    decreases |a|
  {
    if a == [] {
      assert a + b == b;
    } else {
      DecodeStep(a, b);
      EscapesStep(a, b);
      hide Decode, Escapes, Width;
      EscapesJoin(a[Width(a)..], b);
    }
  }

  /**
    Of a string literal, the scan is true exactly when the text it stands for
    is not well-formed UTF-16, so that no encoder accepts it.
  */
  lemma LoneMeansIllFormed(body: string)
    requires Decode(body).Some?
    ensures WellFormed(Escapes("\"" + body + "\"")) <==> WellFormed(Decode(body).value)
  {
    var es := Escapes(body);
    assert ("\"" + body + "\"")[1..] == body + "\"";
    EscapesJoin(body, "\"");
    assert Escapes("\"" + body + "\"") == [0] + (es + [0]);
    EscapesPairLikeUnits(body);
    PairsUpIsWellFormed(Decode(body).value);
    PairsUpIsWellFormed([0] + (es + [0]));
    SkipOne(0, es + [0]);
    PairsBeforeQuote(es);
  }

  lemma {:induction false} PairsBeforeQuote(us: seq<int>)
    ensures PairsUp(us + [0]) <==> PairsUp(us)
    decreases |us|
  {
    if us != [] {
      assert (us + [0])[1..] == us[1..] + [0];
      PairsBeforeQuote(us[1..]);
      if |us| > 1 {
        assert (us + [0])[2..] == us[2..] + [0];
        PairsBeforeQuote(us[2..]);
      }
    }
  }
}
