/** What writing a Go string as JSON and reading it back makes of its bytes. A character here stands
    for one byte; bytes that are not valid UTF-8 come back as U+FFFD. */
module Utf8 {

  /** U+FFFD in UTF-8. */
  const REPLACEMENT: string := [0xEF as char, 0xBF as char, 0xBD as char]

  function ByteAt(s: string, i: nat): int { if i < |s| then s[i] as int else -1 }

  predicate Continues(s: string, i: nat) { 0x80 <= ByteAt(s, i) <= 0xBF }

  /** The length of the valid encoding at the start, or zero (section 3 of RFC 3629). */
  function Width(s: string): (w: nat)
    ensures w <= |s|
  {
    var b := ByteAt(s, 0);
    if 0 <= b < 0x80 then 1
    else if 0xC2 <= b <= 0xDF && Continues(s, 1) then 2
    else if 0xE0 <= b <= 0xEF && Continues(s, 1) && Continues(s, 2)
      && (b == 0xE0 ==> ByteAt(s, 1) >= 0xA0) && (b == 0xED ==> ByteAt(s, 1) <= 0x9F) then 3
    else if 0xF0 <= b <= 0xF4 && Continues(s, 1) && Continues(s, 2) && Continues(s, 3)
      && (b == 0xF0 ==> ByteAt(s, 1) >= 0x90) && (b == 0xF4 ==> ByteAt(s, 1) <= 0x8F) then 4
    else 0
  }

  predicate Valid(s: string)
    decreases |s|
  {
    s == "" || (Width(s) > 0 && Valid(s[Width(s)..]))
  }

  /** The string that comes back: each byte that starts no valid encoding is replaced. */
  function Recoded(s: string): string
    decreases |s|
  {
    if s == "" then ""
    else if Width(s) == 0 then REPLACEMENT + Recoded(s[1..])
    else s[..Width(s)] + Recoded(s[Width(s)..])
  }

  /** Only the first `Width` bytes decide the width. */
  lemma WidthLocal(s: string, t: string)
    requires Width(s) > 0 && |t| >= Width(s) && t[..Width(s)] == s[..Width(s)]
    ensures Width(t) == Width(s)
  {
    forall i | 0 <= i < Width(s)
      ensures t[i] == s[i]
    {
      assert t[i] == t[..Width(s)][i];
      assert s[i] == s[..Width(s)][i];
    }
  }

  /** A string survives exactly if it is valid UTF-8. */
  lemma {:induction false} RecodedIff(s: string)
    ensures Recoded(s) == s <==> Valid(s)
    decreases |s|
  {
    if s != "" {
      var w := Width(s);
      if w > 0 {
        RecodedIff(s[w..]);
        assert s == s[..w] + s[w..];
        assert Recoded(s) == s ==> Recoded(s)[w..] == s[w..];
      } else {
        assert Recoded(s)[..3] == REPLACEMENT;
        assert |s| >= 3 && s[..3] == REPLACEMENT ==> s[0] == REPLACEMENT[0] && s[1] == REPLACEMENT[1] && s[2] == REPLACEMENT[2];
      }
    }
  }

  lemma ValidPrepend(head: string, tail: string)
    requires Width(head) == |head| > 0 && Valid(tail)
    ensures Valid(head + tail)
  {
    WidthLocal(head, head + tail);
    assert (head + tail)[|head|..] == tail;
  }

  /** What comes back is valid, so it survives from then on. */
  lemma {:induction false} RecodedTwice(s: string)
    ensures Valid(Recoded(s)) && Recoded(Recoded(s)) == Recoded(s)
    decreases |s|
  {
    if s != "" {
      var w := Width(s);
      if w == 0 {
        RecodedTwice(s[1..]);
        ValidPrepend(REPLACEMENT, Recoded(s[1..]));
      } else {
        RecodedTwice(s[w..]);
        WidthLocal(s, s[..w]);
        ValidPrepend(s[..w], Recoded(s[w..]));
      }
    }
    RecodedIff(Recoded(s));
  }

  lemma {:induction false} AsciiSurvives(s: string)
    requires forall c :: c in s ==> c as int < 0x80
    ensures Recoded(s) == s
    decreases |s|
  {
    if s != "" {
      assert s[0] in s;
      assert s == s[..1] + s[1..];
      assert forall c :: c in s[1..] ==> c in s;
      AsciiSurvives(s[1..]);
    }
  }

  // ---- the encoding, from the code points ---------------------------------------

  predicate IsScalar(c: int) { 0 <= c <= 0xD7FF || 0xE000 <= c <= 0x10FFFF }

  function Byte(b: int): char
    requires 0 <= b <= 0xFF
  {
    b as char
  }

  /** The low six bits, in a continuation byte. */
  function Tail(c: int): char { Byte(0x80 + c % 0x40) }

  /** The encoding of one code point (section 3 of RFC 3629). */
  function Encode(c: int): (s: string)
    requires IsScalar(c)
    ensures s != ""
  {
    if c < 0x80 then [Byte(c)]
    else if c < 0x800 then [Byte(0xC0 + c / 0x40), Tail(c)]
    else if c < 0x1_0000 then [Byte(0xE0 + c / 0x1000), Tail(c / 0x40), Tail(c)]
    else [Byte(0xF0 + c / 0x4_0000), Tail(c / 0x1000), Tail(c / 0x40), Tail(c)]
  }

  predicate IsText(text: seq<int>) { forall i :: 0 <= i < |text| ==> IsScalar(text[i]) }

  function EncodeAll(text: seq<int>): string
    requires IsText(text)
  {
    if text == [] then "" else Encode(text[0]) + EncodeAll(text[1..])
  }

  lemma EncodeWidth(c: int)
    requires IsScalar(c)
    ensures Width(Encode(c)) == |Encode(c)|
  {
  }

  lemma Six(high: int, low: int)
    requires 0 <= low < 0x40
    ensures (high * 0x40 + low) / 0x40 == high && (high * 0x40 + low) % 0x40 == low
  {
  }

  function Low(s: string, i: nat): int { ByteAt(s, i) - 0x80 }

  /** The code point a valid encoding at the start stands for. */
  lemma Decode(s: string) returns (c: int)
    requires Width(s) > 0
    ensures IsScalar(c) && Encode(c) == s[..Width(s)]
  {
    var b := ByteAt(s, 0);
    match Width(s) {
      case 1 => c := b;
      case 2 =>
        Six(b - 0xC0, Low(s, 1));
        c := (b - 0xC0) * 0x40 + Low(s, 1);
      case 3 =>
        var high := (b - 0xE0) * 0x40 + Low(s, 1);
        Six(b - 0xE0, Low(s, 1));
        Six(high, Low(s, 2));
        c := high * 0x40 + Low(s, 2);
      case _ => c := DecodeFour(s);
    }
  }

  lemma DecodeFour(s: string) returns (c: int)
    requires Width(s) == 4
    ensures IsScalar(c) && Encode(c) == s[..4]
  {
    var lead := ByteAt(s, 0) - 0xF0;
    var first := lead * 0x40 + Low(s, 1);
    var high := first * 0x40 + Low(s, 2);
    Six(lead, Low(s, 1));
    Six(first, Low(s, 2));
    Six(high, Low(s, 3));
    c := high * 0x40 + Low(s, 3);
  }

  lemma {:induction false} EncodedIsValid(text: seq<int>)
    requires IsText(text)
    ensures Valid(EncodeAll(text))
  {
    if text != [] {
      EncodedIsValid(text[1..]);
      EncodeWidth(text[0]);
      ValidPrepend(Encode(text[0]), EncodeAll(text[1..]));
    }
  }

  lemma {:induction false} DecodeAll(s: string) returns (text: seq<int>)
    requires Valid(s)
    ensures IsText(text) && EncodeAll(text) == s
    decreases |s|
  {
    text := [];
    if s != "" {
      var c := Decode(s);
      var rest := DecodeAll(s[Width(s)..]);
      text := [c] + rest;
      assert text[1..] == rest;
      assert s == s[..Width(s)] + s[Width(s)..];
    }
  }

  /** An id comes back from its file exactly if it is the encoding of some code points. */
  lemma SurvivesIff(s: string)
    ensures Recoded(s) == s <==> exists text :: IsText(text) && EncodeAll(text) == s
  {
    RecodedIff(s);
    if Valid(s) {
      var text := DecodeAll(s);
    }
    if text :| IsText(text) && EncodeAll(text) == s {
      EncodedIsValid(text);
    }
  }
}
