/**
 * Percent-encoding of URI components: UTF-8 bytes (section 3 of RFC 3629) written as escapes (section 2.1 of
 * RFC 3986), and decoding that refuses any byte sequence UTF-8 does not allow.
 */
module Percent {
  import opened Sequences

  /** Letters, digits and - _ . ! ~ * ' ( ) stand for themselves. */
  predicate Unreserved(c: char)
  {
    'A' <= c <= 'Z' || 'a' <= c <= 'z' || '0' <= c <= '9' || c in {'-', '_', '.', '!', '~', '*', '\'', '(', ')'}
  }

  function HexDigit(d: int): char
    requires 0 <= d < 16
  {
    if d < 10 then ('0' as int + d) as char else ('A' as int + d - 10) as char
  }

  function HexValue(c: char): Option<int>
  {
    if '0' <= c <= '9' then Some(c as int - '0' as int)
    else if 'A' <= c <= 'F' then Some(c as int - 'A' as int + 10)
    else if 'a' <= c <= 'f' then Some(c as int - 'a' as int + 10)
    else None
  }

  function Escape(b: int): string
    requires 0 <= b < 256
  {
    ['%', HexDigit(b / 16), HexDigit(b % 16)]
  }

  /** The escapes of the last k bytes of a character's UTF-8 form, six bits each. */
  function Tail(v: nat, k: nat): string
  {
    if k == 0 then "" else Tail(v / 64, k - 1) + Escape(0x80 + v % 64)
  }

  /** How many bytes a character takes. */
  function Length(v: nat): nat
  {
    if v < 0x80 then 1 else if v < 0x800 then 2 else if v < 0x10000 then 3 else 4
  }

  /** The escapes of a character's UTF-8 bytes. */
  function Escaped(v: nat): string
    requires v < 0x110000
  {
    match Length(v)
    case 1 => Escape(v)
    case 2 => Escape(0xC0 + v / 64) + Tail(v, 1)
    case 3 => Escape(0xE0 + v / 64 / 64) + Tail(v, 2)
    case _ => Escape(0xF0 + v / 64 / 64 / 64) + Tail(v, 3)
  }

  function EncodeChar(c: char): string
  {
    if Unreserved(c) then [c] else Escaped(c as int)
  }

  function Encode(text: string): string
  {
    if text == "" then "" else EncodeChar(text[0]) + Encode(text[1..])
  }

  // ----- decoding

  function ReadByte(s: string): (b: Option<int>)
    ensures b.Some? ==> |s| >= 3 && 0 <= b.value < 256
  {
    if |s| < 3 || s[0] != '%' || HexValue(s[1]).None? || HexValue(s[2]).None? then None
    else Some(16 * HexValue(s[1]).value + HexValue(s[2]).value)
  }

  /** The value of a lead byte followed by k continuation bytes. */
  function Continue(acc: nat, s: string, k: nat): (v: Option<nat>)
    ensures v.Some? ==> |s| >= 3 * k
    decreases k
  {
    if k == 0 then Some(acc) else
      var b := ReadByte(s);
      if b.None? || !(0x80 <= b.value < 0xC0) then None else Continue(64 * acc + b.value - 0x80, s[3..], k - 1)
  }

  /** How many bytes a lead byte announces, itself included; 0 for a byte that cannot lead. */
  function Announced(b: int): nat
  {
    if 0 <= b < 0x80 then 1 else if 0xC0 <= b < 0xE0 then 2 else if 0xE0 <= b < 0xF0 then 3
    else if 0xF0 <= b < 0xF8 then 4 else 0
  }

  function LeadValue(b: int): nat
    requires Announced(b) > 0
  {
    match Announced(b) case 1 => b case 2 => b - 0xC0 case 3 => b - 0xE0 case _ => b - 0xF0
  }

  /** A character that takes exactly n bytes: no overlong form, no surrogate, nothing past the last one. */
  predicate Proper(v: nat, n: nat)
  {
    v < 0x110000 && !(0xD800 <= v < 0xE000) && Length(v) == n
  }

  /** None when an escape or the UTF-8 it spells is malformed; other characters stand for themselves. */
  function Decode(s: string): Option<string>
  {
    if s == "" then Some("")
    else if s[0] != '%' then
      var rest := Decode(s[1..]);
      if rest.None? then None else Some([s[0]] + rest.value)
    else
      var b := ReadByte(s);
      if b.None? || Announced(b.value) == 0 then None else
        var n := Announced(b.value);
        var v := Continue(LeadValue(b.value), s[3..], n - 1);
        if v.None? || !Proper(v.value, n) then None else
          var rest := Decode(s[3 * n..]);
          if rest.None? then None else Some([v.value as char] + rest.value)
  }

  // ----- round trip

  lemma EscapeReads(b: int, rest: string)
    requires 0 <= b < 256
    ensures ReadByte(Escape(b) + rest) == Some(b) && (Escape(b) + rest)[3..] == rest
    ensures '/' !in Escape(b) && |Escape(b)| == 3
  {
    HexRoundTrip(b / 16);
    HexRoundTrip(b % 16);
  }

  lemma HexRoundTrip(d: int)
    requires 0 <= d < 16
    ensures HexValue(HexDigit(d)) == Some(d) && HexDigit(d) != '/' && HexDigit(d) != '%'
  {
  }

  function Shifted(v: nat, k: nat): nat
  {
    if k == 0 then v else Shifted(v / 64, k - 1)
  }

  lemma ShiftedValues(v: nat)
    ensures Shifted(v, 1) == v / 64 && Shifted(v, 2) == v / 64 / 64 && Shifted(v, 3) == v / 64 / 64 / 64
  {
    assert Shifted(v / 64, 1) == v / 64 / 64 && Shifted(v / 64 / 64, 1) == v / 64 / 64 / 64;
  }

  lemma {:induction false} TailReads(v: nat, k: nat, rest: string, j: nat)
    ensures Continue(Shifted(v, k), Tail(v, k) + rest, k + j) == Continue(v, rest, j)
    ensures |Tail(v, k)| == 3 * k && '/' !in Tail(v, k)
    decreases k
  {
    hide ReadByte, Escape;
    if k == 0 {
      assert Tail(v, 0) + rest == rest;
    } else {
      var last := Escape(0x80 + v % 64);
      EscapeReads(0x80 + v % 64, rest);
      TailReads(v / 64, k - 1, last + rest, j + 1);
      assert Tail(v, k) + rest == Tail(v / 64, k - 1) + (last + rest);
      assert Continue(v / 64, last + rest, j + 1) == Continue(64 * (v / 64) + v % 64, rest, j);
    }
  }

  lemma EscapedReads(lead: int, v: nat, n: nat, rest: string)
    requires 0 <= lead < 256 && 2 <= n <= 4 && Announced(lead) == n && LeadValue(lead) == Shifted(v, n - 1)
    requires Proper(v, n)
    ensures Decode(Escape(lead) + Tail(v, n - 1) + rest)
         == if Decode(rest).None? then None else Some([v as char] + Decode(rest).value)
    ensures '/' !in Escape(lead) + Tail(v, n - 1)
  {
    hide ReadByte, Tail, Proper, Announced, LeadValue;
    var s := Escape(lead) + Tail(v, n - 1) + rest;
    assert s == Escape(lead) + (Tail(v, n - 1) + rest);
    EscapeReads(lead, Tail(v, n - 1) + rest);
    TailReads(v, n - 1, rest, 0);
    assert s[3 * n..] == rest;
    assert s[0] == '%';
  }

  lemma EncodedChar(c: char, rest: string)
    requires Decode(rest).Some?
    ensures Decode(EncodeChar(c) + rest) == Some([c] + Decode(rest).value)
    ensures '/' !in EncodeChar(c) && EncodeChar(c) != ""
  {
    hide Decode, Tail, ReadByte, Shifted;
    var v := c as int;
    ShiftedValues(v);
    if Unreserved(c) {
      PlainCharReads(c, rest);
    } else if v < 0x80 {
      AsciiEscapeReads(v, rest);
    } else if v < 0x800 {
      EscapedReads(0xC0 + v / 64, v, 2, rest);
    } else if v < 0x10000 {
      EscapedReads(0xE0 + v / 64 / 64, v, 3, rest);
    } else {
      EscapedReads(0xF0 + v / 64 / 64 / 64, v, 4, rest);
    }
  }

  lemma PlainCharReads(c: char, rest: string)
    requires Unreserved(c)
    ensures Decode([c] + rest) == if Decode(rest).None? then None else Some([c] + Decode(rest).value)
  {
    assert ([c] + rest)[1..] == rest;
  }

  lemma AsciiEscapeReads(v: nat, rest: string)
    requires v < 0x80
    ensures Decode(Escape(v) + rest) == if Decode(rest).None? then None else Some([v as char] + Decode(rest).value)
    ensures '/' !in Escape(v)
  {
    hide ReadByte;
    EscapeReads(v, rest);
    assert (Escape(v) + rest)[0] == '%';
  }

  /** Decoding undoes encoding, for every text. */
  lemma {:induction false} RoundTrip(text: string)
    ensures Decode(Encode(text)) == Some(text)
    ensures '/' !in Encode(text) && (text != "" ==> Encode(text) != "")
  {
    hide EncodeChar;
    if text != "" {
      RoundTrip(text[1..]);
      EncodedChar(text[0], Encode(text[1..]));
      assert [text[0]] + text[1..] == text;
    }
  }
}
