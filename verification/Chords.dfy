/** Chord strings and key events, brought to one registry id. */
module Chords {
  import opened Splitting

  datatype ParsedChord = ParsedChord(key: string, mod: bool, shift: bool, alt: bool)

  /** A key event; `mod` is the platform's command key, `key` is already in lower case. */
  datatype KeyEvent = KeyEvent(key: string, mod: bool, shift: bool, alt: bool)

  /** How one part of a chord is cleaned up: white space trimmed off and letters put in lower case. */
  type Tidy = string -> string

  function KeyNamed(k: string): string
  {
    if k == "esc" then "escape"
    else if k == "return" then "enter"
    else if k == "space" || k == "spacebar" then " "
    else if k == "up" then "arrowup"
    else if k == "down" then "arrowdown"
    else if k == "left" then "arrowleft"
    else if k == "right" then "arrowright"
    else k
  }

  // ----- parsing

  predicate IsModifier(part: string)
  {
    part == "mod" || part == "shift" || IsAlt(part)
  }

  predicate IsAlt(part: string)
  {
    part == "alt" || part == "option" || part == "opt"
  }

  predicate SameModifier(a: string, b: string)
  {
    (a == b && IsModifier(a)) || (IsAlt(a) && IsAlt(b))
  }

  function Words(tidy: Tidy, parts: seq<string>): (words: seq<string>)
    ensures |words| == |parts|
  {
    seq(|parts|, i requires 0 <= i < |parts| => tidy(parts[i]))
  }

  /** The last word that is no modifier, as a key; the empty key when there is none. */
  function KeyOf(words: seq<string>): string
  {
    if words == [] then ""
    else if IsModifier(words[|words| - 1]) then KeyOf(words[..|words| - 1])
    else KeyNamed(words[|words| - 1])
  }

  function Parsed(words: seq<string>): ParsedChord
  {
    ParsedChord(KeyOf(words), "mod" in words, "shift" in words, "alt" in words || "option" in words || "opt" in words)
  }

  method ParseChord(tidy: Tidy, chord: string) returns (p: ParsedChord)
    ensures p == Parsed(Words(tidy, SplitOn('+', chord)))
  {
    hide KeyNamed, SplitOn;
    var parts := SplitOn('+', chord);
    ghost var words := Words(tidy, parts);
    var mod, shift, alt, key := false, false, false, "";
    for i := 0 to |parts|
      invariant ParsedChord(key, mod, shift, alt) == Parsed(words[..i])
    {
      var part := tidy(parts[i]);
      assert words[..i + 1] == words[..i] + [part];
      if part == "mod" {
        mod := true;
      } else if part == "shift" {
        shift := true;
      } else if part == "alt" || part == "option" || part == "opt" {
        alt := true;
      } else {
        key := KeyNamed(part);
      }
    }
    assert words[..|parts|] == words;
    p := ParsedChord(key, mod, shift, alt);
  }

  // ----- ids

  predicate IsGlyph(key: string)
  {
    |key| == 1 && !('a' <= key[0] <= 'z')
  }

  function ShiftedGlyph(key: string): (g: string)
    ensures IsGlyph(key) ==> IsGlyph(g)
  {
    if key == "/" then "?" else if key == "." then ">" else if key == "," then "<"
    else if key == "[" then "{" else if key == "]" then "}" else if key == ";" then ":"
    else if key == "'" then "\"" else if key == "-" then "_" else if key == "=" then "+"
    else if key == "1" then "!" else if key == "2" then "@" else if key == "3" then "#"
    else if key == "4" then "$" else if key == "5" then "%" else if key == "6" then "^"
    else if key == "7" then "&" else if key == "8" then "*" else if key == "9" then "("
    else if key == "0" then ")" else if key == "`" then "~" else if key == "\\" then "|"
    else key
  }

  function ChordId(p: ParsedChord): string
  {
    (if p.mod then "M" else "") + (if p.shift then "S" else "") + (if p.alt then "A" else "") + ":" + p.key
  }

  function EventChordId(e: KeyEvent): string
  {
    var key := KeyNamed(e.key);
    ChordId(ParsedChord(key, e.mod, e.shift && !IsGlyph(key), e.alt))
  }

  function Normalized(p: ParsedChord): ParsedChord
  {
    if p.shift && IsGlyph(p.key) then ParsedChord(ShiftedGlyph(p.key), p.mod, false, p.alt) else p
  }

  /** The registry id of a chord string. */
  function IdOf(tidy: Tidy, chord: string): string
  {
    ChordId(Normalized(Parsed(Words(tidy, SplitOn('+', chord)))))
  }

  method NormalizeChordString(tidy: Tidy, chord: string) returns (id: string)
    ensures id == IdOf(tidy, chord)
  {
    var p := ParseChord(tidy, chord);
    if p.shift && |p.key| == 1 {
      var isLetter := 'a' <= p.key[0] <= 'z';
      if !isLetter {
        return ChordId(ParsedChord(ShiftedGlyph(p.key), p.mod, false, p.alt));
      }
    }
    return ChordId(p);
  }

  /** The marks before the colon, read back. */
  lemma IdStart(p: ParsedChord)
    ensures var id := ChordId(p);
      && (p.mod <==> id[0] == 'M')
      && (var i := if p.mod then 1 else 0; p.shift <==> id[i] == 'S')
      && (var i := (if p.mod then 1 else 0) + if p.shift then 1 else 0; p.alt <==> id[i] == 'A')
      && (var i := (if p.mod then 1 else 0) + (if p.shift then 1 else 0) + if p.alt then 1 else 0; id[i + 1..] == p.key)
  {
  }

  /** Two combinations share an id only when they are the same combination. */
  lemma IdsDistinguish(p: ParsedChord, q: ParsedChord)
    ensures ChordId(p) == ChordId(q) <==> p == q
  {
    hide ChordId;
    IdStart(p);
    IdStart(q);
  }

  // ----- the order of the modifiers, and repeating one, make no difference

  predicate HasKey(words: seq<string>)
  {
    exists w :: w in words && !IsModifier(w)
  }

  lemma {:induction false} KeyOfAppend(a: seq<string>, b: seq<string>)
    ensures KeyOf(a + b) == if HasKey(b) then KeyOf(b) else KeyOf(a)
  {
    hide IsModifier, KeyNamed;
    if b == [] {
      assert a + b == a;
    } else {
      var n := |b| - 1;
      assert (a + b)[..|a| + n] == a + b[..n];
      KeyOfAppend(a, b[..n]);
      assert b == b[..n] + [b[n]];
    }
  }

  lemma KeyOfPair(x: string, y: string)
    requires IsModifier(x)
    ensures HasKey([x, y]) <==> !IsModifier(y)
    ensures HasKey([y, x]) <==> !IsModifier(y)
    ensures KeyOf([x, y]) == KeyOf([y, x])
  {
    hide KeyNamed;
    assert [x, y][..1] == [x] && [y, x][..1] == [y];
    if !IsModifier(y) {
      assert y in [x, y] && y in [y, x];
    }
  }

  lemma KeyOfModifier(x: string)
    requires IsModifier(x)
    ensures !HasKey([x])
  {
  }

  /** A modifier may change places with the word next to it. */
  lemma WordsCommute(a: seq<string>, x: string, y: string, b: seq<string>)
    requires IsModifier(x)
    ensures Parsed(a + [x, y] + b) == Parsed(a + [y, x] + b)
  {
    hide IsModifier, KeyNamed, KeyOf, HasKey;
    KeyOfAppend(a + [x, y], b);
    KeyOfAppend(a + [y, x], b);
    KeyOfAppend(a, [x, y]);
    KeyOfAppend(a, [y, x]);
    KeyOfPair(x, y);
    assert forall w :: w in a + [x, y] + b <==> w in a + [y, x] + b;
  }

  /** A modifier that is named elsewhere may be left out. */
  lemma WordRepeats(a: seq<string>, x: string, b: seq<string>, other: string)
    requires other in a + b && SameModifier(x, other)
    ensures Parsed(a + [x] + b) == Parsed(a + b)
  {
    hide KeyNamed, KeyOf, HasKey;
    KeyOfAppend(a + [x], b);
    KeyOfAppend(a, [x]);
    KeyOfAppend(a, b);
    KeyOfModifier(x);
    assert forall w :: w in a + [x] + b <==> w in a + b || w == x;
  }

  /** The chord string with these parts. */
  function Join(parts: seq<string>): string
  {
    if parts == [] then "" else if |parts| == 1 then parts[0] else parts[0] + "+" + Join(parts[1..])
  }

  predicate Plain(parts: seq<string>)
  {
    forall p :: p in parts ==> '+' !in p
  }

  lemma {:induction false} SplitJoin(parts: seq<string>)
    requires parts != [] && Plain(parts)
    ensures SplitOn('+', Join(parts)) == parts
  {
    assert parts[0] in parts;
    if |parts| == 1 {
      SplitPlain('+', parts[0]);
    } else {
      SplitJoin(parts[1..]);
      SplitAfterPiece('+', parts[0], Join(parts[1..]));
      assert parts == [parts[0]] + parts[1..];
    }
  }

  lemma WordsAppend(tidy: Tidy, a: seq<string>, b: seq<string>)
    ensures Words(tidy, a + b) == Words(tidy, a) + Words(tidy, b)
  {
  }

  // ----- writing a combination as a chord string and parsing it

  /** The parts of a chord string for p, the alt key under one of its names. */
  function PartsOf(p: ParsedChord, alt: string): (parts: seq<string>)
    ensures parts != [] && parts[|parts| - 1] == p.key
  {
    (if p.mod then ["mod"] else []) + (if p.shift then ["shift"] else []) + (if p.alt then [alt] else []) + [p.key]
  }

  lemma PartsParse(p: ParsedChord, alt: string)
    requires IsAlt(alt) && !IsModifier(p.key)
    ensures Parsed(PartsOf(p, alt)) == p.(key := KeyNamed(p.key))
  {
    hide KeyNamed;
    var parts := PartsOf(p, alt);
    assert forall w :: w in parts <==>
      (p.mod && w == "mod") || (p.shift && w == "shift") || (p.alt && w == alt) || w == p.key;
  }

  lemma {:induction false} PiecesArePlain(s: string)
    ensures Plain(SplitOn('+', s))
  {
    if s != "" {
      PiecesArePlain(s[1..]);
      var rest := SplitOn('+', s[1..]);
      forall p | p in SplitOn('+', s)
        ensures '+' !in p
      {
        assert p == "" || p in rest || p == [s[0]] + rest[0];
      }
    }
  }

  lemma {:induction false} KeyIsPlain(words: seq<string>)
    requires Plain(words)
    ensures '+' !in KeyOf(words)
  {
    if words != [] {
      KeyIsPlain(words[..|words| - 1]);
      assert words[|words| - 1] in words;
    }
  }

  /**
   * A combination written as a chord string is parsed back, its key under the name events carry, exactly when
   * its key is not a plus sign and holds none; such a key cannot be written.
   */
  lemma ChordRoundTripIff(tidy: Tidy, p: ParsedChord, alt: string)
    requires IsAlt(alt) && !IsModifier(p.key)
    requires forall w :: w in SplitOn('+', Join(PartsOf(p, alt))) ==> tidy(w) == w
    ensures Parsed(Words(tidy, SplitOn('+', Join(PartsOf(p, alt))))) == p.(key := KeyNamed(p.key)) <==> '+' !in p.key
  {
    hide *;
    WordsUnchanged(tidy, SplitOn('+', Join(PartsOf(p, alt))));
    if '+' in p.key {
      PlusIsLost(p, Join(PartsOf(p, alt)));
    } else {
      PlainKeyParses(p, alt);
    }
  }

  /** One that is lost: the command key with plus is read as the command key with no key. */
  lemma PlusKeyIsLost()
    ensures Join(PartsOf(ParsedChord("+", true, false, false), "alt")) == "mod++"
    ensures Parsed(SplitOn('+', "mod++")) == ParsedChord("", true, false, false)
  {
    hide SplitOn;
    assert PartsOf(ParsedChord("+", true, false, false), "alt") == ["mod", "+"];
    assert ["mod", "+"][1..] == ["+"];
    SplitAfterPiece('+', "mod", "+");
    SplitAfterPiece('+', "", "");
    SplitPlain('+', "");
    assert "mod" + ['+'] + "+" == "mod++" && "" + ['+'] + "" == "+";
    var pieces := SplitOn('+', "mod++");
    assert pieces == ["mod", "", ""] && pieces[..2] == ["mod", ""];
  }

  lemma WordsUnchanged(tidy: Tidy, parts: seq<string>)
    requires forall w :: w in parts ==> tidy(w) == w
    ensures Words(tidy, parts) == parts
  {
  }

  lemma PlusIsLost(p: ParsedChord, chord: string)
    requires '+' in p.key
    ensures Parsed(SplitOn('+', chord)) != p.(key := KeyNamed(p.key))
  {
    assert KeyNamed(p.key) == p.key;
    hide KeyNamed, KeyOf, SplitOn;
    PiecesArePlain(chord);
    KeyIsPlain(SplitOn('+', chord));
  }

  lemma PlainKeyParses(p: ParsedChord, alt: string)
    requires IsAlt(alt) && !IsModifier(p.key) && '+' !in p.key
    ensures Parsed(SplitOn('+', Join(PartsOf(p, alt)))) == p.(key := KeyNamed(p.key))
  {
    hide KeyNamed, KeyOf, SplitOn, Join, Parsed;
    SplitJoin(PartsOf(p, alt));
    PartsParse(p, alt);
  }

  /** Chord strings that differ in the place of a modifier have one id. */
  lemma OrderIsFree(tidy: Tidy, a: seq<string>, x: string, y: string, b: seq<string>)
    requires Plain(a + [x, y] + b) && IsModifier(tidy(x))
    ensures IdOf(tidy, Join(a + [x, y] + b)) == IdOf(tidy, Join(a + [y, x] + b))
  {
    hide IsModifier, Parsed, Join, ChordId;
    assert forall p :: p in a + [y, x] + b ==> p in a + [x, y] + b;
    SplitJoin(a + [x, y] + b);
    SplitJoin(a + [y, x] + b);
    WordsAppend(tidy, a + [x, y], b);
    WordsAppend(tidy, a + [y, x], b);
    WordsAppend(tidy, a, [x, y]);
    WordsAppend(tidy, a, [y, x]);
    assert Words(tidy, [x, y]) == [tidy(x), tidy(y)] && Words(tidy, [y, x]) == [tidy(y), tidy(x)];
    WordsCommute(Words(tidy, a), tidy(x), tidy(y), Words(tidy, b));
  }

  /** And so do chord strings that differ in naming a modifier once more, under whichever of its names. */
  lemma RepeatIsFree(tidy: Tidy, a: seq<string>, x: string, b: seq<string>, other: string)
    requires Plain(a + [x] + b) && other in a + b && SameModifier(tidy(x), tidy(other))
    ensures IdOf(tidy, Join(a + [x] + b)) == IdOf(tidy, Join(a + b))
  {
    hide IsModifier, SameModifier, Parsed, Join, ChordId;
    assert forall p :: p in a + b ==> p in a + [x] + b;
    SplitJoin(a + [x] + b);
    SplitJoin(a + b);
    WordsAppend(tidy, a + [x], b);
    WordsAppend(tidy, a, [x]);
    WordsAppend(tidy, a, b);
    assert Words(tidy, [x]) == [tidy(x)];
    var i :| 0 <= i < |a + b| && (a + b)[i] == other;
    assert Words(tidy, a + b)[i] == tidy(other);
    WordRepeats(Words(tidy, a), tidy(x), Words(tidy, b), tidy(other));
  }

  /** The combination a chord stands for on the keyboard: with shift, a glyph key types its shifted glyph. */
  predicate Presses(p: ParsedChord, e: KeyEvent)
  {
    var key := KeyNamed(e.key);
    && e.mod == p.mod && e.alt == p.alt
    && key == (if p.shift then ShiftedGlyph(p.key) else p.key)
    && (!IsGlyph(key) ==> e.shift == p.shift)
  }

  /** A registered chord is found for an event exactly when the event is that combination. */
  lemma RegisteredIffPressed(p: ParsedChord, e: KeyEvent)
    ensures ChordId(Normalized(p)) == EventChordId(e) <==> Presses(p, e)
  {
    hide ChordId, KeyNamed;
    var key := KeyNamed(e.key);
    IdsDistinguish(Normalized(p), ParsedChord(key, e.mod, e.shift && !IsGlyph(key), e.alt));
    GlyphsOnly(p.key);
  }

  lemma GlyphsOnly(key: string)
    ensures !IsGlyph(key) ==> ShiftedGlyph(key) == key
  {
  }
}
