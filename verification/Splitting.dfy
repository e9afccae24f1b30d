/** JavaScript's split on a one-character separator. */
module Splitting {

  /** The pieces between separators; the empty text gives one empty piece. */
  function SplitOn(sep: char, s: string): (pieces: seq<string>)
    ensures pieces != []
  {
    if s == "" then [""]
    else
      var rest := SplitOn(sep, s[1..]);
      if s[0] == sep then [""] + rest else [[s[0]] + rest[0]] + rest[1..]
  }

  lemma {:induction false} SplitPlain(sep: char, piece: string)
    requires sep !in piece
    ensures SplitOn(sep, piece) == [piece]
  {
    if piece != "" {
      SplitPlain(sep, piece[1..]);
      assert [piece[0]] + piece[1..] == piece;
    }
  }

  lemma {:induction false} SplitAfterPiece(sep: char, piece: string, rest: string)
    requires sep !in piece
    ensures SplitOn(sep, piece + [sep] + rest) == [piece] + SplitOn(sep, rest)
  {
    var whole := piece + [sep] + rest;
    if piece == "" {
      assert whole[1..] == rest;
    } else {
      assert whole[1..] == piece[1..] + [sep] + rest;
      SplitAfterPiece(sep, piece[1..], rest);
      assert SplitOn(sep, whole) == [[whole[0]] + SplitOn(sep, whole[1..])[0]] + SplitOn(sep, whole[1..])[1..];
      assert [piece[0]] + piece[1..] == piece;
      assert ([piece[1..]] + SplitOn(sep, rest))[1..] == SplitOn(sep, rest);
    }
  }
}
