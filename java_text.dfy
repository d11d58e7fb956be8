/**
  The parts of `java.lang.String` the level loader relies on: `startsWith`,
  `substring` and `split` with a one-character, non-regex-special delimiter
  (";", "," and " " in the loader).
*/
module JavaText {

  predicate StartsWith(s: string, prefix: string) {
    |prefix| <= |s| && s[..|prefix|] == prefix
  }

  /** The pieces between the delimiters, empty pieces included: one more piece than delimiters. */
  function Pieces(s: string, d: char): (r: seq<string>)
    ensures |r| >= 1
    decreases |s|
  {
    if |s| == 0 then [""]
    else
      var rest := Pieces(s[1..], d);
      if s[0] == d then [""] + rest else [[s[0]] + rest[0]] + rest[1..]
  }

  /** Glues pieces back together with the delimiter between consecutive pieces. */
  function Join(pieces: seq<string>, d: char): string
    requires |pieces| >= 1
  {
    if |pieces| == 1 then pieces[0] else pieces[0] + [d] + Join(pieces[1..], d)
  }

  /** Splitting and joining again gives back the original text, and no piece holds the delimiter. */
  lemma {:induction false} PiecesJoin(s: string, d: char)
    ensures Join(Pieces(s, d), d) == s
    ensures forall i :: 0 <= i < |Pieces(s, d)| ==> d !in Pieces(s, d)[i]
    decreases |s|
  {
    if |s| > 0 {
      PiecesJoin(s[1..], d);
      var rest := Pieces(s[1..], d);
      if s[0] == d {
        assert Pieces(s, d)[1..] == rest;
        assert s == [d] + s[1..];
      } else {
        var r := Pieces(s, d);
        assert r[0] == [s[0]] + rest[0];
        assert r[1..] == rest[1..];
        if |rest| == 1 {
          assert s == [s[0]] + s[1..];
        } else {
          assert Join(rest, d) == rest[0] + [d] + Join(rest[1..], d);
          assert s == [s[0]] + s[1..];
        }
      }
    }
  }

  /** Drops empty pieces from the end, as `split` with limit 0 does. */
  function DropTrailingEmpty(pieces: seq<string>): (r: seq<string>)
    ensures r <= pieces
    ensures |r| == 0 || r[|r| - 1] != ""
    ensures forall j :: |r| <= j < |pieces| ==> pieces[j] == ""
  {
    if |pieces| == 0 || pieces[|pieces| - 1] != "" then pieces
    else DropTrailingEmpty(pieces[..|pieces| - 1])
  }

  /**
    `s.split(d)`: without an occurrence of the delimiter the whole string is the
    only piece (so "" gives [""]); otherwise the pieces with trailing empty ones dropped
    (so ";;" gives []).
  */
  function Split(s: string, d: char): (r: seq<string>)
    ensures d !in s ==> r == [s]
    ensures d in s ==> r <= Pieces(s, d) && (|r| == 0 || r[|r| - 1] != "")
    ensures d in s ==> forall j :: |r| <= j < |Pieces(s, d)| ==> Pieces(s, d)[j] == ""
    ensures forall i :: 0 <= i < |r| ==> d !in r[i]
  {
    PiecesJoin(s, d);
    if d !in s then [s] else DropTrailingEmpty(Pieces(s, d))
  }
}
