/** Python's view of white space and line ends, as `str.strip` and `str.splitlines` take it. */
module Text {

  /** `str.isspace` of one character. */
  predicate IsSpace(c: char) {
    || '\U{0009}' <= c <= '\U{000D}' || '\U{001C}' <= c <= '\U{0020}' || c == '\U{0085}' || c == '\U{00A0}'
    || c == '\U{1680}' || '\U{2000}' <= c <= '\U{200A}' || c == '\U{2028}' || c == '\U{2029}'
    || c == '\U{202F}' || c == '\U{205F}' || c == '\U{3000}'
  }

  /** A character `str.splitlines` ends a line at. */
  predicate IsLineEnd(c: char) {
    || '\U{000A}' <= c <= '\U{000D}' || '\U{001C}' <= c <= '\U{001E}' || c == '\U{0085}'
    || c == '\U{2028}' || c == '\U{2029}'
  }

  /** Twenty-nine characters are white space, and ten of them end a line. */
  lemma SpacesAndLineEnds(c: char)
    ensures IsSpace(c) <==>
              c as int in {0x09, 0x0A, 0x0B, 0x0C, 0x0D, 0x1C, 0x1D, 0x1E, 0x1F, 0x20, 0x85, 0xA0, 0x1680,
                           0x2000, 0x2001, 0x2002, 0x2003, 0x2004, 0x2005, 0x2006, 0x2007, 0x2008, 0x2009, 0x200A,
                           0x2028, 0x2029, 0x202F, 0x205F, 0x3000}
    ensures IsLineEnd(c) <==>
              c as int in {0x0A, 0x0B, 0x0C, 0x0D, 0x1C, 0x1D, 0x1E, 0x85, 0x2028, 0x2029}
  {
  }

  predicate Blank(s: string) { forall c <- s :: IsSpace(c) }

  // ----- trimming -----

  /** How far `s` is kept when a trailing run of `p` is dropped. */
  function KeptEnd(p: char -> bool, s: string): (n: nat)
    ensures n <= |s| && (forall c <- s[n..] :: p(c)) && (n > 0 ==> !p(s[n - 1]))
  {
    if s != "" && p(s[|s| - 1]) then
      var n := KeptEnd(p, s[..|s| - 1]);
      assert s[n..] == s[..|s| - 1][n..] + [s[|s| - 1]];
      n
    else |s|
  }

  lemma {:induction false} KeptEndUnique(p: char -> bool, s: string, n: nat)
    requires n <= |s| && (forall c <- s[n..] :: p(c)) && (n > 0 ==> !p(s[n - 1]))
    ensures KeptEnd(p, s) == n
  {
    if n < |s| {
      assert p(s[|s| - 1]) by { assert s[|s| - 1] in s[n..]; }
      var init := s[..|s| - 1];
      assert forall c <- init[n..] :: c in s[n..];
      KeptEndUnique(p, init, n);
    }
  }

  /** Where `s` begins once a leading run of white space is dropped. */
  function KeptStart(s: string): (n: nat)
    ensures n <= |s| && Blank(s[..n]) && (n < |s| ==> !IsSpace(s[n]))
  {
    if s != "" && IsSpace(s[0]) then
      var n := KeptStart(s[1..]);
      assert s[..n + 1] == [s[0]] + s[1..][..n];
      n + 1
    else 0
  }

  /** `str.strip()`. */
  function Strip(s: string): string {
    var t := s[KeptStart(s)..];
    t[..KeptEnd(IsSpace, t)]
  }

  /** `str.rstrip(".")`. */
  function DropPeriods(s: string): string {
    s[..KeptEnd(c => c == '.', s)]
  }

  predicate Trimmed(s: string) {
    s == "" || (!IsSpace(s[0]) && !IsSpace(s[|s| - 1]))
  }

  ghost predicate Piece(s: string, t: string) {
    exists i: nat :: PieceAt(s, t, i)
  }

  ghost predicate PieceAt(s: string, t: string, i: nat) {
    i + |t| <= |s| && t == s[i..i + |t|]
  }

  lemma PieceOfPiece(s: string, t: string, u: string)
    requires Piece(s, t) && Piece(t, u)
    ensures Piece(s, u)
  {
    var i: nat :| PieceAt(s, t, i);
    var j: nat :| PieceAt(t, u, j);
    var piece := s[i + j..i + j + |u|];
    forall m | 0 <= m < |u| ensures u[m] == piece[m] {
      assert u[m] == t[j + m];
      assert t[j + m] == s[i + (j + m)];
    }
    assert u == piece;
    assert PieceAt(s, u, i + j);
  }

  lemma PieceChars(s: string, t: string)
    requires Piece(s, t)
    ensures forall c <- t :: c in s
  {
    var i: nat :| PieceAt(s, t, i);
  }

  /** Stripping leaves a trimmed piece, empty only of blank text, and keeps what is trimmed. */
  lemma StripTrims(s: string)
    ensures Trimmed(Strip(s)) && Piece(s, Strip(s))
    ensures Strip(s) == "" <==> Blank(s)
    ensures Trimmed(s) ==> Strip(s) == s
  {
    var i := KeptStart(s);
    var t := s[i..];
    var n := KeptEnd(IsSpace, t);
    assert Strip(s) == s[i..i + n];
    assert PieceAt(s, Strip(s), i);
    if i < |s| { assert t[0] == s[i]; } else { assert s[..i] == s; }
    if Trimmed(s) && s != "" {
      assert t == s;
    }
  }

  /** What lies between white space at both ends is what is left, wherever it lies. */
  lemma StripIs(lead: string, core: string, trail: string)
    requires Blank(lead) && Trimmed(core) && Blank(trail)
    ensures Strip(lead + core + trail) == core
  {
    var s := lead + core + trail;
    if core == "" {
      StripTrims(s);
    } else {
      KeptStartUnique(lead, core + trail);
      assert s == lead + (core + trail);
      var t := core + trail;
      assert s[|lead|..] == t;
      assert t[|core|..] == trail && t[|core| - 1] == core[|core| - 1];
      KeptEndUnique(IsSpace, t, |core|);
    }
  }

  lemma {:induction false} KeptStartUnique(lead: string, rest: string)
    requires Blank(lead) && rest != "" && !IsSpace(rest[0])
    ensures KeptStart(lead + rest) == |lead|
  {
    if lead == "" {
      assert lead + rest == rest;
    } else {
      assert (lead + rest)[1..] == lead[1..] + rest;
      KeptStartUnique(lead[1..], rest);
    }
  }

  /** Text that begins with no white space is stripped at its end alone. */
  lemma StripAtEnd(s: string)
    requires s != "" && !IsSpace(s[0])
    ensures Strip(s) == s[..KeptEnd(IsSpace, s)] && Strip(s) != ""
  {
    assert s[KeptStart(s)..] == s;
  }

  // ----- lines -----

  /** The length of the line `s` starts with. */
  function LineLength(s: string): (n: nat)
    ensures n <= |s| && (forall c <- s[..n] :: !IsLineEnd(c)) && (n < |s| ==> IsLineEnd(s[n]))
  {
    if s == "" || IsLineEnd(s[0]) then 0
    else
      var n := LineLength(s[1..]);
      assert s[..n + 1] == [s[0]] + s[1..][..n];
      n + 1
  }

  /** How many characters end the line in front of place `n`. */
  function EndingSize(s: string, n: nat): (size: nat)
    requires n < |s|
    ensures 1 <= size <= |s| - n
  {
    if s[n] == '\r' && n + 1 < |s| && s[n + 1] == '\n' then 2 else 1
  }

  /** `str.splitlines()`: a carriage return and its line feed end a line together. */
  function SplitLines(s: string): (lines: seq<string>)
    ensures forall l <- lines :: forall c <- l :: !IsLineEnd(c)
    decreases |s|
  {
    if s == "" then []
    else
      var n := LineLength(s);
      if n == |s| then [s]
      else
        [s[..n]] + SplitLines(s[n + EndingSize(s, n)..])
  }

  /** The lines with what ends each of them put back. */
  function Joined(lines: seq<string>, ends: seq<string>): string
    requires |lines| == |ends|
  {
    if lines == [] then "" else lines[0] + ends[0] + Joined(lines[1..], ends[1..])
  }

  /** One line end: a line feed after a carriage return belongs to it. */
  predicate IsEnding(end: string) { end == "\r\n" || (|end| == 1 && IsLineEnd(end[0])) }

  /** Lines without line ends in them, each with its own ending. Only the last may have none, unless it is
      empty; and no ending takes a carriage return from its line feed. */
  predicate WellEnded(lines: seq<string>, ends: seq<string>) {
    && |lines| == |ends|
    && (lines != [] ==>
          && (forall c <- lines[0] :: !IsLineEnd(c))
          && (IsEnding(ends[0]) || (|lines| == 1 && ends[0] == "" && lines[0] != ""))
          && (ends[0] == "\r" && |lines| > 1 ==> lines[1] != "" || ends[1] != "\n")
          && WellEnded(lines[1..], ends[1..]))
  }

  lemma WellEndedFirst(line: string, end: string, lines: seq<string>, ends: seq<string>)
    requires |lines| == |ends|
    ensures WellEnded([line] + lines, [end] + ends) <==>
              && WellEnded(lines, ends)
              && (forall c <- line :: !IsLineEnd(c))
              && (IsEnding(end) || (lines == [] && end == "" && line != ""))
              && (end == "\r" && lines != [] ==> lines[0] != "" || ends[0] != "\n")
  {
    assert ([line] + lines)[1..] == lines && ([end] + ends)[1..] == ends;
  }

  lemma {:induction false} LineLengthIs(line: string, rest: string)
    requires (forall c <- line :: !IsLineEnd(c)) && rest != "" && IsLineEnd(rest[0])
    ensures LineLength(line + rest) == |line|
  {
    if line == "" {
      assert line + rest == rest;
    } else {
      assert (line + rest)[1..] == line[1..] + rest;
      LineLengthIs(line[1..], rest);
    }
  }

  /** A line feed comes first exactly when it ends an empty line. */
  lemma FeedFirst(lines: seq<string>, ends: seq<string>)
    requires WellEnded(lines, ends) && lines != []
    ensures Joined(lines, ends) != ""
    ensures Joined(lines, ends)[0] == '\n' <==> lines[0] == "" && ends[0] == "\n"
  {
    if lines[0] != "" { assert lines[0][0] in lines[0]; }
  }

  /** A line and its ending go in front of the others. */
  lemma JoinedFirst(line: string, end: string, lines: seq<string>, ends: seq<string>)
    requires |lines| == |ends|
    ensures Joined([line] + lines, [end] + ends) == line + end + Joined(lines, ends)
  {
    assert ([line] + lines)[1..] == lines && ([end] + ends)[1..] == ends;
  }

  /** The ending behind a line is one, and takes its line feed with it. */
  lemma EndingIs(s: string, n: nat)
    requires n < |s| && IsLineEnd(s[n])
    ensures var end, rest := s[n..n + EndingSize(s, n)], s[n + EndingSize(s, n)..];
            IsEnding(end) && (end == "\r" && rest != "" ==> rest[0] != '\n')
  {
    var end := s[n..n + EndingSize(s, n)];
    assert end[0] == s[n];
    if EndingSize(s, n) == 2 { assert end == "\r\n"; }
  }

  lemma LinesJoin(line: string, end: string, lines: seq<string>, ends: seq<string>, rest: string)
    requires WellEnded(lines, ends) && Joined(lines, ends) == rest
    requires (forall c <- line :: !IsLineEnd(c)) && IsEnding(end) && (end == "\r" && rest != "" ==> rest[0] != '\n')
    ensures WellEnded([line] + lines, [end] + ends) && Joined([line] + lines, [end] + ends) == line + end + rest
  {
    if lines != [] { FeedFirst(lines, ends); }
    WellEndedFirst(line, end, lines, ends);
    JoinedFirst(line, end, lines, ends);
  }

  /** Nothing is lost: a text is its lines with their endings. */
  lemma {:induction false} SplitJoins(s: string) returns (ends: seq<string>)
    ensures WellEnded(SplitLines(s), ends) && Joined(SplitLines(s), ends) == s
    decreases |s|
  {
    var n := LineLength(s);
    if s == "" { return []; }
    if n == |s| {
      LastLine(s);
      return [""];
    }
    var next := n + EndingSize(s, n);
    var others := SplitJoins(s[next..]);
    ends := [s[n..next]] + others;
    JoinsBefore(s, n, next, SplitLines(s[next..]), others);
    SplitAt(s, n);
  }

  lemma JoinsBefore(s: string, n: nat, next: nat, lines: seq<string>, ends: seq<string>)
    requires n < |s| && LineLength(s) == n && next == n + EndingSize(s, n)
    requires WellEnded(lines, ends) && Joined(lines, ends) == s[next..]
    ensures WellEnded([s[..n]] + lines, [s[n..next]] + ends)
    ensures Joined([s[..n]] + lines, [s[n..next]] + ends) == s
  {
    EndingIs(s, n);
    LinesJoin(s[..n], s[n..next], lines, ends, s[next..]);
    assert s == s[..n] + s[n..next] + s[next..];
  }

  lemma SplitAt(s: string, n: nat)
    requires n < |s| && LineLength(s) == n
    ensures SplitLines(s) == [s[..n]] + SplitLines(s[n + EndingSize(s, n)..])
  {
  }

  lemma SplitFirst(line: string, end: string, rest: string)
    requires (forall c <- line :: !IsLineEnd(c)) && IsEnding(end)
    requires end == "\r" && rest != "" ==> rest[0] != '\n'
    ensures SplitLines(line + (end + rest)) == [line] + SplitLines(rest)
  {
    LineLengthIs(line, end + rest);
    EndingSizeIs(line, end, rest);
    SplitAt(line + (end + rest), |line|);
    Sides(line, end, rest);
  }

  lemma Sides(line: string, end: string, rest: string)
    ensures (line + (end + rest))[..|line|] == line
    ensures (line + (end + rest))[|line| + |end|..] == rest
    ensures line + (end + rest) == line + end + rest
  {
  }

  lemma EndingSizeIs(line: string, end: string, rest: string)
    requires IsEnding(end) && (end == "\r" && rest != "" ==> rest[0] != '\n')
    ensures EndingSize(line + (end + rest), |line|) == |end|
  {
    var s := line + (end + rest);
    assert s[|line|..] == end + rest;
    assert s[|line|] == end[0];
    assert |line| + 1 < |s| ==> s[|line| + 1] == (end + rest)[1];
  }

  /** And the lines are determined by that. */
  lemma {:induction false} SplitUnique(lines: seq<string>, ends: seq<string>)
    requires WellEnded(lines, ends)
    ensures SplitLines(Joined(lines, ends)) == lines
  {
    if lines == [] {
    } else {
      var lines', ends' := lines[1..], ends[1..];
      assert lines == [lines[0]] + lines' && ends == [ends[0]] + ends';
      WellEndedFirst(lines[0], ends[0], lines', ends');
      SplitUnique(lines', ends');
      if lines' != [] { FeedFirst(lines', ends'); }
      SplitNext(lines[0], ends[0], lines', ends', Joined(lines', ends'));
    }
  }

  lemma SplitNext(line: string, end: string, lines: seq<string>, ends: seq<string>, rest: string)
    requires |lines| == |ends| && rest == Joined(lines, ends) && SplitLines(rest) == lines
    requires (forall c <- line :: !IsLineEnd(c)) && (IsEnding(end) || (lines == [] && end == "" && line != ""))
    requires end == "\r" && rest != "" ==> rest[0] != '\n'
    ensures SplitLines(Joined([line] + lines, [end] + ends)) == [line] + lines
  {
    JoinedFirst(line, end, lines, ends);
    Sides(line, end, rest);
    if IsEnding(end) {
      SplitFirst(line, end, rest);
    } else {
      LastLine(line);
    }
  }

  lemma LastLine(line: string)
    requires line != "" && forall c <- line :: !IsLineEnd(c)
    ensures SplitLines(line) == [line]
  {
    assert LineLength(line) == |line|;
    assert line[..|line|] == line;
  }
}
