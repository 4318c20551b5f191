/** From a model's answer to the one line a team's description is stored as. */
module Description {
  import opened Wrappers
  import opened Text

  const MAX_LENGTH := 500
  const QUOTE_PAIRS: seq<(char, char)> := [('"', '"'), ('\'', '\''), ('\U{201C}', '\U{201D}')]

  predicate Encloses(pair: (char, char), line: string) {
    |line| >= 2 && line[0] == pair.0 && line[|line| - 1] == pair.1
  }

  predicate Quoted(line: string) { exists pair <- QUOTE_PAIRS :: Encloses(pair, line) }

  /** The first line that is not blank, stripped; empty when there is none. */
  function FirstLine(lines: seq<string>): string {
    if lines == [] then "" else if !Blank(lines[0]) then Strip(lines[0]) else FirstLine(lines[1..])
  }

  function Unquoted(line: string): string {
    if Quoted(line) then Strip(line[1..|line| - 1]) else line
  }

  function Cut(line: string): string { if |line| <= MAX_LENGTH then line else line[..MAX_LENGTH] }

  /** Trailing periods dropped, then the cap. */
  function Tidy(bare: string): string { Strip(Cut(Strip(DropPeriods(bare)))) }

  /** The stored form of an answer, or nothing when nothing usable is left. */
  function Generated(raw: string): Option<string> {
    var line := Tidy(Unquoted(FirstLine(SplitLines(raw))));
    if line == "" then None else Some(line)
  }

  /** Line `k` is the first that is not blank. */
  predicate IsUsable(lines: seq<string>, k: nat) {
    k < |lines| && !Blank(lines[k]) && forall j | 0 <= j < k :: Blank(lines[j])
  }

  /** The first line that is not blank is taken, without the white space around it. */
  lemma {:induction false} FirstLineAt(lines: seq<string>, k: nat, lead: string, core: string, trail: string)
    requires IsUsable(lines, k)
    requires lines[k] == lead + core + trail && Blank(lead) && Trimmed(core) && Blank(trail)
    ensures FirstLine(lines) == core
  {
    if k == 0 {
      StripIs(lead, core, trail);
    } else {
      FirstLineAt(lines[1..], k - 1, lead, core, trail);
    }
  }

  method FirstUsableLine(lines: seq<string>) returns (line: string)
    ensures line == FirstLine(lines)
  {
    var i := 0;
    while i < |lines|
      invariant i <= |lines|
      invariant FirstLine(lines) == FirstLine(lines[i..])
    {
      StripTrims(lines[i]);
      var candidate := Strip(lines[i]);
      if candidate != "" { return candidate; }
      i := i + 1;
    }
    line := "";
  }

  method UnquoteOnce(line: string) returns (bare: string)
    ensures bare == Unquoted(line)
  {
    for k := 0 to |QUOTE_PAIRS|
      invariant forall j | 0 <= j < k :: !Encloses(QUOTE_PAIRS[j], line)
    {
      if Encloses(QUOTE_PAIRS[k], line) {
        assert Quoted(line);
        return Strip(line[1..|line| - 1]);
      }
    }
    bare := line;
  }

  method NormaliseDescription(raw: string) returns (r: Option<string>)
    ensures r == Generated(raw)
  {
    var line := FirstUsableLine(SplitLines(raw));
    line := UnquoteOnce(line);
    line := Strip(DropPeriods(line));
    line := Strip(Cut(line));
    r := if line == "" then None else Some(line);
  }

  // ----- what the endpoint accepts -----

  datatype Refusal = TooLong(length: nat)

  /** The request model's own normalisation of a description. */
  function Normalise(value: Option<string>): Result<Option<string>, Refusal> {
    if value.None? then Ok(None)
    else
      var trimmed := Strip(value.value);
      if trimmed == "" then Ok(None)
      else if |trimmed| > MAX_LENGTH then Err(TooLong(|trimmed|))
      else Ok(Some(trimmed))
  }

  /** The endpoint takes white space off both ends and then keeps the text, refuses it exactly when it is
      longer than 500 characters, and takes blank text for none. */
  lemma NormalisedAs(lead: string, core: string, trail: string)
    requires Blank(lead) && Trimmed(core) && Blank(trail)
    ensures Normalise(None) == Ok(None)
    ensures core == "" ==> Normalise(Some(lead + core + trail)) == Ok(None)
    ensures 0 < |core| <= 500 ==> Normalise(Some(lead + core + trail)) == Ok(Some(core))
    ensures |core| > 500 ==> Normalise(Some(lead + core + trail)) == Err(TooLong(|core|))
  {
    StripIs(lead, core, trail);
  }

  lemma {:induction false} FirstLineIsPiece(lines: seq<string>)
    ensures FirstLine(lines) == "" || exists l <- lines :: Piece(l, FirstLine(lines))
    ensures Trimmed(FirstLine(lines))
    ensures FirstLine(lines) == "" <==> forall l <- lines :: Blank(l)
  {
    if lines == [] {
    } else {
      StripTrims(lines[0]);
      FirstLineIsPiece(lines[1..]);
      assert lines == [lines[0]] + lines[1..];
    }
  }

  lemma UnquotedCuts(line: string)
    ensures Piece(line, Unquoted(line)) && (Quoted(line) ==> |Unquoted(line)| < |line|)
  {
    if Quoted(line) {
      var inner := line[1..|line| - 1];
      assert PieceAt(line, inner, 1);
      StripTrims(inner);
      PieceOfPiece(line, inner, Strip(inner));
    } else {
      assert PieceAt(line, line, 0);
    }
  }

  lemma CapCuts(trimmed: string)
    ensures Piece(trimmed, Strip(Cut(trimmed))) && Trimmed(Strip(Cut(trimmed)))
    ensures |Strip(Cut(trimmed))| <= |trimmed| && |Strip(Cut(trimmed))| <= MAX_LENGTH
  {
    var cut := Cut(trimmed);
    assert PieceAt(trimmed, cut, 0);
    StripTrims(cut);
    PieceOfPiece(trimmed, cut, Strip(cut));
  }

  lemma TidyCuts(bare: string)
    ensures Piece(bare, Tidy(bare)) && |Tidy(bare)| <= |DropPeriods(bare)| <= |bare|
    ensures Trimmed(Tidy(bare)) && |Tidy(bare)| <= MAX_LENGTH
  {
    var kept := DropPeriods(bare);
    assert PieceAt(bare, kept, 0);
    var trimmed := Strip(kept);
    StripTrims(kept);
    PieceOfPiece(bare, kept, trimmed);
    CapCuts(trimmed);
    PieceOfPiece(bare, trimmed, Tidy(bare));
  }

  /** Whatever the model answered, what is stored is a non-empty trimmed piece of one line of
      the answer, no longer than the cap. */
  lemma GeneratedFits(raw: string)
    ensures Generated(raw).Some? ==>
              var r := Generated(raw).value;
              && r != "" && Trimmed(r) && |r| <= MAX_LENGTH
              && exists l <- SplitLines(raw) :: Piece(l, r)
  {
    var lines := SplitLines(raw);
    var line := FirstLine(lines);
    var r := Tidy(Unquoted(line));
    UnquotedCuts(line);
    TidyCuts(Unquoted(line));
    PieceOfPiece(line, Unquoted(line), r);
    FirstLineIsPiece(lines);
    if r != "" {
      var l :| l in lines && Piece(l, line);
      PieceOfPiece(l, line, r);
    }
  }

  /** So the endpoint would store the very same value. */
  lemma GeneratedIsFixed(raw: string)
    ensures Normalise(Generated(raw)) == Ok(Generated(raw))
  {
    if Generated(raw).Some? {
      GeneratedFits(raw);
      StripTrims(Generated(raw).value);
    }
  }

  // ----- what it drops -----

  predicate Periods(s: string) { forall c <- s :: c == '.' }

  /** A usable line comes out of the quotes and trailing periods a model may put around it. */
  lemma DecorationDropped(line: string, pair: (char, char), dots: string)
    requires pair in QUOTE_PAIRS && Periods(dots)
    requires line != "" && Trimmed(line) && |line| <= MAX_LENGTH && !EndsInPeriod(line)
    requires forall c <- line :: !IsLineEnd(c)
    ensures Generated([pair.0] + line + dots + [pair.1]) == Some(line)
  {
    var inner := line + dots;
    assert [pair.0] + line + dots + [pair.1] == [pair.0] + inner + [pair.1];
    QuotedLine(inner, pair);
    TrailingPeriods(line, dots);
    StripTrims(inner);
    StripTrims(line);
  }

  lemma QuotedLine(inner: string, pair: (char, char))
    requires pair in QUOTE_PAIRS && forall c <- inner :: !IsLineEnd(c)
    ensures Unquoted(FirstLine(SplitLines([pair.0] + inner + [pair.1]))) == Strip(inner)
  {
    var whole := [pair.0] + inner + [pair.1];
    assert whole[0] == pair.0 && whole[|whole| - 1] == pair.1 && whole[1..|whole| - 1] == inner;
    OneLine(whole);
    assert Encloses(pair, whole);
  }

  lemma TrailingPeriods(line: string, dots: string)
    requires Periods(dots) && line != "" && Trimmed(line) && !EndsInPeriod(line)
    ensures DropPeriods(line + dots) == line && Trimmed(line + dots)
  {
    var s := line + dots;
    assert s[|line|..] == dots && s[..|line|] == line;
    assert dots != "" ==> s[|s| - 1] in dots;
    KeptEndUnique(c => c == '.', s, |line|);
  }

  // ----- what it does not do -----

  predicate EndsInPeriod(s: string) { s != "" && s[|s| - 1] == '.' }

  lemma OneLine(s: string)
    requires s != "" && Trimmed(s) && forall c <- s :: !IsLineEnd(c)
    ensures FirstLine(SplitLines(s)) == s
  {
    assert SplitLines(s) == [s];
    StripTrims(s);
    assert !Blank(s) by { assert s[0] in s; }
  }

  lemma TidyFixedIff(r: string)
    requires r != "" && Trimmed(r) && |r| <= MAX_LENGTH
    ensures Tidy(r) == r <==> !EndsInPeriod(r)
  {
    TidyCuts(r);
    if EndsInPeriod(r) {
      assert |DropPeriods(r)| < |r|;
    } else {
      assert DropPeriods(r) == r;
      StripTrims(r);
    }
  }

  /** A trimmed line within the cap is its own description exactly when there is nothing to drop. */
  lemma FixedIff(r: string)
    requires r != "" && Trimmed(r) && |r| <= MAX_LENGTH && forall c <- r :: !IsLineEnd(c)
    ensures Generated(r) == Some(r) <==> !Quoted(r) && !EndsInPeriod(r)
  {
    OneLine(r);
    UnquotedCuts(r);
    TidyCuts(Unquoted(r));
    if !Quoted(r) { TidyFixedIff(r); }
  }

  // ----- what is kept of a line, read off the line -----

  /** Place `k` is no white space; behind it come white space up to `m` and then only periods. A
      period at `k` is behind a gap, and so none of the trailing ones. */
  ghost predicate BeforeDots(bare: string, k: nat, m: nat) {
    && k < m <= |bare| && !IsSpace(bare[k]) && Blank(bare[k + 1..m]) && Periods(bare[m..])
    && (bare[k] == '.' ==> k + 1 < m)
  }

  /** The last place left once trailing periods, and then white space, are dropped. */
  ghost predicate EndsAt(bare: string, k: nat) { exists m: nat :: BeforeDots(bare, k, m) }

  /** The cap cuts the line. */
  ghost predicate Overlong(bare: string) { exists q: nat :: q >= MAX_LENGTH && EndsAt(bare, q) }

  /** The last place that the stored line keeps: where the line ends, or the last one before the cap
      that is no white space. */
  ghost predicate LastKept(bare: string, k: nat) {
    && k < |bare|
    && if Overlong(bare) then k < MAX_LENGTH <= |bare| && !IsSpace(bare[k]) && Blank(bare[k + 1..MAX_LENGTH])
       else EndsAt(bare, k)
  }

  lemma DotsDropped(bare: string, k: nat, m: nat)
    requires BeforeDots(bare, k, m)
    ensures DropPeriods(bare) == bare[..m]
  {
    assert k + 1 < m ==> bare[m - 1] in bare[k + 1..m];
    KeptEndUnique(c => c == '.', bare, m);
  }

  lemma StrippedTo(s: string, k: nat)
    requires k < |s| && !IsSpace(s[0]) && !IsSpace(s[k]) && Blank(s[k + 1..])
    ensures Strip(s) == s[..k + 1]
  {
    StripAtEnd(s);
    KeptEndUnique(IsSpace, s, k + 1);
  }

  lemma UncutIs(bare: string, k: nat)
    requires Trimmed(bare) && EndsAt(bare, k)
    ensures k < |bare| && Strip(DropPeriods(bare)) == bare[..k + 1]
  {
    var m: nat :| BeforeDots(bare, k, m);
    DotsDropped(bare, k, m);
    var kept := bare[..m];
    assert kept[k + 1..] == bare[k + 1..m];
    StrippedTo(kept, k);
    assert kept[..k + 1] == bare[..k + 1];
  }

  lemma KeptBeforeDots(bare: string, kept: string, n: nat)
    requires kept == DropPeriods(bare) && 0 < n == KeptEnd(IsSpace, kept)
    ensures BeforeDots(bare, n - 1, |kept|)
  {
    assert bare[n..|kept|] == kept[n..];
  }

  lemma UncutEnds(bare: string)
    requires Trimmed(bare) && Strip(DropPeriods(bare)) != ""
    ensures EndsAt(bare, |Strip(DropPeriods(bare))| - 1)
  {
    var kept := DropPeriods(bare);
    if kept == "" { StripTrims(kept); }
    assert kept[0] == bare[0];
    StripAtEnd(kept);
    KeptBeforeDots(bare, kept, KeptEnd(IsSpace, kept));
  }

  lemma CapKeeps(bare: string, t: string, k: nat)
    requires Trimmed(bare) && |t| > MAX_LENGTH && t <= bare && k < |bare|
    ensures Strip(Cut(t)) == bare[..k + 1] <==>
              k < MAX_LENGTH && !IsSpace(bare[k]) && Blank(bare[k + 1..MAX_LENGTH])
  {
    var cut := Cut(t);
    assert cut == bare[..MAX_LENGTH];
    StripAtEnd(cut);
    var n := KeptEnd(IsSpace, cut);
    assert Strip(cut) == bare[..n];
    if k < MAX_LENGTH {
      assert bare[k + 1..MAX_LENGTH] == cut[k + 1..];
      if !IsSpace(bare[k]) && Blank(cut[k + 1..]) { KeptEndUnique(IsSpace, cut, k + 1); }
    }
  }

  lemma UncappedIs(bare: string)
    requires |Strip(DropPeriods(bare))| <= MAX_LENGTH
    ensures Tidy(bare) == Strip(DropPeriods(bare))
  {
    StripTrims(DropPeriods(bare));
    StripTrims(Strip(DropPeriods(bare)));
  }

  lemma UncutEndsOnce(bare: string, k: nat)
    requires Trimmed(bare) && k < |bare| && Strip(DropPeriods(bare)) != ""
    ensures EndsAt(bare, k) <==> Strip(DropPeriods(bare)) == bare[..k + 1]
  {
    UncutEnds(bare);
    if EndsAt(bare, k) { UncutIs(bare, k); }
  }

  /** The stored line is what lies up to the last kept place, and that place alone is one. */
  lemma TidyKeeps(bare: string, k: nat)
    requires Trimmed(bare) && k < |bare|
    ensures LastKept(bare, k) <==> Tidy(bare) == bare[..k + 1]
  {
    var t := Strip(DropPeriods(bare));
    OverlongIff(bare);
    if t == "" {
      NothingKept(bare, k);
    } else if |t| <= MAX_LENGTH {
      UncappedIs(bare);
      UncutEndsOnce(bare, k);
    } else {
      UncutEnds(bare);
      UncutIs(bare, |t| - 1);
      CapKeeps(bare, t, k);
    }
  }

  lemma NothingKept(bare: string, k: nat)
    requires Trimmed(bare) && Strip(DropPeriods(bare)) == ""
    ensures !LastKept(bare, k) && Tidy(bare) == ""
  {
    StripTrims("");
    if EndsAt(bare, k) { UncutIs(bare, k); }
    if Overlong(bare) {
      var q: nat :| q >= MAX_LENGTH && EndsAt(bare, q);
      UncutIs(bare, q);
    }
  }

  lemma OverlongIff(bare: string)
    requires Trimmed(bare)
    ensures Overlong(bare) <==> |Strip(DropPeriods(bare))| > MAX_LENGTH
  {
    if Overlong(bare) {
      var q: nat :| q >= MAX_LENGTH && EndsAt(bare, q);
      UncutIs(bare, q);
    }
    if |Strip(DropPeriods(bare))| > MAX_LENGTH { UncutEnds(bare); }
  }

  /** The first usable line of an answer, out of its quotes. */
  function UsableLine(raw: string): string { Unquoted(FirstLine(SplitLines(raw))) }

  lemma UsableIsTrimmed(raw: string)
    ensures Trimmed(UsableLine(raw))
  {
    var line := FirstLine(SplitLines(raw));
    FirstLineIsPiece(SplitLines(raw));
    if Quoted(line) { StripTrims(line[1..|line| - 1]); }
  }

  /** A description is stored up to the last kept place of the usable line. */
  lemma GeneratedKeeps(raw: string, k: nat)
    ensures LastKept(UsableLine(raw), k) <==>
              k < |UsableLine(raw)| && Generated(raw) == Some(UsableLine(raw)[..k + 1])
  {
    UsableIsTrimmed(raw);
    if k < |UsableLine(raw)| { TidyKeeps(UsableLine(raw), k); }
  }

  lemma GeneratedKeepsSome(raw: string) returns (k: nat)
    requires Generated(raw).Some?
    ensures LastKept(UsableLine(raw), k)
  {
    var bare := UsableLine(raw);
    UsableIsTrimmed(raw);
    TidyIsPrefix(bare);
    k := |Tidy(bare)| - 1;
    TidyKeeps(bare, k);
  }

  lemma TidyIsPrefix(bare: string)
    requires Trimmed(bare)
    ensures Tidy(bare) <= bare
  {
    var t := Strip(DropPeriods(bare));
    if t == "" {
      StripTrims("");
    } else {
      UncutEnds(bare);
      UncutIs(bare, |t| - 1);
      StripAtEnd(Cut(t));
    }
  }

  // ----- what it does not do -----

  /** Trailing periods are dropped once, and not again behind the white space they uncover or
      behind the cap: a description ends in a period exactly when the last kept place of the usable
      line is one. */
  lemma PeriodSurvivesIff(raw: string)
    ensures Generated(raw).Some? && EndsInPeriod(Generated(raw).value) <==>
              exists k: nat :: LastKept(UsableLine(raw), k) && UsableLine(raw)[k] == '.'
  {
    if Generated(raw).Some? {
      var k := GeneratedKeepsSome(raw);
      EndsWhereKept(raw, k);
    }
    forall k: nat | LastKept(UsableLine(raw), k) ensures Generated(raw).Some? { EndsWhereKept(raw, k); }
    forall k: nat | LastKept(UsableLine(raw), k) && UsableLine(raw)[k] == '.'
      ensures EndsInPeriod(Generated(raw).value)
    {
      EndsWhereKept(raw, k);
    }
  }

  lemma EndsWhereKept(raw: string, k: nat)
    requires LastKept(UsableLine(raw), k)
    ensures Generated(raw).Some? && (EndsInPeriod(Generated(raw).value) <==> UsableLine(raw)[k] == '.')
  {
    GeneratedKeeps(raw, k);
    EndsInPlace(UsableLine(raw), k);
  }

  lemma EndsInPlace(bare: string, k: nat)
    requires k < |bare|
    ensures EndsInPeriod(bare[..k + 1]) <==> bare[k] == '.'
  {
  }

  /** Up to place `k` the line is in quotes. */
  ghost predicate QuotedUpTo(bare: string, k: nat) {
    1 <= k < |bare| && exists pair <- QUOTE_PAIRS :: bare[0] == pair.0 && bare[k] == pair.1
  }

  /** Generating a description from a description changes nothing exactly when the usable line of
      the first answer neither has a period at its last kept place nor is in quotes up to it. */
  lemma GeneratedTwiceIff(raw: string)
    ensures Generated(raw).Some? ==>
              (Generated(Generated(raw).value) == Generated(raw) <==>
               exists k: nat :: && LastKept(UsableLine(raw), k)
                                && UsableLine(raw)[k] != '.' && !QuotedUpTo(UsableLine(raw), k))
  {
    if Generated(raw).Some? {
      var k := GeneratedKeepsSome(raw);
      TwiceAt(raw, k);
      forall k': nat | LastKept(UsableLine(raw), k') ensures k' == k { OneLastKept(raw, k, k'); }
    }
  }

  lemma TwiceAt(raw: string, k: nat)
    requires LastKept(UsableLine(raw), k)
    ensures Generated(raw).Some?
    ensures Generated(Generated(raw).value) == Generated(raw) <==>
              UsableLine(raw)[k] != '.' && !QuotedUpTo(UsableLine(raw), k)
  {
    var bare := UsableLine(raw);
    GeneratedKeeps(raw, k);
    GeneratedFits(raw);
    var r := Generated(raw).value;
    var l :| l in SplitLines(raw) && Piece(l, r);
    PieceChars(l, r);
    FixedIff(r);
    QuotedPrefix(bare, k);
  }

  lemma OneLastKept(raw: string, k: nat, k': nat)
    requires LastKept(UsableLine(raw), k) && LastKept(UsableLine(raw), k')
    ensures k == k'
  {
    GeneratedKeeps(raw, k);
    GeneratedKeeps(raw, k');
    assert |UsableLine(raw)[..k + 1]| == |UsableLine(raw)[..k' + 1]|;
  }

  lemma QuotedPrefix(bare: string, k: nat)
    requires k < |bare|
    ensures Quoted(bare[..k + 1]) <==> QuotedUpTo(bare, k)
  {
    var r := bare[..k + 1];
    forall pair <- QUOTE_PAIRS ensures Encloses(pair, r) <==> 1 <= k && bare[0] == pair.0 && bare[k] == pair.1 {}
  }

  /** A line without quotes around it, and what is kept of it. */
  lemma PlainLine(raw: string, k: nat)
    requires raw != "" && Trimmed(raw) && (forall c <- raw :: !IsLineEnd(c)) && !Quoted(raw) && LastKept(raw, k)
    ensures Generated(raw) == Some(raw[..k + 1])
  {
    OneLine(raw);
    GeneratedKeeps(raw, k);
  }

  /** A final period survives behind a gap, though one that ends the line outright is dropped: of
      the lines "a. ." and "a." the first is stored as "a." and the second as "a". */
  lemma PeriodSurvivesGap(line: string)
    requires line != "" && Trimmed(line) && |line| + 3 <= MAX_LENGTH && !EndsInPeriod(line)
    requires forall c <- line :: !IsLineEnd(c)
    ensures Generated(line + ". .") == Some(line + ".") && Generated(line + ".") == Some(line)
  {
    GapLine(line);
    DotLine(line);
  }

  lemma GapLine(line: string)
    requires line != "" && Trimmed(line) && |line| + 3 <= MAX_LENGTH && forall c <- line :: !IsLineEnd(c)
    ensures Generated(line + ". .") == Some(line + ".")
  {
    GapKept(line);
    assert (line + ". .")[..|line| + 1] == line + ".";
    KeptUpTo(line, ". .", |line|, line + ".");
  }

  lemma DotLine(line: string)
    requires line != "" && Trimmed(line) && |line| + 1 <= MAX_LENGTH && !EndsInPeriod(line)
    requires forall c <- line :: !IsLineEnd(c)
    ensures Generated(line + ".") == Some(line)
  {
    DotKept(line);
    assert (line + ".")[..|line|] == line;
    KeptUpTo(line, ".", |line| - 1, line);
  }

  lemma GapKept(line: string)
    ensures EndsAt(line + ". .", |line|)
  {
    var raw := line + ". .";
    assert raw[|line| + 1..|line| + 2] == " " && raw[|line| + 2..] == ".";
    assert BeforeDots(raw, |line|, |line| + 2);
  }

  lemma DotKept(line: string)
    requires line != "" && Trimmed(line) && !EndsInPeriod(line)
    ensures EndsAt(line + ".", |line| - 1)
  {
    var raw := line + ".";
    assert raw[|line|..] == "." && raw[|line|..|line|] == "";
    assert BeforeDots(raw, |line| - 1, |line|);
  }

  lemma KeptUpTo(line: string, tail: string, k: nat, kept: string)
    requires line != "" && Trimmed(line) && |line| + |tail| <= MAX_LENGTH && forall c <- line :: !IsLineEnd(c)
    requires tail != "" && tail[|tail| - 1] == '.' && forall c <- tail :: !IsLineEnd(c)
    requires EndsAt(line + tail, k) && k < |line + tail| && kept == (line + tail)[..k + 1]
    ensures Generated(line + tail) == Some(kept)
  {
    assert !Overlong(line + tail);
    PlainLine(line + tail, k);
  }

  /** And one survives behind the cap. */
  lemma PeriodSurvivesCap()
    ensures var long := seq(499, _ => 'a') + ".b";
            Generated(long) == Some(long[..500]) && EndsInPeriod(long[..500])
  {
    var long := seq(499, _ => 'a') + ".b";
    assert forall c <- long :: c == 'a' || c == '.' || c == 'b';
    LongLineKept(long);
    PlainLine(long, 499);
  }

  lemma LongLineKept(long: string)
    requires |long| == 501 && long[499] == '.' && long[500] == 'b'
    ensures LastKept(long, 499)
  {
    assert long[501..] == "" && long[500..500] == "";
    assert BeforeDots(long, 500, 501);
    assert EndsAt(long, 500);
  }

  /** Only one layer of quotes is removed: any line in two layers of them is stored in one, and
      stored without when it is generated again. */
  lemma QuotesSurvive(line: string, outer: (char, char), inner: (char, char))
    requires outer in QUOTE_PAIRS && inner in QUOTE_PAIRS
    requires line != "" && Trimmed(line) && |line| + 2 <= MAX_LENGTH && !EndsInPeriod(line)
    requires forall c <- line :: !IsLineEnd(c)
    ensures Generated(InQuotes(InQuotes(line, inner), outer)) == Some(InQuotes(line, inner))
    ensures Generated(InQuotes(line, inner)) == Some(line)
  {
    QuotesRemovedOnce(line, inner);
    QuotedIsLine(line, inner);
    QuotesRemovedOnce(InQuotes(line, inner), outer);
  }

  function InQuotes(line: string, pair: (char, char)): string { [pair.0] + line + [pair.1] }

  lemma QuotedIsLine(line: string, pair: (char, char))
    requires pair in QUOTE_PAIRS && forall c <- line :: !IsLineEnd(c)
    ensures var quoted := InQuotes(line, pair);
            Trimmed(quoted) && !EndsInPeriod(quoted) && forall c <- quoted :: !IsLineEnd(c)
  {
  }

  lemma QuotesRemovedOnce(line: string, pair: (char, char))
    requires pair in QUOTE_PAIRS
    requires line != "" && Trimmed(line) && |line| <= MAX_LENGTH && !EndsInPeriod(line)
    requires forall c <- line :: !IsLineEnd(c)
    ensures Generated(InQuotes(line, pair)) == Some(line)
  {
    assert [pair.0] + line + "" + [pair.1] == [pair.0] + line + [pair.1];
    DecorationDropped(line, pair, "");
  }
}
