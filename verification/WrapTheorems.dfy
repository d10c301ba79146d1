/** What wrapping promises: it only replaces gaps, its lines fit, no other layout of the line uses fewer
    lines, it keeps the words, and wrapping twice is wrapping once. */
module WrapTheorems {
  import opened Text
  import opened Terminal

  // ----- optimality -----

  /** A line that already carries a gap can only be acceptable by fitting. */
  lemma FirstLineGrows(indent: string, width: nat, cur: string, pieces: seq<Piece>, breaks: seq<bool>)
    requires |breaks| == |pieces|
    ensures cur <= Layout(indent, cur, pieces, breaks)[0]
    decreases |pieces|
  {
    if pieces != [] && !breaks[0] {
      var p := pieces[0];
      var next := cur + p.gap + p.word;
      FirstLineGrows(indent, width, next, pieces[1..], breaks[1..]);
      assert cur <= next;
    }
  }

  lemma GapMustFit(indent: string, width: nat, cur: string, p: Piece, pieces: seq<Piece>, breaks: seq<bool>)
    requires |breaks| == |pieces| && WellFormed(p) && p.gap != "" && indent <= cur
    requires AllFit(indent, width, Layout(indent, cur + p.gap + p.word, pieces, breaks))
    ensures |cur| + |p.gap| + |p.word| <= width
  {
    var next := cur + p.gap + p.word;
    var l := Layout(indent, next, pieces, breaks)[0];
    FirstLineGrows(indent, width, next, pieces, breaks);
    assert Fits(indent, width, l);
    assert l[|cur|] == next[|cur|] == p.gap[0];
    assert l[|indent|..][|cur| - |indent|] == l[|cur|];
  }

  lemma TailFits(indent: string, width: nat, cur: string, lines: seq<string>)
    requires AllFit(indent, width, [cur] + lines)
    ensures AllFit(indent, width, lines)
  {
    forall l | l in lines
      ensures Fits(indent, width, l)
    {
      assert l in [cur] + lines;
    }
  }

  /** Greedy stays ahead. With as many lines so far and a current line no longer than the other layout's,
      it never needs more lines than that layout; one line ahead, its current line may be anything. */
  lemma {:induction false} GreedyStaysAhead(indent: string, width: nat, cur: string, other: string,
                                            pieces: seq<Piece>, breaks: seq<bool>, ahead: bool)
    requires Separated(pieces) && (pieces != [] ==> pieces[0].gap != "")
    requires |breaks| == |pieces| && indent <= other && |cur| > |indent|
    requires !ahead ==> |cur| <= |other|
    requires AllFit(indent, width, Layout(indent, other, pieces, breaks))
    ensures |Fold(indent, width, cur, pieces)| <= |Layout(indent, other, pieces, breaks)| + (if ahead then 1 else 0)
    decreases |pieces|
  {
    if pieces != [] {
      var p := pieces[0];
      var rest, bs := pieces[1..], breaks[1..];
      FoldStep(indent, width, cur, pieces);
      var fits := |cur| + |p.gap| + |p.word| <= width;
      var cur' := if fits then cur + p.gap + p.word else indent + p.word;
      var other' := if breaks[0] then indent + p.word else other + p.gap + p.word;
      assert WellFormed(p) by { assert p in pieces; }
      assert Separated(rest) by { assert forall x | x in rest :: x in pieces; }
      if breaks[0] {
        TailFits(indent, width, other, Layout(indent, other', rest, bs));
        GreedyStaysAhead(indent, width, cur', other', rest, bs, fits || ahead);
      } else {
        if !fits && !ahead {
          GapMustFit(indent, width, other, p, rest, bs);
          assert false;
        }
        GreedyStaysAhead(indent, width, cur', other', rest, bs, ahead && fits);
      }
    }
  }

  /** The rest of a line starts with a word: its blanks are all in the indent. */
  lemma RestStartsWithAWord(line: string)
    requires |Indent(line)| < |line|
    ensures var p := Parse(line[|Indent(line)|..]);
            p.pieces != [] && p.pieces[0].gap == "" && Separated(p.pieces)
  {
    var rest := line[|Indent(line)|..];
    assert rest[0] == line[|Indent(line)|];
    assert BlankPrefix(rest) == 0;
    ParseIsSeparated(rest);
  }

  /** wrapLine is optimal: when the indent is narrower than the width, every way of breaking the line at
      its gaps whose lines fit or are single words (trailing blanks aside) has at least as many lines. */
  lemma WrapIsOptimal(line: string, width: nat, breaks: seq<bool>)
    requires |Indent(line)| < width
    requires AtGaps(Parse(line[|Indent(line)|..]).pieces, breaks)
    requires AllFit(Indent(line), width,
                    Layout(Indent(line), Indent(line), Parse(line[|Indent(line)|..]).pieces, breaks))
    ensures |WrapLines(line, width)| <=
            |Layout(Indent(line), Indent(line), Parse(line[|Indent(line)|..]).pieces, breaks)|
  {
    if |line| > width {
      RestStartsWithAWord(line);
      FoldIsOptimal(Indent(line), width, Parse(line[|Indent(line)|..]).pieces, breaks);
    }
  }

  lemma FoldIsOptimal(indent: string, width: nat, pieces: seq<Piece>, breaks: seq<bool>)
    requires Separated(pieces) && pieces != [] && pieces[0].gap == "" && AtGaps(pieces, breaks)
    requires AllFit(indent, width, Layout(indent, indent, pieces, breaks))
    ensures |Fold(indent, width, indent, pieces)| <= |Layout(indent, indent, pieces, breaks)|
  {
    FoldStep(indent, width, indent, pieces);
    var first := indent + pieces[0].gap + pieces[0].word;
    assert WellFormed(pieces[0]);
    GreedyStaysAhead(indent, width, first, first, pieces[1..], breaks[1..], false);
  }

  // ----- the shape of the output lines -----

  /** Starts with exactly the indent and ends with a word. */
  predicate Solid(indent: string, l: string) {
    indent <= l && |indent| < |l| && !Blank(l[|indent|]) && !Blank(l[|l| - 1])
  }

  lemma {:induction false} FoldShape(indent: string, width: nat, cur: string, pieces: seq<Piece>)
    requires Separated(pieces) && Solid(indent, cur) && Fits(indent, width, cur)
    ensures forall l | l in Fold(indent, width, cur, pieces) :: Solid(indent, l) && Fits(indent, width, l)
    decreases |pieces|
  {
    if pieces != [] {
      var p := pieces[0];
      FoldStep(indent, width, cur, pieces);
      assert WellFormed(p) by { assert p in pieces; }
      assert Separated(pieces[1..]) by { assert forall x | x in pieces[1..] :: x in pieces; }
      if |cur| + |p.gap| + |p.word| <= width {
        FoldShape(indent, width, cur + p.gap + p.word, pieces[1..]);
      } else {
        assert (indent + p.word)[|indent|..] == p.word;
        FoldShape(indent, width, indent + p.word, pieces[1..]);
      }
    }
  }

  lemma FoldShapeOfLine(line: string, width: nat)
    requires |Indent(line)| < width < |line|
    ensures var indent := Indent(line);
            forall l | l in Fold(indent, width, indent, Parse(line[|indent|..]).pieces) ::
              Solid(indent, l) && Fits(indent, width, l)
  {
    var indent := Indent(line);
    var pieces := Parse(line[|indent|..]).pieces;
    RestStartsWithAWord(line);
    FoldStep(indent, width, indent, pieces);
    assert WellFormed(pieces[0]) && Separated(pieces[1..]);
    var first := indent + pieces[0].gap + pieces[0].word;
    assert first[|indent|..] == pieces[0].word;
    FoldShape(indent, width, first, pieces[1..]);
  }

  lemma TrimRightOfSolid(indent: string, l: string, trailing: string)
    requires Solid(indent, l) && AllBlank(indent) && AllBlank(trailing)
    ensures TrimRight(l + trailing) == l
    ensures Indent(l + trailing) == indent
  {
    var s := l + trailing;
    assert s[|l| - 1] == l[|l| - 1] && s[|indent|] == l[|indent|];
    assert forall j | |l| <= j < |s| :: s[j] == trailing[j - |l|];
    assert TrimmedLength(s, |s|) == |l|;
    assert forall j | 0 <= j < |indent| :: s[j] == indent[j];
    assert BlankPrefix(s) == |indent|;
  }

  /** With the indent narrower than the width, every output line keeps the line's own indent and, less
      trailing blanks, fits or is one word. */
  lemma WrapFits(line: string, width: nat, l: string)
    requires |Indent(line)| < width && l in WrapLines(line, width)
    ensures Indent(l) == Indent(line)
    ensures Fits(Indent(line), width, TrimRight(l))
  {
    var indent := Indent(line);
    if |line| > width {
      var p := Parse(line[|indent|..]);
      FoldShapeOfLine(line, width);
      ParseIsExact(line[|indent|..]);
      var f, trailing := LineOfFold(Fold(indent, width, indent, p.pieces), p.trailing, l);
      TrimRightOfSolid(indent, f, trailing);
    }
  }

  lemma LineOfFold(folded: seq<string>, trailing: string, l: string) returns (f: string, t: string)
    requires |folded| >= 1 && l in OnLast(folded, trailing)
    ensures f in folded && l == f + t && (t == trailing || t == "")
  {
    var i :| 0 <= i < |folded| && l == OnLast(folded, trailing)[i];
    f, t := folded[i], if i == |folded| - 1 then trailing else "";
    assert folded[i] + "" == folded[i];
  }

  // ----- recovery -----

  function NoBreaks(n: nat): (b: seq<bool>)
    ensures |b| == n && forall i | 0 <= i < n :: !b[i]
  {
    seq(n, _ => false)
  }

  lemma {:induction false} UnbrokenLayout(indent: string, cur: string, pieces: seq<Piece>)
    ensures Layout(indent, cur, pieces, NoBreaks(|pieces|)) == [cur + Flat(pieces)]
    decreases |pieces|
  {
    if pieces == [] {
      assert cur + "" == cur;
    } else {
      var p := pieces[0];
      assert NoBreaks(|pieces|)[1..] == NoBreaks(|pieces| - 1);
      UnbrokenLayout(indent, cur + p.gap + p.word, pieces[1..]);
      Regroup(cur, p.gap, p.word);
      Regroup(cur, p.gap + p.word, Flat(pieces[1..]));
    }
  }

  lemma LineIsItsPieces(line: string)
    ensures var indent := Indent(line);
            var p := Parse(line[|indent|..]);
            indent + Flat(p.pieces) + p.trailing == line && AllBlank(p.trailing)
  {
    var indent := Indent(line);
    var p := Parse(line[|indent|..]);
    ParseIsExact(line[|indent|..]);
    Regroup(indent, Flat(p.pieces), p.trailing);
    Cut(line, |indent|);
  }

  lemma Cut(s: string, n: nat)
    requires n <= |s|
    ensures s[..n] + s[n..] == s
  {
  }

  lemma {:induction false} GreedyBreaksAtGaps(indent: string, width: nat, cur: string, pieces: seq<Piece>)
    requires Separated(pieces)
    requires pieces != [] && pieces[0].gap == "" ==> cur == indent
    ensures AtGaps(pieces, GreedyBreaks(indent, width, cur, pieces))
    decreases |pieces|
  {
    if pieces != [] {
      var p := pieces[0];
      assert Separated(pieces[1..]) by { assert forall x | x in pieces[1..] :: x in pieces; }
      GreedyBreaksAtGaps(indent, width, cur + p.gap + p.word, pieces[1..]);
      GreedyBreaksAtGaps(indent, width, indent + p.word, pieces[1..]);
    }
  }

  /** Wrapping only replaces some non-empty gaps of blanks by a newline and the line's own indent: the
      output is the layout of the line's pieces under some choice of breaks, and under no breaks at all
      the same pieces give the line back. */
  lemma WrapOnlyReplacesGaps(line: string, width: nat) returns (breaks: seq<bool>)
    ensures var indent := Indent(line);
            var p := Parse(line[|indent|..]);
            && Separated(p.pieces)
            && AtGaps(p.pieces, breaks)
            && WrapLines(line, width) == OnLast(Layout(indent, indent, p.pieces, breaks), p.trailing)
            && [line] == OnLast(Layout(indent, indent, p.pieces, NoBreaks(|p.pieces|)), p.trailing)
  {
    var indent := Indent(line);
    var p := Parse(line[|indent|..]);
    ParseIsSeparated(line[|indent|..]);
    UnbrokenLayout(indent, indent, p.pieces);
    LineIsItsPieces(line);
    if |line| <= width || |indent| >= width {
      breaks := NoBreaks(|p.pieces|);
    } else {
      RestStartsWithAWord(line);
      breaks := GreedyBreaks(indent, width, indent, p.pieces);
      GreedyBreaksAtGaps(indent, width, indent, p.pieces);
    }
  }

  // ----- idempotence -----

  lemma {:induction false} FoldOfShort(indent: string, width: nat, cur: string, pieces: seq<Piece>)
    requires |cur| + |Flat(pieces)| <= width
    ensures Fold(indent, width, cur, pieces) == [cur + Flat(pieces)]
    decreases |pieces|
  {
    if pieces == [] {
      assert cur + "" == cur;
    } else {
      var p := pieces[0];
      FoldStep(indent, width, cur, pieces);
      FoldOfShort(indent, width, cur + p.gap + p.word, pieces[1..]);
      Regroup(cur, p.gap, p.word);
      Regroup(cur, p.gap + p.word, Flat(pieces[1..]));
    }
  }

  lemma {:induction false} FlatEndsInAWord(pieces: seq<Piece>)
    requires pieces != [] && forall x | x in pieces :: WellFormed(x)
    ensures Flat(pieces) != "" && !Blank(Flat(pieces)[|Flat(pieces)| - 1])
    decreases |pieces|
  {
    var p := pieces[0];
    assert WellFormed(p);
    if |pieces| > 1 {
      assert forall x | x in pieces[1..] :: x in pieces;
      FlatEndsInAWord(pieces[1..]);
    } else {
      assert Flat(pieces[1..]) == "";
      assert Flat(pieces) == p.gap + p.word;
    }
  }

  /** A line whose indent is narrower than the width is left alone exactly when it fits or is one word. */
  lemma LeftAlone(line: string, width: nat)
    requires |Indent(line)| < width
    ensures WrapLines(line, width) == [line] <==> Fits(Indent(line), width, TrimRight(line))
  {
    if WrapLines(line, width) == [line] {
      WrapFits(line, width, line);
    }
    if Fits(Indent(line), width, TrimRight(line)) && |line| > width {
      FittingLineStays(line, width);
    }
  }

  /** Without its trailing blanks a line is its indent and its pieces. */
  lemma TrimmedLine(line: string)
    requires |Indent(line)| < |line|
    ensures TrimRight(line) == Indent(line) + Flat(Parse(line[|Indent(line)|..]).pieces)
  {
    var indent := Indent(line);
    var p := Parse(line[|indent|..]);
    LineIsItsPieces(line);
    RestStartsWithAWord(line);
    FlatEndsInAWord(p.pieces);
    var flat := indent + Flat(p.pieces);
    assert flat[|indent|] == line[|indent|];
    TrimRightOfSolid(indent, flat, p.trailing);
  }

  lemma FittingLineStays(line: string, width: nat)
    requires |Indent(line)| < width < |line|
    requires Fits(Indent(line), width, TrimRight(line))
    ensures WrapLines(line, width) == [line]
  {
    var indent := Indent(line);
    var pieces := Parse(line[|indent|..]).pieces;
    TrimmedLine(line);
    LineIsItsPieces(line);
    RestStartsWithAWord(line);
    FoldOfFitting(indent, width, pieces);
  }

  lemma FoldOfFitting(indent: string, width: nat, pieces: seq<Piece>)
    requires Separated(pieces) && pieces != [] && pieces[0].gap == ""
    requires Fits(indent, width, indent + Flat(pieces))
    ensures Fold(indent, width, indent, pieces) == [indent + Flat(pieces)]
  {
    var flat := indent + Flat(pieces);
    if |flat| <= width {
      FoldOfShort(indent, width, indent, pieces);
    } else {
      assert flat[|indent|..] == Flat(pieces);
      OneWordIsOnePiece(pieces);
      FoldStep(indent, width, indent, pieces);
      assert indent + "" == indent;
      assert Fold(indent, width, flat, []) == [flat];
    }
  }

  lemma SecondGapShows(pieces: seq<Piece>)
    requires Separated(pieces) && |pieces| > 1 && pieces[0].gap == ""
    ensures var n := |pieces[0].word|;
            n < |Flat(pieces)| && Blank(Flat(pieces)[n])
  {
    var p, q := pieces[0], pieces[1];
    var tail := Flat(pieces[1..]);
    assert Flat(pieces) == p.gap + p.word + tail;
    assert tail == q.gap + q.word + Flat(pieces[1..][1..]);
    assert WellFormed(q);
    assert tail[0] == q.gap[0];
  }

  lemma OneWordIsOnePiece(pieces: seq<Piece>)
    requires Separated(pieces) && pieces != [] && pieces[0].gap == ""
    requires NoBlank(Flat(pieces))
    ensures |pieces| == 1 && pieces[0].word == Flat(pieces)
  {
    if |pieces| > 1 {
      SecondGapShows(pieces);
    }
    assert Flat(pieces[1..]) == "";
    assert pieces[0].gap + pieces[0].word == pieces[0].word;
  }

  /** Every output line of a wrapped line would itself be left alone. */
  lemma OutputLinesAreStable(line: string, width: nat, l: string)
    requires l in WrapLines(line, width)
    ensures WrapLines(l, width) == [l]
  {
    if |Indent(line)| < width {
      WrapFits(line, width, l);
      LeftAlone(l, width);
    }
  }

  /** The lines that `f` makes of each of the lines, one after the other. */
  function Concat(f: string -> seq<string>, lines: seq<string>): seq<string> {
    if lines == [] then [] else f(lines[0]) + Concat(f, lines[1..])
  }

  function Each(g: string -> string, lines: seq<string>): (r: seq<string>)
    ensures |r| == |lines| && forall i | 0 <= i < |r| :: r[i] == g(lines[i])
  {
    if lines == [] then [] else [g(lines[0])] + Each(g, lines[1..])
  }

  function Breaker(width: nat): string -> seq<string> { l => WrapLines(l, width) }

  function Wrapper(width: nat): string -> string { l => WrapLine(l, width) }

  /** All the output lines of a text. */
  function AllLines(lines: seq<string>, width: nat): seq<string> { Concat(Breaker(width), lines) }

  lemma {:induction false} JoinOfConcat(a: seq<string>, b: seq<string>)
    requires |a| >= 1 && |b| >= 1
    ensures Join(a + b, '\n') == Join(a, '\n') + "\n" + Join(b, '\n')
  {
    assert (a + b)[0] == a[0];
    if |a| == 1 {
      assert (a + b)[1..] == b;
    } else {
      assert (a + b)[1..] == a[1..] + b;
      JoinOfConcat(a[1..], b);
      Regroup(a[0] + "\n", Join(a[1..], '\n'), "\n" + Join(b, '\n'));
      Regroup(Join(a[1..], '\n'), "\n", Join(b, '\n'));
      Regroup(Join(a, '\n'), "\n", Join(b, '\n'));
    }
  }

  lemma {:induction false} JoinOfEach(f: string -> seq<string>, g: string -> string, lines: seq<string>)
    requires |lines| >= 1 && forall l | l in lines :: |f(l)| >= 1 && g(l) == Join(f(l), '\n')
    ensures |Concat(f, lines)| >= 1 && Join(Each(g, lines), '\n') == Join(Concat(f, lines), '\n')
    decreases |lines|
  {
    assert lines[0] in lines;
    var rest := lines[1..];
    if rest == [] {
      assert f(lines[0]) + [] == f(lines[0]);
    } else {
      assert forall l | l in rest :: l in lines;
      assert Each(g, lines)[1..] == Each(g, rest);
      JoinOfEach(f, g, rest);
      JoinOfConcat(f(lines[0]), Concat(f, rest));
    }
  }

  lemma WrapIsEach(text: string, width: nat)
    requires width > 0
    ensures Wrap(text, width) == Join(Each(Wrapper(width), Split(text, '\n')), '\n')
  {
    var lines := Split(text, '\n');
    assert Each(Wrapper(width), lines) == seq(|lines|, i requires 0 <= i < |lines| => WrapLine(lines[i], width));
  }

  lemma WrapIsAllLines(text: string, width: nat)
    requires width > 0
    ensures AllLines(Split(text, '\n'), width) != []
    ensures Wrap(text, width) == Join(AllLines(Split(text, '\n'), width), '\n')
  {
    WrapIsEach(text, width);
    JoinOfEach(Breaker(width), Wrapper(width), Split(text, '\n'));
  }

  predicate OneLine(s: string) { '\n' !in s }

  lemma PartsOfOneLine(a: string, b: string, c: string)
    requires OneLine(a + b + c)
    ensures OneLine(a) && OneLine(b) && OneLine(c)
  {
    var s := a + b + c;
    forall i | 0 <= i < |a| ensures a[i] != '\n' { assert s[i] == a[i]; }
    forall i | 0 <= i < |b| ensures b[i] != '\n' { assert s[|a| + i] == b[i]; }
    forall i | 0 <= i < |c| ensures c[i] != '\n' { assert s[|a| + |b| + i] == c[i]; }
  }

  /** Wrapping a line puts no newline inside an output line. */
  lemma {:induction false} LayoutHasNoNewline(indent: string, cur: string, pieces: seq<Piece>, breaks: seq<bool>)
    requires |breaks| == |pieces| && OneLine(indent) && OneLine(cur) && OneLine(Flat(pieces))
    ensures forall l | l in Layout(indent, cur, pieces, breaks) :: OneLine(l)
    decreases |pieces|
  {
    if pieces != [] {
      var p := pieces[0];
      PartsOfOneLine(p.gap, p.word, Flat(pieces[1..]));
      LayoutHasNoNewline(indent, cur + p.gap + p.word, pieces[1..], breaks[1..]);
      LayoutHasNoNewline(indent, indent + p.word, pieces[1..], breaks[1..]);
    }
  }

  lemma OutputLinesAreLines(line: string, width: nat, l: string)
    requires OneLine(line) && l in WrapLines(line, width)
    ensures OneLine(l)
  {
    var indent := Indent(line);
    var p := Parse(line[|indent|..]);
    var breaks := WrapOnlyReplacesGaps(line, width);
    LineIsItsPieces(line);
    PartsOfOneLine(indent, Flat(p.pieces), p.trailing);
    LayoutHasNoNewline(indent, indent, p.pieces, breaks);
    OnLastIsOneLine(Layout(indent, indent, p.pieces, breaks), p.trailing, l);
  }

  lemma OnLastIsOneLine(lines: seq<string>, trailing: string, l: string)
    requires |lines| >= 1 && (forall x | x in lines :: OneLine(x)) && OneLine(trailing)
    requires l in OnLast(lines, trailing)
    ensures OneLine(l)
  {
    assert OneLine(lines[|lines| - 1]);
  }

  lemma {:induction false} EachIsStable(f: string -> seq<string>, lines: seq<string>)
    requires forall l, m | l in lines && m in f(l) :: OneLine(m) && f(m) == [m]
    ensures forall m | m in Concat(f, lines) :: OneLine(m) && f(m) == [m]
    decreases |lines|
  {
    if lines != [] {
      assert lines[0] in lines && forall l | l in lines[1..] :: l in lines;
      EachIsStable(f, lines[1..]);
    }
  }

  lemma {:induction false} StableLinesStay(f: string -> seq<string>, lines: seq<string>)
    requires forall l | l in lines :: f(l) == [l]
    ensures Concat(f, lines) == lines
    decreases |lines|
  {
    if lines != [] {
      assert lines[0] in lines && forall l | l in lines[1..] :: l in lines;
      StableLinesStay(f, lines[1..]);
    }
  }

  lemma AllLinesAreStable(lines: seq<string>, width: nat)
    requires forall l | l in lines :: OneLine(l)
    ensures forall m | m in AllLines(lines, width) :: OneLine(m)
    ensures AllLines(AllLines(lines, width), width) == AllLines(lines, width)
  {
    var f := Breaker(width);
    forall l, m | l in lines && m in f(l)
      ensures OneLine(m) && f(m) == [m]
    {
      OutputLinesAreLines(l, width, m);
      OutputLinesAreStable(l, width, m);
    }
    EachIsStable(f, lines);
    StableLinesStay(f, Concat(f, lines));
  }

  /** Wrapping twice is wrapping once. */
  lemma WrapIsIdempotent(text: string, width: int)
    ensures Wrap(Wrap(text, width), width) == Wrap(text, width)
  {
    if width > 0 {
      var lines := AllLines(Split(text, '\n'), width);
      WrapIsAllLines(text, width);
      AllLinesAreStable(Split(text, '\n'), width);
      SplitOfJoin(lines, '\n');
      WrapIsAllLines(Wrap(text, width), width);
    }
  }

  // ----- texts left alone -----

  lemma {:induction false} ConcatGrows(f: string -> seq<string>, lines: seq<string>)
    requires forall l | l in lines :: |f(l)| >= 1
    ensures |Concat(f, lines)| >= |lines|
    decreases |lines|
  {
    if lines != [] {
      assert lines[0] in lines && forall l | l in lines[1..] :: l in lines;
      ConcatGrows(f, lines[1..]);
    }
  }

  lemma {:induction false} ConcatSame(f: string -> seq<string>, lines: seq<string>)
    requires forall l | l in lines :: |f(l)| >= 1
    ensures Concat(f, lines) == lines <==> forall l | l in lines :: f(l) == [l]
    decreases |lines|
  {
    if lines != [] {
      var l, rest := lines[0], lines[1..];
      assert lines == [l] + rest && l in lines && forall x | x in rest :: x in lines;
      assert forall x | x in lines :: x == l || x in rest;
      ConcatSame(f, rest);
      ConcatGrows(f, rest);
      if Concat(f, lines) == lines {
        assert |f(l)| == 1 && f(l) == lines[..1] && Concat(f, rest) == lines[1..];
      }
    }
  }

  /** A text is left as it is exactly when there is no width to fold to, or every line of it fits without its trailing
      blanks, or is one word, or is indented by the whole width. */
  lemma WrapLeavesAlone(text: string, width: int)
    ensures Wrap(text, width) == text <==>
              width <= 0
              || forall l | l in Split(text, '\n') ::
                   |Indent(l)| >= width || Fits(Indent(l), width, TrimRight(l))
  {
    if width > 0 {
      var lines := Split(text, '\n');
      JoinOfSplit(text, '\n');
      WrapIsAllLines(text, width);
      AllLinesAreStable(lines, width);
      SplitOfJoin(AllLines(lines, width), '\n');
      ConcatSame(Breaker(width), lines);
      forall l | l in lines
        ensures WrapLines(l, width) == [l] <==> |Indent(l)| >= width || Fits(Indent(l), width, TrimRight(l))
      {
        if |Indent(l)| < width { LeftAlone(l, width); }
      }
    }
  }

  // ----- the words survive -----

  predicate Separator(c: char) { Blank(c) || c == '\n' }

  /** The words of `s` when `word` has been read just before it. */
  function WordsFrom(s: string, word: string): seq<string>
    decreases |s|
  {
    var flushed := if word == "" then [] else [word];
    if s == "" then flushed
    else if Separator(s[0]) then flushed + WordsFrom(s[1..], "")
    else WordsFrom(s[1..], word + [s[0]])
  }

  function Words(s: string): seq<string> { WordsFrom(s, "") }

  lemma {:induction false} WordsAtSeparator(a: string, c: char, b: string, word: string)
    requires Separator(c)
    ensures WordsFrom(a + [c] + b, word) == WordsFrom(a, word) + Words(b)
    decreases |a|
  {
    var s := a + [c] + b;
    if a == "" {
      assert s[1..] == b;
    } else {
      assert s[1..] == a[1..] + [c] + b;
      WordsAtSeparator(a[1..], c, b, if Separator(a[0]) then "" else word + [a[0]]);
    }
  }

  lemma {:induction false} LeadingBlanksHoldNoWords(blanks: string, b: string)
    requires AllBlank(blanks)
    ensures Words(blanks + b) == Words(b)
    decreases |blanks|
  {
    if blanks == "" {
      assert blanks + b == b;
    } else {
      assert (blanks + b)[1..] == blanks[1..] + b;
      LeadingBlanksHoldNoWords(blanks[1..], b);
    }
  }

  lemma WordsAroundGap(a: string, gap: string, b: string)
    requires gap != "" && AllBlank(gap)
    ensures Words(a + gap + b) == Words(a) + Words(b)
  {
    assert a + gap + b == a + [gap[0]] + (gap[1..] + b);
    WordsAtSeparator(a, gap[0], gap[1..] + b, "");
    LeadingBlanksHoldNoWords(gap[1..], b);
  }

  /** A gap replaced by a newline and the indent. */
  lemma BreakKeepsWords(indent: string, cur: string, gap: string, after: string, joined: string)
    requires AllBlank(indent) && AllBlank(gap) && gap != ""
    requires Words(joined) == Words(indent + after)
    ensures Words(cur + "\n" + joined) == Words(cur + gap + after)
  {
    WordsAtSeparator(cur, '\n', joined, "");
    LeadingBlanksHoldNoWords(indent, after);
    WordsAroundGap(cur, gap, after);
  }

  /** Whatever the breaks, the layout reads as the same words as the line it came from. */
  lemma {:induction false} LayoutKeepsWords(indent: string, cur: string, pieces: seq<Piece>, trailing: string,
                                            breaks: seq<bool>)
    requires AllBlank(indent) && Separated(pieces) && AtGaps(pieces, breaks)
    ensures Words(Join(OnLast(Layout(indent, cur, pieces, breaks), trailing), '\n'))
            == Words(cur + Flat(pieces) + trailing)
    decreases |pieces|
  {
    if pieces == [] {
      assert cur + "" == cur;
    } else {
      var p := pieces[0];
      var tail := Flat(pieces[1..]);
      SeparatedTail(pieces);
      FlatRegroups(cur, p, tail, trailing);
      if breaks[0] {
        var lines := Layout(indent, indent + p.word, pieces[1..], breaks[1..]);
        LayoutKeepsWords(indent, indent + p.word, pieces[1..], trailing, breaks[1..]);
        JoinCons(cur, lines, trailing);
        FlatRegroups(indent, p.(gap := ""), tail, trailing);
        BreakKeepsWords(indent, cur, p.gap, p.word + tail + trailing, Join(OnLast(lines, trailing), '\n'));
      } else {
        LayoutKeepsWords(indent, cur + p.gap + p.word, pieces[1..], trailing, breaks[1..]);
      }
    }
  }

  lemma SeparatedTail(pieces: seq<Piece>)
    requires Separated(pieces) && pieces != []
    ensures WellFormed(pieces[0]) && Separated(pieces[1..])
  {
    assert forall x | x in pieces[1..] :: x in pieces;
  }

  lemma FlatRegroups(cur: string, p: Piece, tail: string, trailing: string)
    ensures cur + (p.gap + p.word + tail) + trailing == cur + p.gap + p.word + tail + trailing
    ensures cur + p.gap + p.word + tail + trailing == cur + p.gap + (p.word + tail + trailing)
    ensures p.gap == "" ==> cur + p.gap == cur
  {
  }

  lemma WrapLineKeepsWords(line: string, width: nat)
    ensures Words(WrapLine(line, width)) == Words(line)
  {
    var indent := Indent(line);
    var p := Parse(line[|indent|..]);
    var breaks := WrapOnlyReplacesGaps(line, width);
    LayoutKeepsWords(indent, indent, p.pieces, p.trailing, breaks);
    LineIsItsPieces(line);
  }

  lemma {:induction false} EachKeepsWords(g: string -> string, lines: seq<string>)
    requires |lines| >= 1 && forall l | l in lines :: Words(g(l)) == Words(l)
    ensures Words(Join(Each(g, lines), '\n')) == Words(Join(lines, '\n'))
    decreases |lines|
  {
    assert lines[0] in lines;
    if |lines| > 1 {
      var rest := lines[1..];
      assert forall l | l in rest :: l in lines;
      assert Each(g, lines)[1..] == Each(g, rest);
      EachKeepsWords(g, rest);
      WordsAtSeparator(g(lines[0]), '\n', Join(Each(g, rest), '\n'), "");
      WordsAtSeparator(lines[0], '\n', Join(rest, '\n'), "");
    }
  }

  /** Wrapping folds a text and says the same: the same words, in the same order. */
  lemma WrapKeepsTheWords(text: string, width: int)
    ensures Words(Wrap(text, width)) == Words(text)
  {
    if width > 0 {
      var lines := Split(text, '\n');
      JoinOfSplit(text, '\n');
      forall l | l in lines ensures Words(Wrapper(width)(l)) == Words(l) { WrapLineKeepsWords(l, width); }
      EachKeepsWords(Wrapper(width), lines);
      WrapIsEach(text, width);
    }
  }
}
