/** Greedy word wrapping for a character terminal (internal/terminal/terminal.go).
    Text is a sequence of runes: one `char` is one column. */
module Terminal {
  import opened Text

  predicate Blank(c: char) { c == ' ' || c == '\t' }

  predicate AllBlank(s: string) { forall i | 0 <= i < |s| :: Blank(s[i]) }

  predicate NoBlank(s: string) { forall i | 0 <= i < |s| :: !Blank(s[i]) }

  function SkipBlanks(s: string, i: nat): (n: nat)
    requires i <= |s|
    ensures i <= n <= |s|
    ensures forall j | i <= j < n :: Blank(s[j])
    ensures n < |s| ==> !Blank(s[n])
    decreases |s| - i
  {
    if i < |s| && Blank(s[i]) then SkipBlanks(s, i + 1) else i
  }

  function SkipWord(s: string, i: nat): (n: nat)
    requires i <= |s|
    ensures i <= n <= |s|
    ensures forall j | i <= j < n :: !Blank(s[j])
    ensures n < |s| ==> Blank(s[n])
    decreases |s| - i
  {
    if i < |s| && !Blank(s[i]) then SkipWord(s, i + 1) else i
  }

  /** How many leading characters TrimLeft would remove. */
  function BlankPrefix(s: string): nat { SkipBlanks(s, 0) }

  /** IndexAny of a blank, or the whole length when there is none. */
  function WordPrefix(s: string): nat { SkipWord(s, 0) }

  function Indent(line: string): string { line[..BlankPrefix(line)] }

  /** The length of `s[..n]` without its trailing blanks. */
  function TrimmedLength(s: string, n: nat): (r: nat)
    requires n <= |s|
    ensures r <= n
    ensures forall j | r <= j < n :: Blank(s[j])
    ensures r > 0 ==> !Blank(s[r - 1])
  {
    if n > 0 && Blank(s[n - 1]) then TrimmedLength(s, n - 1) else n
  }

  function TrimRight(s: string): string { s[..TrimmedLength(s, |s|)] }

  // ----- a line as words and the gaps before them -----

  datatype Piece = Piece(gap: string, word: string)

  predicate WellFormed(p: Piece) { AllBlank(p.gap) && p.word != "" && NoBlank(p.word) }

  datatype Parsed = Parsed(pieces: seq<Piece>, trailing: string)

  /** The first word of `rest`, the gap before it and what follows it. */
  datatype First = First(gap: string, word: string, after: string)

  function FirstWord(rest: string): (f: First)
    requires BlankPrefix(rest) < |rest|
    ensures rest == f.gap + f.word + f.after
    ensures WellFormed(Piece(f.gap, f.word)) && f.gap == Indent(rest)
    ensures f.after != "" ==> Blank(f.after[0])
  {
    var n := BlankPrefix(rest);
    var m := WordPrefix(rest[n..]);
    WordAfterBlanks(rest, n, m);
    First(rest[..n], rest[n..n + m], rest[n + m..])
  }

  lemma WordAfterBlanks(rest: string, n: nat, m: nat)
    requires n == BlankPrefix(rest) < |rest| && m == WordPrefix(rest[n..])
    ensures m > 0 && n + m <= |rest| && rest == rest[..n] + rest[n..n + m] + rest[n + m..]
    ensures AllBlank(rest[..n]) && NoBlank(rest[n..n + m])
    ensures rest[n + m..] != "" ==> Blank(rest[n + m])
  {
    assert rest[n..n + m] == rest[n..][..m];
    if n + m < |rest| { assert rest[n + m] == rest[n..][m]; }
  }

  function Parse(rest: string): Parsed
    decreases |rest|
  {
    if BlankPrefix(rest) == |rest| then Parsed([], rest)
    else
      var f := FirstWord(rest);
      var q := Parse(f.after);
      Parsed([Piece(f.gap, f.word)] + q.pieces, q.trailing)
  }

  lemma ParseWord(rest: string, f: First)
    requires BlankPrefix(rest) < |rest| && f == FirstWord(rest)
    ensures Parse(rest) == Parsed([Piece(f.gap, f.word)] + Parse(f.after).pieces, Parse(f.after).trailing)
  {
  }

  lemma ParseBlanks(rest: string)
    requires BlankPrefix(rest) == |rest|
    ensures AllBlank(rest) && Parse(rest) == Parsed([], rest)
  {
  }

  /** The pieces written out on one line. */
  function Flat(pieces: seq<Piece>): string {
    if pieces == [] then "" else pieces[0].gap + pieces[0].word + Flat(pieces[1..])
  }

  /** Every piece after the first follows a real gap. */
  predicate Separated(pieces: seq<Piece>) {
    && (forall x | x in pieces :: WellFormed(x))
    && (forall i | 0 < i < |pieces| :: pieces[i].gap != "")
  }

  lemma Regroup(a: string, b: string, c: string)
    ensures (a + b) + c == a + (b + c)
  {
  }

  lemma Slices(s: string, i: nat, j: nat)
    requires i <= j <= |s|
    ensures s == s[..i] + s[i..j] + s[j..]
  {
  }

  /** Nothing is lost by parsing: the pieces and the trailing blanks are the line. */
  lemma {:induction false} ParseIsExact(rest: string)
    ensures Flat(Parse(rest).pieces) + Parse(rest).trailing == rest
    ensures AllBlank(Parse(rest).trailing)
    decreases |rest|
  {
    if BlankPrefix(rest) == |rest| {
      ParseBlanks(rest);
      assert Flat([]) + rest == rest;
    } else {
      var f := FirstWord(rest);
      ParseWord(rest, f);
      ParseIsExact(f.after);
      FlatCons(f, Parse(f.after));
    }
  }

  lemma FlatCons(f: First, q: Parsed)
    ensures Flat([Piece(f.gap, f.word)] + q.pieces) + q.trailing == f.gap + f.word + (Flat(q.pieces) + q.trailing)
  {
    assert ([Piece(f.gap, f.word)] + q.pieces)[1..] == q.pieces;
    Regroup(f.gap + f.word, Flat(q.pieces), q.trailing);
  }

  lemma {:induction false} ParseIsSeparated(rest: string)
    ensures Separated(Parse(rest).pieces)
    ensures Parse(rest).pieces != [] ==> Parse(rest).pieces[0].gap == Indent(rest)
    decreases |rest|
  {
    if BlankPrefix(rest) == |rest| {
      ParseBlanks(rest);
    } else {
      var f := FirstWord(rest);
      ParseWord(rest, f);
      ParseIsSeparated(f.after);
      FirstGap(f.after);
      SeparatedCons(Piece(f.gap, f.word), Parse(f.after).pieces);
    }
  }

  /** Gaps and trailing blanks are spaces and tabs, and words have none. */
  lemma GapsAndWords(line: string)
    ensures forall p | p in Parse(line).pieces ::
              (forall c | c in p.gap :: c == ' ' || c == '\t') && ' ' !in p.word && '\t' !in p.word && p.word != ""
    ensures forall c | c in Parse(line).trailing :: c == ' ' || c == '\t'
  {
    ParseIsExact(line);
    ParseIsSeparated(line);
    forall p | p in Parse(line).pieces
      ensures (forall c | c in p.gap :: c == ' ' || c == '\t') && ' ' !in p.word && '\t' !in p.word && p.word != ""
    {
      assert WellFormed(p);
    }
  }

  /** The indent is all the spaces and tabs a line starts with. */
  lemma IndentIsLeadingBlanks(line: string)
    ensures Indent(line) <= line && forall c | c in Indent(line) :: c == ' ' || c == '\t'
    ensures |Indent(line)| < |line| ==> line[|Indent(line)|] != ' ' && line[|Indent(line)|] != '\t'
  {
  }

  lemma FirstGap(after: string)
    requires after != "" ==> Blank(after[0])
    ensures after != "" ==> Indent(after) != ""
    ensures after == "" ==> Parse(after).pieces == []
  {
  }

  lemma SeparatedCons(p: Piece, pieces: seq<Piece>)
    requires WellFormed(p) && Separated(pieces)
    requires pieces != [] ==> pieces[0].gap != ""
    ensures Separated([p] + pieces)
  {
  }

  // ----- layouts: every way of breaking a line at its gaps -----

  /** The output lines when a newline and the indent replace the gap before piece `i` exactly where
      `breaks[i]`; `cur` is the line being built. */
  function Layout(indent: string, cur: string, pieces: seq<Piece>, breaks: seq<bool>): (lines: seq<string>)
    requires |breaks| == |pieces|
    ensures |lines| >= 1
    decreases |pieces|
  {
    if pieces == [] then [cur]
    else
      var p := pieces[0];
      if breaks[0] then [cur] + Layout(indent, indent + p.word, pieces[1..], breaks[1..])
      else Layout(indent, cur + p.gap + p.word, pieces[1..], breaks[1..])
  }

  /** A break replaces a gap, so it needs one. */
  predicate AtGaps(pieces: seq<Piece>, breaks: seq<bool>) {
    |breaks| == |pieces| && forall i | 0 <= i < |pieces| && breaks[i] :: pieces[i].gap != ""
  }

  predicate OneWord(indent: string, line: string) {
    indent <= line && NoBlank(line[|indent|..])
  }

  /** What the width asks of an output line: it fits, or it is a single word too long to. */
  predicate Fits(indent: string, width: nat, line: string) {
    |line| <= width || OneWord(indent, line)
  }

  predicate AllFit(indent: string, width: nat, lines: seq<string>) {
    forall l | l in lines :: Fits(indent, width, l)
  }

  // ----- the greedy choice -----

  function GreedyBreaks(indent: string, width: nat, cur: string, pieces: seq<Piece>): (breaks: seq<bool>)
    ensures |breaks| == |pieces|
    decreases |pieces|
  {
    if pieces == [] then []
    else
      var p := pieces[0];
      if cur == indent || |cur| + |p.gap| + |p.word| <= width
      then [false] + GreedyBreaks(indent, width, cur + p.gap + p.word, pieces[1..])
      else [true] + GreedyBreaks(indent, width, indent + p.word, pieces[1..])
  }

  function Fold(indent: string, width: nat, cur: string, pieces: seq<Piece>): (lines: seq<string>)
    ensures |lines| >= 1
  {
    Layout(indent, cur, pieces, GreedyBreaks(indent, width, cur, pieces))
  }

  lemma FoldStep(indent: string, width: nat, cur: string, pieces: seq<Piece>)
    requires pieces != []
    ensures var p := pieces[0];
            Fold(indent, width, cur, pieces) ==
            if cur == indent || |cur| + |p.gap| + |p.word| <= width
            then Fold(indent, width, cur + p.gap + p.word, pieces[1..])
            else [cur] + Fold(indent, width, indent + p.word, pieces[1..])
  {
    var b := GreedyBreaks(indent, width, cur, pieces);
    var p := pieces[0];
    if cur == indent || |cur| + |p.gap| + |p.word| <= width {
      assert b[1..] == GreedyBreaks(indent, width, cur + p.gap + p.word, pieces[1..]);
    } else {
      assert b[1..] == GreedyBreaks(indent, width, indent + p.word, pieces[1..]);
    }
  }

  /** Blanks at the end of the line go to the last output line. */
  function OnLast(lines: seq<string>, trailing: string): seq<string>
    requires |lines| >= 1
  {
    lines[..|lines| - 1] + [lines[|lines| - 1] + trailing]
  }

  /** wrapLine, as the sequence of its output lines. */
  function WrapLines(line: string, width: nat): (lines: seq<string>)
    ensures |lines| >= 1
  {
    var indent := Indent(line);
    if |line| <= width || |indent| >= width then [line]
    else
      var p := Parse(line[|indent|..]);
      OnLast(Fold(indent, width, indent, p.pieces), p.trailing)
  }

  function WrapLine(line: string, width: nat): string {
    Join(WrapLines(line, width), '\n')
  }

  /** Wrap: fold every line of the text. */
  function Wrap(text: string, width: int): string {
    if width <= 0 then text
    else
      var lines := Split(text, '\n');
      Join(seq(|lines|, i requires 0 <= i < |lines| => WrapLine(lines[i], width)), '\n')
  }

  // ----- the loops of the source -----

  /** What is still to be written when `cur` is the current line and `rest` is unread. */
  ghost function Pending(indent: string, width: nat, cur: string, rest: string): string {
    var p := Parse(rest);
    Join(OnLast(Fold(indent, width, cur, p.pieces), p.trailing), '\n')
  }

  lemma PendingTrailing(indent: string, width: nat, cur: string, rest: string)
    requires BlankPrefix(rest) == |rest|
    ensures Pending(indent, width, cur, rest) == cur + rest
  {
    ParseBlanks(rest);
    assert Fold(indent, width, cur, []) == [cur];
  }

  lemma PendingWord(indent: string, width: nat, cur: string, rest: string, f: First)
    requires BlankPrefix(rest) < |rest| && f == FirstWord(rest)
    ensures Pending(indent, width, cur, rest) ==
            if cur == indent || |cur| + |f.gap| + |f.word| <= width
            then Pending(indent, width, cur + f.gap + f.word, f.after)
            else cur + "\n" + Pending(indent, width, indent + f.word, f.after)
  {
    ParseWord(rest, f);
    FoldWord(indent, width, cur, f, Parse(f.after));
  }

  lemma FoldWord(indent: string, width: nat, cur: string, f: First, q: Parsed)
    ensures Join(OnLast(Fold(indent, width, cur, [Piece(f.gap, f.word)] + q.pieces), q.trailing), '\n') ==
            if cur == indent || |cur| + |f.gap| + |f.word| <= width
            then Join(OnLast(Fold(indent, width, cur + f.gap + f.word, q.pieces), q.trailing), '\n')
            else cur + "\n" + Join(OnLast(Fold(indent, width, indent + f.word, q.pieces), q.trailing), '\n')
  {
    var pieces := [Piece(f.gap, f.word)] + q.pieces;
    assert pieces[1..] == q.pieces;
    FoldStep(indent, width, cur, pieces);
    JoinCons(cur, Fold(indent, width, indent + f.word, q.pieces), q.trailing);
  }

  lemma JoinCons(head: string, lines: seq<string>, trailing: string)
    requires |lines| >= 1
    ensures Join(OnLast([head] + lines, trailing), '\n') == head + "\n" + Join(OnLast(lines, trailing), '\n')
  {
    var all := OnLast([head] + lines, trailing);
    assert all[0] == head && all[1..] == OnLast(lines, trailing);
  }

  /** What the loop still writes, one turn at a time. */
  ghost function Remaining(indent: string, width: nat, cur: string, rest: string): string
    decreases |rest|
  {
    if BlankPrefix(rest) == |rest| then cur + rest
    else
      var f := FirstWord(rest);
      if cur == indent || |cur| + |f.gap| + |f.word| <= width
      then Remaining(indent, width, cur + f.gap + f.word, f.after)
      else cur + "\n" + Remaining(indent, width, indent + f.word, f.after)
  }

  lemma {:induction false} RemainingIsPending(indent: string, width: nat, cur: string, rest: string)
    ensures Remaining(indent, width, cur, rest) == Pending(indent, width, cur, rest)
    decreases |rest|
  {
    if BlankPrefix(rest) == |rest| {
      PendingTrailing(indent, width, cur, rest);
    } else {
      var f := FirstWord(rest);
      PendingWord(indent, width, cur, rest, f);
      if cur == indent || |cur| + |f.gap| + |f.word| <= width {
        RemainingIsPending(indent, width, cur + f.gap + f.word, f.after);
      } else {
        RemainingIsPending(indent, width, indent + f.word, f.after);
      }
    }
  }

  lemma OneTurn(out: string, indent: string, width: nat, cur: string, rest: string, f: First)
    requires BlankPrefix(rest) < |rest| && f == FirstWord(rest)
    ensures out + Remaining(indent, width, cur, rest) ==
            if cur == indent || |cur| + |f.gap| + |f.word| <= width
            then out + Remaining(indent, width, cur + f.gap + f.word, f.after)
            else out + (cur + "\n") + Remaining(indent, width, indent + f.word, f.after)
  {
    Regroup(out, cur + "\n", Remaining(indent, width, indent + f.word, f.after));
  }

  lemma LastTurn(indent: string, width: nat, cur: string, rest: string)
    requires BlankPrefix(rest) == |rest|
    ensures Remaining(indent, width, cur, rest) == cur + rest
  {
  }

  lemma LineIsRemaining(line: string, width: nat)
    requires |line| > width && |Indent(line)| < width
    ensures Remaining(Indent(line), width, Indent(line), line[|Indent(line)|..]) == WrapLine(line, width)
  {
    RemainingIsPending(Indent(line), width, Indent(line), line[|Indent(line)|..]);
  }

  lemma IndentIsTrimmed(line: string)
    ensures BlankPrefix(line) <= |line| && line[..|line| - |line[BlankPrefix(line)..]|] == Indent(line)
  {
  }

  lemma LeftWhole(line: string, width: nat)
    requires |line| <= width || |Indent(line)| >= width
    ensures WrapLine(line, width) == line
  {
  }

  /** wrapLine. */
  method WrapLineImpl(line: string, width: nat) returns (r: string)
    ensures r == WrapLine(line, width)
  {
    if |line| <= width {
      LeftWhole(line, width);
      return line;
    }
    IndentIsTrimmed(line);
    var indent := line[..|line| - |line[BlankPrefix(line)..]|];
    if |indent| >= width {
      LeftWhole(line, width);
      return line;
    }
    r := FillLines(indent, width, line[|indent|..]);
    LineIsRemaining(line, width);
  }

  /** The loop of wrapLine. */
  method FillLines(indent: string, width: nat, words: string) returns (r: string)
    ensures r == Remaining(indent, width, indent, words)
  {
    var out, cur, curN, rest := "", indent, |indent|, words;
    ghost var wrapped := Remaining(indent, width, indent, words);
    while rest != ""
      invariant curN == |cur|
      invariant out + Remaining(indent, width, cur, rest) == wrapped
      decreases |rest|
    {
      var space := BlankPrefix(rest);
      if space == |rest| {
        LastTurn(indent, width, cur, rest);
        LastTurn(indent, width, cur + rest, "");
        cur, rest := cur + rest, "";
        break;
      }
      ghost var f := FirstWord(rest);
      OneTurn(out, indent, width, cur, rest, f);
      var gap := rest[..space];
      var end := WordPrefix(rest[space..]);
      var word, wordN := rest[space..space + end], end;
      rest := rest[space + end..];
      assert f == First(gap, word, rest);
      if (curN == |indent| && cur == indent) || curN + |gap| + wordN <= width {
        cur := cur + gap + word;
        curN := curN + |gap| + wordN;
      } else {
        out := out + (cur + "\n");
        cur, curN := indent + word, |indent| + wordN;
      }
    }
    LastTurn(indent, width, cur, "");
    r := out + cur;
  }

  method WrapImpl(text: string, width: int) returns (r: string)
    ensures r == Wrap(text, width)
  {
    if width <= 0 || text == "" {
      assert Split("", '\n') == [""];
      return text;
    }
    var lines := Split(text, '\n');
    ghost var before := lines;
    var i := 0;
    while i < |lines|
      invariant 0 <= i <= |lines| == |before|
      invariant forall j | 0 <= j < i :: lines[j] == WrapLine(before[j], width)
      invariant forall j | i <= j < |lines| :: lines[j] == before[j]
    {
      var wrapped := WrapLineImpl(lines[i], width);
      lines := lines[i := wrapped];
      i := i + 1;
    }
    assert lines == seq(|before|, j requires 0 <= j < |before| => WrapLine(before[j], width));
    r := Join(lines, '\n');
  }
}
