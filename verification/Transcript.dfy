/** The stored transcript (internal/game/transcript.go): bounded scrollback, trimmed at every append.
    A Go string is a sequence of bytes; here one `char` stands for one byte. */
module Transcript {
  import opened Text

  const MAX_TRANSCRIPT_BYTES: nat := 64 * 1024

  /** The first newline at or after position `i`, or `|s|` when there is none. */
  function FirstNewline(s: string, i: nat := 0): (k: nat)
    requires i <= |s|
    ensures i <= k <= |s|
    ensures k < |s| ==> s[k] == '\n'
    ensures forall j | i <= j < k :: s[j] != '\n'
    decreases |s| - i
  {
    if i == |s| || s[i] == '\n' then i else FirstNewline(s, i + 1)
  }

  /** trimTranscript: keep what fits of the end, from the start of a line where there is one. */
  function Trim(t: string, limit: nat): (r: string)
    ensures |r| <= limit
  {
    if |t| <= limit then t else FromLineStart(Last(t, limit))
  }

  function Last(s: string, n: nat): (r: string)
    requires n <= |s|
    ensures |r| == n
  {
    s[|s| - n..]
  }

  /** What follows the first newline; everything when there is none. */
  function FromLineStart(cut: string): (r: string)
    ensures |r| <= |cut|
  {
    var k := FirstNewline(cut);
    if k < |cut| then cut[k + 1..] else cut
  }

  /** What one exchange with the story adds. */
  function Exchange(command: string, output: string): string {
    command + "\n" + output
  }

  /** What a line answered by the application adds. */
  function Notice(echo: string, message: string): string {
    echo + "\n[" + message + "]\n\n>"
  }

  function AppendTranscript(t: string, command: string, output: string): string {
    Trim(t + Exchange(command, output), MAX_TRANSCRIPT_BYTES)
  }

  function AppendNotice(t: string, echo: string, message: string): string {
    Trim(t + Notice(echo, message), MAX_TRANSCRIPT_BYTES)
  }

  /** appendTranscript, with its builder. */
  method BuildTranscript(transcript: string, command: string, output: string) returns (r: string)
    ensures r == AppendTranscript(transcript, command, output)
  {
    var b := "";
    b := b + transcript;
    b := b + command;
    b := b + "\n";
    b := b + output;
    assert b == transcript + Exchange(command, output);
    r := Trim(b, MAX_TRANSCRIPT_BYTES);
  }

  /** appendNotice, with its builder. */
  method BuildNotice(transcript: string, echo: string, message: string) returns (r: string)
    ensures r == AppendNotice(transcript, echo, message)
  {
    var b := "";
    b := b + transcript;
    b := b + echo;
    b := b + "\n[";
    b := b + message;
    b := b + "]\n\n>";
    assert b == transcript + Notice(echo, message);
    r := Trim(b, MAX_TRANSCRIPT_BYTES);
  }

  // ----- what is appended, as lines -----

  function Lines(s: string): (lines: seq<string>)
    ensures |lines| >= 1
  {
    Split(s, '\n')
  }

  /** The last of the one and the first of the other are one line. */
  function Glued(xs: seq<string>, ys: seq<string>): seq<string>
    requires xs != [] && ys != []
  {
    var n := |xs| - 1;
    xs[..n] + [xs[n] + ys[0]] + ys[1..]
  }

  lemma GlueAfterBreak(xs: seq<string>, ys: seq<string>)
    requires xs != [] && ys != []
    ensures Glued([""] + xs, ys) == [""] + Glued(xs, ys)
  {
  }

  lemma GlueAfterChar(c: char, xs: seq<string>, ys: seq<string>)
    requires xs != [] && ys != []
    ensures Glued([[c] + xs[0]] + xs[1..], ys) == [[c] + Glued(xs, ys)[0]] + Glued(xs, ys)[1..]
  {
    if |xs| == 1 {
      assert [c] + xs[0] + ys[0] == [c] + (xs[0] + ys[0]);
    }
  }

  lemma {:induction false} LinesOfAppend(a: string, b: string)
    ensures Lines(a + b) == Glued(Lines(a), Lines(b))
    decreases |a|
  {
    if a == "" {
      assert a + b == b && "" + Lines(b)[0] == Lines(b)[0];
      assert Lines(a) == [""] && Glued([""], Lines(b)) == Lines(b);
    } else {
      assert (a + b)[1..] == a[1..] + b;
      LinesOfAppend(a[1..], b);
      GlueAfterBreak(Lines(a[1..]), Lines(b));
      GlueAfterChar(a[0], Lines(a[1..]), Lines(b));
    }
  }

  /** The command goes on the line of the prompt; what the story prints starts on the next line. */
  lemma ExchangeLines(t: string, command: string, output: string)
    requires '\n' !in command
    ensures var n := |Lines(t)| - 1;
            Lines(t + Exchange(command, output)) == Lines(t)[..n] + [Lines(t)[n] + command] + Lines(output)
  {
    SplitAtSeparator(command, output, '\n');
    LinesOfAppend(t, Exchange(command, output));
  }

  /** The echo goes on the line of the prompt; the message follows in brackets, an empty line, and a new prompt. */
  lemma NoticeLines(t: string, echo: string, message: string)
    requires '\n' !in echo && '\n' !in message
    ensures var n := |Lines(t)| - 1;
            Lines(t + Notice(echo, message))
            == Lines(t)[..n] + [Lines(t)[n] + echo, "[" + message + "]", "", ">"]
  {
    var bracketed := "[" + message + "]";
    assert Notice(echo, message) == echo + "\n" + (bracketed + "\n" + ("" + "\n" + ">"));
    SplitAtSeparator(echo, bracketed + "\n" + ("" + "\n" + ">"), '\n');
    SplitAtSeparator(bracketed, "" + "\n" + ">", '\n');
    SplitAtSeparator("", ">", '\n');
    SplitOfPlain(">", '\n');
    LinesOfAppend(t, Notice(echo, message));
  }

  // ----- one trim -----

  /** `r` is a suffix of `t` that starts at a line start. */
  predicate LineAlignedSuffix(r: string, t: string) {
    && |r| <= |t|
    && r == Last(t, |r|)
    && (|r| == |t| || t[|t| - |r| - 1] == '\n')
  }

  /** Trimming loses nothing that fits; otherwise, when the kept window holds a newline, it keeps exactly
      the longest line-aligned suffix strictly shorter than the limit (`r` ranges over all the others),
      and when it holds none it keeps the last `limit` bytes. */
  lemma TrimKeepsTheLongestAlignedSuffix(t: string, limit: nat, r: string)
    ensures |t| <= limit ==> Trim(t, limit) == t
    ensures |t| > limit && '\n' in Last(t, limit) ==>
              && LineAlignedSuffix(Trim(t, limit), t)
              && |Trim(t, limit)| < limit
              && (LineAlignedSuffix(r, t) && |r| < limit ==> |r| <= |Trim(t, limit)|)
    ensures |t| > limit && '\n' !in Last(t, limit) ==> Trim(t, limit) == Last(t, limit)
  {
    if |t| > limit {
      var cut := Last(t, limit);
      var k := FirstNewline(cut);
      if k < |cut| {
        CutAfterNewline(t, limit, k);
        if LineAlignedSuffix(r, t) && |r| < limit {
          assert cut[limit - |r| - 1] == '\n';
        }
      }
    }
  }

  lemma CutAfterNewline(t: string, limit: nat, k: nat)
    requires k < limit < |t| && Last(t, limit)[k] == '\n'
    ensures LineAlignedSuffix(Last(t, limit)[k + 1..], t)
  {
    SuffixOfSuffix(t, |t| - limit, k + 1);
  }

  lemma SuffixOfSuffix(s: string, i: nat, j: nat)
    requires i + j <= |s|
    ensures s[i..][j..] == s[i + j..]
  {
  }

  lemma SuffixAppend(s: string, i: nat, x: string)
    requires i <= |s|
    ensures s[i..] + x == (s + x)[i..]
  {
  }

  // ----- many trims -----

  /** The transcript after appending each of `xs` in turn, trimming every time. The opening itself is
      stored as the story printed it. */
  function Incremental(opening: string, xs: seq<string>, limit: nat): string {
    if xs == [] then opening
    else Trim(Incremental(opening, xs[..|xs| - 1], limit) + xs[|xs| - 1], limit)
  }

  /** The transcript nobody trimmed. */
  function History(opening: string, xs: seq<string>): string {
    if xs == [] then opening else History(opening, xs[..|xs| - 1]) + xs[|xs| - 1]
  }

  /** The one way repeated trimming may differ from a single trim: it keeps one more line, because that
      line and everything after it fill the limit exactly. */
  predicate ExactFit(t: string, h: string, limit: nat) {
    |t| == limit && LineAlignedSuffix(t, h)
  }

  predicate Agrees(t: string, h: string, limit: nat) {
    t == h || t == Trim(h, limit) || ExactFit(t, h, limit)
  }

  /** One append: the trimmed transcript and the untrimmed history keep agreeing. */
  lemma AppendKeepsAgreement(t: string, h: string, x: string, limit: nat)
    requires Agrees(t, h, limit)
    ensures Trim(t + x, limit) == Trim(h + x, limit) || ExactFit(Trim(t + x, limit), h + x, limit)
  {
    if t != h {
      TrimIsASuffix(h, limit);
      if |t + x| > limit {
        SameWindow(t, h, x, limit);
      } else if !LineAlignedSuffix(t, h) {
        assert |t| == limit && x == "";
        assert t + x == t && h + x == h;
      } else {
        AlignedAppend(t, h, x);
        if |t + x| < limit {
          SameFirstNewline(t, h, x, limit);
        }
      }
    }
  }

  lemma SameWindow(t: string, h: string, x: string, limit: nat)
    requires |t| <= |h| && t == Last(h, |t|) && |t + x| > limit
    ensures Trim(t + x, limit) == Trim(h + x, limit)
  {
    var k := |h| - |t|;
    SuffixAppend(h, k, x);
    assert t + x == (h + x)[k..];
    TrimOfSuffix(h + x, k, limit);
  }

  lemma TrimOfSuffix(g: string, k: nat, limit: nat)
    requires k + limit < |g|
    ensures Trim(g[k..], limit) == Trim(g, limit)
  {
    LastOfSuffix(g, k, limit);
  }

  lemma LastOfSuffix(g: string, k: nat, n: nat)
    requires k + n <= |g|
    ensures Last(g[k..], n) == Last(g, n)
  {
    SuffixOfSuffix(g, k, |g| - k - n);
  }

  lemma AlignedAppend(t: string, h: string, x: string)
    requires LineAlignedSuffix(t, h)
    ensures LineAlignedSuffix(t + x, h + x)
  {
    SuffixAppend(h, |h| - |t|, x);
    if |t| < |h| {
      assert (h + x)[|h| - |t| - 1] == h[|h| - |t| - 1];
    }
  }

  lemma TrimIsASuffix(h: string, limit: nat)
    ensures |Trim(h, limit)| <= |h| && Trim(h, limit) == Last(h, |Trim(h, limit)|)
    ensures LineAlignedSuffix(Trim(h, limit), h) || (|Trim(h, limit)| == limit && '\n' !in Trim(h, limit))
  {
    TrimKeepsTheLongestAlignedSuffix(h, limit, h);
  }

  lemma SameFirstNewline(t: string, h: string, x: string, limit: nat)
    requires t != h && t == Trim(h, limit) && |t + x| < limit
    ensures Trim(h + x, limit) == t + x
  {
    var before := Last(h, limit);
    assert FirstNewline(before) < |before|;
    LastSlides(h, x, limit);
    LineStartSlides(before, |x|, x);
  }

  lemma LastSlides(h: string, x: string, limit: nat)
    requires |x| <= limit <= |h|
    ensures Last(h + x, limit) == Last(h, limit)[|x|..] + x
  {
    SuffixOfSuffix(h, |h| - limit, |x|);
    SuffixAppend(h, |h| - limit + |x|, x);
  }

  lemma {:induction false} FirstNewlineIs(s: string, i: nat, k: nat)
    requires i <= k < |s| && s[k] == '\n' && forall j | i <= j < k :: s[j] != '\n'
    ensures FirstNewline(s, i) == k
    decreases k - i
  {
    if i < k {
      FirstNewlineIs(s, i + 1, k);
    }
  }

  lemma LineStartSlides(cut: string, m: nat, x: string)
    requires m <= FirstNewline(cut) < |cut|
    ensures FromLineStart(cut[m..] + x) == FromLineStart(cut) + x
  {
    var head, rest := cut[..FirstNewline(cut)], FromLineStart(cut);
    SplitAtNewline(cut);
    DropBeforeNewline(head, rest, m, x);
    AfterNewline(head[m..], rest + x);
  }

  lemma SplitAtNewline(cut: string)
    requires FirstNewline(cut) < |cut|
    ensures cut == cut[..FirstNewline(cut)] + "\n" + FromLineStart(cut)
    ensures '\n' !in cut[..FirstNewline(cut)]
  {
    CutAt(cut, FirstNewline(cut));
  }

  lemma CutAt(s: string, k: nat)
    requires k < |s|
    ensures s == s[..k] + [s[k]] + s[k + 1..]
  {
  }

  lemma DropBeforeNewline(head: string, rest: string, m: nat, x: string)
    requires m <= |head|
    ensures (head + "\n" + rest)[m..] + x == head[m..] + "\n" + (rest + x)
  {
  }

  lemma AfterNewline(head: string, rest: string)
    requires '\n' !in head
    ensures FromLineStart(head + "\n" + rest) == rest
  {
    var s := head + "\n" + rest;
    assert forall j | 0 <= j < |head| :: s[j] == head[j];
    FirstNewlineIs(s, 0, |head|);
  }

  /** After any number of appends the incrementally trimmed transcript is the whole history trimmed
      once, or is instead a line-aligned suffix of it of exactly `limit` bytes. */
  lemma {:induction false} IncrementalTrimming(opening: string, xs: seq<string>, limit: nat)
    requires |xs| > 0
    ensures var t, h := Incremental(opening, xs, limit), History(opening, xs);
            t == Trim(h, limit) || ExactFit(t, h, limit)
  {
    var n := |xs| - 1;
    if n > 0 {
      IncrementalTrimming(opening, xs[..n], limit);
    } else {
      assert xs[..0] == [];
    }
    AppendKeepsAgreement(Incremental(opening, xs[..n], limit), History(opening, xs[..n]), xs[n], limit);
  }

  /** Exactly when the two differ. Every real append holds a newline (`Exchange`, `Notice`), and then an
      append to a transcript that agrees with its history breaks the agreement precisely when lines were
      already lost and what was kept plus the new text fills the limit to the byte. */
  lemma DivergenceCondition(h: string, x: string, limit: nat)
    requires '\n' in x
    ensures var t := Trim(h, limit);
            Trim(t + x, limit) == Trim(h + x, limit) <==> !(|h| > limit && |t| + |x| == limit)
  {
    var t := Trim(h, limit);
    TrimIsASuffix(h, limit);
    if |h| > limit && |t| + |x| == limit {
      ExactFitDiffers(t, h, x, limit);
    } else if |h| > limit && |t| + |x| < limit {
      SameFirstNewline(t, h, x, limit);
    } else {
      AppendKeepsAgreement(t, h, x, limit);
    }
  }

  lemma ExactFitDiffers(t: string, h: string, x: string, limit: nat)
    requires '\n' in x && |h| > limit && |t| + |x| == limit
    ensures Trim(t + x, limit) != Trim(h + x, limit)
  {
    var g := h + x;
    var cut := Last(g, limit);
    var i :| 0 <= i < |x| && x[i] == '\n';
    assert cut[|t| + i] == '\n';
  }

  /** Over any number of appends that each hold a newline, as every real one does: the incrementally trimmed
      transcript is not the whole history trimmed once, exactly when before the last append lines were already
      lost and what was kept plus the new text fills the limit to the byte. */
  lemma DivergesExactlyWhen(opening: string, xs: seq<string>, limit: nat)
    requires xs != [] && forall x | x in xs :: '\n' in x
    ensures var n := |xs| - 1;
            Incremental(opening, xs, limit) != Trim(History(opening, xs), limit) <==>
              |History(opening, xs[..n])| > limit && |Incremental(opening, xs[..n], limit)| + |xs[n]| == limit
  {
    var n := |xs| - 1;
    var t, h, x := Incremental(opening, xs[..n], limit), History(opening, xs[..n]), xs[n];
    assert x in xs;
    if n == 0 {
      assert xs[..0] == [] && t == h;
    } else {
      IncrementalTrimming(opening, xs[..n], limit);
      if t == Trim(h, limit) {
        DivergenceCondition(h, x, limit);
      } else {
        SameWindow(t, h, x, limit);
      }
    }
  }

  function Fill(c: char, n: nat): (s: string)
    ensures |s| == n && forall j | 0 <= j < n :: s[j] == c
  {
    seq(n, _ => c)
  }

  lemma TwoAppends(opening: string, x: string, y: string, limit: nat)
    ensures Incremental(opening, [x, y], limit) == Trim(Trim(opening + x, limit) + y, limit)
    ensures History(opening, [x, y]) == opening + x + y
  {
    assert [x, y][..1] == [x] && [x][..0] == [];
    assert Incremental(opening, [x], limit) == Trim(opening + x, limit);
    assert History(opening, [x]) == opening + x;
  }

  lemma LastOfAppend(a: string, b: string, n: nat)
    requires |b| <= n <= |a| + |b|
    ensures Last(a + b, n) == Last(a, n - |b|) + b
  {
    SuffixAppend(a, |a| + |b| - n, b);
  }

  lemma TrimAtNewline(t: string, head: string, rest: string, limit: nat)
    requires |t| > limit && Last(t, limit) == head + "\n" + rest && '\n' !in head
    ensures Trim(t, limit) == rest
  {
    AfterNewline(head, rest);
  }

  /** And it does happen, at every limit from three bytes up: an opening of one long line, one short exchange, and
      then an exchange whose text fills what is left. The line that still fits is kept; a single trim drops it. */
  lemma DivergenceHappens(limit: nat)
    requires limit >= 3
    ensures var opening := Fill('a', limit);
            var reply := Fill('b', limit - 2);
            var xs := [Exchange("x", "y"), Exchange("", reply)];
            Incremental(opening, xs, limit) == "y\n" + reply && Trim(History(opening, xs), limit) == reply
  {
    var opening, reply := Fill('a', limit), Fill('b', limit - 2);
    var first, second := Exchange("x", "y"), Exchange("", reply);
    TwoAppends(opening, first, second, limit);
    KeptLine(limit);
    assert second == "\n" + reply && "y" + second == "y\n" + reply;
    LastOfAppend(opening + first, second, limit);
    assert Last(opening + first, 1) == "y";
    TrimAtNewline(opening + first + second, "y", reply, limit);
  }

  lemma KeptLine(limit: nat)
    requires limit >= 3
    ensures Trim(Fill('a', limit) + Exchange("x", "y"), limit) == "y"
  {
    var opening, head := Fill('a', limit), Last(Fill('a', limit), limit - 3);
    assert Exchange("x", "y") == "x\ny";
    LastOfAppend(opening, "x\ny", limit);
    assert head + "x\ny" == (head + "x") + "\n" + "y";
    TrimAtNewline(opening + "x\ny", head + "x", "y", limit);
  }
}
