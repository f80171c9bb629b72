/**
 * Word wrapping for the terminal UI: the text is cut into hard lines at '\n', each hard
 * line into runs of white space and runs of other characters, and the runs are laid out
 * greedily within the width. A run longer than the width is cut into width-sized chunks.
 */
module WrapText {
  import opened Strings

  /** The strings of `parts` one after another. */
  function Concat(parts: seq<string>): string
    decreases |parts|
  {
    if |parts| == 0 then "" else parts[0] + Concat(parts[1..])
  }

  lemma {:induction false} ConcatAppend(a: seq<string>, b: seq<string>)
    ensures Concat(a + b) == Concat(a) + Concat(b)
    decreases |a|
  {
    if |a| == 0 {
      assert a + b == b;
    } else {
      assert (a + b)[1..] == a[1..] + b;
      ConcatAppend(a[1..], b);
    }
  }

  lemma ConcatSnoc(a: seq<string>, x: string)
    ensures Concat(a + [x]) == Concat(a) + x
  {
    ConcatAppend(a, [x]);
    assert Concat([x]) == x + Concat([]);
  }

  /** The characters of `s` that are not white space, in order: the text a reader sees. */
  function Visible(s: string): (r: string)
    ensures |r| <= |s|
    decreases |s|
  {
    if |s| == 0 then "" else (if IsWs(s[0]) then "" else [s[0]]) + Visible(s[1..])
  }

  lemma {:induction false} VisibleAppend(a: string, b: string)
    ensures Visible(a + b) == Visible(a) + Visible(b)
    decreases |a|
  {
    if |a| == 0 {
      assert a + b == b;
    } else {
      assert (a + b)[1..] == a[1..] + b;
      VisibleAppend(a[1..], b);
    }
  }

  lemma {:induction false} VisibleAllWs(s: string)
    requires AllWs(s)
    ensures Visible(s) == ""
    decreases |s|
  {
    if |s| > 0 {
      VisibleAllWs(s[1..]);
    }
  }

  /** Trimming the end drops only white space. */
  lemma VisibleTrimEnd(s: string)
    ensures Visible(TrimEnd(s)) == Visible(s)
  {
    var t := TrimEnd(s);
    assert s == t + s[|t|..];
    VisibleAppend(t, s[|t|..]);
    VisibleAllWs(s[|t|..]);
  }

  // ---- tokens: `hardLine.split(/(\s+)/)` without its empty pieces ----

  predicate SameClass(a: char, b: char) {
    IsWs(a) == IsWs(b)
  }

  /** The length of the run of characters of the first one's class at the start of `s`. */
  function RunLength(s: string): (n: nat)
    requires |s| > 0
    ensures 1 <= n <= |s|
    ensures forall i :: 0 <= i < n ==> SameClass(s[i], s[0])
    ensures n < |s| ==> !SameClass(s[n], s[0])
    decreases |s|
  {
    if |s| == 1 || !SameClass(s[1], s[0]) then 1 else 1 + RunLength(s[1..])
  }

  /** A token is a non-empty run of white space or a non-empty run of other characters. */
  predicate IsToken(t: string) {
    |t| > 0 && (AllWs(t) || NoWs(t))
  }

  /**
   * The pieces of splitting on `(\s+)` with the empty ones dropped: maximal runs, so
   * neighbouring tokens are of different classes, and together they are the line.
   */
  function Tokens(s: string): (r: seq<string>)
    ensures Concat(r) == s
    ensures forall i :: 0 <= i < |r| ==> |r[i]| > 0
    ensures forall i :: 0 <= i < |r| ==> IsToken(r[i])
    ensures |r| > 0 ==> |s| > 0 && r[0][0] == s[0]
    ensures forall i :: 0 <= i < |r| - 1 ==> !SameClass(r[i][0], r[i + 1][0])
    decreases |s|
  {
    if |s| == 0 then []
    else
      var n := RunLength(s);
      var rest := Tokens(s[n..]);
      RunThenTokens(s, n, rest);
      [s[..n]] + rest
  }

  /** `r` is a splitting of `s` into maximal runs. */
  predicate Tokenizes(r: seq<string>, s: string) {
    Concat(r) == s
    && (forall i :: 0 <= i < |r| ==> IsToken(r[i]))
    && (|r| > 0 ==> |s| > 0 && r[0][0] == s[0])
    && (forall i :: 0 <= i < |r| - 1 ==> !SameClass(r[i][0], r[i + 1][0]))
  }

  /** A maximal run at the start, followed by a splitting of the rest, splits the whole. */
  lemma RunThenTokens(s: string, n: nat, rest: seq<string>)
    requires 0 < n <= |s|
    requires forall i :: 0 <= i < n ==> SameClass(s[i], s[0])
    requires n < |s| ==> !SameClass(s[n], s[0])
    requires Tokenizes(rest, s[n..])
    ensures Tokenizes([s[..n]] + rest, s)
  {
    var head := s[..n];
    var r := [head] + rest;
    assert IsWs(s[0]) ==> AllWs(head);
    assert !IsWs(s[0]) ==> NoWs(head);
    assert s == head + s[n..];
    assert r[1..] == rest;
    forall i | 0 <= i < |r| - 1 ensures !SameClass(r[i][0], r[i + 1][0]) {
      if i == 0 {
        assert r[1] == rest[0];
      } else {
        assert r[i] == rest[i - 1] && r[i + 1] == rest[i];
      }
    }
  }

  // ---- laying out one hard line ----

  /** The lines pushed so far and the line being filled. */
  datatype Layout = Layout(lines: seq<string>, current: string)

  /** A finished line fits the width and does not end in white space. */
  predicate Fits(line: string, width: int) {
    |line| <= width && (|line| > 0 ==> !IsWs(line[|line| - 1]))
  }

  predicate AllFit(lines: seq<string>, width: int) {
    forall i :: 0 <= i < |lines| ==> Fits(lines[i], width)
  }

  /** What the layout loop keeps: the pushed lines fit, and so does the line being filled. */
  predicate Good(st: Layout, width: int) {
    AllFit(st.lines, width) && |st.current| <= width
  }

  /** The full `width`-sized chunks of a long token, in order; less than a chunk is left over. */
  function Chunks(t: string, width: int): (r: seq<string>)
    requires width > 1
    ensures forall i :: 0 <= i < |r| ==> |r[i]| == width
    ensures Concat(r) <= t && |t| - |Concat(r)| < width
    decreases |t|
  {
    if |t| < width then []
    else
      var rest := Chunks(t[width..], width);
      assert ([t[..width]] + rest)[1..] == rest;
      assert t == t[..width] + t[width..];
      [t[..width]] + rest
  }

  /** What is left of a long token after its full chunks. */
  function Remainder(t: string, width: int): (r: string)
    requires width > 1
    ensures |r| < width && Concat(Chunks(t, width)) + r == t
  {
    t[|Concat(Chunks(t, width))|..]
  }

  /**
   * The loop that cuts a long token: each `width`-sized chunk is pushed as a line, and a
   * shorter last chunk becomes the line being filled.
   */
  function HardWrap(st: Layout, token: string, width: int): (r: Layout)
    requires width > 1
    ensures Good(st, width) && NoWs(token) ==> Good(r, width)
    decreases |token|
  {
    if |token| == 0 then st
    else if |token| >= width then
      assert NoWs(token) ==> Fits(token[..width], width);
      HardWrap(st.(lines := st.lines + [token[..width]]), token[width..], width)
    else st.(current := token)
  }

  /** Pushing the line being filled, with its trailing white space trimmed, unless it is empty. */
  function Flush(st: Layout): (r: seq<string>)
    ensures forall w :: Good(st, w) ==> AllFit(r, w)
    ensures st.current == "" ==> r == st.lines
  {
    if st.current != "" then st.lines + [TrimEnd(st.current)] else st.lines
  }

  /**
   * One token. `reset` says whether the line being filled is cleared before a long token
   * is cut: the source leaves it as it is (see `RepeatedLine`), `WrapText` clears it.
   */
  function Step(st: Layout, token: string, width: int, reset: bool): (r: Layout)
    requires width > 1
    ensures Good(st, width) && IsToken(token) ==> Good(r, width)
  {
    if |token| == 0 then st
    else if |st.current| + |token| <= width then st.(current := st.current + token)
    else
      var lines := Flush(st);
      TrimEmptyIffAllWs(token);
      if Trim(token) == "" then Layout(lines, "")
      else if |token| > width then
        HardWrap(Layout(lines, if reset then "" else st.current), token, width)
      else Layout(lines, token)
  }

  function Fold(st: Layout, tokens: seq<string>, width: int, reset: bool): (r: Layout)
    requires width > 1
    ensures Good(st, width) && (forall i :: 0 <= i < |tokens| ==> IsToken(tokens[i])) ==> Good(r, width)
    decreases |tokens|
  {
    if |tokens| == 0 then st
    else Fold(Step(st, tokens[0], width, reset), tokens[1..], width, reset)
  }

  /** One hard line: an empty one gives one empty line, otherwise the laid-out tokens. */
  function WrapLine(line: string, width: int, reset: bool): (r: seq<string>)
    requires width > 1
    ensures AllFit(r, width)
    ensures |line| == 0 ==> r == [""]
  {
    if |line| == 0 then [""]
    else
      Flush(Fold(Layout([], ""), Tokens(line), width, reset))
  }

  function WrapLines(hardLines: seq<string>, width: int, reset: bool): (r: seq<string>)
    requires width > 1
    ensures AllFit(r, width)
    decreases |hardLines|
  {
    if |hardLines| == 0 then []
    else WrapLine(hardLines[0], width, reset) + WrapLines(hardLines[1..], width, reset)
  }

  /**
   * `wrapText` with the choice of `reset`: a width of at most one leaves the text whole;
   * otherwise every hard line is wrapped, and the result is never empty.
   */
  function Wrap(text: string, width: int, reset: bool): (r: seq<string>)
    ensures |r| >= 1
    ensures width <= 1 && text != "" ==> r == [text]
    ensures width <= 1 && text == "" ==> r == [""]
    ensures width > 1 ==> AllFit(r, width)
  {
    if width <= 1 then (if text != "" then [text] else [""])
    else
      var all := WrapLines(Split(text, '\n'), width, reset);
      if |all| > 0 then all else [""]
  }

  /** `wrapText` as the source writes it. */
  function WrapTextAsWritten(text: string, width: int): (r: seq<string>)
    ensures |r| >= 1
    ensures width > 1 ==> AllFit(r, width)
  {
    Wrap(text, width, false)
  }

  /** `wrapText` with the line being filled cleared before a long token is cut. */
  function WrapText(text: string, width: int): (r: seq<string>)
    ensures |r| >= 1
    ensures width > 1 ==> AllFit(r, width)
  {
    Wrap(text, width, true)
  }

  // ---- properties ----

  /** A long token leaves its full chunks as lines and the remainder as the line being filled. */
  lemma {:induction false} HardWrapChunks(st: Layout, t: string, width: int)
    requires width > 1
    ensures HardWrap(st, t, width)
         == Layout(st.lines + Chunks(t, width), if Remainder(t, width) == "" then st.current else Remainder(t, width))
    decreases |t|
  {
    if |t| >= width {
      var st' := st.(lines := st.lines + [t[..width]]);
      HardWrapChunks(st', t[width..], width);
      ChunkStep(t, width);
      assert st'.lines + Chunks(t[width..], width) == st.lines + Chunks(t, width);
    } else {
      ShortTokenKept(st, t, width);
    }
  }

  /** A token shorter than the width has no chunks and becomes the line being filled. */
  lemma ShortTokenKept(st: Layout, t: string, width: int)
    requires width > 1 && |t| < width
    ensures Chunks(t, width) == [] && Remainder(t, width) == t
    ensures HardWrap(st, t, width) == if t == "" then st else st.(current := t)
  {
    assert Concat([]) == "";
  }

  /** A token of at least the width gives its first chunk, then the chunks of the rest. */
  lemma ChunkStep(t: string, width: int)
    requires width > 1 && |t| >= width
    ensures Chunks(t, width) == [t[..width]] + Chunks(t[width..], width)
    ensures Remainder(t, width) == Remainder(t[width..], width)
  {
    var c := Chunks(t[width..], width);
    assert ([t[..width]] + c)[1..] == c;
    assert Concat(Chunks(t, width)) == t[..width] + Concat(c);
  }

  /**
   * With the reset, a non-space token longer than the width pushes the filled line, then
   * its full chunks, and its remainder (possibly empty) starts the next line.
   */
  lemma LongTokenChunked(st: Layout, t: string, width: int)
    requires width > 1 && NoWs(t) && |t| > width
    ensures Step(st, t, width, true) == Layout(Flush(st) + Chunks(t, width), Remainder(t, width))
  {
    TrimEmptyIffAllWs(t);
    assert !IsWs(t[0]);
    HardWrapChunks(Layout(Flush(st), ""), t, width);
  }

  /** What the layout has shown so far: the visible text of the pushed lines and of the line being filled. */
  function Seen(st: Layout): string {
    Visible(Concat(st.lines)) + Visible(st.current)
  }

  lemma PushKeepsSeen(lines: seq<string>, x: string)
    ensures Visible(Concat(lines + [x])) == Visible(Concat(lines)) + Visible(x)
  {
    ConcatSnoc(lines, x);
    VisibleAppend(Concat(lines), x);
  }

  lemma {:induction false} HardWrapSeen(st: Layout, t: string, width: int)
    requires width > 1 && st.current == ""
    ensures Seen(HardWrap(st, t, width)) == Seen(st) + Visible(t)
    decreases |t|
  {
    if |t| >= width {
      var st' := st.(lines := st.lines + [t[..width]]);
      HardWrapSeen(st', t[width..], width);
      PushKeepsSeen(st.lines, t[..width]);
      assert t == t[..width] + t[width..];
      VisibleAppend(t[..width], t[width..]);
    } else if |t| == 0 {
      assert Visible(t) == "";
    }
  }

  /** With the reset, each token adds exactly its visible text to what has been shown. */
  lemma StepSeen(st: Layout, t: string, width: int)
    requires width > 1
    ensures Seen(Step(st, t, width, true)) == Seen(st) + Visible(t)
  {
    if |t| == 0 {
      assert Visible(t) == "";
    } else if |st.current| + |t| <= width {
      VisibleAppend(st.current, t);
    } else {
      OverflowSeen(st, t, width);
    }
  }

  /** A token that does not fit flushes the line being filled, which keeps what was shown. */
  lemma OverflowSeen(st: Layout, t: string, width: int)
    requires width > 1 && |t| > 0 && |st.current| + |t| > width
    ensures Seen(Step(st, t, width, true)) == Seen(st) + Visible(t)
  {
    TrimEmptyIffAllWs(t);
    FlushSeen(st);
    if Trim(t) == "" {
      BlankOverflowSeen(st, t, width);
    } else if |t| > width {
      LongOverflowSeen(st, t, width);
    } else {
      assert Step(st, t, width, true) == Layout(Flush(st), t);
    }
  }

  lemma BlankOverflowSeen(st: Layout, t: string, width: int)
    requires width > 1 && |t| > 0 && |st.current| + |t| > width && AllWs(t) && Trim(t) == ""
    ensures Seen(Step(st, t, width, true)) == Seen(st) + Visible(t)
  {
    var lines := Flush(st);
    FlushSeen(st);
    VisibleAllWs(t);
    assert Step(st, t, width, true) == Layout(lines, "");
    assert Visible("") == "";
    assert Visible(Concat(lines)) + "" == Visible(Concat(lines));
  }

  lemma LongOverflowSeen(st: Layout, t: string, width: int)
    requires width > 1 && |t| > width && Trim(t) != ""
    ensures Seen(Step(st, t, width, true)) == Seen(st) + Visible(t)
  {
    var lines := Flush(st);
    FlushSeen(st);
    HardWrapSeen(Layout(lines, ""), t, width);
    assert Step(st, t, width, true) == HardWrap(Layout(lines, ""), t, width);
    assert Visible("") == "";
    assert Visible(Concat(lines)) + "" == Visible(Concat(lines));
  }

  lemma FlushSeen(st: Layout)
    ensures Visible(Concat(Flush(st))) == Seen(st)
  {
    if st.current != "" {
      PushKeepsSeen(st.lines, TrimEnd(st.current));
      VisibleTrimEnd(st.current);
    } else {
      assert Visible(st.current) == "";
    }
  }

  lemma {:induction false} FoldSeen(st: Layout, tokens: seq<string>, width: int)
    requires width > 1
    ensures Seen(Fold(st, tokens, width, true)) == Seen(st) + Visible(Concat(tokens))
    decreases |tokens|
  {
    if |tokens| > 0 {
      StepSeen(st, tokens[0], width);
      FoldSeen(Step(st, tokens[0], width, true), tokens[1..], width);
      VisibleAppend(tokens[0], Concat(tokens[1..]));
    }
  }

  lemma WrapLineSeen(line: string, width: int)
    requires width > 1
    ensures Visible(Concat(WrapLine(line, width, true))) == Visible(line)
  {
    if |line| == 0 {
      assert Concat([""]) == "" + Concat([]);
    } else {
      var st := Fold(Layout([], ""), Tokens(line), width, true);
      FoldSeen(Layout([], ""), Tokens(line), width);
      assert Seen(Layout([], "")) == "";
      assert Seen(st) == Visible(line);
      if st.current != "" {
        PushKeepsSeen(st.lines, TrimEnd(st.current));
        VisibleTrimEnd(st.current);
      } else {
        assert Visible(st.current) == "";
      }
    }
  }

  lemma {:induction false} WrapLinesSeen(hardLines: seq<string>, width: int)
    requires width > 1
    ensures Visible(Concat(WrapLines(hardLines, width, true))) == Visible(Concat(hardLines))
    decreases |hardLines|
  {
    if |hardLines| > 0 {
      var first := WrapLine(hardLines[0], width, true);
      var rest := WrapLines(hardLines[1..], width, true);
      WrapLinesSeen(hardLines[1..], width);
      WrapLineSeen(hardLines[0], width);
      ConcatAppend(first, rest);
      VisibleAppend(Concat(first), Concat(rest));
      VisibleAppend(hardLines[0], Concat(hardLines[1..]));
    }
  }

  /** Joining with newlines adds only white space. */
  lemma {:induction false} VisibleJoin(parts: seq<string>)
    ensures Visible(Join(parts, "\n")) == Visible(Concat(parts))
    decreases |parts|
  {
    if |parts| == 1 {
      assert parts[1..] == [];
      assert Concat(parts) == parts[0] + Concat(parts[1..]);
      assert parts[0] + "" == parts[0];
    } else if |parts| > 1 {
      VisibleJoin(parts[1..]);
      VisibleAppend(parts[0] + "\n", Join(parts[1..], "\n"));
      VisibleAppend(parts[0], "\n");
      VisibleAllWs("\n");
      VisibleAppend(parts[0], Concat(parts[1..]));
    }
  }

  /**
   * Wrapping neither loses nor repeats text: read without white space, the lines of
   * `WrapText` say exactly what the input says.
   */
  lemma WrappingKeepsText(text: string, width: int)
    requires width > 1
    ensures Visible(Concat(WrapText(text, width))) == Visible(text)
  {
    var hardLines := Split(text, '\n');
    WrapLinesSeen(hardLines, width);
    JoinSplit(text, '\n');
    VisibleJoin(hardLines);
    var all := WrapLines(hardLines, width, true);
    if |all| == 0 {
      assert Concat([""]) == "" + Concat([]);
    }
  }

  /** Each hard line is wrapped on its own: the lines of the first come first, unchanged. */
  lemma HardLinesIndependent(x: string, y: string, width: int, reset: bool)
    requires width > 1 && '\n' !in x
    ensures WrapLines(Split(x + "\n" + y, '\n'), width, reset) == WrapLine(x, width, reset) + WrapLines(Split(y, '\n'), width, reset)
  {
    SplitAtFirst(x, y, '\n');
    var parts := [x] + Split(y, '\n');
    assert parts[1..] == Split(y, '\n');
  }

  /** The runs of "a xxxx": a letter, a space and four letters. */
  lemma ExampleTokens(text: string)
    requires text == "a xxxx"
    ensures Tokens(text) == [text[..1], text[1..2], text[2..]]
  {
    assert text[0] == 'a' && text[1] == ' ' && text[2] == 'x' && text[3] == 'x' && text[4] == 'x' && text[5] == 'x';
    var a, sp, xs := text[..1], text[1..2], text[2..];
    assert RunLength(text) == 1;
    assert RunLength(text[1..]) == 1;
    assert text[1..][1..] == xs;
    assert RunLength(xs) == 4 by {
      assert xs[1..][1..][1..] == xs[3..];
    }
    assert Tokens(xs) == [xs] by {
      assert xs[..4] == xs;
      assert Tokens(xs[4..]) == [];
      assert [xs] + [] == [xs];
    }
    assert Tokens(text[1..]) == [sp] + Tokens(xs) by {
      assert text[1..][..1] == sp;
    }
    assert Tokens(text) == [a] + Tokens(text[1..]);
  }

  /**
   * As written, a non-space token that is cut into full chunks only leaves the line being
   * filled as it was, although that line has just been pushed.
   */
  lemma CurrentSurvivesChunks(st: Layout, t: string, width: int)
    requires width > 1 && NoWs(t) && |t| > width && Remainder(t, width) == ""
    ensures Step(st, t, width, false) == Layout(Flush(st) + Chunks(t, width), st.current)
  {
    TrimEmptyIffAllWs(t);
    assert !IsWs(t[0]);
    HardWrapChunks(Layout(Flush(st), st.current), t, width);
  }

  lemma ExampleChunks(xs: string)
    requires xs == "xxxx"
    ensures Chunks(xs, 2) == ["xx", "xx"] && Remainder(xs, 2) == ""
  {
    assert xs[..2] == "xx" && xs[2..] == "xx" && xs[2..][..2] == "xx" && xs[2..][2..] == [];
    assert Chunks(xs[2..][2..], 2) == [];
    assert Chunks(xs[2..], 2) == ["xx"];
    assert Chunks(xs, 2) == ["xx"] + ["xx"];
    assert Concat(["xx", "xx"]) == "xx" + Concat(["xx"]);
    assert Concat(["xx"]) == "xx" + Concat([]);
  }

  lemma ExampleFirstTwo(a: string, sp: string)
    requires a == "a" && sp == " "
    ensures Step(Step(Layout([], ""), a, 2, false), sp, 2, false) == Layout([], a + sp)
  {
  }

  /** As written, the four letters are pushed as two chunks while "a " stays the line being filled. */
  lemma ExampleLayout(a: string, sp: string, xs: string)
    requires a == "a" && sp == " " && xs == "xxxx"
    ensures Fold(Layout([], ""), [a, sp, xs], 2, false) == Layout([a, "xx", "xx"], a + sp)
  {
    ExampleFirstTwo(a, sp);
    var s2 := Layout([], a + sp);
    assert TrimEnd(a + sp) == a;
    assert Flush(s2) == [a];
    ExampleChunks(xs);
    assert NoWs(xs);
    CurrentSurvivesChunks(s2, xs, 2);
    var s1 := Step(Layout([], ""), a, 2, false);
    var s3 := Step(s2, xs, 2, false);
    assert s3 == Layout([a, "xx", "xx"], a + sp);
    assert [a, sp, xs][1..] == [sp, xs];
    assert [sp, xs][1..] == [xs];
    assert [xs][1..] == [];
    assert Fold(s2, [xs], 2, false) == Fold(s3, [], 2, false) == s3;
    assert Fold(s1, [sp, xs], 2, false) == Fold(s2, [xs], 2, false);
  }

  lemma {:induction false} VisibleLetters(s: string)
    requires forall i :: 0 <= i < |s| ==> s[i] == 'a' || s[i] == 'x'
    ensures Visible(s) == s
    decreases |s|
  {
    if |s| > 0 {
      VisibleLetters(s[1..]);
      assert [s[0]] + s[1..] == s;
    }
  }

  /** The four lines of the example show six letters. */
  lemma ExampleLinesShown(r: seq<string>)
    requires r == ["a", "xx", "xx", "a"]
    ensures |Visible(Concat(r))| == 6
  {
    var l1, l2, l3: seq<string> := ["xx", "xx", "a"], ["xx", "a"], ["a"];
    assert r[1..] == l1 && l1[1..] == l2 && l2[1..] == l3 && l3[1..] == [];
    assert Concat(l3) == "a" + "";
    assert Concat(l2) == "xx" + "a";
    assert Concat(l1) == "xx" + ("xx" + "a");
    VisibleLetters(Concat(r));
  }

  /** The example text shows five. */
  lemma ExampleTextShown(text: string)
    requires text == "a xxxx"
    ensures |Visible(text)| == 5
  {
    assert text == "a" + " " + "xxxx";
    VisibleAppend("a" + " ", "xxxx");
    VisibleAppend("a", " ");
    VisibleLetters("a");
    VisibleLetters("xxxx");
    VisibleAllWs(" ");
  }

  lemma ExampleWrapLine(text: string)
    requires text == "a xxxx"
    ensures WrapLine(text, 2, false) == ["a", "xx", "xx", "a"]
  {
    ExampleTokens(text);
    var a, sp, xs := text[..1], text[1..2], text[2..];
    assert a == "a" && sp == " " && xs == "xxxx";
    ExampleLayout(a, sp, xs);
    assert TrimEnd(a + sp) == a;
  }

  /**
   * As written, a long token whose length is a multiple of the width leaves the pushed
   * line as the line being filled, so it is shown twice: "a xxxx" at width 2 wraps to
   * "a", "xx", "xx", "a".
   */
  lemma RepeatedLine(text: string)
    requires text == "a xxxx"
    ensures WrapTextAsWritten(text, 2) == ["a", "xx", "xx", "a"]
    ensures Visible(Concat(WrapTextAsWritten(text, 2))) != Visible(text)
  {
    SplitNoSeparator(text, '\n');
    ExampleWrapLine(text);
    var r := WrapTextAsWritten(text, 2);
    assert [text][1..] == [];
    assert WrapLines([text], 2, false) == WrapLine(text, 2, false) + [];
    assert r == ["a", "xx", "xx", "a"];
    ExampleLinesShown(r);
    ExampleTextShown(text);
  }
}
