/**
 * The clean-up every patch goes through before it reaches the diff engine: wrapper
 * markers and operation headers that models tend to add are dropped line by line,
 * every other line is kept verbatim, and the result is trimmed.
 */
module NormalizeDiff {
  import opened Strings

  /** Wrapper markers of the patch envelope format. */
  const PatchMarkers: seq<string> :=
    ["*** Begin Patch", "*** End Patch", "*** Add File:", "*** Update File:", "*** Delete File:", "*** End of File"]

  /** Lower-case operation headers some models emit. */
  const OperationHeaders: seq<string> := ["update_file:", "create_file:", "delete_file:"]

  predicate StartsWithAny(s: string, prefixes: seq<string>) {
    exists i :: 0 <= i < |prefixes| && StartsWith(s, prefixes[i])
  }

  /** A line is dropped when its trimmed text starts with a marker or a header. */
  predicate IsHeaderLine(line: string) {
    var l := Trim(line);
    StartsWithAny(l, PatchMarkers) || StartsWithAny(l, OperationHeaders)
  }

  /** Removes one carriage return from the end of a line. */
  function DropCarriageReturn(s: string): (r: string)
    ensures r <= s
    ensures r == s <==> (|s| == 0 || s[|s| - 1] != '\r')
    ensures r != s ==> r + "\r" == s
  {
    if |s| > 0 && s[|s| - 1] == '\r' then s[..|s| - 1] else s
  }

  /**
   * `s.split(/\r?\n/)`: pieces between line feeds, where a carriage return right
   * before a line feed is part of the separator.
   */
  function SplitLines(s: string): (r: seq<string>)
    ensures |r| == |Split(s, '\n')| && |r| >= 1
    ensures forall i :: 0 <= i < |r| ==> '\n' !in r[i]
  {
    var p := Split(s, '\n');
    seq(|p|, i requires 0 <= i < |p| => if i < |p| - 1 then DropCarriageReturn(p[i]) else p[i])
  }

  /** The elements `drop` rejects, in their original order. */
  function Without<T>(xs: seq<T>, drop: T -> bool): (r: seq<T>)
    ensures |r| <= |xs|
    ensures forall i :: 0 <= i < |r| ==> !drop(r[i]) && r[i] in xs
    ensures forall i :: 0 <= i < |xs| && !drop(xs[i]) ==> xs[i] in r
    ensures (forall i :: 0 <= i < |xs| ==> !drop(xs[i])) ==> r == xs
  {
    if |xs| == 0 then []
    else if drop(xs[0]) then Without(xs[1..], drop)
    else [xs[0]] + Without(xs[1..], drop)
  }

  /** The line filter: header lines go, everything else stays in order. */
  function KeepLines(lines: seq<string>): (r: seq<string>)
    ensures |r| <= |lines|
    ensures forall i :: 0 <= i < |r| ==> !IsHeaderLine(r[i]) && r[i] in lines
    ensures forall i :: 0 <= i < |lines| && !IsHeaderLine(lines[i]) ==> lines[i] in r
    ensures (forall i :: 0 <= i < |lines| ==> !IsHeaderLine(lines[i])) ==> r == lines
  {
    Without(lines, IsHeaderLine)
  }

  /** `normalizeDiff`. */
  function Normalize(diff: string): (r: string)
    ensures |r| <= |Join(KeepLines(SplitLines(diff)), "\n")|
    ensures |r| > 0 ==> !IsWs(r[0]) && !IsWs(r[|r| - 1])
  {
    Trim(Join(KeepLines(SplitLines(diff)), "\n"))
  }

  // ---- properties ----

  /** The filter keeps the relative order of lines: it distributes over concatenation. */
  lemma KeepLinesAppend(a: seq<string>, b: seq<string>)
    ensures KeepLines(a + b) == KeepLines(a) + KeepLines(b)
  {
    WithoutAppend(a, b, IsHeaderLine);
  }

  lemma {:induction false} WithoutAppend<T>(a: seq<T>, b: seq<T>, drop: T -> bool)
    ensures Without(a + b, drop) == Without(a, drop) + Without(b, drop)
    decreases |a|
  {
    if |a| > 0 {
      assert (a + b)[1..] == a[1..] + b;
      WithoutAppend(a[1..], b, drop);
    } else {
      assert a + b == b;
    }
  }

  /** On a single line the filter decides exactly by the header test. */
  lemma KeepLinesSingle(line: string)
    ensures KeepLines([line]) == if IsHeaderLine(line) then [] else [line]
  {
  }

  /** Every piece of a split is made of characters of the split string. */
  lemma {:induction false} SplitPiecesFrom(s: string, c: char, d: char)
    requires d !in s
    ensures forall i :: 0 <= i < |Split(s, c)| ==> d !in Split(s, c)[i]
    decreases |s|
  {
    if |s| > 0 {
      assert d !in s[1..] by {
        forall k | 0 <= k < |s[1..]| ensures s[1..][k] != d {
          assert s[1..][k] == s[k + 1];
        }
      }
      SplitPiecesFrom(s[1..], c, d);
    }
  }

  /** Without carriage returns, line splitting is a plain split at line feeds. */
  lemma SplitLinesWithoutCarriageReturn(s: string)
    requires '\r' !in s
    ensures SplitLines(s) == Split(s, '\n')
    ensures Join(SplitLines(s), "\n") == s
  {
    SplitPiecesFrom(s, '\n', '\r');
    JoinSplit(s, '\n');
  }

  /** Lines joined with line feeds are split back into the same lines. */
  lemma SplitLinesOfJoin(lines: seq<string>)
    requires |lines| >= 1
    requires forall i :: 0 <= i < |lines| ==> '\n' !in lines[i] && '\r' !in lines[i]
    ensures SplitLines(Join(lines, "\n")) == lines
  {
    var s := Join(lines, "\n");
    SplitJoin(lines, '\n');
    var r := SplitLines(s);
    forall i | 0 <= i < |r| ensures r[i] == lines[i] {
      var line := lines[i];
      assert |line| == 0 || line[|line| - 1] != '\r';
      assert DropCarriageReturn(line) == line;
    }
  }

  /**
   * A diff written as lines is rejoined from exactly the non-header lines, in their
   * original order, and then trimmed as a whole.
   */
  lemma NormalizeJoinedLines(lines: seq<string>)
    requires |lines| >= 1
    requires forall i :: 0 <= i < |lines| ==> '\n' !in lines[i] && '\r' !in lines[i]
    ensures Normalize(Join(lines, "\n")) == Trim(Join(KeepLines(lines), "\n"))
  {
    SplitLinesOfJoin(lines);
  }

  /** A clean diff (no header line, nothing to trim) passes through unchanged. */
  lemma CleanDiffUnchanged(lines: seq<string>)
    requires |lines| >= 1
    requires forall i :: 0 <= i < |lines| ==> '\n' !in lines[i] && '\r' !in lines[i] && !IsHeaderLine(lines[i])
    requires var j := Join(lines, "\n"); |j| == 0 || (!IsWs(j[0]) && !IsWs(j[|j| - 1]))
    ensures Normalize(Join(lines, "\n")) == Join(lines, "\n")
  {
    var j := Join(lines, "\n");
    NormalizeJoinedLines(lines);
    assert KeepLines(lines) == lines;
    TrimKeeps(j);
  }

  /** For a line with nothing to trim, the header test is a plain prefix test. */
  lemma HeaderOfUntrimmed(line: string)
    requires |line| > 0 && !IsWs(line[0]) && !IsWs(line[|line| - 1])
    ensures IsHeaderLine(line) <==> StartsWithAny(line, PatchMarkers) || StartsWithAny(line, OperationHeaders)
  {
    TrimKeeps(line);
  }

  /** A line whose first character starts no marker and no header is kept. */
  lemma NotHeaderByFirstChar(line: string)
    requires |line| > 0 && !IsWs(line[0]) && !IsWs(line[|line| - 1])
    requires line[0] != '*' && line[0] != 'u' && line[0] != 'c' && line[0] != 'd'
    ensures !IsHeaderLine(line)
  {
    HeaderOfUntrimmed(line);
    forall i | 0 <= i < |PatchMarkers| ensures !StartsWith(line, PatchMarkers[i]) {
      assert PatchMarkers[i][0] == '*';
    }
    forall i | 0 <= i < |OperationHeaders| ensures !StartsWith(line, OperationHeaders[i]) {
      assert OperationHeaders[i][0] in "ucd";
    }
  }

  /** Two clean lines pass through unchanged. */
  lemma TwoCleanLines(a: string, b: string)
    requires '\n' !in a && '\r' !in a && '\n' !in b && '\r' !in b
    requires !IsHeaderLine(a) && !IsHeaderLine(b)
    requires |a| > 0 && !IsWs(a[0]) && |b| > 0 && !IsWs(b[|b| - 1])
    ensures Normalize(a + "\n" + b) == a + "\n" + b
  {
    var lines := [a, b];
    JoinCons(a, [b], "\n");
    JoinCons(b, [], "\n");
    assert [a] + [b] == lines;
    var j := Join(lines, "\n");
    assert j == a + "\n" + b;
    assert j[0] == a[0] && j[|j| - 1] == b[|b| - 1];
    CleanDiffUnchanged(lines);
  }

  /** A line between two header lines is all that remains. */
  lemma LineBetweenHeaders(a: string, b: string, c: string)
    requires '\n' !in a && '\r' !in a && '\n' !in b && '\r' !in b && '\n' !in c && '\r' !in c
    requires IsHeaderLine(a) && !IsHeaderLine(b) && IsHeaderLine(c)
    requires |b| > 0 && !IsWs(b[0]) && !IsWs(b[|b| - 1])
    ensures Normalize(a + "\n" + b + "\n" + c) == b
  {
    JoinThree(a, b, c);
    KeepMiddleOfThree(a, b, c);
    NoBreaksInThree(a, b, c);
    NormalizeToOneLine([a, b, c], b);
  }

  lemma NoBreaksInThree(a: string, b: string, c: string)
    requires '\n' !in a && '\r' !in a && '\n' !in b && '\r' !in b && '\n' !in c && '\r' !in c
    ensures forall i :: 0 <= i < |[a, b, c]| ==> '\n' !in [a, b, c][i] && '\r' !in [a, b, c][i]
  {
    forall i | 0 <= i < 3 ensures '\n' !in [a, b, c][i] && '\r' !in [a, b, c][i] {
      if i == 0 {
        assert [a, b, c][i] == a;
      } else if i == 1 {
        assert [a, b, c][i] == b;
      } else {
        assert [a, b, c][i] == c;
      }
    }
  }

  /** When the filter keeps a single line with nothing to trim, that line is the result. */
  lemma NormalizeToOneLine(lines: seq<string>, b: string)
    requires |lines| >= 1
    requires forall i :: 0 <= i < |lines| ==> '\n' !in lines[i] && '\r' !in lines[i]
    requires KeepLines(lines) == [b]
    requires |b| > 0 && !IsWs(b[0]) && !IsWs(b[|b| - 1])
    ensures Normalize(Join(lines, "\n")) == b
  {
    NormalizeJoinedLines(lines);
    JoinCons(b, [], "\n");
    TrimKeeps(b);
  }

  lemma JoinThree(a: string, b: string, c: string)
    ensures Join([a, b, c], "\n") == a + "\n" + b + "\n" + c
  {
    JoinCons(a, [b, c], "\n");
    JoinCons(b, [c], "\n");
    JoinCons(c, [], "\n");
    assert [a] + [b, c] == [a, b, c] && [b] + [c] == [b, c];
  }

  lemma KeepMiddleOfThree(a: string, b: string, c: string)
    requires IsHeaderLine(a) && !IsHeaderLine(b) && IsHeaderLine(c)
    ensures KeepLines([a, b, c]) == [b]
  {
    assert [a] + [b, c] == [a, b, c] && [b] + [c] == [b, c];
    KeepLinesAppend([a], [b, c]);
    KeepLinesAppend([b], [c]);
    KeepLinesSingle(a);
    KeepLinesSingle(b);
    KeepLinesSingle(c);
  }
}
