/** Worked instances of the diff clean-up, following its unit tests. */
module NormalizeDiffExamples {
  import opened Strings
  import opened NormalizeDiff

  const BeginPatch: string := "*** Begin Patch"
  const EndPatch: string := "*** End Patch"
  const AddedBeginPatch: string := "+*** Begin Patch"

  /** The envelope markers are header lines, also when indented. */
  lemma EnvelopeMarkersAreHeaders(a: string, c: string)
    requires a == BeginPatch && c == EndPatch
    ensures IsHeaderLine(a) && IsHeaderLine(c)
    ensures IsHeaderLine(" " + a)
  {
    assert BeginPatch[0] == '*' && BeginPatch[|BeginPatch| - 1] == 'h';
    HeaderOfUntrimmed(BeginPatch);
    assert StartsWith(BeginPatch, PatchMarkers[0]);
    assert EndPatch[0] == '*' && EndPatch[|EndPatch| - 1] == 'h';
    HeaderOfUntrimmed(EndPatch);
    assert StartsWith(EndPatch, PatchMarkers[1]);
    var m := " " + BeginPatch;
    assert m[1..] == BeginPatch;
    TrimStartKeeps(BeginPatch);
    TrimEndKeeps(BeginPatch);
    assert Trim(m) == BeginPatch;
  }

  lemma MarkersHaveNoBreaks(a: string, c: string)
    requires a == BeginPatch && c == EndPatch
    ensures '\n' !in a && '\r' !in a && '\n' !in c && '\r' !in c
  {
  }

  /** An added line that merely contains a marker is not a header. */
  lemma AddedMarkerIsNotHeader()
    ensures !IsHeaderLine(AddedBeginPatch)
  {
    assert AddedBeginPatch[0] == '+' && AddedBeginPatch[|AddedBeginPatch| - 1] == 'h';
    NotHeaderByFirstChar(AddedBeginPatch);
  }

  /** A one-line added text with nothing to trim and no line break is kept. */
  lemma PlainAddedLine(b: string)
    requires |b| > 1 && b[0] == '+' && !IsWs(b[|b| - 1])
    requires forall k :: 0 <= k < |b| ==> b[k] != '\n' && b[k] != '\r'
    ensures !IsHeaderLine(b) && '\n' !in b && '\r' !in b
  {
    NotHeaderByFirstChar(b);
  }

  /** The added marker line and the added content after it survive unchanged. */
  lemma AddedMarkerKept(a: string, b: string)
    requires a == AddedBeginPatch && b == "+Actual content"
    ensures Normalize(a + "\n" + b) == a + "\n" + b
  {
    assert b[|b| - 1] == 't';
    PlainAddedLine(b);
    assert a[|a| - 1] == 'h';
    PlainAddedLine(a);
    TwoCleanLines(a, b);
  }

  /** What the envelope example needs to know about its three lines. */
  lemma EnvelopeLines(a: string, b: string, c: string)
    requires a == BeginPatch && c == EndPatch
    requires |b| > 1 && b[0] == '+' && !IsWs(b[|b| - 1])
    requires forall k :: 0 <= k < |b| ==> b[k] != '\n' && b[k] != '\r'
    ensures '\n' !in a && '\r' !in a && '\n' !in b && '\r' !in b && '\n' !in c && '\r' !in c
    ensures IsHeaderLine(a) && !IsHeaderLine(b) && IsHeaderLine(c)
    ensures |b| > 0 && !IsWs(b[0]) && !IsWs(b[|b| - 1])
  {
    PlainAddedLine(b);
    EnvelopeMarkersAreHeaders(a, c);
    MarkersHaveNoBreaks(a, c);
  }

  /** The begin and end markers around any single added line are removed. */
  lemma EnvelopeRemoved(a: string, b: string, c: string)
    requires a == BeginPatch && c == EndPatch
    requires |b| > 1 && b[0] == '+' && !IsWs(b[|b| - 1])
    requires forall k :: 0 <= k < |b| ==> b[k] != '\n' && b[k] != '\r'
    ensures Normalize(a + "\n" + b + "\n" + c) == b
  {
    EnvelopeLines(a, b, c);
    LineBetweenHeaders(a, b, c);
  }
}
