/**
 * The four file operations of the patch tool against a workspace: create, update,
 * overwrite and delete. Each resolves its path inside the workspace, passes the diff
 * through the clean-up, and reports `completed` or `failed` with a message instead of
 * throwing.
 */
module WorkspaceEditor {
  import opened Wrappers
  import opened Strings
  import opened Paths
  import opened NormalizeDiff

  datatype Status = Completed | Failed

  datatype PatchResult = PatchResult(status: Status, output: string)

  /** The files of the workspace by absolute path; directories are implicit. */
  type Files = map<Segments, string>

  datatype DiffMode = CreateMode | DefaultMode

  /**
   * The editor's environment: the workspace root, the ignore-file test and the diff
   * engine, which maps (original text, normalised diff, mode) to the new text or to
   * the text of the error it throws.
   */
  datatype Editor = Editor(
    root: Segments,
    isIgnored: Segments -> bool,
    applyDiff: (string, string, DiffMode) -> Result<string, string>)

  datatype OpKind = CreateFile | UpdateFile | OverwriteFile | DeleteFile

  datatype Operation = Operation(kind: OpKind, path: string, diff: string)

  /** `String(err)` for the errors `resolvePath` throws. */
  function ErrorText(message: string): string {
    "Error: " + message
  }

  function NotFound(target: Segments): string {
    "Error: file not found at path " + Render(target)
  }

  // ---- overwrite content ----

  predicate IsMarked(line: string) {
    StartsWith(line, "+") || StartsWith(line, "-")
  }

  predicate HasDiffMarkers(lines: seq<string>) {
    exists i :: 0 <= i < |lines| && IsMarked(lines[i])
  }

  /** Drops one leading `+` or space. */
  function StripMarker(line: string): (r: string)
    ensures (StartsWith(line, "+") || StartsWith(line, " ")) ==> [line[0]] + r == line
    ensures !(StartsWith(line, "+") || StartsWith(line, " ")) ==> r == line
  {
    if StartsWith(line, "+") || StartsWith(line, " ") then line[1..] else line
  }

  /** Removed lines go; the others lose their `+` or space marker. */
  function ContentLines(lines: seq<string>): (r: seq<string>)
    ensures |r| <= |lines|
    ensures (forall i :: 0 <= i < |lines| ==> !StartsWith(lines[i], "-")) ==> |r| == |lines|
  {
    if |lines| == 0 then []
    else if StartsWith(lines[0], "-") then ContentLines(lines[1..])
    else [StripMarker(lines[0])] + ContentLines(lines[1..])
  }

  /**
   * The text `overwrite_file` writes for an already normalised input: the content lines
   * when some line carries a `+` or `-` marker, the input itself otherwise.
   */
  function OverwriteContent(input: string): (r: string)
    ensures !HasDiffMarkers(SplitLines(input)) ==> r == input
    ensures HasDiffMarkers(SplitLines(input)) ==> r == Join(ContentLines(SplitLines(input)), "\n")
  {
    var lines := SplitLines(input);
    if HasDiffMarkers(lines) then Join(ContentLines(lines), "\n") else input
  }

  // ---- the four operations ----

  function CreateFileOp(files: Files, ed: Editor, path: string, diff: string): (r: (Files, PatchResult))
    requires Normal(ed.root)
    ensures r.1.status == Completed <==>
      ResolvePath(ed.root, path, ed.isIgnored).Ok? && ed.applyDiff("", Normalize(diff), CreateMode).Ok?
    ensures r.1.status == Completed ==>
      r.0 == files[Resolve(ed.root, path) := ed.applyDiff("", Normalize(diff), CreateMode).value]
      && r.1.output == "Created " + path
    ensures r.1.status == Failed ==> r.0 == files && StartsWith(r.1.output, "Error creating " + path + ": ")
  {
    match ResolvePath(ed.root, path, ed.isIgnored)
    case Err(m) => (files, PatchResult(Failed, "Error creating " + path + ": " + ErrorText(m)))
    case Ok(target) =>
      match ed.applyDiff("", Normalize(diff), CreateMode)
      case Err(e) => (files, PatchResult(Failed, "Error creating " + path + ": " + e))
      case Ok(content) => (files[target := content], PatchResult(Completed, "Created " + path))
  }

  function UpdateFileOp(files: Files, ed: Editor, path: string, diff: string): (r: (Files, PatchResult))
    requires Normal(ed.root)
    ensures var target := Resolve(ed.root, path);
      r.1.status == Completed <==>
        ResolvePath(ed.root, path, ed.isIgnored).Ok? && target in files
        && ed.applyDiff(files[target], Normalize(diff), DefaultMode).Ok?
    ensures var target := Resolve(ed.root, path);
      r.1.status == Completed ==>
        r.0 == files[target := ed.applyDiff(files[target], Normalize(diff), DefaultMode).value]
        && r.1.output == "Updated " + path
    ensures r.1.status == Failed ==> r.0 == files
    ensures ResolvePath(ed.root, path, ed.isIgnored).Ok? && Resolve(ed.root, path) !in files ==>
      r.1 == PatchResult(Failed, NotFound(Resolve(ed.root, path)))
  {
    match ResolvePath(ed.root, path, ed.isIgnored)
    case Err(m) => (files, PatchResult(Failed, "Error updating " + path + ": " + ErrorText(m)))
    case Ok(target) =>
      if target !in files then (files, PatchResult(Failed, NotFound(target)))
      else
        match ed.applyDiff(files[target], Normalize(diff), DefaultMode)
        case Err(e) => (files, PatchResult(Failed, "Error updating " + path + ": " + e))
        case Ok(patched) => (files[target := patched], PatchResult(Completed, "Updated " + path))
  }

  function OverwriteFileOp(files: Files, ed: Editor, path: string, diff: string): (r: (Files, PatchResult))
    requires Normal(ed.root)
    ensures r.1.status == Completed <==> ResolvePath(ed.root, path, ed.isIgnored).Ok?
    ensures r.1.status == Completed ==>
      r.0 == files[Resolve(ed.root, path) := OverwriteContent(Normalize(diff))]
      && r.1.output == "Overwrote " + path
    ensures r.1.status == Failed ==> r.0 == files && StartsWith(r.1.output, "Error overwriting " + path + ": ")
  {
    match ResolvePath(ed.root, path, ed.isIgnored)
    case Err(m) => (files, PatchResult(Failed, "Error overwriting " + path + ": " + ErrorText(m)))
    case Ok(target) => (files[target := OverwriteContent(Normalize(diff))], PatchResult(Completed, "Overwrote " + path))
  }

  function DeleteFileOp(files: Files, ed: Editor, path: string): (r: (Files, PatchResult))
    requires Normal(ed.root)
    ensures r.1.status == Completed <==>
      ResolvePath(ed.root, path, ed.isIgnored).Ok? && Resolve(ed.root, path) in files
    ensures r.1.status == Completed ==> r.0 == files - {Resolve(ed.root, path)} && r.1.output == "Deleted " + path
    ensures r.1.status == Failed ==> r.0 == files
    ensures ResolvePath(ed.root, path, ed.isIgnored).Ok? && Resolve(ed.root, path) !in files ==>
      r.1 == PatchResult(Failed, NotFound(Resolve(ed.root, path)))
  {
    match ResolvePath(ed.root, path, ed.isIgnored)
    case Err(m) => (files, PatchResult(Failed, "Error deleting " + path + ": " + ErrorText(m)))
    case Ok(target) =>
      if target !in files then (files, PatchResult(Failed, NotFound(target)))
      else (files - {target}, PatchResult(Completed, "Deleted " + path))
  }

  /** Runs one operation. */
  function Apply(files: Files, ed: Editor, op: Operation): (r: (Files, PatchResult))
    requires Normal(ed.root)
    ensures r.1.status == Failed ==> r.0 == files
    ensures r.1.status == Completed ==> ResolvePath(ed.root, op.path, ed.isIgnored).Ok?
  {
    match op.kind
    case CreateFile => CreateFileOp(files, ed, op.path, op.diff)
    case UpdateFile => UpdateFileOp(files, ed, op.path, op.diff)
    case OverwriteFile => OverwriteFileOp(files, ed, op.path, op.diff)
    case DeleteFile => DeleteFileOp(files, ed, op.path)
  }

  // ---- properties ----

  /** Every path other than `target` is as it was, and any change is a completed write to an allowed target. */
  ghost predicate OnlyAt(files: Files, r: (Files, PatchResult), ed: Editor, target: Segments) {
    (forall p :: p != target ==> (p in r.0 <==> p in files) && (p in files ==> r.0[p] == files[p]))
    && (r.0 != files ==> r.1.status == Completed && ed.root <= target && !ed.isIgnored(target))
  }

  /** Every operation touches at most its own target, which lies inside the root and is not ignored. */
  lemma OnlyTargetChanges(files: Files, ed: Editor, op: Operation)
    requires Normal(ed.root)
    ensures var r := Apply(files, ed, op);
      var target := Resolve(ed.root, op.path);
      (forall p :: p != target ==> (p in r.0 <==> p in files) && (p in files ==> r.0[p] == files[p]))
      && (r.0 != files ==> r.1.status == Completed && ed.root <= target && !ed.isIgnored(target))
  {
    var target := Resolve(ed.root, op.path);
    match op.kind {
      case CreateFile => CreateOnlyAt(files, ed, op.path, op.diff);
      case UpdateFile => UpdateOnlyAt(files, ed, op.path, op.diff);
      case OverwriteFile => OverwriteOnlyAt(files, ed, op.path, op.diff);
      case DeleteFile => DeleteOnlyAt(files, ed, op.path);
    }
    assert OnlyAt(files, Apply(files, ed, op), ed, target);
  }

  lemma MapUpdateOnlyAt(files: Files, target: Segments, v: string)
    ensures forall p :: p != target ==>
      (p in files[target := v] <==> p in files) && (p in files ==> files[target := v][p] == files[p])
  {
  }

  lemma CreateOnlyAt(files: Files, ed: Editor, path: string, diff: string)
    requires Normal(ed.root)
    ensures OnlyAt(files, CreateFileOp(files, ed, path, diff), ed, Resolve(ed.root, path))
  {
    if CreateFileOp(files, ed, path, diff).1.status == Completed {
      assert ResolvePath(ed.root, path, ed.isIgnored).Ok?;
    }
  }

  lemma UpdateOnlyAt(files: Files, ed: Editor, path: string, diff: string)
    requires Normal(ed.root)
    ensures OnlyAt(files, UpdateFileOp(files, ed, path, diff), ed, Resolve(ed.root, path))
  {
    var r := UpdateFileOp(files, ed, path, diff);
    var target := Resolve(ed.root, path);
    if r.1.status == Completed {
      var resolved := ResolvePath(ed.root, path, ed.isIgnored);
      assert resolved.Ok? && resolved.value == target;
      assert ed.root <= target && !ed.isIgnored(target);
      var v := ed.applyDiff(files[target], Normalize(diff), DefaultMode).value;
      assert r.0 == files[target := v];
      MapUpdateOnlyAt(files, target, v);
    } else {
      assert r.0 == files;
    }
  }

  lemma OverwriteOnlyAt(files: Files, ed: Editor, path: string, diff: string)
    requires Normal(ed.root)
    ensures OnlyAt(files, OverwriteFileOp(files, ed, path, diff), ed, Resolve(ed.root, path))
  {
    if OverwriteFileOp(files, ed, path, diff).1.status == Completed {
      assert ResolvePath(ed.root, path, ed.isIgnored).Ok?;
    }
  }

  lemma DeleteOnlyAt(files: Files, ed: Editor, path: string)
    requires Normal(ed.root)
    ensures OnlyAt(files, DeleteFileOp(files, ed, path), ed, Resolve(ed.root, path))
  {
    if DeleteFileOp(files, ed, path).1.status == Completed {
      assert ResolvePath(ed.root, path, ed.isIgnored).Ok?;
    }
  }

  /** A failed operation leaves the workspace as it was. */
  lemma FailureWritesNothing(files: Files, ed: Editor, op: Operation)
    requires Normal(ed.root)
    ensures Apply(files, ed, op).1.status == Failed ==> Apply(files, ed, op).0 == files
  {
  }

  /** Once a file has been deleted, updating or deleting it again reports it missing. */
  lemma DeletedFileIsMissing(files: Files, ed: Editor, path: string, diff: string)
    requires Normal(ed.root)
    requires DeleteFileOp(files, ed, path).1.status == Completed
    ensures var after := DeleteFileOp(files, ed, path).0;
      UpdateFileOp(after, ed, path, diff).1 == PatchResult(Failed, NotFound(Resolve(ed.root, path)))
      && DeleteFileOp(after, ed, path).1 == PatchResult(Failed, NotFound(Resolve(ed.root, path)))
  {
  }

  /** The content lines keep their order: the transform distributes over concatenation. */
  lemma {:induction false} ContentLinesAppend(a: seq<string>, b: seq<string>)
    ensures ContentLines(a + b) == ContentLines(a) + ContentLines(b)
    decreases |a|
  {
    if |a| > 0 {
      assert (a + b)[1..] == a[1..] + b;
      ContentLinesAppend(a[1..], b);
    } else {
      assert a + b == b;
    }
  }

  /** Line by line: removed lines vanish, added and context lines lose their marker, others stay. */
  lemma ContentLinesSingle(line: string)
    ensures StartsWith(line, "-") ==> ContentLines([line]) == []
    ensures StartsWith(line, "+") ==> ContentLines([line]) == [line[1..]]
    ensures StartsWith(line, " ") ==> ContentLines([line]) == [line[1..]]
    ensures !StartsWith(line, "-") && !StartsWith(line, "+") && !StartsWith(line, " ") ==> ContentLines([line]) == [line]
  {
  }

  function AddMarkers(lines: seq<string>): (r: seq<string>)
    ensures |r| == |lines|
    ensures forall i :: 0 <= i < |r| ==> r[i] == "+" + lines[i]
  {
    seq(|lines|, i requires 0 <= i < |lines| => "+" + lines[i])
  }

  lemma {:induction false} ContentOfAddedLines(lines: seq<string>)
    ensures ContentLines(AddMarkers(lines)) == lines
    decreases |lines|
  {
    if |lines| > 0 {
      var m := AddMarkers(lines);
      assert m[0] == "+" + lines[0];
      assert m[0][0] == '+';
      assert StartsWith(m[0], "+") && !StartsWith(m[0], "-");
      assert m[0][1..] == lines[0];
      assert m[1..] == AddMarkers(lines[1..]);
      ContentOfAddedLines(lines[1..]);
      assert lines == [lines[0]] + lines[1..];
    }
  }

  /** Overwriting with a file written entirely as added lines stores exactly those lines. */
  lemma AddedLinesRoundTrip(lines: seq<string>)
    requires |lines| >= 1
    requires forall i :: 0 <= i < |lines| ==> '\n' !in lines[i] && '\r' !in lines[i]
    ensures OverwriteContent(Join(AddMarkers(lines), "\n")) == Join(lines, "\n")
  {
    var m := AddMarkers(lines);
    forall i | 0 <= i < |m| ensures '\n' !in m[i] && '\r' !in m[i] {
      assert m[i] == "+" + lines[i];
    }
    SplitLinesOfJoin(m);
    assert IsMarked(m[0]);
    ContentOfAddedLines(lines);
  }

  /** Unmarked text (no line starts with `+` or `-`) is written verbatim. */
  lemma UnmarkedTextVerbatim(input: string)
    requires forall i :: 0 <= i < |SplitLines(input)| ==> !IsMarked(SplitLines(input)[i])
    ensures OverwriteContent(input) == input
  {
  }
}
