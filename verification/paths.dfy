/**
 * Workspace containment for file operations, on POSIX paths: a path named by the model
 * is resolved against the workspace root and refused when it leaves the root or when
 * the ignore file excludes it.
 */
module Paths {
  import opened Wrappers
  import opened Strings

  /** An absolute path as its list of segments; `[]` is `/`. */
  type Segments = seq<string>

  predicate IsSegment(s: string) {
    s != "" && s != "." && s != ".." && '/' !in s
  }

  /** A normalised absolute path: no empty, `.` or `..` segments. */
  predicate Normal(p: Segments) {
    forall i :: 0 <= i < |p| ==> IsSegment(p[i])
  }

  /** The text of an absolute path. */
  function Render(p: Segments): string {
    "/" + Join(p, "/")
  }

  /** One segment of `path.resolve`: skip empty and `.`, go up for `..` (never above `/`). */
  function Step(base: Segments, seg: string): (r: Segments)
    requires Normal(base) && '/' !in seg
    ensures Normal(r)
    ensures seg == ".." ==> r == (if base == [] then [] else base[..|base| - 1])
    ensures seg != ".." ==> base <= r
  {
    if seg == "" || seg == "." then base
    else if seg == ".." then (if base == [] then [] else base[..|base| - 1])
    else base + [seg]
  }

  function Walk(base: Segments, segs: seq<string>): (r: Segments)
    requires Normal(base)
    requires forall i :: 0 <= i < |segs| ==> '/' !in segs[i]
    ensures Normal(r)
    decreases |segs|
  {
    if |segs| == 0 then base else Walk(Step(base, segs[0]), segs[1..])
  }

  /** `path.resolve(root, rel)`: an absolute `rel` starts again from `/`. */
  function Resolve(root: Segments, rel: string): (r: Segments)
    requires Normal(root)
    ensures Normal(r)
  {
    Walk(if StartsWith(rel, "/") then [] else root, Split(rel, '/'))
  }

  /** The length of the longest common prefix of two paths. */
  function CommonLength(a: Segments, b: Segments): (k: nat)
    ensures k <= |a| && k <= |b| && a[..k] == b[..k]
    ensures k == |a| || k == |b| || a[k] != b[k]
    decreases |a|
  {
    if |a| == 0 || |b| == 0 || a[0] != b[0] then 0
    else
      var k := CommonLength(a[1..], b[1..]);
      assert a[1..][..k] == b[1..][..k];
      assert a[..k + 1] == [a[0]] + a[1..][..k];
      assert b[..k + 1] == [b[0]] + b[1..][..k];
      k + 1
  }

  /** `path.relative(from, to)`: up to the common ancestor, then down to `to`. */
  function Relative(from: Segments, to: Segments): string {
    Join(RelativeParts(from, to), "/")
  }

  function OutsideMessage(rel: string): string {
    "Operation outside workspace: " + rel
  }

  function IgnoredMessage(rel: string): string {
    "Operation restricted by .aiignore: " + rel
  }

  /**
   * `resolvePath` as written: refuses every path whose relative form starts with
   * `..`, then every ignored path. (`path.isAbsolute` of a relative form between two
   * absolute POSIX paths is always false.)
   */
  function ResolvePath(root: Segments, rel: string, isIgnored: Segments -> bool): (r: Result<Segments, string>)
    requires Normal(root)
    ensures r.Ok? ==> r.value == Resolve(root, rel) && root <= r.value && !isIgnored(r.value)
    ensures r.Ok? <==> !StartsWith(Relative(root, Resolve(root, rel)), "..") && !isIgnored(Resolve(root, rel))
    ensures r.Ok? <==> root <= Resolve(root, rel) && !isIgnored(Resolve(root, rel))
                       && !LeavesByName(root, Resolve(root, rel))
    ensures r.Err? ==> (r.error == OutsideMessage(rel) <==> StartsWith(Relative(root, Resolve(root, rel)), ".."))
    ensures r.Err? ==> (r.error == OutsideMessage(rel) <==>
                          !(root <= Resolve(root, rel)) || LeavesByName(root, Resolve(root, rel)))
    ensures r.Err? ==> r.error == OutsideMessage(rel) || r.error == IgnoredMessage(rel)
  {
    var resolved := Resolve(root, rel);
    RelativeLeadsUp(root, resolved);
    MessagesDiffer(rel);
    if StartsWith(Relative(root, resolved), "..") then
      Err(OutsideMessage(rel))
    else if isIgnored(resolved) then
      Err(IgnoredMessage(rel))
    else
      Ok(resolved)
  }

  /**
   * A path under the root whose first segment below it merely starts with `..` (a child
   * named `..foo`): its relative form starts with `..` although it stays inside.
   */
  predicate LeavesByName(root: Segments, p: Segments) {
    root <= p && |p| > |root| && StartsWith(p[|root|], "..")
  }

  /** The two refusals are told apart by their text. */
  lemma MessagesDiffer(rel: string)
    ensures OutsideMessage(rel) != IgnoredMessage(rel)
  {
    assert OutsideMessage(rel)[10] != IgnoredMessage(rel)[10];
  }

  /**
   * The containment test the code evidently intends: leaving the root means the
   * first segment of the relative form is `..`, not merely that it starts with `..`.
   */
  function ResolvePathFixed(root: Segments, rel: string, isIgnored: Segments -> bool): (r: Result<Segments, string>)
    requires Normal(root)
    ensures r.Ok? <==> root <= Resolve(root, rel) && !isIgnored(Resolve(root, rel))
    ensures r.Ok? ==> r.value == Resolve(root, rel)
    ensures r.Err? ==> (r.error == OutsideMessage(rel) <==> !(root <= Resolve(root, rel)))
    ensures r.Err? ==> r.error == OutsideMessage(rel) || r.error == IgnoredMessage(rel)
  {
    var resolved := Resolve(root, rel);
    var relative := Relative(root, resolved);
    RelativeGoesUp(root, resolved);
    if relative == ".." || StartsWith(relative, "../") then
      Err(OutsideMessage(rel))
    else if isIgnored(resolved) then
      Err(IgnoredMessage(rel))
    else
      Ok(resolved)
  }

  // ---- properties ----

  lemma CommonLengthOfPrefix(root: Segments, p: Segments)
    requires root <= p
    ensures CommonLength(root, p) == |root|
  {
  }

  lemma JoinStartsWithFirst(parts: seq<string>, sep: string)
    requires |parts| > 0
    ensures StartsWith(Join(parts, sep), parts[0])
  {
  }

  /** A path segment followed by separator-led text starts with `..` exactly when the segment does. */
  lemma LeadingSegment(seg: string, rest: string)
    requires IsSegment(seg) && (rest == "" || rest[0] == '/')
    ensures StartsWith(seg + rest, "..") <==> StartsWith(seg, "..")
    ensures !(seg + rest == ".." || StartsWith(seg + rest, "../"))
  {
    var t := seg + rest;
    assert t[0] == seg[0];
    if |seg| == 1 {
      assert seg == [seg[0]];
      assert seg[0] != '.';
    } else {
      assert t[1] == seg[1];
      if |seg| == 2 {
        assert seg != "..";
      } else {
        assert t[2] == seg[2];
      }
    }
  }

  /** The segments of the relative form from `root` to `p`. */
  function RelativeParts(root: Segments, p: Segments): seq<string> {
    var k := CommonLength(root, p);
    seq(|root| - k, _ => "..") + p[k..]
  }

  /** The relative form is empty, or its first part followed by separator-led text. */
  lemma RelativeShape(root: Segments, p: Segments)
    ensures var parts := RelativeParts(root, p);
      Relative(root, p) == Join(parts, "/")
      && (|parts| == 0 ==> Relative(root, p) == "")
      && (|parts| > 0 ==> exists rest: string :: (rest == "" || rest[0] == '/') && Relative(root, p) == parts[0] + rest)
  {
    var parts := RelativeParts(root, p);
    if |parts| > 0 {
      JoinCons(parts[0], parts[1..], "/");
      assert [parts[0]] + parts[1..] == parts;
      if |parts| == 1 {
        assert Join(parts, "/") == parts[0] + "";
      } else {
        var rest := "/" + Join(parts[1..], "/");
        assert Join(parts, "/") == parts[0] + rest;
      }
    }
  }

  /** For `root` a prefix of `p`, the relative form is the remaining segments. */
  lemma RelativeOfDescendant(root: Segments, p: Segments)
    requires root <= p
    ensures RelativeParts(root, p) == p[|root|..]
  {
    CommonLengthOfPrefix(root, p);
  }

  /** For `p` outside `root`, the relative form starts by going up. */
  lemma RelativeOfOutside(root: Segments, p: Segments)
    requires !(root <= p)
    ensures |RelativeParts(root, p)| > 0 && RelativeParts(root, p)[0] == ".."
  {
    var k := CommonLength(root, p);
    assert k < |root|;
  }

  /** Whether the relative form starts with `..`, in terms of the two paths. */
  lemma RelativeLeadsUp(root: Segments, p: Segments)
    requires Normal(root) && Normal(p)
    ensures StartsWith(Relative(root, p), "..") <==>
      !(root <= p) || (|p| > |root| && StartsWith(p[|root|], ".."))
  {
    var parts := RelativeParts(root, p);
    RelativeShape(root, p);
    if root <= p {
      RelativeOfDescendant(root, p);
      if |p| > |root| {
        var rest: string :| (rest == "" || rest[0] == '/') && Relative(root, p) == parts[0] + rest;
        LeadingSegment(p[|root|], rest);
      }
    } else {
      RelativeOfOutside(root, p);
    }
  }

  /** Whether the first segment of the relative form is `..`, in terms of the two paths. */
  lemma RelativeGoesUp(root: Segments, p: Segments)
    requires Normal(root) && Normal(p)
    ensures (Relative(root, p) == ".." || StartsWith(Relative(root, p), "../")) <==> !(root <= p)
  {
    var parts := RelativeParts(root, p);
    RelativeShape(root, p);
    if root <= p {
      RelativeOfDescendant(root, p);
      if |p| > |root| {
        var rest: string :| (rest == "" || rest[0] == '/') && Relative(root, p) == parts[0] + rest;
        LeadingSegment(p[|root|], rest);
      }
    } else {
      RelativeOfOutside(root, p);
      var rest: string :| (rest == "" || rest[0] == '/') && Relative(root, p) == parts[0] + rest;
      if rest != "" {
        assert StartsWith(Relative(root, p), "../") by {
          assert Relative(root, p)[..3] == ".." + rest[..1];
        }
      }
    }
  }

  /** Without `..` segments, a relative path never leaves its base. */
  lemma {:induction false} WalkDescends(base: Segments, segs: seq<string>)
    requires Normal(base)
    requires forall i :: 0 <= i < |segs| ==> '/' !in segs[i] && segs[i] != ".."
    ensures base <= Walk(base, segs)
    decreases |segs|
  {
    if |segs| > 0 {
      var next := Step(base, segs[0]);
      WalkDescends(next, segs[1..]);
    }
  }

  /** Corrected: every accepted path lies inside the root, and every inside path not ignored is accepted. */
  lemma FixedAcceptsExactlyInside(root: Segments, rel: string, isIgnored: Segments -> bool)
    requires Normal(root)
    ensures ResolvePathFixed(root, rel, isIgnored).Ok?
      <==> root <= Resolve(root, rel) && !isIgnored(Resolve(root, rel))
  {
  }

  /**
   * The written and the corrected check decide alike on every path except one inside the
   * root whose first segment below it starts with `..`.
   */
  lemma AsWrittenAgreesWithFixed(root: Segments, rel: string, isIgnored: Segments -> bool)
    requires Normal(root)
    ensures !LeavesByName(root, Resolve(root, rel)) <==>
      ResolvePath(root, rel, isIgnored) == ResolvePathFixed(root, rel, isIgnored)
  {
    MessagesDiffer(rel);
  }

  /** A relative path without `..` segments stays inside the root. */
  lemma DescendingPathInside(root: Segments, rel: string)
    requires Normal(root) && !StartsWith(rel, "/")
    requires forall i :: 0 <= i < |Split(rel, '/')| ==> Split(rel, '/')[i] != ".."
    ensures root <= Resolve(root, rel)
  {
    WalkDescends(root, Split(rel, '/'));
  }

  /** Resolving `.` gives the root itself. */
  lemma ResolveDot(root: Segments, isIgnored: Segments -> bool)
    requires Normal(root)
    ensures Resolve(root, ".") == root
    ensures !isIgnored(root) ==> ResolvePath(root, ".", isIgnored) == Ok(root)
  {
    SplitNoSeparator(".", '/');
    assert Walk(root, ["."]) == Walk(root, ["."][1..]);
    RelativeLeadsUp(root, root);
  }

  /** As written: a child literally named `..foo` is refused although it lies inside the root. */
  lemma DotDotNamedChildRefused(root: Segments, rel: string, isIgnored: Segments -> bool)
    requires root == ["w"] && rel == "..foo"
    ensures Resolve(root, rel) == ["w", "..foo"]
    ensures root <= Resolve(root, rel)
    ensures ResolvePath(root, rel, isIgnored) == Err(OutsideMessage(rel))
  {
    SplitNoSeparator(rel, '/');
    assert IsSegment(rel);
    assert Walk(root, [rel]) == Walk(root + [rel], [rel][1..]);
    RelativeLeadsUp(root, root + [rel]);
    assert StartsWith(rel, "..");
  }

  /** Corrected: the same child is accepted unless the ignore file excludes it. */
  lemma DotDotNamedChildAcceptedFixed(root: Segments, rel: string, isIgnored: Segments -> bool)
    requires root == ["w"] && rel == "..foo" && !isIgnored(["w", "..foo"])
    ensures ResolvePathFixed(root, rel, isIgnored) == Ok(["w", "..foo"])
  {
    DotDotNamedChildRefused(root, rel, isIgnored);
  }
}
