/** Recognising a request for help or for the version among the command-line arguments. */
module Cli {
  import opened Strings

  const HelpVariants: seq<string> := ["--help", "-h", "help"]
  const VersionVariants: seq<string> := ["--version", "-v", "version"]

  /** `args.some(arg => variants.includes(arg.toLowerCase()))`. */
  function AnyIn(args: seq<string>, variants: seq<string>): (r: bool)
    ensures r <==> exists i :: 0 <= i < |args| && ToLower(args[i]) in variants
    decreases |args|
  {
    if |args| == 0 then false
    else
      assert forall i :: 1 <= i < |args| ==> args[i] == args[1..][i - 1];
      ToLower(args[0]) in variants || AnyIn(args[1..], variants)
  }

  /** `isHelpRequest`. */
  function IsHelpRequest(args: seq<string>): (r: bool)
    ensures r <==> exists i :: 0 <= i < |args| && ToLower(args[i]) in HelpVariants
  {
    AnyIn(args, HelpVariants)
  }

  /** `isVersionRequest`. */
  function IsVersionRequest(args: seq<string>): (r: bool)
    ensures r <==> exists i :: 0 <= i < |args| && ToLower(args[i]) in VersionVariants
  {
    AnyIn(args, VersionVariants)
  }

  // ---- properties ----

  /** No arguments, no request. */
  lemma NoArgumentsNoRequest()
    ensures !IsHelpRequest([]) && !IsVersionRequest([])
  {
  }

  /** A recognised argument counts wherever it stands. */
  lemma AnyPosition(before: seq<string>, arg: string, after: seq<string>, variants: seq<string>)
    requires ToLower(arg) in variants
    ensures AnyIn(before + [arg] + after, variants)
  {
    assert (before + [arg] + after)[|before|] == arg;
  }

  /** Reordering the arguments changes nothing. */
  lemma OrderIrrelevant(a: seq<string>, b: seq<string>, variants: seq<string>)
    requires multiset(a) == multiset(b)
    ensures AnyIn(a, variants) == AnyIn(b, variants)
  {
    if AnyIn(a, variants) {
      var i :| 0 <= i < |a| && ToLower(a[i]) in variants;
      assert a[i] in multiset(b);
      var j :| 0 <= j < |b| && b[j] == a[i];
    }
    if AnyIn(b, variants) {
      var j :| 0 <= j < |b| && ToLower(b[j]) in variants;
      assert b[j] in multiset(a);
      var i :| 0 <= i < |a| && a[i] == b[j];
    }
  }

  /** Letter case does not matter: lower-casing every argument first gives the same answer. */
  lemma CaseIrrelevant(args: seq<string>, variants: seq<string>)
    ensures AnyIn(seq(|args|, i requires 0 <= i < |args| => ToLower(args[i])), variants) == AnyIn(args, variants)
  {
    var lowered := seq(|args|, i requires 0 <= i < |args| => ToLower(args[i]));
    forall i | 0 <= i < |args| ensures ToLower(lowered[i]) == ToLower(args[i]) {
      ToLowerIdempotent(args[i]);
    }
  }
}
