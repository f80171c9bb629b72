/**
 * Writing a setting to the process environment and to the `.env` file: the first line
 * of the file that starts with `KEY=` is replaced, otherwise a new line is appended.
 */
module UpdateEnv {
  import opened Wrappers
  import opened Strings
  import opened EnvVars

  /** The characters that end a line for `^` and `.` in a multiline JavaScript regular expression. */
  predicate IsLineTerminator(c: char) {
    c == '\n' || c == '\r' || c == '\U{2028}' || c == '\U{2029}'
  }

  predicate NoLineTerminator(s: string) {
    forall i :: 0 <= i < |s| ==> !IsLineTerminator(s[i])
  }

  predicate LineStart(c: string, i: nat)
    requires i <= |c|
  {
    i == 0 || IsLineTerminator(c[i - 1])
  }

  /** `^KEY=` (multiline) matches at position `i`. */
  predicate MatchAt(c: string, key: string, i: nat)
    requires i <= |c|
  {
    LineStart(c, i) && StartsWith(c[i..], key + "=")
  }

  /** The leftmost match at or after `i`. */
  function FirstMatch(c: string, key: string, i: nat): (r: Option<nat>)
    requires i <= |c|
    ensures r.Some? ==> i <= r.value <= |c| && MatchAt(c, key, r.value)
    ensures r.Some? ==> forall j :: i <= j < r.value ==> !MatchAt(c, key, j)
    ensures r.None? ==> forall j :: i <= j <= |c| ==> !MatchAt(c, key, j)
    decreases |c| - i
  {
    if MatchAt(c, key, i) then Some(i)
    else if i == |c| then None
    else FirstMatch(c, key, i + 1)
  }

  /** Where `.*` starting at `i` stops: the next line terminator, or the end. */
  function LineEnd(c: string, i: nat): (e: nat)
    requires i <= |c|
    ensures i <= e <= |c| && (e == |c| || IsLineTerminator(c[e]))
    ensures forall j :: i <= j < e ==> !IsLineTerminator(c[j])
    decreases |c| - i
  {
    if i == |c| || IsLineTerminator(c[i]) then i else LineEnd(c, i + 1)
  }

  /** The line `KEY=value`. */
  function Entry(key: string, value: string): string {
    key + "=" + value
  }

  /**
   * The new `.env` text: `content.replace(/^KEY=.*\/m, 'KEY=value')` when a line starts
   * with `KEY=`, else `KEY=value\n` appended after a line feed if the text is non-empty
   * and does not already end with one.
   */
  function UpdateContent(content: string, key: string, value: string): (r: string)
    ensures FirstMatch(content, key, 0).Some? ==>
      var i := FirstMatch(content, key, 0).value;
      r == content[..i] + Entry(key, value) + content[LineEnd(content, i + |key| + 1)..]
    ensures FirstMatch(content, key, 0).None? ==>
      content <= r && EndsWith(r, Entry(key, value) + "\n") && |r| <= |content| + |Entry(key, value)| + 2
  {
    match FirstMatch(content, key, 0)
    case Some(i) =>
      content[..i] + Entry(key, value) + content[LineEnd(content, i + |key| + 1)..]
    case None => AppendLine(content, Entry(key, value))
  }

  /** `line` and a line feed after the text, with a line feed first unless the text is empty or ends with one. */
  function AppendLine(content: string, line: string): (r: string)
    ensures content <= r && EndsWith(r, line + "\n") && |r| <= |content| + |line| + 2
  {
    var base := if content != "" && !EndsWith(content, "\n") then content + "\n" else content;
    assert (base + line + "\n")[..|content|] == content;
    assert base + line + "\n" == base + (line + "\n");
    EndsWithAppend(base, line + "\n");
    base + line + "\n"
  }

  /**
   * `updateEnv(key, value)`: the process variable is set first; a missing file reads as
   * empty text. Returns the new environment and the new file text.
   */
  function Update(env: Env, file: Option<string>, key: string, value: string): (r: (Env, string))
    ensures r.0 == env[key := value]
    ensures r.1 == UpdateContent(file.GetOr(""), key, value)
  {
    (env[key := value], UpdateContent(file.GetOr(""), key, value))
  }

  // ---- properties ----

  /** `KEY=` cannot match across a line break when the key has none. */
  lemma NoMatchAcrossTerminator(s: string, key: string, j: nat, t: nat)
    requires NoLineTerminator(key)
    requires j <= t < |s| && t < j + |key| + 1 && IsLineTerminator(s[t])
    ensures !StartsWith(s[j..], key + "=")
  {
    var k := key + "=";
    if t - j < |key| {
      assert k[t - j] == key[t - j];
    }
    assert !IsLineTerminator(k[t - j]);
    assert s[j..][t - j] == s[t];
  }

  /**
   * A text that agrees with `c` up to `m`, where `c` has no match, and has a line
   * terminator right before `b` has no match before `b`.
   */
  lemma NoEarlierMatch(c: string, r: string, key: string, m: nat, b: nat)
    requires NoLineTerminator(key)
    requires m <= |c| && m <= b <= |r| && b <= m + 1 && r[..m] == c[..m]
    requires forall j :: 0 <= j < m ==> !MatchAt(c, key, j)
    requires b > 0 ==> IsLineTerminator(r[b - 1])
    ensures forall j :: 0 <= j < b ==> !MatchAt(r, key, j)
  {
    forall j | 0 <= j < b ensures !MatchAt(r, key, j) {
      if j + |key| + 1 <= m {
        assert r[j..][..|key| + 1] == c[j..][..|key| + 1] by {
          assert r[j..j + |key| + 1] == r[..m][j..j + |key| + 1];
          assert c[j..j + |key| + 1] == c[..m][j..j + |key| + 1];
        }
        assert !MatchAt(c, key, j);
        if j > 0 {
          assert r[j - 1] == r[..m][j - 1] == c[..m][j - 1] == c[j - 1];
        }
      } else {
        NoMatchAcrossTerminator(r, key, j, b - 1);
      }
    }
  }

  /** The first match of a text that has a match at `i` and none before. */
  lemma FirstMatchIs(r: string, key: string, i: nat)
    requires i <= |r| && MatchAt(r, key, i)
    requires forall j :: 0 <= j < i ==> !MatchAt(r, key, j)
    ensures FirstMatch(r, key, 0) == Some(i)
  {
  }

  /** `LineEnd` is the first terminator position. */
  lemma {:induction false} LineEndIs(s: string, i: nat, e: nat)
    requires i <= e <= |s|
    requires forall j :: i <= j < e ==> !IsLineTerminator(s[j])
    requires e == |s| || IsLineTerminator(s[e])
    ensures LineEnd(s, i) == e
    decreases e - i
  {
    if i < e {
      LineEndIs(s, i + 1, e);
    }
  }

  /**
   * Where the entry sits at line start `i` of `r`, followed by a terminator or the end,
   * writing it again there changes nothing.
   */
  lemma EntryInPlace(r: string, key: string, value: string, i: nat)
    requires NoLineTerminator(value)
    requires i + |Entry(key, value)| <= |r| && r[i..i + |Entry(key, value)|] == Entry(key, value)
    requires i + |Entry(key, value)| == |r| || IsLineTerminator(r[i + |Entry(key, value)|])
    ensures LineEnd(r, i + |key| + 1) == i + |Entry(key, value)|
    ensures r[..i] + Entry(key, value) + r[LineEnd(r, i + |key| + 1)..] == r
  {
    var kv := Entry(key, value);
    var end := i + |kv|;
    forall j | i + |key| + 1 <= j < end ensures !IsLineTerminator(r[j]) {
      assert r[j] == r[i..end][j - i] == kv[j - i] == value[j - i - |key| - 1];
    }
    LineEndIs(r, i + |key| + 1, end);
    assert r[..i] + r[i..end] + r[end..] == r;
  }

  /** `r` has its first match at `i`, and rewriting the entry there gives `r` back. */
  predicate SettledAt(r: string, key: string, value: string, i: nat) {
    FirstMatch(r, key, 0) == Some(i) && i + |key| + 1 <= |r|
    && r[..i] + Entry(key, value) + r[LineEnd(r, i + |key| + 1)..] == r
  }

  /** The match found in the updated text is at the same place as before (replacement case). */
  lemma ReplacedStaysFirst(c: string, key: string, value: string, i: nat)
    requires NoLineTerminator(key) && NoLineTerminator(value)
    requires FirstMatch(c, key, 0) == Some(i)
    ensures SettledAt(UpdateContent(c, key, value), key, value, i)
  {
    var kv := Entry(key, value);
    var e := LineEnd(c, i + |key| + 1);
    var r := c[..i] + kv + c[e..];
    assert UpdateContent(c, key, value) == r;
    SplicedEntry(c, key, value, i, e);
    NoEarlierMatch(c, r, key, i, i);
    FirstMatchIs(r, key, i);
    EntryInPlace(r, key, value, i);
  }

  /** The entry spliced in at a line start `i`, in place of `c[i..e]`, where `e` ends a line. */
  lemma SplicedEntry(c: string, key: string, value: string, i: nat, e: nat)
    requires i <= e <= |c| && LineStart(c, i) && (e == |c| || IsLineTerminator(c[e]))
    ensures var kv, r := Entry(key, value), c[..i] + Entry(key, value) + c[e..];
      r[..i] == c[..i] && i + |kv| <= |r| && r[i..i + |kv|] == kv && MatchAt(r, key, i)
      && (i + |kv| == |r| || IsLineTerminator(r[i + |kv|]))
  {
    var kv := Entry(key, value);
    var r := c[..i] + kv + c[e..];
    assert r[..i] == c[..i];
    assert r[i..i + |kv|] == kv;
    assert r[i..][..|key| + 1] == key + "=";
    if i > 0 {
      assert r[i - 1] == c[i - 1];
    }
    if i + |kv| < |r| {
      assert r[i + |kv|] == c[e];
    }
  }

  /** An entry appended after a line break (or to empty text) is the first match. */
  lemma AppendedAt(c: string, base: string, key: string, value: string)
    requires NoLineTerminator(key) && NoLineTerminator(value)
    requires FirstMatch(c, key, 0).None?
    requires base == c || base == c + "\n"
    requires base == "" || base[|base| - 1] == '\n'
    ensures SettledAt(base + Entry(key, value) + "\n", key, value, |base|)
  {
    var kv := Entry(key, value);
    var r := base + kv + "\n";
    var b := |base|;
    assert r[..|c|] == c;
    if b > 0 {
      assert r[b - 1] == base[b - 1];
    }
    NoEarlierMatch(c, r, key, |c|, b);
    assert r[b..b + |kv|] == kv;
    assert r[b..][..|key| + 1] == key + "=";
    FirstMatchIs(r, key, b);
    assert r[b + |kv|] == '\n';
    EntryInPlace(r, key, value, b);
  }

  /** The appended entry is the first match of the updated text (append case). */
  lemma AppendedIsFirst(c: string, key: string, value: string)
    requires NoLineTerminator(key) && NoLineTerminator(value)
    requires FirstMatch(c, key, 0).None?
    ensures SettledAt(UpdateContent(c, key, value), key, value,
                      |if c != "" && !EndsWith(c, "\n") then c + "\n" else c|)
  {
    var base := if c != "" && !EndsWith(c, "\n") then c + "\n" else c;
    assert UpdateContent(c, key, value) == base + Entry(key, value) + "\n";
    if c != "" && EndsWith(c, "\n") {
      assert c[|c| - 1..] == "\n";
    }
    AppendedAt(c, base, key, value);
  }

  /** Writing the same setting twice leaves the file as after the first write. */
  lemma UpdateIdempotent(content: string, key: string, value: string)
    requires NoLineTerminator(key) && NoLineTerminator(value)
    ensures UpdateContent(UpdateContent(content, key, value), key, value) == UpdateContent(content, key, value)
  {
    var i := RewriteFixedPoint(content, key, value);
  }

  /** The updated text has a first match, and rewriting at it gives the same text. */
  lemma RewriteFixedPoint(content: string, key: string, value: string) returns (i: nat)
    requires NoLineTerminator(key) && NoLineTerminator(value)
    ensures SettledAt(UpdateContent(content, key, value), key, value, i)
  {
    match FirstMatch(content, key, 0)
    case Some(k) =>
      ReplacedStaysFirst(content, key, value, k);
      i := k;
    case None =>
      AppendedIsFirst(content, key, value);
      i := |if content != "" && !EndsWith(content, "\n") then content + "\n" else content|;
  }

  /** A text that is its own rewrite at `i` holds the entry there as a whole line. */
  lemma EntryAt(r: string, key: string, value: string, i: nat)
    requires i + |key| + 1 <= |r| && r[..i] + Entry(key, value) + r[LineEnd(r, i + |key| + 1)..] == r
    ensures i + |Entry(key, value)| <= |r| && r[i..i + |Entry(key, value)|] == Entry(key, value)
    ensures i + |Entry(key, value)| == |r| || IsLineTerminator(r[i + |Entry(key, value)|])
  {
    var kv := Entry(key, value);
    var e := LineEnd(r, i + |key| + 1);
    assert |r| == i + |kv| + (|r| - e);
    assert r[i..i + |kv|] == (r[..i] + kv + r[e..])[i..i + |kv|];
    if i + |kv| < |r| {
      assert r[i + |kv|] == (r[..i] + kv + r[e..])[i + |kv|] == r[e];
    }
  }

  /**
   * After the update the first line that starts with `KEY=` is the whole line
   * `KEY=value`, ended by a line terminator or by the end of the text.
   */
  lemma HasEntryLine(content: string, key: string, value: string)
    requires NoLineTerminator(key) && NoLineTerminator(value)
    ensures var r := UpdateContent(content, key, value);
      FirstMatch(r, key, 0).Some? &&
      var i := FirstMatch(r, key, 0).value;
      i + |Entry(key, value)| <= |r| && r[i..i + |Entry(key, value)|] == Entry(key, value)
      && (i + |Entry(key, value)| == |r| || IsLineTerminator(r[i + |Entry(key, value)|]))
  {
    var r := UpdateContent(content, key, value);
    var i := RewriteFixedPoint(content, key, value);
    EntryAt(r, key, value, i);
  }

  /** A text without the setting keeps all of its lines and gains the entry at the end. */
  lemma AppendKeepsText(content: string, key: string, value: string)
    requires FirstMatch(content, key, 0).None?
    requires content == "" || EndsWith(content, "\n")
    ensures UpdateContent(content, key, value) == content + Entry(key, value) + "\n"
  {
  }

  // ---- other settings' lines ----

  /** The whole line `KEY=value` sits at position `i`. */
  predicate LineAt(c: string, key: string, value: string, i: nat) {
    i + |Entry(key, value)| <= |c| && LineStart(c, i) && c[i..i + |Entry(key, value)|] == Entry(key, value)
    && (i + |Entry(key, value)| == |c| || IsLineTerminator(c[i + |Entry(key, value)|]))
  }

  /** The text holds the line `KEY=value` somewhere. */
  predicate HasLine(c: string, key: string, value: string) {
    exists i: nat :: i <= |c| && LineAt(c, key, value, i)
  }

  predicate NoEquals(s: string) {
    forall i :: 0 <= i < |s| ==> s[i] != '='
  }

  /** After the update the text holds the line `KEY=value`. */
  lemma UpdatedHasLine(content: string, key: string, value: string)
    requires NoLineTerminator(key) && NoLineTerminator(value)
    ensures HasLine(UpdateContent(content, key, value), key, value)
  {
    var r := UpdateContent(content, key, value);
    HasEntryLine(content, key, value);
    var i := FirstMatch(r, key, 0).value;
    assert LineAt(r, key, value, i);
  }

  lemma EntryHasNoTerminator(key: string, value: string)
    requires NoLineTerminator(key) && NoLineTerminator(value)
    ensures NoLineTerminator(Entry(key, value))
  {
    var kv := Entry(key, value);
    forall t | 0 <= t < |kv| ensures !IsLineTerminator(kv[t]) {
      if t < |key| {
        assert kv[t] == key[t];
      } else if t > |key| {
        assert kv[t] == value[t - |key| - 1];
      }
    }
  }

  /** Two different `=`-free keys cannot both start a line at the same place. */
  lemma KeysDisagree(c: string, k1: string, k2: string, i: nat)
    requires NoEquals(k1) && NoEquals(k2) && k1 != k2 && i <= |c|
    ensures !StartsWith(c[i..], k1 + "=") || !StartsWith(c[i..], k2 + "=")
  {
    if |k1| < |k2| {
      assert (k2 + "=")[|k1|] == k2[|k1|] != '=';
    } else if |k2| < |k1| {
      assert (k1 + "=")[|k2|] == k1[|k2|] != '=';
    } else {
      if StartsWith(c[i..], k1 + "=") {
        assert c[i..i + |k1|] == (k1 + "=")[..|k1|] == k1;
      }
      if StartsWith(c[i..], k2 + "=") {
        assert c[i..i + |k2|] == (k2 + "=")[..|k2|] == k2;
      }
    }
  }

  /** A line that ends, terminator included, before `n` survives any change from `n` on. */
  lemma LineKeptInPrefix(c: string, r: string, key: string, value: string, i: nat, n: nat)
    requires LineAt(c, key, value, i) && i + |Entry(key, value)| < n <= |c| && n <= |r| && r[..n] == c[..n]
    ensures LineAt(r, key, value, i)
  {
    var kv := Entry(key, value);
    assert r[i..i + |kv|] == r[..n][i..i + |kv|];
    assert c[i..i + |kv|] == c[..n][i..i + |kv|];
    assert r[i + |kv|] == r[..n][i + |kv|];
    if i > 0 {
      assert r[i - 1] == r[..n][i - 1];
    }
  }

  /** A line after a line break at `e` or later survives a change before `e`, shifted. */
  lemma LineKeptInSuffix(c: string, r: string, key: string, value: string, i: nat, e: nat, m: nat)
    requires LineAt(c, key, value, i) && e < i && m <= |r| && r[m..] == c[e..]
    ensures LineAt(r, key, value, m + (i - e))
  {
    var kv := Entry(key, value);
    var i' := m + (i - e);
    assert |r| - m == |c| - e;
    assert r[i'..i' + |kv|] == r[m..][i - e..i - e + |kv|];
    assert c[i..i + |kv|] == c[e..][i - e..i - e + |kv|];
    assert r[i' - 1] == r[m..][i - e - 1] == c[i - 1];
    if i + |kv| < |c| {
      assert r[i' + |kv|] == r[m..][i - e + |kv|] == c[i + |kv|];
    }
  }

  /** Appending another setting keeps every existing line. */
  lemma AppendKeepsLine(c: string, k1: string, v1: string, k2: string, v2: string, i: nat)
    requires NoLineTerminator(k1) && NoLineTerminator(v1)
    requires FirstMatch(c, k2, 0).None? && LineAt(c, k1, v1, i)
    ensures LineAt(UpdateContent(c, k2, v2), k1, v1, i)
  {
    var kv := Entry(k1, v1);
    var r := UpdateContent(c, k2, v2);
    var base := if c != "" && !EndsWith(c, "\n") then c + "\n" else c;
    assert r == base + Entry(k2, v2) + "\n";
    assert r[..|c|] == c;
    if i + |kv| < |c| {
      LineKeptInPrefix(c, r, k1, v1, i, |c|);
    } else {
      EntryHasNoTerminator(k1, v1);
      assert c[|c| - 1] == kv[|kv| - 1];
      assert base == c + "\n";
      assert r[|c|] == '\n';
      assert r[i..i + |kv|] == c[i..i + |kv|];
      if i > 0 {
        assert r[i - 1] == c[i - 1];
      }
    }
  }

  /** Replacing a later line keeps an earlier one in place. */
  lemma ReplaceAfterKeepsLine(c: string, k1: string, v1: string, k2: string, v2: string, i: nat, j: nat)
    requires NoLineTerminator(k1) && NoLineTerminator(v1)
    requires FirstMatch(c, k2, 0) == Some(j) && LineAt(c, k1, v1, i) && i < j
    ensures LineAt(UpdateContent(c, k2, v2), k1, v1, i)
  {
    var kv := Entry(k1, v1);
    var r := UpdateContent(c, k2, v2);
    EntryHasNoTerminator(k1, v1);
    assert IsLineTerminator(c[j - 1]);
    forall t | i <= t < i + |kv| ensures !IsLineTerminator(c[t]) {
      assert c[t] == c[i..i + |kv|][t - i] == kv[t - i];
    }
    assert r[..j] == c[..j];
    LineKeptInPrefix(c, r, k1, v1, i, j);
  }

  /** Replacing an earlier line keeps a later one, shifted by the change in length. */
  lemma ReplaceBeforeKeepsLine(c: string, k1: string, v1: string, k2: string, v2: string, i: nat, j: nat)
      returns (i': nat)
    requires NoLineTerminator(k2)
    requires FirstMatch(c, k2, 0) == Some(j) && LineAt(c, k1, v1, i) && j < i
    ensures LineAt(UpdateContent(c, k2, v2), k1, v1, i')
  {
    var r := UpdateContent(c, k2, v2);
    var e := LineEnd(c, j + |k2| + 1);
    assert IsLineTerminator(c[i - 1]);
    forall t | j <= t < j + |k2| + 1 ensures !IsLineTerminator(c[t]) {
      assert c[t] == c[j..][..|k2| + 1][t - j] == (k2 + "=")[t - j];
      if t - j < |k2| {
        assert (k2 + "=")[t - j] == k2[t - j];
      }
    }
    assert e <= i - 1;
    var m := j + |Entry(k2, v2)|;
    assert r[m..] == c[e..];
    LineKeptInSuffix(c, r, k1, v1, i, e, m);
    i' := m + (i - e);
  }

  /**
   * Updating one setting keeps the line of another: the entry written for `k1` is still
   * there after `k2` is written, whether `k2` replaced a line or was appended.
   */
  lemma OtherUpdateKeepsLine(c: string, k1: string, v1: string, k2: string, v2: string)
    requires NoLineTerminator(k1) && NoLineTerminator(v1) && NoLineTerminator(k2)
    requires NoEquals(k1) && NoEquals(k2) && k1 != k2
    requires HasLine(c, k1, v1)
    ensures HasLine(UpdateContent(c, k2, v2), k1, v1)
  {
    var i: nat :| i <= |c| && LineAt(c, k1, v1, i);
    var r := UpdateContent(c, k2, v2);
    match FirstMatch(c, k2, 0)
    case None =>
      AppendKeepsLine(c, k1, v1, k2, v2, i);
      assert LineAt(r, k1, v1, i);
    case Some(j) =>
      KeysDisagree(c, k1, k2, i);
      assert c[i..][..|k1| + 1] == Entry(k1, v1)[..|k1| + 1] == k1 + "=";
      if i < j {
        ReplaceAfterKeepsLine(c, k1, v1, k2, v2, i, j);
        assert LineAt(r, k1, v1, i);
      } else {
        var i' := ReplaceBeforeKeepsLine(c, k1, v1, k2, v2, i, j);
        assert LineAt(r, k1, v1, i');
      }
  }
}
