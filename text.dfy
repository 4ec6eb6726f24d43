/**
 * The JavaScript string operations the service relies on: `includes`,
 * a trailing-suffix test, the `.replace(/\.git$/, "")` normalisation and
 * `String.prototype.replace` with a string pattern (first occurrence only,
 * with `$`-patterns expanded in the replacement).
 */
module Text {
  import opened Wrappers

  /** `sub` occurs in `s` starting at index `i`. */
  predicate OccursAt(s: string, sub: string, i: nat) {
    i + |sub| <= |s| && s[i..i + |sub|] == sub
  }

  /** The first index at or after `from` where `sub` occurs in `s`. */
  function IndexOfFrom(s: string, sub: string, from: nat): (r: Option<nat>)
    ensures r.Some? ==> from <= r.value && OccursAt(s, sub, r.value)
    ensures forall j: nat :: from <= j && (r.None? || j < r.value) ==> !OccursAt(s, sub, j)
    decreases |s| - from
  {
    if from + |sub| > |s| then None
    else if s[from..from + |sub|] == sub then Some(from)
    else IndexOfFrom(s, sub, from + 1)
  }

  /** `s.indexOf(sub)`, with `None` for -1. */
  function IndexOf(s: string, sub: string): (r: Option<nat>)
    ensures r.Some? ==> OccursAt(s, sub, r.value)
    ensures forall j: nat :: (r.None? || j < r.value) ==> !OccursAt(s, sub, j)
  {
    IndexOfFrom(s, sub, 0)
  }

  /** `s.includes(sub)`. */
  predicate Includes(s: string, sub: string) {
    IndexOf(s, sub).Some?
  }

  lemma IncludesIff(s: string, sub: string)
    ensures Includes(s, sub) <==> exists i: nat :: OccursAt(s, sub, i)
  {
    if Includes(s, sub) {
      assert OccursAt(s, sub, IndexOf(s, sub).value);
    }
  }

  /** A one-character pattern occurs exactly where that character is. */
  lemma OccursAtChar(s: string, c: char, i: nat)
    ensures OccursAt(s, [c], i) <==> i < |s| && s[i] == c
  {
    if i < |s| {
      assert s[i..i + 1] == [s[i]];
    }
  }

  predicate StartsWith(s: string, prefix: string) {
    |prefix| <= |s| && s[..|prefix|] == prefix
  }

  predicate EndsWith(s: string, suffix: string) {
    |suffix| <= |s| && s[|s| - |suffix|..] == suffix
  }

  const GitSuffix: string := ".git"

  /** `s.replace(/\.git$/, "")`: the regular expression is anchored at the end, so at most one trailing ".git" goes. */
  function StripGitSuffix(s: string): (r: string)
    ensures |r| <= |s| && s[..|r|] == r
    ensures EndsWith(s, GitSuffix) ==> r + GitSuffix == s
    ensures !EndsWith(s, GitSuffix) ==> r == s
  {
    if EndsWith(s, GitSuffix) then s[..|s| - |GitSuffix|] else s
  }

  /** Exactly one ".git" is removed, whatever precedes it (".git.git" keeps one). */
  lemma StripGitSuffixOnce(x: string)
    ensures StripGitSuffix(x + GitSuffix) == x
  {
    var s := x + GitSuffix;
    assert s[|s| - |GitSuffix|..] == GitSuffix;
    assert s[..|s| - |GitSuffix|] == x;
  }

  /** A string without a trailing ".git" is left as it is. */
  lemma StripGitSuffixKeeps(s: string)
    requires !EndsWith(s, GitSuffix)
    ensures StripGitSuffix(s) == s
  {
  }

  /**
   * ECMAScript's GetSubstitution for a string pattern, which has no capture
   * groups: "$$" gives "$", "$&" the matched text, "$`" the text before the
   * match, "$'" the text after it; any other "$" is kept literally (with no
   * captures, "$1" and "$<" stay as written).
   */
  function Substitution(replacement: string, matched: string, before: string, after: string): (r: string)
    ensures '$' !in replacement ==> r == replacement
    decreases |replacement|
  {
    if replacement == [] then []
    else if replacement[0] == '$' && |replacement| >= 2 then
      var c := replacement[1];
      var rest := Substitution(replacement[2..], matched, before, after);
      if c == '$' then "$" + rest
      else if c == '&' then matched + rest
      else if c == '`' then before + rest
      else if c == '\'' then after + rest
      else "$" + Substitution(replacement[1..], matched, before, after)
    else [replacement[0]] + Substitution(replacement[1..], matched, before, after)
  }

  /** "$$" in the replacement inserts one "$". */
  lemma SubstitutionDollarDollar(rest: string, matched: string, before: string, after: string)
    ensures Substitution("$$" + rest, matched, before, after) == "$" + Substitution(rest, matched, before, after)
  {
    assert ("$$" + rest)[2..] == rest;
  }

  /** "$&" in the replacement inserts the matched text. */
  lemma SubstitutionMatched(rest: string, matched: string, before: string, after: string)
    ensures Substitution("$&" + rest, matched, before, after) == matched + Substitution(rest, matched, before, after)
  {
    assert ("$&" + rest)[2..] == rest;
  }

  /** "$`" in the replacement inserts the text before the match. */
  lemma SubstitutionBefore(rest: string, matched: string, before: string, after: string)
    ensures Substitution("$`" + rest, matched, before, after) == before + Substitution(rest, matched, before, after)
  {
    assert ("$`" + rest)[2..] == rest;
  }

  /** "$'" in the replacement inserts the text after the match. */
  lemma SubstitutionAfter(rest: string, matched: string, before: string, after: string)
    ensures Substitution("$'" + rest, matched, before, after) == after + Substitution(rest, matched, before, after)
  {
    assert ("$'" + rest)[2..] == rest;
  }

  /** A "$" before any other character, or at the end, is kept as it is. */
  lemma SubstitutionLiteralDollar(rest: string, matched: string, before: string, after: string)
    requires rest == [] || rest[0] !in {'$', '&', '`', '\''}
    ensures Substitution("$" + rest, matched, before, after) == "$" + Substitution(rest, matched, before, after)
  {
    assert ("$" + rest)[1..] == rest;
  }

  /** The result around the first occurrence, for any replacement. */
  lemma ReplaceFirstAt(s: string, pattern: string, replacement: string, i: nat)
    requires OccursAt(s, pattern, i)
    requires forall j: nat :: j < i ==> !OccursAt(s, pattern, j)
    ensures ReplaceFirst(s, pattern, replacement)
            == s[..i] + Substitution(replacement, pattern, s[..i], s[i + |pattern|..]) + s[i + |pattern|..]
  {
    assert IndexOf(s, pattern) == Some(i);
  }

  /** `s.replace(pattern, replacement)` with a string `pattern`: only the first occurrence is replaced. */
  function ReplaceFirst(s: string, pattern: string, replacement: string): (r: string)
  {
    match IndexOf(s, pattern)
    case None => s
    case Some(i) =>
      var after := s[i + |pattern|..];
      s[..i] + Substitution(replacement, pattern, s[..i], after) + after
  }

  /** Without an occurrence of the pattern the text is returned unchanged. */
  lemma ReplaceFirstAbsent(s: string, pattern: string, replacement: string)
    requires !Includes(s, pattern)
    ensures ReplaceFirst(s, pattern, replacement) == s
  {
  }

  /**
   * The first occurrence is replaced: the text before it is kept, the
   * replacement (free of "$") follows, then the rest of the text verbatim.
   */
  lemma ReplaceFirstPlain(s: string, pattern: string, replacement: string, i: nat)
    requires '$' !in replacement
    requires OccursAt(s, pattern, i)
    requires forall j: nat :: j < i ==> !OccursAt(s, pattern, j)
    ensures ReplaceFirst(s, pattern, replacement) == s[..i] + replacement + s[i + |pattern|..]
  {
    assert IndexOf(s, pattern) == Some(i);
  }

  /**
   * Only the first occurrence is replaced: any later occurrence that does
   * not overlap it is still there, shifted by the change in length.
   */
  lemma ReplaceFirstKeepsLater(s: string, pattern: string, replacement: string, j: nat)
    requires IndexOf(s, pattern).Some?
    requires IndexOf(s, pattern).value + |pattern| <= j
    requires OccursAt(s, pattern, j)
    ensures var i := IndexOf(s, pattern).value;
            var sub := Substitution(replacement, pattern, s[..i], s[i + |pattern|..]);
            OccursAt(ReplaceFirst(s, pattern, replacement), pattern, j - |pattern| + |sub|)
  {
    var i := IndexOf(s, pattern).value;
    var after := s[i + |pattern|..];
    var sub := Substitution(replacement, pattern, s[..i], after);
    var head := s[..i] + sub;
    var r := head + after;
    assert ReplaceFirst(s, pattern, replacement) == r;
    var d := j - (i + |pattern|);
    assert |head| == i + |sub|;
    SuffixKeepsOccurrence(s, pattern, i + |pattern|, j);
    AppendKeepsOccurrence(head, after, pattern, d);
  }

  /** An occurrence at or after `k` is an occurrence in `s[k..]`, shifted by `k`. */
  lemma SuffixKeepsOccurrence(s: string, pattern: string, k: nat, j: nat)
    requires k <= j && OccursAt(s, pattern, j)
    ensures OccursAt(s[k..], pattern, j - k)
  {
    assert s[k..][j - k..j - k + |pattern|] == s[j..j + |pattern|];
  }

  /** An occurrence in `t` is an occurrence in `h + t`, shifted by `|h|`. */
  lemma AppendKeepsOccurrence(h: string, t: string, pattern: string, d: nat)
    requires OccursAt(t, pattern, d)
    ensures OccursAt(h + t, pattern, |h| + d)
  {
    assert (h + t)[|h| + d..|h| + d + |pattern|] == t[d..d + |pattern|];
  }
}
