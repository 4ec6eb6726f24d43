/**
 * Classification of a repository URL (main.ts:43-50, 66 and their README twins):
 * a host containing "github.com" must match
 * `^https://github\.com/([^/]+)/([^/]+)(\.git)?$` and yields an owner and a
 * repository name; any other host is a generic provider whose URL loses one
 * trailing ".git".
 */
module Classifier {
  import opened Wrappers
  import opened Text

  const GithubHost: string := "github.com"
  const GithubPrefix: string := "https://github.com/"

  /**
   * The whole URL has the shape the GitHub pattern accepts: the fixed
   * prefix, a non-empty owner and a non-empty name, neither holding '/'.
   * The optional `(\.git)?` group adds nothing: a name ending in ".git"
   * is itself a run of non-'/' characters, and the greedy second group
   * takes it whole.
   */
  predicate GithubShaped(url: string, owner: string, name: string) {
    && url == GithubPrefix + owner + "/" + name
    && owner != [] && name != []
    && '/' !in owner && '/' !in name
  }

  /** Capture groups 1 and 2 of the GitHub pattern, or `None` when the URL does not match it. */
  function MatchGithub(url: string): (m: Option<(string, string)>)
  {
    if !StartsWith(url, GithubPrefix) then None
    else
      var rest := url[|GithubPrefix|..];
      match IndexOf(rest, "/")
      case None => None
      case Some(k) =>
        var owner := rest[..k];
        var name := rest[k + 1..];
        if owner != [] && name != [] && '/' !in name then Some((owner, name)) else None
  }

  /** Index `k` is the first '/' of `s` exactly when `s` splits there into a '/'-free head and a tail. */
  lemma FirstSlash(s: string, k: nat)
    requires IndexOf(s, "/") == Some(k)
    ensures k < |s| && s[k] == '/' && '/' !in s[..k]
  {
    OccursAtChar(s, '/', k);
    forall j: nat | j < k
      ensures s[j] != '/'
    {
      OccursAtChar(s, '/', j);
    }
  }

  /** What the matcher returns is a split of the URL into the GitHub shape. */
  lemma MatchGithubSound(url: string)
    requires MatchGithub(url).Some?
    ensures GithubShaped(url, MatchGithub(url).value.0, MatchGithub(url).value.1)
  {
    var p := GithubPrefix;
    var rest := url[|p|..];
    var k := IndexOf(rest, "/").value;
    FirstSlash(rest, k);
    assert rest == rest[..k] + "/" + rest[k + 1..];
    assert url == p + rest;
  }

  /** Every URL of the GitHub shape is matched, with its own owner and name. */
  lemma MatchGithubComplete(url: string, owner: string, name: string)
    requires GithubShaped(url, owner, name)
    ensures MatchGithub(url) == Some((owner, name))
  {
    var p := GithubPrefix;
    var rest := owner + "/" + name;
    assert url[..|p|] == p;
    assert url[|p|..] == rest;
    SlashAfterOwner(owner, name);
    assert rest[..|owner|] == owner;
    assert rest[|owner| + 1..] == name;
  }

  /** In `owner + "/" + name` with a '/'-free owner, the first '/' follows the owner. */
  lemma SlashAfterOwner(owner: string, name: string)
    requires '/' !in owner
    ensures IndexOf(owner + "/" + name, "/") == Some(|owner|)
  {
    var rest := owner + "/" + name;
    OccursAtChar(rest, '/', |owner|);
    forall j: nat | j < |owner|
      ensures !OccursAt(rest, "/", j)
    {
      OccursAtChar(rest, '/', j);
      assert rest[j] == owner[j];
    }
  }

  /** The matcher accepts exactly the URLs of the GitHub shape, and returns their two parts. */
  lemma MatchGithubIff(url: string, owner: string, name: string)
    ensures MatchGithub(url) == Some((owner, name)) <==> GithubShaped(url, owner, name)
  {
    if MatchGithub(url) == Some((owner, name)) {
      MatchGithubSound(url);
    }
    if GithubShaped(url, owner, name) {
      MatchGithubComplete(url, owner, name);
    }
  }

  /** A repository reference derived from a URL. */
  datatype RepoRef =
    | GitHub(owner: string, repo: string)
    | Generic(base: string)

  /** Why a URL leads straight to the outer `catch`. */
  datatype ClassifyError =
    | InvalidUrl        // `new URL(repoUrl)` threw
    | InvalidGithubUrl  // GitHub host, but the pattern did not match

  /**
   * `host` is `new URL(repoUrl).hostname`, or `None` when the URL
   * constructor throws.
   */
  function Classify(repoUrl: string, host: Option<string>): (r: Result<RepoRef, ClassifyError>)
    ensures r.Success? && r.value.Generic? ==> r.value.base == StripGitSuffix(repoUrl)
    ensures r.Success? && r.value.GitHub? ==>
              exists name :: GithubShaped(repoUrl, r.value.owner, name) && r.value.repo == StripGitSuffix(name)
  {
    match host
    case None => Failure(InvalidUrl)
    case Some(h) =>
      if Includes(h, GithubHost) then
        match MatchGithub(repoUrl)
        case None => Failure(InvalidGithubUrl)
        case Some((owner, name)) =>
          MatchGithubIff(repoUrl, owner, name);
          Success(GitHub(owner, StripGitSuffix(name)))
      else Success(Generic(StripGitSuffix(repoUrl)))
  }

  /** Which branch a parsed URL takes depends on the hostname alone. */
  lemma ClassifyByHost(repoUrl: string, h: string)
    ensures Classify(repoUrl, Some(h)).Failure? ==> Includes(h, GithubHost)
    ensures Classify(repoUrl, Some(h)).Success? ==>
              (Classify(repoUrl, Some(h)).value.GitHub? <==> Includes(h, GithubHost))
  {
  }

  /** A GitHub-host URL of the accepted shape yields its owner and its name less one ".git". */
  lemma ClassifyGithubAccepts(repoUrl: string, h: string, owner: string, name: string)
    requires Includes(h, GithubHost)
    requires GithubShaped(repoUrl, owner, name)
    ensures Classify(repoUrl, Some(h)) == Success(GitHub(owner, StripGitSuffix(name)))
  {
    MatchGithubIff(repoUrl, owner, name);
  }

  /** A GitHub-host URL of any other shape is rejected. */
  lemma ClassifyGithubRejects(repoUrl: string, h: string)
    requires Includes(h, GithubHost)
    requires forall owner, name :: !GithubShaped(repoUrl, owner, name)
    ensures Classify(repoUrl, Some(h)) == Failure(InvalidGithubUrl)
  {
    var m := MatchGithub(repoUrl);
    if m.Some? {
      MatchGithubIff(repoUrl, m.value.0, m.value.1);
      assert false;
    }
  }

  /** A URL written with ".git" keeps the bare name: the greedy group captures "tool.git" and the suffix is then dropped. */
  lemma ClassifyGithubDotGit(h: string, owner: string, repo: string)
    requires Includes(h, GithubHost)
    requires owner != [] && '/' !in owner && '/' !in repo
    ensures Classify(GithubPrefix + owner + "/" + repo + GitSuffix, Some(h)) == Success(GitHub(owner, repo))
  {
    var name := repo + GitSuffix;
    assert GithubPrefix + owner + "/" + repo + GitSuffix == GithubPrefix + owner + "/" + name;
    assert '/' !in name by {
      assert name[|repo|..] == GitSuffix;
      forall i | 0 <= i < |name| ensures name[i] != '/' {
        if i >= |repo| { assert name[i] == GitSuffix[i - |repo|]; }
      }
    }
    ClassifyGithubAccepts(GithubPrefix + owner + "/" + name, h, owner, name);
    StripGitSuffixOnce(repo);
  }

  /** Any other host is generic, and the URL loses one trailing ".git". */
  lemma ClassifyGenericStrips(base: string, h: string)
    requires !Includes(h, GithubHost)
    ensures Classify(base + GitSuffix, Some(h)) == Success(Generic(base))
  {
    StripGitSuffixOnce(base);
  }

  /** A URL that does not start with "https://github.com/" ("http://...", "https://www.github.com/...") has no GitHub shape. */
  lemma OtherPrefixRejected(url: string, owner: string, name: string)
    requires !StartsWith(url, GithubPrefix)
    ensures !GithubShaped(url, owner, name)
  {
  }

  /** A host that merely contains "github.com" takes the GitHub branch, and its URLs are then rejected. */
  lemma LookalikeHostRejected(repoUrl: string, h: string)
    requires Includes(h, GithubHost)
    requires !StartsWith(repoUrl, GithubPrefix)
    ensures Classify(repoUrl, Some(h)) == Failure(InvalidGithubUrl)
  {
    forall owner, name ensures !GithubShaped(repoUrl, owner, name) {
      OtherPrefixRejected(repoUrl, owner, name);
    }
    ClassifyGithubRejects(repoUrl, h);
  }

  /** "notgithub.com" contains "github.com". */
  lemma LookalikeHostIncludesGithub(h: string)
    requires h == "notgithub.com"
    ensures Includes(h, GithubHost)
  {
    assert h[3..3 + |GithubHost|] == GithubHost;
    assert OccursAt(h, GithubHost, 3);
  }

  /** A trailing slash after the repository name is rejected. */
  lemma TrailingSlashRejected(owner: string, repo: string, o: string, n: string)
    ensures !GithubShaped(GithubPrefix + owner + "/" + repo + "/", o, n)
  {
    var url := GithubPrefix + owner + "/" + repo + "/";
    assert url[|url| - 1] == '/';
    SlashFreeLast(GithubPrefix + o + "/", n);
  }

  lemma SlashFreeLast(a: string, n: string)
    ensures n != [] && '/' !in n ==> (a + n)[|a + n| - 1] != '/'
  {
    if n != [] {
      assert (a + n)[|a + n| - 1] == n[|n| - 1];
    }
  }

  /** Splitting at the first '/' is unique. */
  lemma SplitAtFirstSlash(o: string, n: string, o2: string, n2: string)
    requires '/' !in o && '/' !in o2
    requires o + "/" + n == o2 + "/" + n2
    ensures o == o2 && n == n2
  {
    SlashAfterOwner(o, n);
    SlashAfterOwner(o2, n2);
    var t := o + "/" + n;
    assert o == t[..|o|] && o2 == t[..|o2|];
    assert n == t[|o| + 1..] && n2 == t[|o2| + 1..];
  }

  /** A path with a segment after the repository name ("/tree/main", "/blob/...") is rejected. */
  lemma ExtraSegmentRejected(owner: string, repo: string, rest: string, o: string, n: string)
    requires '/' !in owner
    ensures !GithubShaped(GithubPrefix + owner + "/" + repo + "/" + rest, o, n)
  {
    var url := GithubPrefix + owner + "/" + repo + "/" + rest;
    if GithubShaped(url, o, n) {
      assert url[|GithubPrefix|..] == o + "/" + n;
      assert url[|GithubPrefix|..] == owner + "/" + (repo + "/" + rest);
      SplitAtFirstSlash(o, n, owner, repo + "/" + rest);
    }
  }
}
