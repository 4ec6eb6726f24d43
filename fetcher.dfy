/**
 * Candidate raw-content URLs and the sequential fallback that fetches them
 * (main.ts:41-131, `getManifestContent` and `getReadmeContent`, which
 * differ only in the file name and the "not found" text).
 *
 * The network is an oracle `fetch` from URL to response. `Throws` stands
 * for a rejected `fetch(...)` and equally for a rejected
 * `response.text()`: both leave the same `try` block in the same way.
 */
module Fetcher {
  import opened Wrappers
  import opened Classifier

  const Branches: seq<string> := ["main", "master"]
  const RawGithubPrefix: string := "https://raw.githubusercontent.com/"

  const ManifestFile: string := "manifest.toml"
  const ManifestNotFound: string := "The repo does not have a manifest.toml file"
  const ReadmeFile: string := "README.md"
  const ReadmeNotFound: string := "The repo does not have a README"

  function RawGithubUrl(owner: string, repo: string, branch: string, fileName: string): string {
    RawGithubPrefix + owner + "/" + repo + "/" + branch + "/" + fileName
  }

  function RawUrl(base: string, branch: string, fileName: string): string {
    base + "/raw/" + branch + "/" + fileName
  }

  /** The GitLab layout of a raw-content URL. */
  function DashRawUrl(base: string, branch: string, fileName: string): string {
    base + "/-/raw/" + branch + "/" + fileName
  }

  /** One GitHub candidate per branch, in branch order. */
  function GithubCandidates(owner: string, repo: string, branches: seq<string>, fileName: string): (c: seq<string>)
    ensures |c| == |branches|
    ensures forall i :: 0 <= i < |branches| ==> c[i] == RawGithubUrl(owner, repo, branches[i], fileName)
  {
    if branches == [] then []
    else [RawGithubUrl(owner, repo, branches[0], fileName)] + GithubCandidates(owner, repo, branches[1..], fileName)
  }

  /** Two generic candidates per branch, branch-major: "/raw/" before "/-/raw/" within each branch. */
  function GenericCandidates(base: string, branches: seq<string>, fileName: string): (c: seq<string>)
    ensures |c| == 2 * |branches|
    ensures forall i :: 0 <= i < |branches| ==>
              c[2 * i] == RawUrl(base, branches[i], fileName) && c[2 * i + 1] == DashRawUrl(base, branches[i], fileName)
  {
    if branches == [] then []
    else
      var rest := GenericCandidates(base, branches[1..], fileName);
      var c := [RawUrl(base, branches[0], fileName), DashRawUrl(base, branches[0], fileName)] + rest;
      assert forall i :: 1 <= i < |branches| ==> c[2 * i] == rest[2 * (i - 1)] && c[2 * i + 1] == rest[2 * (i - 1) + 1];
      c
  }

  function Candidates(ref: RepoRef, fileName: string): seq<string> {
    match ref
    case GitHub(owner, repo) => GithubCandidates(owner, repo, Branches, fileName)
    case Generic(base) => GenericCandidates(base, Branches, fileName)
  }

  /**
   * The two GitHub candidates differ ("main" and "master" part at their
   * third letter), so a per-URL oracle answers each request on its own.
   */
  lemma GithubCandidatesDistinct(owner: string, repo: string, fileName: string)
    ensures var c := GithubCandidates(owner, repo, Branches, fileName);
            forall i, j :: 0 <= i < j < |c| ==> c[i] != c[j]
  {
    var c := GithubCandidates(owner, repo, Branches, fileName);
    var k := |RawGithubPrefix + owner + "/" + repo + "/"| + 2;
    assert c[0][k] == 'i';
    assert c[1][k] == 's';
  }

  /** The four generic candidates are pairwise distinct. */
  lemma GenericCandidatesDistinct(base: string, fileName: string)
    ensures var c := GenericCandidates(base, Branches, fileName);
            forall i, j :: 0 <= i < j < |c| ==> c[i] != c[j]
  {
    var c := GenericCandidates(base, Branches, fileName);
    assert c[0] == c[2 * 0] && c[1] == c[2 * 0 + 1] && c[2] == c[2 * 1] && c[3] == c[2 * 1 + 1];
    var n := |base|;
    assert c[0][n + 1] == 'r' && c[2][n + 1] == 'r';
    assert c[1][n + 1] == '-' && c[3][n + 1] == '-';
    assert c[0][n + 7] == 'i' && c[2][n + 7] == 's';
    assert c[1][n + 9] == 'i' && c[3][n + 9] == 's';
  }

  /** Only the generic path wraps each fetch in its own `try`/`catch`. */
  predicate Guarded(ref: RepoRef) {
    ref.Generic?
  }

  /** What the oracle does with one request. */
  datatype Response =
    | Ok(body: string)  // `response.ok`, and the body was read
    | NotOk             // a status outside 200-299
    | Throws            // the request or the body read rejected

  /** How the fallback ends. */
  datatype Outcome =
    | Found(body: string)  // the body of the first `ok` response
    | Exhausted            // every candidate was tried, none was `ok`
    | Caught               // control reached the outer `catch`

  /** An outcome and the number of candidates fetched (always a prefix of the list). */
  datatype Run = Run(outcome: Outcome, requests: nat)

  /** The loop goes on to the next candidate after this response. */
  predicate MovesOn(r: Response, guarded: bool) {
    r.NotOk? || (guarded && r.Throws?)
  }

  /**
   * The fallback over `cands`. Its contract pins the run down completely:
   * every candidate before the last one fetched was passed over, and the
   * last one fetched is what ended the run (an `ok` response, an
   * unguarded throw) unless the list ran out.
   */
  function Fallback(cands: seq<string>, fetch: string -> Response, guarded: bool): (run: Run)
    ensures run.requests <= |cands|
    ensures forall j :: 0 <= j < run.requests - 1 ==> MovesOn(fetch(cands[j]), guarded)
    ensures run.outcome.Exhausted? <==>
              run.requests == |cands| && forall j :: 0 <= j < |cands| ==> MovesOn(fetch(cands[j]), guarded)
    ensures run.outcome.Found? ==> 0 < run.requests && fetch(cands[run.requests - 1]) == Ok(run.outcome.body)
    ensures run.outcome.Caught? ==> 0 < run.requests && !guarded && fetch(cands[run.requests - 1]).Throws?
  {
    if cands == [] then Run(Exhausted, 0)
    else
      var response := fetch(cands[0]);
      if MovesOn(response, guarded) then
        var rest := Fallback(cands[1..], fetch, guarded);
        Run(rest.outcome, rest.requests + 1)
      else if response.Ok? then Run(Found(response.body), 1)
      else Run(Caught, 1)
  }

  /** First success wins: an `ok` response after candidates that were all passed over ends the run there. */
  lemma FallbackStopsAtFirstOk(cands: seq<string>, fetch: string -> Response, guarded: bool, i: nat, body: string)
    requires i < |cands| && fetch(cands[i]) == Ok(body)
    requires forall j :: 0 <= j < i ==> MovesOn(fetch(cands[j]), guarded)
    ensures Fallback(cands, fetch, guarded) == Run(Found(body), i + 1)
  {
    var run := Fallback(cands, fetch, guarded);
    assert !MovesOn(fetch(cands[i]), guarded);
  }

  /** An unguarded throw after candidates that were all passed over ends the run in the outer `catch`. */
  lemma FallbackStopsAtThrow(cands: seq<string>, fetch: string -> Response, i: nat)
    requires i < |cands| && fetch(cands[i]).Throws?
    requires forall j :: 0 <= j < i ==> MovesOn(fetch(cands[j]), false)
    ensures Fallback(cands, fetch, false) == Run(Caught, i + 1)
  {
    var run := Fallback(cands, fetch, false);
    assert !MovesOn(fetch(cands[i]), false);
  }

  /** Exhaustion: when no candidate answers `ok`, nothing is found. */
  lemma FallbackNoOk(cands: seq<string>, fetch: string -> Response, guarded: bool)
    requires forall j :: 0 <= j < |cands| ==> !fetch(cands[j]).Ok?
    ensures !Fallback(cands, fetch, guarded).outcome.Found?
  {
  }

  /**
   * The loop of main.ts:53-57 and 64-78 over the flattened candidate list.
   * `requested` is a log of the URLs handed to `fetch`.
   */
  method FetchFirst(cands: seq<string>, fetch: string -> Response, guarded: bool)
    returns (outcome: Outcome, ghost requested: seq<string>)
    ensures outcome == Fallback(cands, fetch, guarded).outcome
    ensures requested == cands[..Fallback(cands, fetch, guarded).requests]
  {
    requested := [];
    var i := 0;
    while i < |cands|
      invariant i <= |cands|
      invariant requested == cands[..i]
      invariant forall j :: 0 <= j < i ==> MovesOn(fetch(cands[j]), guarded)
    {
      var response := fetch(cands[i]);
      requested := requested + [cands[i]];
      match response {
        case Ok(body) =>
          FallbackStopsAtFirstOk(cands, fetch, guarded, i, body);
          return Found(body), requested;
        case NotOk =>
        case Throws =>
          if !guarded {
            // the exception leaves the loop for the outer `catch`
            FallbackStopsAtThrow(cands, fetch, i);
            return Caught, requested;
          }
      }
      i := i + 1;
    }
    return Exhausted, requested;
  }

  /** The whole resolution as a value: classification failure goes to the outer `catch` before any request. */
  function Resolve(repoUrl: string, host: Option<string>, fileName: string, fetch: string -> Response): (run: Run)
    ensures Classify(repoUrl, host).Failure? ==> run == Run(Caught, 0)
  {
    match Classify(repoUrl, host)
    case Failure(_) => Run(Caught, 0)
    case Success(ref) => Fallback(Candidates(ref, fileName), fetch, Guarded(ref))
  }

  /** The candidate list a URL leads to; empty when classification fails. */
  function CandidateUrls(repoUrl: string, host: Option<string>, fileName: string): seq<string> {
    match Classify(repoUrl, host)
    case Failure(_) => []
    case Success(ref) => Candidates(ref, fileName)
  }

  /** No URL is requested twice within one resolution. */
  lemma CandidateUrlsDistinct(repoUrl: string, host: Option<string>, fileName: string)
    ensures var c := CandidateUrls(repoUrl, host, fileName);
            forall i, j :: 0 <= i < j < |c| ==> c[i] != c[j]
  {
    match Classify(repoUrl, host)
    case Failure(_) =>
    case Success(GitHub(owner, repo)) => GithubCandidatesDistinct(owner, repo, fileName);
    case Success(Generic(base)) =>
      assert CandidateUrls(repoUrl, host, fileName) == GenericCandidates(base, Branches, fileName);
      GenericCandidatesDistinct(base, fileName);
  }

  /** The text a request handler sends back for a run. */
  function Reply(run: Run, notFound: string): string {
    if run.outcome.Found? then run.outcome.body else notFound
  }

  /** The URLs a resolution fetches, in order, form a prefix of its candidate list. */
  lemma ResolveFetchesPrefix(repoUrl: string, host: Option<string>, fileName: string, fetch: string -> Response)
    ensures Resolve(repoUrl, host, fileName, fetch).requests <= |CandidateUrls(repoUrl, host, fileName)|
    ensures |CandidateUrls(repoUrl, host, fileName)| <= 4
  {
  }

  /**
   * `getManifestContent` and `getReadmeContent` with the file name and the
   * "not found" text as parameters.
   */
  method GetFileContent(repoUrl: string, host: Option<string>, fileName: string, notFound: string,
                        fetch: string -> Response)
    returns (content: string, ghost requested: seq<string>)
    ensures content == Reply(Resolve(repoUrl, host, fileName, fetch), notFound)
    ensures requested == CandidateUrls(repoUrl, host, fileName)[..Resolve(repoUrl, host, fileName, fetch).requests]
  {
    match Classify(repoUrl, host)
    case Failure(_) =>
      content, requested := notFound, [];
    case Success(ref) =>
      var outcome;
      outcome, requested := FetchFirst(Candidates(ref, fileName), fetch, Guarded(ref));
      content := if outcome.Found? then outcome.body else notFound;
  }

  method GetManifestContent(repoUrl: string, host: Option<string>, fetch: string -> Response)
    returns (content: string, ghost requested: seq<string>)
    ensures content == Reply(Resolve(repoUrl, host, ManifestFile, fetch), ManifestNotFound)
    ensures requested == CandidateUrls(repoUrl, host, ManifestFile)[..Resolve(repoUrl, host, ManifestFile, fetch).requests]
  {
    content, requested := GetFileContent(repoUrl, host, ManifestFile, ManifestNotFound, fetch);
  }

  method GetReadmeContent(repoUrl: string, host: Option<string>, fetch: string -> Response)
    returns (content: string, ghost requested: seq<string>)
    ensures content == Reply(Resolve(repoUrl, host, ReadmeFile, fetch), ReadmeNotFound)
    ensures requested == CandidateUrls(repoUrl, host, ReadmeFile)[..Resolve(repoUrl, host, ReadmeFile, fetch).requests]
  {
    content, requested := GetFileContent(repoUrl, host, ReadmeFile, ReadmeNotFound, fetch);
  }
}
