/**
 * What `getManifestContent` / `getReadmeContent` promise, stated over the
 * resolution as a whole: which URLs are tried, in which order, when the
 * search stops, and what text comes back.
 */
module Resolution {
  import opened Wrappers
  import opened Text
  import opened Classifier
  import opened Fetcher

  /** A URL the URL constructor rejects leads to the "not found" text without any request. */
  lemma InvalidUrlRequestsNothing(repoUrl: string, fileName: string, notFound: string, fetch: string -> Response)
    ensures Resolve(repoUrl, None, fileName, fetch).requests == 0
    ensures Reply(Resolve(repoUrl, None, fileName, fetch), notFound) == notFound
  {
  }

  /**
   * A GitHub-host URL outside the accepted shape (plain http, a trailing
   * slash, extra path segments, another host that merely contains
   * "github.com") gives the "not found" text and no request is made.
   */
  lemma MalformedGithubUrlRequestsNothing(repoUrl: string, h: string, fileName: string, notFound: string,
                                          fetch: string -> Response)
    requires Includes(h, GithubHost)
    requires forall owner, name :: !GithubShaped(repoUrl, owner, name)
    ensures Resolve(repoUrl, Some(h), fileName, fetch) == Run(Caught, 0)
    ensures Reply(Resolve(repoUrl, Some(h), fileName, fetch), notFound) == notFound
  {
    ClassifyGithubRejects(repoUrl, h);
  }

  /** An accepted GitHub URL yields exactly two raw-content URLs, `main` then `master`, with one ".git" removed from the name. */
  lemma GithubCandidateOrder(repoUrl: string, h: string, owner: string, name: string, fileName: string)
    requires Includes(h, GithubHost)
    requires GithubShaped(repoUrl, owner, name)
    ensures var repo := StripGitSuffix(name);
            CandidateUrls(repoUrl, Some(h), fileName)
            == [RawGithubUrl(owner, repo, "main", fileName), RawGithubUrl(owner, repo, "master", fileName)]
  {
    ClassifyGithubAccepts(repoUrl, h, owner, name);
  }

  /** Any other host yields exactly four URLs, branch-major, "/raw/" before "/-/raw/", on the URL less one ".git". */
  lemma GenericCandidateOrder(repoUrl: string, h: string, fileName: string)
    requires !Includes(h, GithubHost)
    ensures var base := StripGitSuffix(repoUrl);
            CandidateUrls(repoUrl, Some(h), fileName)
            == [RawUrl(base, "main", fileName), DashRawUrl(base, "main", fileName),
                RawUrl(base, "master", fileName), DashRawUrl(base, "master", fileName)]
  {
    var c := CandidateUrls(repoUrl, Some(h), fileName);
    assert c[2 * 0] == c[0] && c[2 * 0 + 1] == c[1] && c[2 * 1] == c[2] && c[2 * 1 + 1] == c[3];
  }

  /**
   * First success wins, on either path: after candidates that all answered
   * with a non-`ok` status, the first `ok` body is the reply and no later
   * candidate is fetched.
   */
  lemma FirstOkWins(repoUrl: string, host: Option<string>, fileName: string, notFound: string,
                    fetch: string -> Response, i: nat, body: string)
    requires var c := CandidateUrls(repoUrl, host, fileName);
             i < |c| && fetch(c[i]) == Ok(body) && forall j :: 0 <= j < i ==> fetch(c[j]).NotOk?
    ensures Resolve(repoUrl, host, fileName, fetch) == Run(Found(body), i + 1)
    ensures Reply(Resolve(repoUrl, host, fileName, fetch), notFound) == body
  {
    var ref := Classify(repoUrl, host).value;
    FallbackStopsAtFirstOk(Candidates(ref, fileName), fetch, Guarded(ref), i, body);
  }

  /** On the generic path a throwing candidate is passed over like a non-`ok` one. */
  lemma GenericFirstOkWins(repoUrl: string, h: string, fileName: string, fetch: string -> Response, i: nat, body: string)
    requires !Includes(h, GithubHost)
    requires var c := CandidateUrls(repoUrl, Some(h), fileName);
             i < |c| && fetch(c[i]) == Ok(body) && forall j :: 0 <= j < i ==> !fetch(c[j]).Ok?
    ensures Resolve(repoUrl, Some(h), fileName, fetch) == Run(Found(body), i + 1)
  {
    var ref := Classify(repoUrl, Some(h)).value;
    FallbackStopsAtFirstOk(Candidates(ref, fileName), fetch, true, i, body);
  }

  /** The generic path never reaches the outer `catch` once classified: it either finds the file or tries all four candidates. */
  lemma GenericNeverCaught(repoUrl: string, h: string, fileName: string, fetch: string -> Response)
    requires !Includes(h, GithubHost)
    ensures var run := Resolve(repoUrl, Some(h), fileName, fetch);
            run.outcome.Found? || run == Run(Exhausted, 4)
  {
  }

  /** On the GitHub path a throw on `main` ends the resolution: `master` is never requested. */
  lemma GithubThrowOnMainStops(repoUrl: string, h: string, owner: string, name: string, fileName: string,
                               notFound: string, fetch: string -> Response)
    requires Includes(h, GithubHost)
    requires GithubShaped(repoUrl, owner, name)
    requires fetch(RawGithubUrl(owner, StripGitSuffix(name), "main", fileName)).Throws?
    ensures Resolve(repoUrl, Some(h), fileName, fetch) == Run(Caught, 1)
    ensures Reply(Resolve(repoUrl, Some(h), fileName, fetch), notFound) == notFound
  {
    GithubCandidateOrder(repoUrl, h, owner, name, fileName);
    var ref := Classify(repoUrl, Some(h)).value;
    FallbackStopsAtThrow(Candidates(ref, fileName), fetch, 0);
  }

  /** Exhaustion: if no candidate answers `ok`, the reply is exactly the "not found" text. */
  lemma NoOkGivesNotFound(repoUrl: string, host: Option<string>, fileName: string, notFound: string,
                          fetch: string -> Response)
    requires var c := CandidateUrls(repoUrl, host, fileName);
             forall j :: 0 <= j < |c| ==> !fetch(c[j]).Ok?
    ensures Reply(Resolve(repoUrl, host, fileName, fetch), notFound) == notFound
  {
    if Classify(repoUrl, host).Success? {
      var ref := Classify(repoUrl, host).value;
      assert CandidateUrls(repoUrl, host, fileName) == Candidates(ref, fileName);
      FallbackNoOk(Candidates(ref, fileName), fetch, Guarded(ref));
    }
  }

  /** Whatever body is returned is the body of a fetched candidate that answered `ok`. */
  lemma FoundBodyIsFetched(repoUrl: string, host: Option<string>, fileName: string, fetch: string -> Response)
    requires Resolve(repoUrl, host, fileName, fetch).outcome.Found?
    ensures var run := Resolve(repoUrl, host, fileName, fetch);
            var c := CandidateUrls(repoUrl, host, fileName);
            0 < run.requests <= |c| && fetch(c[run.requests - 1]) == Ok(run.outcome.body)
  {
  }
}
