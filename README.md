# ncpr plugin lookup service — remote-file resolution model

This project models the logic of the plugin lookup service in `main.ts`.
Given a plugin identifier, the service reads the repository URL from its
registry. It then fetches that repository's `manifest.toml` or `README.md`
from the hosting provider, without knowing the default branch or the
provider's raw-content URL layout. The model covers:

- **Classification** (`Classifier`). A URL whose hostname contains
  `github.com` must match `^https://github\.com/([^/]+)/([^/]+)(\.git)?$`.
  One trailing `.git` is then dropped from the name. Any other host is
  generic, and one trailing `.git` is dropped from the whole URL.
- **Candidates and fallback** (`Fetcher`). GitHub gives two
  `raw.githubusercontent.com` URLs: `main`, then `master`. A generic host
  gives four, branch-major: `/raw/` before `/-/raw/`. They are fetched in
  order until the first `ok` response. Only the generic path catches a
  throwing fetch per candidate. On GitHub a throw goes to the outer
  `catch`, which answers "not found".
- **Resolution properties** (`Resolution`). Ordering, first success,
  exhaustion, thrown fetches and malformed URLs, stated over the whole
  resolution.
- **Registry, search and routes** (`Registry`, `Routes`). Exact-key lookup,
  the substring search over the registry keys, the README and info routes,
  and the plugin page template. `String.prototype.replace` replaces only the
  first placeholder and expands `$`-patterns in the replacement.
- **Plugin info** (`PluginInfo`). The four-field projection of the parsed
  manifest.

The network is an oracle `fetch: string -> Response`. A `Response` is
`Ok(body)`, `NotOk` or `Throws`. A rejected `response.text()` leaves the
enclosing `try` just as a rejected `fetch` does, so `Throws` covers both.
The loop method `Fetcher.FetchFirst` keeps a ghost log of the URLs it
hands to `fetch`. Its contract ties that log and the outcome to the
function `Fetcher.Fallback`, whose own contract fully determines the run.

Some behaviour the model keeps exactly as the code has it:
- The info route passes the "not found" text to the TOML parser
  (main.ts:144). It does not return that text as it is.
- The `as string` casts convert nothing (main.ts:19-22). A field keeps
  whatever TOML value the table holds.
- Only the generic path tolerates a throwing fetch per candidate.

## Model

| member | source | states |
|---|---|---|
| Text.IndexOf | main.ts:152 | the result is the first index where the pattern occurs; `None` only when it occurs nowhere |
| Text.IncludesIff | main.ts:152 | `includes` holds exactly when the pattern occurs at some index |
| Text.Includes | main.ts:45 | `includes`, as used on the hostname and on registry keys; described by `IncludesIff` |
| Text.StripGitSuffix | main.ts:50 | an input ending in ".git" gives the string that, followed by ".git", is the input; any other input comes back unchanged |
| Text.StripGitSuffixOnce | main.ts:50 | exactly one trailing ".git" is removed, even from "x.git.git" |
| Text.StripGitSuffixKeeps | main.ts:66 | a URL without a trailing ".git" is unchanged |
| Text.Substitution | main.ts:165 | a replacement without "$" is inserted literally |
| Text.SubstitutionDollarDollar | main.ts:165 | "$$" in the replacement inserts a single "$" |
| Text.SubstitutionMatched | main.ts:165 | "$&" inserts the matched text |
| Text.SubstitutionBefore | main.ts:165 | "$`" inserts the text before the match |
| Text.SubstitutionAfter | main.ts:165 | "$'" inserts the text after the match |
| Text.SubstitutionLiteralDollar | main.ts:165 | any other "$" (e.g. "$1", "$<", a final "$") is kept literally |
| Text.ReplaceFirst | main.ts:165 | `replace` with a string pattern; described by `ReplaceFirstAt`, `ReplaceFirstAbsent`, `ReplaceFirstPlain` and `ReplaceFirstKeepsLater` |
| Text.ReplaceFirstAt | main.ts:165 | for any replacement, the result is the text before the first occurrence, the expanded replacement, then the rest of the text |
| Text.ReplaceFirstAbsent | main.ts:165 | a text without the pattern is returned unchanged |
| Text.ReplaceFirstPlain | main.ts:165 | the first occurrence, and only it, is replaced; the text before and after is kept |
| Text.ReplaceFirstKeepsLater | main.ts:165 | a later non-overlapping occurrence is still present after the replacement |
| Classifier.MatchGithubSound | main.ts:46-47 | a match splits the URL into prefix, '/'-free non-empty owner, '/', '/'-free non-empty name |
| Classifier.MatchGithubComplete | main.ts:46-47 | every URL of that shape matches, with its own owner and name |
| Classifier.MatchGithubIff | main.ts:46-47 | the matcher accepts exactly the GitHub-shaped URLs (both directions) |
| Classifier.MatchGithub | main.ts:46 | the regular expression and its capture groups 1 and 2; described by `MatchGithubSound`, `MatchGithubComplete` and `MatchGithubIff` |
| Classifier.Classify | main.ts:43-50 | a generic base is the URL less one ".git"; a GitHub reference comes from a GitHub-shaped URL, with the name less one ".git" |
| Classifier.ClassifyByHost | main.ts:45 | the hostname alone decides between the GitHub and generic branches; only a GitHub host can be rejected |
| Classifier.ClassifyGithubAccepts | main.ts:46-50 | a GitHub-shaped URL on a GitHub host yields its owner and its name less one ".git" |
| Classifier.ClassifyGithubRejects | main.ts:46-47 | a GitHub host with a URL of any other shape is rejected |
| Classifier.ClassifyGithubDotGit | main.ts:46-50 | `.../owner/repo.git` yields the bare repo name: the optional group adds nothing |
| Classifier.ClassifyGenericStrips | main.ts:66-67 | a generic URL loses one trailing ".git" |
| Classifier.OtherPrefixRejected | main.ts:46 | a URL not starting with "https://github.com/" (e.g. "http://") is not GitHub-shaped |
| Classifier.LookalikeHostRejected | main.ts:45-47 | a host that merely contains "github.com" takes the GitHub branch and its URLs are rejected |
| Classifier.LookalikeHostIncludesGithub | main.ts:45 | "notgithub.com" counts as a GitHub host |
| Classifier.TrailingSlashRejected | main.ts:46 | a trailing slash after the name is rejected |
| Classifier.ExtraSegmentRejected | main.ts:46 | a further path segment after the name is rejected |
| Fetcher.GithubCandidates | main.ts:51-54 | one raw.githubusercontent.com URL per branch, in branch order |
| Fetcher.GenericCandidates | main.ts:63-68 | two URLs per branch, branch-major, "/raw/" then "/-/raw/" |
| Fetcher.GithubCandidatesDistinct | main.ts:51-54 | the two GitHub candidates are different URLs |
| Fetcher.GenericCandidatesDistinct | main.ts:63-68 | the four generic candidates are pairwise different URLs |
| Fetcher.Candidates | main.ts:51-70 | the candidate list of a classified reference; described by `Resolution.GithubCandidateOrder` and `Resolution.GenericCandidateOrder` |
| Fetcher.CandidateUrls | main.ts:43-70 | the candidate list of a URL, empty when classification fails; described by the same two lemmas and `CandidateUrlsDistinct` |
| Fetcher.CandidateUrlsDistinct | main.ts:51-70 | no URL is requested twice within one resolution, so a per-URL oracle is sound |
| Fetcher.Fallback | main.ts:53-59 | the run fetches a prefix of the candidates: all before the last one fetched were passed over, and the last one is the first `ok`, the first unguarded throw, or the end of the list |
| Fetcher.FallbackStopsAtFirstOk | main.ts:73 | the first `ok` after passed-over candidates gives its body, and nothing after it is fetched |
| Fetcher.FallbackStopsAtThrow | main.ts:55 | an unguarded throw ends the run in the outer `catch` at that candidate |
| Fetcher.FallbackNoOk | main.ts:59 | with no `ok` response nothing is found |
| Fetcher.FetchFirst | main.ts:53-78 | the loop (the GitHub loop of lines 53-57 unguarded, the generic loop of lines 64-78 guarded) has the outcome and log of fetched URLs of `Fallback` |
| Fetcher.Resolve | main.ts:81-84 | a classification failure reaches the outer `catch` with no request |
| Fetcher.ResolveFetchesPrefix | main.ts:53-70 | no more URLs are fetched than there are candidates, and there are at most four |
| Fetcher.Reply | main.ts:56-84 | the body of a found file, otherwise the "not found" text (exhaustion or the outer `catch`); described by `Resolution.NoOkGivesNotFound` and `Resolution.FirstOkWins` |
| Fetcher.GetFileContent | main.ts:41-85 | the reply is the first `ok` body or the "not found" text; the fetched URLs are the prefix of the candidates that `Resolve` gives |
| Fetcher.GetManifestContent | main.ts:41-85 | the same, for `manifest.toml` with "The repo does not have a manifest.toml file" |
| Fetcher.GetReadmeContent | main.ts:87-131 | the same, for `README.md` with "The repo does not have a README" |
| Resolution.InvalidUrlRequestsNothing | main.ts:89 | a URL the constructor rejects gives "not found" and no request |
| Resolution.MalformedGithubUrlRequestsNothing | main.ts:91-93 | a malformed URL on a GitHub host gives "not found" and no request |
| Resolution.GithubCandidateOrder | main.ts:95-100 | exactly two candidates, `main` then `master`, on raw.githubusercontent.com with the stripped name |
| Resolution.GenericCandidateOrder | main.ts:109-114 | exactly four candidates: main/raw, main/-/raw, master/raw, master/-/raw |
| Resolution.FirstOkWins | main.ts:102 | after non-`ok` responses, the first `ok` body is the reply and no later candidate is fetched |
| Resolution.GenericFirstOkWins | main.ts:116-123 | on the generic path, throwing candidates are passed over like non-`ok` ones |
| Resolution.GenericNeverCaught | main.ts:116-126 | the generic path either finds the file or tries all four candidates |
| Resolution.GithubThrowOnMainStops | main.ts:101 | on GitHub a throw on `main` gives "not found" and `master` is never requested |
| Resolution.NoOkGivesNotFound | main.ts:105 | when no candidate is `ok`, the reply is exactly the "not found" text |
| Resolution.FoundBodyIsFetched | main.ts:119 | a returned body is the body of a fetched candidate that answered `ok` |
| Registry.RepoRoute | main.ts:32-39 | a hit returns the stored URL; a miss returns "404" |
| Registry.RepoRouteAmbiguous | main.ts:33-38 | a stored URL "404" is indistinguishable from a miss |
| Registry.FilterIncluding | main.ts:152 | the result holds exactly the keys that contain the query |
| Registry.SearchPlugins | main.ts:151-154 | on a well-formed registry the results are exactly the identifiers that contain the query |
| Registry.FilterKeepsOrder | main.ts:152 | the filter keeps the keys in their order |
| Registry.SearchKeepsRegistryOrder | main.ts:151-154 | search results come in registry key order |
| Registry.FilterEmptyQuery | main.ts:152 | an empty query lists every key, in order |
| PluginInfo.ParsePluginInfo | main.ts:15-26 | the result exists exactly when the parser does not throw, and is the projection of the parsed table |
| PluginInfo.Project | main.ts:18-23 | the object literal of four fields; described by `ProjectIgnoresOtherKeys`, `ProjectAllStrings` and `ProjectMissingKey` |
| PluginInfo.ProjectIgnoresOtherKeys | main.ts:18-23 | only `name`, `author`, `version`, `license` reach the reply |
| PluginInfo.ProjectAllStrings | main.ts:18-23 | a table with the four string keys gives those four strings |
| PluginInfo.ProjectMissingKey | main.ts:18-23 | a missing `license` leaves that field undefined, and no error is raised |
| Routes.ReadmeRoute | main.ts:133-140 | a miss answers "Server error, the repo does not exist" with no request; a hit answers with the README resolution |
| Routes.InfoRoute | main.ts:142-149 | a miss answers the same text with no request; a hit parses whatever the manifest resolution returned |
| Routes.PluginPage | main.ts:165 | `plugin_page.replace("{plugin_name}", name)`; described by the `PluginPage...` lemmas below |
| Routes.PluginPageFillsFirst | main.ts:165 | the first `{plugin_name}` becomes the name, and the rest of the page is kept |
| Routes.PluginPageFillsFirstAnyName | main.ts:165 | for any name, the first placeholder becomes the name with its "$"-patterns expanded, and the rest of the page is kept |
| Routes.PluginPageWithoutPlaceholder | main.ts:165 | a page without the placeholder is served unchanged |
| Routes.PluginPageKeepsLater | main.ts:165 | for any name, a second `{plugin_name}` survives, shifted by the length of the inserted text |
| Routes.PluginPageDollarAmpersand | main.ts:165 | the name "$&" reinserts the placeholder, so the page is unchanged |

## Left out

- The Oak router and application, the route wiring and `app.listen` (main.ts:1-2, 5, 168-173). This is HTTP framework plumbing.
- The index route (main.ts:160-162) and `JSON.stringify` of the search results (main.ts:157). Both pass data through unchanged.
- Reading `registry.json`, `index.html` and `plugin.html` (main.ts:6, 29-30). The registry is a given map plus its key order. The pages are given strings.
- `new URL(...)` (main.ts:43, 89). URL parsing is a foreign library. It is an input: the hostname, or `None` when the constructor throws.
- `fetch` and `Response`. The network is an oracle from URL to response. Within one resolution the candidate URLs are pairwise distinct (`Fetcher.CandidateUrlsDistinct`), so the oracle gives one answer per request.
- `async`/`await`. Each resolution runs sequentially, so there is no interleaving to model.
- `toml.parse` (main.ts:16). It is an oracle from text to an optional table. Its value types are reduced to string, integer, boolean and "other". What it does with the "not found" text is up to the oracle.
- How Oak answers a handler that throws (a parser error on the info route). The model only records `ParserThrew`.
- `console.error` logging (main.ts:82, 128).
- Characters are Unicode scalar values, not UTF-16 code units. `includes` and `replace` on strings holding lone surrogates are not modelled.
- Registry values that are not strings in the JSON file.
