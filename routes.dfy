/**
 * The request handlers that carry logic: the README and info routes
 * (main.ts:133-149), which look the plugin up before resolving, and the
 * plugin page (main.ts:164-166), which fills in the identifier.
 */
module Routes {
  import opened Wrappers
  import opened Text
  import opened Fetcher
  import opened Registry
  import opened PluginInfo

  const RepoDoesNotExist: string := "Server error, the repo does not exist"

  /**
   * `GET /api/readme/:plugin`. `hostOf` is the hostname `new URL(...)`
   * gives for a URL (`None` when it throws).
   */
  method ReadmeRoute(reg: Registry, plugin: string, hostOf: string -> Option<string>, fetch: string -> Response)
    returns (body: string, ghost requested: seq<string>)
    ensures plugin !in reg.entries ==> body == RepoDoesNotExist
    ensures plugin in reg.entries ==>
              body == Reply(Resolve(reg.entries[plugin], hostOf(reg.entries[plugin]), ReadmeFile, fetch), ReadmeNotFound)
    ensures plugin !in reg.entries ==> requested == []
    ensures plugin in reg.entries ==>
              var url := reg.entries[plugin];
              requested == CandidateUrls(url, hostOf(url), ReadmeFile)[..Resolve(url, hostOf(url), ReadmeFile, fetch).requests]
  {
    if plugin in reg.entries {
      var url := reg.entries[plugin];
      body, requested := GetReadmeContent(url, hostOf(url), fetch);
    } else {
      body, requested := RepoDoesNotExist, [];
    }
  }

  /** What the info route sends: the four fields, a text, or the parser's error escaping the handler. */
  datatype InfoReply =
    | Info(info: PluginInfo)
    | Message(text: string)
    | ParserThrew

  /**
   * `GET /api/info/:plugin`. The manifest text, or the "not found" text in
   * its place, goes to `parsePluginInfo`.
   */
  method InfoRoute(reg: Registry, plugin: string, hostOf: string -> Option<string>, fetch: string -> Response,
                   parse: string -> Option<Table>)
    returns (reply: InfoReply, ghost requested: seq<string>)
    ensures plugin !in reg.entries ==> reply == Message(RepoDoesNotExist)
    ensures plugin in reg.entries ==>
              var url := reg.entries[plugin];
              var parsed := ParsePluginInfo(Reply(Resolve(url, hostOf(url), ManifestFile, fetch), ManifestNotFound), parse);
              reply == (if parsed.Some? then Info(parsed.value) else ParserThrew)
    ensures plugin !in reg.entries ==> requested == []
    ensures plugin in reg.entries ==>
              var url := reg.entries[plugin];
              requested == CandidateUrls(url, hostOf(url), ManifestFile)[..Resolve(url, hostOf(url), ManifestFile, fetch).requests]
  {
    if plugin in reg.entries {
      var url := reg.entries[plugin];
      var content;
      content, requested := GetManifestContent(url, hostOf(url), fetch);
      var parsed := ParsePluginInfo(content, parse);
      reply := if parsed.Some? then Info(parsed.value) else ParserThrew;
    } else {
      reply, requested := Message(RepoDoesNotExist), [];
    }
  }

  const PluginNamePlaceholder: string := "{plugin_name}"

  /** `GET /plugin/:name`: `plugin_page.replace("{plugin_name}", name)`. */
  function PluginPage(page: string, name: string): string {
    ReplaceFirst(page, PluginNamePlaceholder, name)
  }

  /** The first placeholder is replaced by the name, and only that one: the rest of the page follows verbatim. */
  lemma PluginPageFillsFirst(page: string, name: string, i: nat)
    requires '$' !in name
    requires OccursAt(page, PluginNamePlaceholder, i)
    requires forall j: nat :: j < i ==> !OccursAt(page, PluginNamePlaceholder, j)
    ensures PluginPage(page, name) == page[..i] + name + page[i + |PluginNamePlaceholder|..]
  {
    ReplaceFirstPlain(page, PluginNamePlaceholder, name, i);
  }

  /** A page without the placeholder is served unchanged. */
  lemma PluginPageWithoutPlaceholder(page: string, name: string)
    requires !Includes(page, PluginNamePlaceholder)
    ensures PluginPage(page, name) == page
  {
  }

  /** A later placeholder survives the substitution. */
  lemma PluginPageKeepsLater(page: string, name: string, j: nat)
    requires IndexOf(page, PluginNamePlaceholder).Some?
    requires IndexOf(page, PluginNamePlaceholder).value + |PluginNamePlaceholder| <= j
    requires OccursAt(page, PluginNamePlaceholder, j)
    ensures var i := IndexOf(page, PluginNamePlaceholder).value;
            var inserted := Substitution(name, PluginNamePlaceholder, page[..i], page[i + |PluginNamePlaceholder|..]);
            OccursAt(PluginPage(page, name), PluginNamePlaceholder, j - |PluginNamePlaceholder| + |inserted|)
    ensures '$' !in name ==> OccursAt(PluginPage(page, name), PluginNamePlaceholder, j - |PluginNamePlaceholder| + |name|)
  {
    ReplaceFirstKeepsLater(page, PluginNamePlaceholder, name, j);
  }

  /**
   * Any name: the first placeholder becomes the name with its "$"-patterns
   * expanded ("$$" to "$", "$&" to the placeholder, "$`" to the page before
   * it, "$'" to the page after it), and the rest of the page is kept.
   */
  lemma PluginPageFillsFirstAnyName(page: string, name: string, i: nat)
    requires OccursAt(page, PluginNamePlaceholder, i)
    requires forall j: nat :: j < i ==> !OccursAt(page, PluginNamePlaceholder, j)
    ensures var before := page[..i];
            var after := page[i + |PluginNamePlaceholder|..];
            PluginPage(page, name) == before + Substitution(name, PluginNamePlaceholder, before, after) + after
  {
    ReplaceFirstAt(page, PluginNamePlaceholder, name, i);
  }

  /** The name "$&" stands for the matched text, so the page comes back unchanged. */
  lemma PluginPageDollarAmpersand(page: string, name: string)
    requires name == "$&"
    ensures PluginPage(page, name) == page
  {
    var k := IndexOf(page, PluginNamePlaceholder);
    if k.Some? {
      var i := k.value;
      var p := PluginNamePlaceholder;
      assert Substitution(name, p, page[..i], page[i + |p|..]) == p;
      assert page[..i] + p + page[i + |p|..] == page by {
        assert page[i..i + |p|] == p;
      }
    }
  }
}
