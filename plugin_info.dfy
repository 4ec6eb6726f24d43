/**
 * `parsePluginInfo` (main.ts:15-26): the manifest text goes through a TOML
 * parser, and four top-level keys are copied into the reply. The parser is
 * an oracle; the `as string` casts convert nothing, so each field holds
 * whatever value the table has, or `undefined` when the key is absent.
 */
module PluginInfo {
  import opened Wrappers

  /** A top-level TOML value; `TOther` covers floats, dates, arrays and tables. */
  datatype TomlValue =
    | TString(s: string)
    | TInteger(i: int)
    | TBoolean(b: bool)
    | TOther

  type Table = map<string, TomlValue>

  /** A `None` field is `undefined` in the reply. */
  datatype PluginInfo = PluginInfo(
    name: Option<TomlValue>,
    author: Option<TomlValue>,
    version: Option<TomlValue>,
    license: Option<TomlValue>)

  function Field(t: Table, key: string): Option<TomlValue> {
    if key in t then Some(t[key]) else None
  }

  /** The object literal of main.ts:18-23. */
  function Project(t: Table): (info: PluginInfo)
  {
    PluginInfo(Field(t, "name"), Field(t, "author"), Field(t, "version"), Field(t, "license"))
  }

  /** `parse` is `toml.parse`, `None` when it throws; the error then leaves `parsePluginInfo`. */
  function ParsePluginInfo(content: string, parse: string -> Option<Table>): (r: Option<PluginInfo>)
    ensures r.Some? <==> parse(content).Some?
    ensures r.Some? ==> r.value == Project(parse(content).value)
  {
    match parse(content)
    case None => None
    case Some(t) => Some(Project(t))
  }

  /** Only the four keys matter: tables that agree on them give the same reply. */
  lemma ProjectIgnoresOtherKeys(t: Table, u: Table)
    requires forall k :: k in {"name", "author", "version", "license"} ==> Field(t, k) == Field(u, k)
    ensures Project(t) == Project(u)
  {
    assert Field(t, "name") == Field(u, "name");
    assert Field(t, "author") == Field(u, "author");
    assert Field(t, "version") == Field(u, "version");
    assert Field(t, "license") == Field(u, "license");
  }

  /** A manifest with the four keys as strings gives those four strings. */
  lemma ProjectAllStrings(t: Table, name: string, author: string, version: string, license: string)
    requires t == map["name" := TString(name), "author" := TString(author),
                      "version" := TString(version), "license" := TString(license)]
    ensures Project(t) == PluginInfo(Some(TString(name)), Some(TString(author)),
                                     Some(TString(version)), Some(TString(license)))
  {
  }

  /** A missing key is not an error: that field alone is left undefined. */
  lemma ProjectMissingKey(t: Table)
    requires "license" !in t
    ensures Project(t).license == None
    ensures Project(t).name == Field(t, "name") && Project(t).author == Field(t, "author")
    ensures Project(t).version == Field(t, "version")
  {
  }
}
