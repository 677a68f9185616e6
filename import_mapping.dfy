/**
 * The field mapping at the start of `import_stage`
 * (geonorgeharvester.py:639-689): a Geonorge record becomes a CKAN package
 * dict. Keys are renamed, the theme becomes a tag, default tags from the
 * harvester config are added, and a resource is chosen from the
 * distribution fields.
 */
module ImportMapping {
  import opened JsonValues

  const GeonorgeDownloadUrl := "http://nedlasting.geonorge.no"
  const CapabilitiesApiOffset := "/api/capabilities/"

  /**
   * How the mapping ends: the record describes a harvest source and is
   * ignored (lines 643-645), an exception is raised (caught at line 803), or the
   * mapped package dict.
   */
  datatype Mapped = Ignored | Failed | Package(fields: map<string, Json>)

  /** The keys whose values the mapping may change. */
  const Touched: set<string> :=
    {"Uuid", "Title", "Abstract", "ShowDetailsUrl", "IsOpenData", "Theme",
     "id", "title", "notes", "url", "isopen", "owner_org", "tags", "resources"}

  /**
   * `'%s' % value` for a decoded JSON value. A list or a dict would be
   * printed as its Python repr, which the model does not spell out.
   */
  function Show(v: Json): string
  {
    match v
    case JNull => "None"
    case JBool(b) => if b then "True" else "False"
    case JNum(n) => IntToString(n)
    case JStr(s) => s
    case JArr(_) => "[...]"
    case JObj(_) => "{...}"
  }

  /**
   * What `for t in default_tags` iterates over: the items of a list or the
   * characters of a string. Iterating a number or a boolean raises TypeError;
   * a dict (which the config validator rejects) is treated the same way.
   */
  function TagSource(v: Json): Option<seq<Json>>
  {
    match v
    case JArr(items) => Some(items)
    case JStr(s) => Some(Chars(s))
    case _ => None
  }

  /** `[t for t in candidates if t not in tags]`. */
  function NewTags(candidates: seq<Json>, tags: seq<Json>): (r: seq<Json>)
    ensures forall t | t in r :: t in candidates && t !in tags
    ensures forall t | t in candidates && t !in tags :: t in r
    ensures |r| <= |candidates|
  {
    if candidates == [] then []
    else (if candidates[0] in tags then [] else [candidates[0]]) + NewTags(candidates[1..], tags)
  }

  /** The resource of the Geonorge download API for a dataset id (lines 668-679). */
  function DownloadResource(id: Json): Json
  {
    JObj(map["url" := JStr(GeonorgeDownloadUrl + CapabilitiesApiOffset + Show(id)),
             "name" := JStr("Geonorge download API"),
             "format" := JStr("application/json")])
  }

  /** The HTML download page resource (lines 682-689). */
  function PageResource(url: Json): Json
  {
    JObj(map["url" := url, "name" := JStr("Download page"),
             "format" := JStr("HTML"), "mimetype" := JStr("text/html")])
  }

  /** `key` is absent from both maps or holds the same value in both. */
  predicate Agree(c: map<string, Json>, p: map<string, Json>, key: string)
  {
    (key in p <==> key in c) && (key in c ==> p[key] == c[key])
  }

  /** `p` is `c` but for the keys in `changed`. */
  ghost predicate Preserves(c: map<string, Json>, p: map<string, Json>, changed: set<string>)
  {
    forall k | k !in changed :: Agree(c, p, k)
  }

  lemma PreservesTrans(a: map<string, Json>, b: map<string, Json>, c: map<string, Json>,
                       k1: set<string>, k2: set<string>)
    requires Preserves(a, b, k1) && Preserves(b, c, k2)
    ensures Preserves(a, c, k1 + k2)
  {
  }

  lemma PreservesMore(a: map<string, Json>, b: map<string, Json>, k1: set<string>, k2: set<string>)
    requires Preserves(a, b, k1) && k1 <= k2
    ensures Preserves(a, b, k2)
  {
  }

  const RenamedFrom: set<string> := {"Uuid", "Title", "Abstract", "ShowDetailsUrl", "IsOpenData"}
  const RenamedTo: set<string> := {"id", "title", "notes", "url", "isopen"}

  /** `p` is `c` with the five Geonorge keys renamed to their CKAN names. */
  ghost predicate Renamed(c: map<string, Json>, p: map<string, Json>)
    requires forall k | k in RenamedFrom :: k in c
  {
    && "id" in p && p["id"] == c["Uuid"]
    && "title" in p && p["title"] == c["Title"]
    && "notes" in p && p["notes"] == c["Abstract"]
    && "url" in p && p["url"] == c["ShowDetailsUrl"]
    && "isopen" in p && p["isopen"] == c["IsOpenData"]
    && (forall k | k in RenamedFrom :: k !in p)
    && Preserves(c, p, RenamedFrom + RenamedTo)
  }

  /** Lines 647-651: each `package_dict[to] = package_dict.pop(from)`, in order. */
  method RenameFields(packageDict: map<string, Json>) returns (r: Option<map<string, Json>>)
    ensures r.Some? <==> forall k | k in RenamedFrom :: k in packageDict
    ensures r.Some? ==> Renamed(packageDict, r.value)
  {
    var d := packageDict;
    if "Uuid" !in d {
      return None;
    }
    d := (d - {"Uuid"})["id" := d["Uuid"]];
    if "Title" !in d {
      return None;
    }
    d := (d - {"Title"})["title" := d["Title"]];
    if "Abstract" !in d {
      return None;
    }
    d := (d - {"Abstract"})["notes" := d["Abstract"]];
    if "ShowDetailsUrl" !in d {
      return None;
    }
    d := (d - {"ShowDetailsUrl"})["url" := d["ShowDetailsUrl"]];
    if "IsOpenData" !in d {
      return None;
    }
    d := (d - {"IsOpenData"})["isopen" := d["IsOpenData"]];
    return Some(d);
  }

  /** The tags the record starts with: its own, or none (lines 656-657). */
  function StartTags(record: map<string, Json>): Json
  {
    if "tags" in record then record["tags"] else JArr([])
  }

  /** The theme tag, followed by the default tags not already among the tags. */
  function TagsAfter(c: map<string, Json>, config: map<string, Json>): Json
    requires StartTags(c).JArr? && "Theme" in c
    requires "default_tags" in config && Truthy(config["default_tags"]) ==> TagSource(config["default_tags"]).Some?
  {
    var withTheme := StartTags(c).items + [JObj(map["name" := c["Theme"]])];
    if "default_tags" in config && Truthy(config["default_tags"])
    then JArr(withTheme + NewTags(TagSource(config["default_tags"]).value, withTheme))
    else JArr(withTheme)
  }

  /**
   * The tags end up as the record's own tags, then the theme tag, then the
   * default tags not among those, in the order the config gives them.
   */
  lemma TagsAfterOrder(c: map<string, Json>, config: map<string, Json>)
    requires StartTags(c).JArr? && "Theme" in c
    requires "default_tags" in config && Truthy(config["default_tags"]) ==> TagSource(config["default_tags"]).Some?
    ensures var own := StartTags(c).items;
            var tags := TagsAfter(c, config).items;
            && |tags| >= |own| + 1
            && tags[..|own|] == own
            && tags[|own|] == JObj(map["name" := c["Theme"]])
            && tags[|own| + 1..]
               == (if "default_tags" in config && Truthy(config["default_tags"])
                   then NewTags(TagSource(config["default_tags"]).value, own + [tags[|own|]])
                   else [])
            && forall t | t in tags[|own| + 1..] ::
                 "default_tags" in config && TagSource(config["default_tags"]).Some?
                 && t in TagSource(config["default_tags"]).value && t !in own + [tags[|own|]]
  {
    var own := StartTags(c).items;
    var withTheme := own + [JObj(map["name" := c["Theme"]])];
    var tags := TagsAfter(c, config).items;
    assert tags[..|withTheme|] == withTheme;
    assert tags[..|own|] == withTheme[..|own|];
    assert tags[|withTheme|..] == tags[|own| + 1..];
  }

  /**
   * String default tags never meet the dict-shaped tags: when the record's
   * own tags hold no strings, every default tag is appended after the theme,
   * in the order the config lists them, repeats included.
   */
  lemma StringDefaultTagsAppended(c: map<string, Json>, config: map<string, Json>)
    requires StartTags(c).JArr? && "Theme" in c
    requires "default_tags" in config && Truthy(config["default_tags"])
    requires TagSource(config["default_tags"]).Some?
    requires forall t | t in TagSource(config["default_tags"]).value :: t.JStr?
    requires forall t | t in StartTags(c).items :: !t.JStr?
    ensures TagsAfter(c, config).items
            == StartTags(c).items + [JObj(map["name" := c["Theme"]])] + TagSource(config["default_tags"]).value
  {
    var withTheme := StartTags(c).items + [JObj(map["name" := c["Theme"]])];
    StringTagsNeverFiltered(TagSource(config["default_tags"]).value, withTheme);
  }

  /**
   * Tags are dicts and default tags are strings, and a string never equals a
   * dict: when the tags hold no strings, no default tag is filtered out.
   */
  lemma {:induction false} StringTagsNeverFiltered(candidates: seq<Json>, tags: seq<Json>)
    requires forall t | t in candidates :: t.JStr?
    requires forall t | t in tags :: !t.JStr?
    ensures NewTags(candidates, tags) == candidates
  {
    if candidates != [] {
      assert candidates[0] in candidates;
      StringTagsNeverFiltered(candidates[1..], tags);
      assert candidates == [candidates[0]] + candidates[1..];
    }
  }

  /** Lines 656-665: the tag list, the theme tag, then the default tags. */
  method AddTags(packageDict: map<string, Json>, config: Json) returns (r: Option<map<string, Json>>)
    ensures r.Some? <==>
              && StartTags(packageDict).JArr? && "Theme" in packageDict && config.JObj?
              && ("default_tags" in config.fields && Truthy(config.fields["default_tags"]) ==>
                    TagSource(config.fields["default_tags"]).Some?)
    ensures r.Some? ==>
              && "tags" in r.value && r.value["tags"] == TagsAfter(packageDict, config.fields)
              && "Theme" !in r.value
              && Preserves(packageDict, r.value, {"tags", "Theme"})
  {
    var d := packageDict;
    if "tags" !in d {
      d := d["tags" := JArr([])];
    }
    if !d["tags"].JArr? || "Theme" !in d {
      return None;
    }
    var tags := d["tags"].items + [JObj(map["name" := d["Theme"]])];
    d := (d - {"Theme"})["tags" := JArr(tags)];
    if !config.JObj? {
      return None;
    }
    var defaultTags := if "default_tags" in config.fields then config.fields["default_tags"] else JBool(false);
    if Truthy(defaultTags) {
      var source := TagSource(defaultTags);
      if source.None? {
        return None;
      }
      d := d["tags" := JArr(tags + NewTags(source.value, tags))];
    }
    return Some(d);
  }

  /** The id the download API link is built from: `package_dict.get('id', '')`. */
  function IdOrEmpty(d: map<string, Json>): Json
  {
    if "id" in d then d["id"] else JStr("")
  }

  /**
   * `p` has the resources chosen for `d`: the download API for
   * GEONORGE:DOWNLOAD, else the download page if there is one, else
   * whatever `d` had.
   */
  predicate ResourcesChosen(d: map<string, Json>, p: map<string, Json>, id: Json)
  {
    if Get(d, "DistributionProtocol") == Some(JStr("GEONORGE:DOWNLOAD")) then
      "resources" in p && p["resources"] == JArr([DownloadResource(id)])
    else if "DistributionUrl" in d && Truthy(d["DistributionUrl"]) then
      "resources" in p && p["resources"] == JArr([PageResource(d["DistributionUrl"])])
    else
      Agree(d, p, "resources")
  }

  /** Lines 667-689. */
  method SetResources(packageDict: map<string, Json>) returns (r: map<string, Json>)
    ensures Preserves(packageDict, r, {"resources"})
    ensures ResourcesChosen(packageDict, r, IdOrEmpty(packageDict))
  {
    r := packageDict;
    if Get(r, "DistributionProtocol") == Some(JStr("GEONORGE:DOWNLOAD")) {
      r := r["resources" := JArr([DownloadResource(IdOrEmpty(r))])];
    } else if "DistributionUrl" in r && Truthy(r["DistributionUrl"]) {
      r := r["resources" := JArr([PageResource(r["DistributionUrl"])])];
    }
  }

  /** Every key the mapping needs from the record. */
  predicate HasRequiredKeys(record: map<string, Json>)
  {
    (forall k | k in RenamedFrom :: k in record) && "Organization" in record && "Theme" in record
  }

  /** The config leaves the default tags unset, falsy, or iterable. */
  predicate UsableConfig(config: Json)
  {
    && config.JObj?
    && ("default_tags" in config.fields && Truthy(config.fields["default_tags"]) ==>
          TagSource(config.fields["default_tags"]).Some?)
  }

  /** The renamed fields and the owner organisation of `p`, taken from the record `c`. */
  ghost predicate FieldsMapped(c: map<string, Json>, p: map<string, Json>, genNewName: Json -> Json)
    requires HasRequiredKeys(c)
  {
    && "id" in p && p["id"] == c["Uuid"]
    && "title" in p && p["title"] == c["Title"]
    && "notes" in p && p["notes"] == c["Abstract"]
    && "url" in p && p["url"] == c["ShowDetailsUrl"]
    && "isopen" in p && p["isopen"] == c["IsOpenData"]
    && "owner_org" in p && p["owner_org"] == genNewName(c["Organization"])
    && (forall k | k in RenamedFrom || k == "Theme" :: k !in p)
  }

  lemma OwnerSetAgrees(c: map<string, Json>, a: map<string, Json>, o: map<string, Json>, genNewName: Json -> Json)
    requires (forall k | k in RenamedFrom :: k in c) && Renamed(c, a) && "Organization" in a
    requires o == a["owner_org" := genNewName(a["Organization"])]
    ensures Agree(c, o, "tags") && Agree(c, o, "Theme") && Agree(c, o, "DistributionProtocol")
            && Agree(c, o, "DistributionUrl") && Agree(c, o, "resources")
    ensures Preserves(c, o, RenamedFrom + RenamedTo + {"owner_org"})
    ensures "id" in o && o["id"] == c["Uuid"]
  {
    assert Agree(c, a, "tags") && Agree(c, a, "Theme") && Agree(c, a, "DistributionProtocol")
           && Agree(c, a, "DistributionUrl") && Agree(c, a, "resources");
  }

  lemma ComposeFields(c: map<string, Json>, a: map<string, Json>, o: map<string, Json>,
                      t: map<string, Json>, f: map<string, Json>, genNewName: Json -> Json)
    requires HasRequiredKeys(c) && Renamed(c, a) && "Organization" in a
    requires o == a["owner_org" := genNewName(a["Organization"])]
    requires Preserves(o, t, {"tags", "Theme"}) && "Theme" !in t
    requires Preserves(t, f, {"resources"})
    ensures FieldsMapped(c, f, genNewName)
  {
    assert Agree(c, a, "Organization");
    assert Agree(o, t, "id") && Agree(o, t, "title") && Agree(o, t, "notes") && Agree(o, t, "url")
           && Agree(o, t, "isopen") && Agree(o, t, "owner_org");
    assert forall k | k in RenamedFrom :: Agree(o, t, k);
    assert Agree(t, f, "id") && Agree(t, f, "title") && Agree(t, f, "notes") && Agree(t, f, "url")
           && Agree(t, f, "isopen") && Agree(t, f, "owner_org") && Agree(t, f, "Theme");
    assert forall k | k in RenamedFrom :: Agree(t, f, k);
  }

  lemma ComposeFrame(c: map<string, Json>, o: map<string, Json>, t: map<string, Json>, f: map<string, Json>)
    requires Preserves(c, o, RenamedFrom + RenamedTo + {"owner_org"})
    requires Preserves(o, t, {"tags", "Theme"})
    requires Preserves(t, f, {"resources"})
    ensures Preserves(c, f, Touched)
  {
    PreservesTrans(c, o, t, RenamedFrom + RenamedTo + {"owner_org"}, {"tags", "Theme"});
    PreservesTrans(c, t, f, RenamedFrom + RenamedTo + {"owner_org"} + {"tags", "Theme"}, {"resources"});
    PreservesMore(c, f, RenamedFrom + RenamedTo + {"owner_org"} + {"tags", "Theme"} + {"resources"}, Touched);
  }

  lemma ComposeResources(c: map<string, Json>, o: map<string, Json>, t: map<string, Json>, f: map<string, Json>)
    requires "Uuid" in c && "id" in o && o["id"] == c["Uuid"]
    requires Agree(c, o, "DistributionProtocol") && Agree(c, o, "DistributionUrl") && Agree(c, o, "resources")
    requires Preserves(o, t, {"tags", "Theme"})
    requires ResourcesChosen(t, f, IdOrEmpty(t))
    ensures ResourcesChosen(c, f, c["Uuid"])
  {
    assert Agree(o, t, "DistributionProtocol") && Agree(o, t, "DistributionUrl")
           && Agree(o, t, "resources") && Agree(o, t, "id");
  }

  /**
   * Lines 639-689. `record` is the decoded content of the harvest object,
   * `config` the harvester's config, and `genNewName` stands for
   * `_gen_new_name`, which looks up a free name in the database.
   */
  method MapPackage(record: Json, config: Json, genNewName: Json -> Json) returns (r: Mapped)
    ensures !record.JObj? ==> r == Failed
    ensures record.JObj? && Get(record.fields, "type") == Some(JStr("harvest")) ==> r == Ignored
    ensures r.Package? <==>
              && record.JObj? && Get(record.fields, "type") != Some(JStr("harvest"))
              && HasRequiredKeys(record.fields) && StartTags(record.fields).JArr?
              && UsableConfig(config)
    ensures r.Package? ==>
              && FieldsMapped(record.fields, r.fields, genNewName)
              && "tags" in r.fields && r.fields["tags"] == TagsAfter(record.fields, config.fields)
              && ResourcesChosen(record.fields, r.fields, record.fields["Uuid"])
              && Preserves(record.fields, r.fields, Touched)
  {
    if !record.JObj? {
      return Failed;
    }
    var c := record.fields;
    if Get(c, "type") == Some(JStr("harvest")) {
      return Ignored;
    }
    var renamed := RenameFields(c);
    if renamed.None? {
      return Failed;
    }
    var packageDict := renamed.value;
    ghost var afterRenames := packageDict;
    assert Agree(c, afterRenames, "Organization");
    if "Organization" !in packageDict {
      return Failed;
    }
    var organizationName := packageDict["Organization"];
    packageDict := packageDict["owner_org" := genNewName(organizationName)];
    OwnerSetAgrees(c, afterRenames, packageDict, genNewName);
    ghost var afterOwner := packageDict;
    var tagged := AddTags(packageDict, config);
    if tagged.None? {
      return Failed;
    }
    assert TagsAfter(afterOwner, config.fields) == TagsAfter(c, config.fields);
    packageDict := SetResources(tagged.value);
    ComposeFields(c, afterRenames, afterOwner, tagged.value, packageDict, genNewName);
    ComposeFrame(c, afterOwner, tagged.value, packageDict);
    ComposeResources(c, afterOwner, tagged.value, packageDict);
    assert Agree(tagged.value, packageDict, "tags");
    r := Package(packageDict);
  }
}
