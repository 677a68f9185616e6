/**
 * `GeonorgeHarvester.validate_config` (geonorgeharvester.py:94-148): decides
 * whether the configuration text entered for a harvest source is accepted.
 *
 * Decoding the text is `json.loads`, a library call; the model receives its
 * outcome (`None` when the text is not JSON, which raises ValueError).
 * Re-encoding the accepted document with `json.dumps` is likewise left to
 * the library: an accepted configuration is returned as its document.
 */
module ConfigValidation {
  import opened JsonValues

  /** One of the checks of lines 127-141, named by the key it inspects. */
  datatype Check = StringOrList(key: string) | Boolean(key: string)

  /** Keys that must hold a string or a list of strings (lines 127-133). */
  const ListKeys: set<string> :=
    {"themes", "organizations", "text", "title", "uuid", "datatypes", "default_tags"}

  /** Keys that must hold a boolean (lines 136-141). */
  const FlagKeys: set<string> := {"create_orgs", "force_all"}

  /** The checks in the order the source runs them. */
  const Checks: seq<Check> := [
    StringOrList("themes"), StringOrList("organizations"), StringOrList("text"),
    StringOrList("title"), StringOrList("uuid"), StringOrList("datatypes"),
    StringOrList("default_tags"), Boolean("create_orgs"), Boolean("force_all")]

  predicate IsStringOrStringList(v: Json)
  {
    match v
    case JStr(_) => true
    case JArr(items) => forall i :: 0 <= i < |items| ==> items[i].JStr?
    case _ => false
  }

  /** Python's `key in s` for two strings. */
  predicate IsSubstring(key: string, s: string)
  {
    key <= s || (s != [] && IsSubstring(key, s[1..]))
  }

  /**
   * Whether one check lets the decoded document through. For an object the
   * key must be absent or hold a value of the right type. For any other
   * document the source still evaluates `key in doc` and, when that holds,
   * `doc[key]`: a list or a string only passes when the key is not one of
   * its items or substrings (indexing them with a string raises TypeError),
   * and `in` on a number, a boolean or null raises TypeError at once.
   */
  predicate Passes(doc: Json, c: Check)
  {
    match doc
    case JObj(m) =>
      c.key !in m || (if c.StringOrList? then IsStringOrStringList(m[c.key]) else m[c.key].JBool?)
    case JArr(items) => JStr(c.key) !in items
    case JStr(s) => !IsSubstring(c.key, s)
    case _ => false
  }

  /** The first check, in order, that raises. */
  function FirstFailure(doc: Json, checks: seq<Check>): (r: Option<Check>)
    ensures r.None? <==> forall i :: 0 <= i < |checks| ==> Passes(doc, checks[i])
    ensures r.Some? ==> exists i :: 0 <= i < |checks| && checks[i] == r.value
                                    && !Passes(doc, checks[i])
                                    && forall j :: 0 <= j < i ==> Passes(doc, checks[j])
  {
    if checks == [] then None
    else if !Passes(doc, checks[0]) then Some(checks[0])
    else
      var r := FirstFailure(doc, checks[1..]);
      assert forall i :: 1 <= i < |checks| ==> checks[i] == checks[1..][i - 1];
      r
  }

  datatype Rejection = NotJson | CheckFailed(check: Check)

  datatype Validation =
    | Unchanged             // a falsy config is handed back as it came (lines 103-104)
    | Accepted(doc: Json)   // `json.dumps` of this document is returned (line 143)
    | Rejected(reason: Rejection)

  /**
   * `validate_config(text)`; `parsed` is what `json.loads(text)` yields, or
   * None when it raises ValueError.
   */
  function ValidateConfig(text: string, parsed: Option<Json>): (r: Validation)
    ensures text == "" <==> r == Unchanged
    ensures r == Rejected(NotJson) <==> text != "" && parsed.None?
    ensures r.Accepted? <==>
              text != "" && parsed.Some? &&
              forall i :: 0 <= i < |Checks| ==> Passes(parsed.value, Checks[i])
    ensures r.Accepted? ==> parsed == Some(r.doc)
    ensures r.Rejected? && r.reason.CheckFailed? ==>
              parsed.Some? && r.reason.check in Checks && !Passes(parsed.value, r.reason.check)
  {
    if text == "" then Unchanged
    else match parsed
      case None => Rejected(NotJson)
      case Some(doc) =>
        match FirstFailure(doc, Checks)
        case None => Accepted(doc)
        case Some(c) => Rejected(CheckFailed(c))
  }

  /** What an acceptable configuration object holds, key by key. */
  predicate ValidFields(m: map<string, Json>)
  {
    && (forall k | k in m && k in ListKeys :: IsStringOrStringList(m[k]))
    && (forall k | k in m && k in FlagKeys :: m[k].JBool?)
  }

  /**
   * A configuration object is accepted exactly when every listed key that
   * is present holds a string or a list of strings and every flag that is
   * present holds a boolean; other keys are not inspected.
   */
  lemma ValidateObject(text: string, m: map<string, Json>)
    requires text != ""
    ensures ValidateConfig(text, Some(JObj(m))).Accepted? <==> ValidFields(m)
  {
    var doc := JObj(m);
    if ValidFields(m) {
      forall i | 0 <= i < |Checks|
        ensures Passes(doc, Checks[i])
      {
        assert Checks[i].key in (if Checks[i].StringOrList? then ListKeys else FlagKeys);
      }
    } else {
      if k :| k in m && k in ListKeys && !IsStringOrStringList(m[k]) {
        assert !Passes(doc, StringOrList(k));
        assert StringOrList(k) in Checks;
      } else {
        var k :| k in m && k in FlagKeys && !m[k].JBool?;
        assert !Passes(doc, Boolean(k));
        assert Boolean(k) in Checks;
      }
    }
  }

  /** A top-level list is accepted exactly when none of the nine keys is one of its items. */
  lemma ValidateList(text: string, items: seq<Json>)
    requires text != ""
    ensures ValidateConfig(text, Some(JArr(items))).Accepted? <==>
              forall c | c in Checks :: JStr(c.key) !in items
  {
    if !ValidateConfig(text, Some(JArr(items))).Accepted? {
      var i :| 0 <= i < |Checks| && !Passes(JArr(items), Checks[i]);
      assert Checks[i] in Checks;
    }
  }

  /** A number, a boolean or null at the top level is always rejected. */
  lemma ValidateScalar(text: string, doc: Json)
    requires text != "" && (doc.JNum? || doc.JBool? || doc.JNull?)
    ensures ValidateConfig(text, Some(doc)) == Rejected(CheckFailed(StringOrList("themes")))
  {
    assert !Passes(doc, Checks[0]);
  }

  /** Every rejected key check names a key the source validates, and only a present key of the wrong type fails. */
  lemma RejectionNamesOffendingKey(text: string, m: map<string, Json>)
    requires text != ""
    requires ValidateConfig(text, Some(JObj(m))).Rejected?
    ensures var c := ValidateConfig(text, Some(JObj(m))).reason.check;
            c.key in m &&
            (c.StringOrList? ==> c.key in ListKeys && !IsStringOrStringList(m[c.key])) &&
            (c.Boolean? ==> c.key in FlagKeys && !m[c.key].JBool?)
  {
    var c := ValidateConfig(text, Some(JObj(m))).reason.check;
    assert c in Checks;
  }
}
