/**
 * Metadata provenance (geonorgeharvester.py:358-400): the list of harvest
 * records a dataset keeps in its `metadata_provenance` extra, to which every
 * import appends one record.
 */
module Provenance {
  import opened JsonValues

  /** The parts of a harvest object the record is built from. */
  datatype HarvestObjectRef = HarvestObjectRef(
    sourceUrl: string, sourceTitle: string, sourceType: string, guid: string)

  /**
   * The provenance a dataset already has: none, the JSON text stored in
   * the extra, or a value that is not a string.
   */
  datatype Prior = NoPrior | Text(text: string) | Value(value: Json)

  /** Python's None is `NoPrior` and a string is `Text`, so a `Value` holds neither. */
  predicate WellFormedPrior(prior: Prior)
  {
    prior.Value? ==> !prior.value.JNull? && !prior.value.JStr?
  }

  /**
   * Lines 358-375: the record of this harvest. `now` is the UTC time of the
   * call in ISO format.
   */
  function JustThisHarvest(obj: HarvestObjectRef, now: string, reharvest: bool): (r: map<string, Json>)
    ensures r.Keys == {"activity_occurred", "activity", "harvest_source_url",
                       "harvest_source_title", "harvest_source_type", "harvested_guid"}
    ensures r["activity"] == JStr(if reharvest then "reharvest" else "harvest")
    ensures r["harvested_guid"] == JStr(obj.guid) && r["harvest_source_url"] == JStr(obj.sourceUrl)
  {
    map["activity_occurred" := JStr(now),
        "activity" := JStr(if reharvest then "reharvest" else "harvest"),
        "harvest_source_url" := JStr(obj.sourceUrl),
        "harvest_source_title" := JStr(obj.sourceTitle),
        "harvest_source_type" := JStr(obj.sourceType),
        "harvested_guid" := JStr(obj.guid)]
  }

  /**
   * The chain the new record is appended to: nothing for no provenance, the
   * decoded text, or the value itself. `harvested_provenance + [...]` needs a
   * list; anything else raises, as does text that is not JSON.
   */
  function EarlierChain(prior: Prior, decode: string -> Option<Json>): Option<seq<Json>>
  {
    match prior
    case NoPrior => Some([])
    case Text(text) =>
      (match decode(text)
       case Some(JArr(items)) => Some(items)
       case _ => None)
    case Value(JArr(items)) => Some(items)
    case Value(_) => None
  }

  /**
   * Lines 378-400: the provenance chain after this harvest, or None when the
   * call raises. `decode` stands for `json.loads`; the result is returned
   * JSON-encoded, which the model leaves out.
   */
  function MetadataProvenance(obj: HarvestObjectRef, now: string, prior: Prior,
                              decode: string -> Option<Json>): (r: Option<seq<Json>>)
    requires WellFormedPrior(prior)
    ensures r.Some? <==> EarlierChain(prior, decode).Some?
    ensures r.Some? ==> |r.value| == |EarlierChain(prior, decode).value| + 1
  {
    var reharvest := !prior.NoPrior?;
    match EarlierChain(prior, decode)
    case None => None
    case Some(earlier) => Some(earlier + [JObj(JustThisHarvest(obj, now, reharvest))])
  }

  /**
   * The chain grows by exactly one record: the earlier records are kept
   * as they were, and the new one describes this harvest.
   */
  lemma AppendsOne(obj: HarvestObjectRef, now: string, prior: Prior, decode: string -> Option<Json>)
    requires WellFormedPrior(prior) && MetadataProvenance(obj, now, prior, decode).Some?
    ensures var chain := MetadataProvenance(obj, now, prior, decode).value;
            var earlier := EarlierChain(prior, decode).value;
            && chain[..|earlier|] == earlier
            && chain[|earlier|].JObj?
            && chain[|earlier|].fields["harvested_guid"] == JStr(obj.guid)
  {
    var earlier := EarlierChain(prior, decode).value;
    assert MetadataProvenance(obj, now, prior, decode).value[..|earlier|] == earlier;
  }

  /** A dataset with no provenance gets a chain of one record, marked as a harvest. */
  lemma FirstHarvest(obj: HarvestObjectRef, now: string, decode: string -> Option<Json>)
    ensures var r := MetadataProvenance(obj, now, NoPrior, decode);
            && r.Some? && |r.value| == 1
            && r.value[0].JObj? && r.value[0].fields["activity"] == JStr("harvest")
  {
    assert JustThisHarvest(obj, now, false)["activity"] == JStr("harvest");
  }

  /** With earlier provenance, whether text or a list, the new record is marked as a reharvest. */
  lemma Reharvest(obj: HarvestObjectRef, now: string, prior: Prior, decode: string -> Option<Json>)
    requires WellFormedPrior(prior) && MetadataProvenance(obj, now, prior, decode).Some?
    ensures var chain := MetadataProvenance(obj, now, prior, decode).value;
            chain[|chain| - 1].JObj? &&
            (chain[|chain| - 1].fields["activity"] == JStr("reharvest") <==> !prior.NoPrior?)
  {
    assert JustThisHarvest(obj, now, !prior.NoPrior?)["activity"]
           == JStr(if !prior.NoPrior? then "reharvest" else "harvest");
  }

  /**
   * Two imports in a row: when the stored text decodes back to the chain
   * the first import produced, the second import's chain is that chain plus
   * one reharvest record.
   */
  lemma ChainAccumulates(obj1: HarvestObjectRef, now1: string, obj2: HarvestObjectRef, now2: string,
                         prior: Prior, stored: string, decode: string -> Option<Json>)
    requires WellFormedPrior(prior) && MetadataProvenance(obj1, now1, prior, decode).Some?
    requires decode(stored) == Some(JArr(MetadataProvenance(obj1, now1, prior, decode).value))
    ensures MetadataProvenance(obj2, now2, Text(stored), decode)
            == Some(MetadataProvenance(obj1, now1, prior, decode).value
                    + [JObj(JustThisHarvest(obj2, now2, true))])
  {
  }
}
