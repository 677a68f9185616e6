/**
 * The Geonorge harvester object's own state: the `config` attribute that
 * `_set_config` (geonorgeharvester.py:76-91) assigns before the import
 * stage reads the harvest source's settings.
 */
module Harvester {
  import opened JsonValues

  /** `if config_str:`: a missing or empty config string is falsy. */
  predicate HasConfigText(configStr: Option<string>)
  {
    configStr.Some? && configStr.value != ""
  }

  class GeonorgeHarvester {
    var config: Json

    /** The class attribute `config = None` (line 29) until `_set_config` runs. */
    constructor ()
      ensures config == JNull
    {
      config := JNull;
    }

    /**
     * Lines 76-91. `decode` stands for `json.loads`; when it fails the call
     * raises ValueError, `ok` is false and the config is left as it was.
     */
    method SetConfig(configStr: Option<string>, decode: string -> Option<Json>) returns (ok: bool)
      modifies this
      ensures ok <==> !HasConfigText(configStr) || decode(configStr.value).Some?
      ensures !HasConfigText(configStr) ==> config == JObj(map[])
      ensures HasConfigText(configStr) && ok ==> config == decode(configStr.value).value
      ensures !ok ==> config == old(config)
    {
      if HasConfigText(configStr) {
        var decoded := decode(configStr.value);
        if decoded.None? {
          return false;
        }
        config := decoded.value;
      } else {
        config := JObj(map[]);
      }
      return true;
    }
  }
}
