# ckanext-sintef harvesters in Dafny

This project models the core of the two CKAN harvesters of ckanext-sintef.
Those harvesters copy dataset metadata from the Norwegian national
catalogues Geonorge and Data Norge into a CKAN instance. The Geonorge
harvester's core is modelled in these parts:

- validating the configuration a user enters for a harvest source;
- turning that configuration into the list of search filter combinations
  (one search per element of the Cartesian product of the configured
  values);
- the paged search against the Geonorge search API (`offset` grows by 10
  until a page comes back empty);
- on a re-harvest, dropping the results that have not changed since the
  last harvest without errors, and finding that harvest job;
- turning the results into harvest objects, skipping repeated Uuids;
- the metadata provenance record appended on every import;
- mapping a Geonorge record onto a CKAN package (renamed fields, tags,
  owner organization and download resources);
- the harvester object's own `config` state.

From the Data Norge harvester, the model covers the function that turns an
organization title into a lower-case, alphanumeric CKAN name.

## Conventions

- JSON documents are the `Json` datatype (`JsonValues`), and objects are
  maps.
- A Python 2 dict's iteration order is made explicit as an `order` sequence
  that lists every key once. Every property is proved for every such order.
- HTTP is an oracle `remote: Request -> Response` (`Remote`). Fetch errors,
  HTTP errors and bodies that are not JSON are separate responses.
- `json.loads` is an oracle `decode: string -> Option<Json>`.
- Database ids (`newId`), the organization name generator (`genNewName`)
  and the clock (`now`) are parameters.
- A call that raises an exception is modelled as an explicit error result:
  - `Crashed` or `SearchFailed` in `Remote.Outcome`;
  - `Failed` in `ImportMapping.Mapped`;
  - `failed` in `Materialise.Run`;
  - `None` elsewhere.

## Model

| member | source | states |
|---|---|---|
| ConfigValidation.ValidateConfig | ckanext/sintef/harvesters/geonorgeharvester.py:94-148 | An empty config comes back unchanged. Text that is not JSON is rejected. The config is accepted exactly when every check of lines 127-141 passes, and the accepted document is the parsed one. A rejection names a check that failed. |
| ConfigValidation.FirstFailure | ckanext/sintef/harvesters/geonorgeharvester.py:117-141 | No check is reported exactly when all pass. Otherwise the first failing check in program order is reported. |
| ConfigValidation.ValidateObject | ckanext/sintef/harvesters/geonorgeharvester.py:113-141 | A JSON object is accepted exactly when the list keys hold a string or a list of strings and the flags hold booleans. |
| ConfigValidation.ValidateList | ckanext/sintef/harvesters/geonorgeharvester.py:113-141 | A JSON list is accepted exactly when it does not contain any checked key as a string, because `in` on a list tests membership. |
| ConfigValidation.ValidateScalar | ckanext/sintef/harvesters/geonorgeharvester.py:113-128 | A number, boolean or null config is rejected by the first check, on `themes`, because `in` on it raises TypeError. |
| ConfigValidation.RejectionNamesOffendingKey | ckanext/sintef/harvesters/geonorgeharvester.py:113-141 | When an object is rejected, the reported key is present and holds a value of the wrong kind. |
| SearchCombinations.SourceKey | ckanext/sintef/harvesters/geonorgeharvester.py:449-468 | Each search term is filled from a configured list key other than `default_tags`. |
| SearchCombinations.SourceKeyInjective | ckanext/sintef/harvesters/geonorgeharvester.py:449-468 | No two search terms read the same configuration key. |
| SearchCombinations.AsList | ckanext/sintef/harvesters/geonorgeharvester.py:450-459 | A lone string becomes a one-element list. A list of strings keeps its elements in order. |
| SearchCombinations.FilterName | ckanext/sintef/harvesters/geonorgeharvester.py:448-468 | A configuration key is mapped to the search term that reads it, or to none if no term does. |
| SearchCombinations.FilterIncludeContents | ckanext/sintef/harvesters/geonorgeharvester.py:446-471 | `filter_include` holds exactly the configured terms with their values as lists. `type` defaults to `["dataset"]`. |
| SearchCombinations.CollectFilters | ckanext/sintef/harvesters/geonorgeharvester.py:446-471 | The config loop yields the `filter_include` map, whatever order it visits the keys in. `length` is the product of the value counts. |
| SearchCombinations.CollectStep | ckanext/sintef/harvesters/geonorgeharvester.py:448-468 | One pass of the config loop adds at most one term, and multiplies `length` by that term's value count. |
| SearchCombinations.DefaultTypeProduct | ckanext/sintef/harvesters/geonorgeharvester.py:469-471 | Adding the default `type` leaves the number of searches unchanged. |
| SearchCombinations.ProductAnyOrder | ckanext/sintef/harvesters/geonorgeharvester.py:472-490 | The number of searches does not depend on the dict's iteration order. |
| SearchCombinations.GetItemFromList | ckanext/sintef/harvesters/geonorgeharvester.py:436-441 | Returns the item at the index, or None past the end. |
| SearchCombinations.CounterStep | ckanext/sintef/harvesters/geonorgeharvester.py:477-486 | The two counters of the inner loop are the quotient and remainder of the search index. |
| SearchCombinations.FillKey | ckanext/sintef/harvesters/geonorgeharvester.py:476-486 | Every search gets the value at digit position `(i / switchnum_max) % len(values)` for this key. Every other key is left as it was. |
| SearchCombinations.ExpandCombinations | ckanext/sintef/harvesters/geonorgeharvester.py:472-490 | There are as many searches as the product of the value counts. Search `i` is the combination whose mixed-radix digits are those of `i`. |
| SearchCombinations.BuildSearchCombinations | ckanext/sintef/harvesters/geonorgeharvester.py:446-490 | The whole builder gives the product-many combinations of the configured values. |
| SearchCombinations.ConfigFields | ckanext/sintef/harvesters/geonorgeharvester.py:448-468 | An object config yields its fields. A string or a list naming no filter key yields no filter. A list naming a filter key, a number, a boolean or null raises. |
| SearchCombinations.BuildSearchCombinationsOf | ckanext/sintef/harvesters/geonorgeharvester.py:446-490 | On the configuration document, the builder raises exactly when iterating it raises, and otherwise gives the combinations of its filters. |
| SearchCombinations.AcceptedNonObjectSearchesDatasets | ckanext/sintef/harvesters/geonorgeharvester.py:446-490 | A validated configuration that is a string or a list sets no filter, so exactly one search is made, for `type` = `dataset`. |
| SearchCombinations.CombinationLookup | ckanext/sintef/harvesters/geonorgeharvester.py:472-490 | Every search sets every term, to the value picked by its digit. |
| SearchCombinations.SearchUsesConfiguredValues | ckanext/sintef/harvesters/geonorgeharvester.py:446-490 | Every term of every search holds one of the configured values for it. |
| SearchCombinations.EveryChoiceSearched | ckanext/sintef/harvesters/geonorgeharvester.py:446-490 | Every choice of one configured value per term is searched. |
| SearchCombinations.SearchesDistinct | ckanext/sintef/harvesters/geonorgeharvester.py:446-490 | When the configured lists have no repeats, no combination is searched twice. |
| SearchCombinations.EmptyConfigSearchesDatasets | ckanext/sintef/harvesters/geonorgeharvester.py:469-490 | With no filters configured, there is exactly one search, for `type` = `dataset`. |
| PagedSearch.FacetLayout | ckanext/sintef/harvesters/geonorgeharvester.py:236-237 | Describes the shape of the names `facets[c]name` and `facets[c]value`. |
| PagedSearch.FacetKeysDistinct | ckanext/sintef/harvesters/geonorgeharvester.py:236-237 | Distinct facet numbers give distinct parameter names, and a name key never equals a value key. |
| PagedSearch.BuildParams | ckanext/sintef/harvesters/geonorgeharvester.py:227-238 | Builds the `params` dict of the reference definition for the given iteration order. |
| PagedSearch.ParamsStepText | ckanext/sintef/harvesters/geonorgeharvester.py:232-234 | The `text` term sets the `text` parameter. |
| PagedSearch.ParamsStepFacet | ckanext/sintef/harvesters/geonorgeharvester.py:235-238 | Any other term adds the next facet number's name and value. |
| PagedSearch.SearchParamsPlain | ckanext/sintef/harvesters/geonorgeharvester.py:227-234 | `offset` starts at 1 and `limit` is 10. `text` is present exactly when it is a search term. |
| PagedSearch.SearchParamsFacet | ckanext/sintef/harvesters/geonorgeharvester.py:235-238 | Facet `c` names the `c`-th non-text term and carries its value. |
| PagedSearch.SearchParamsKeys | ckanext/sintef/harvesters/geonorgeharvester.py:227-238 | The parameters are `offset`, `limit`, `text` and the facet pairs, and nothing else. |
| PagedSearch.Sorted | ckanext/sintef/harvesters/geonorgeharvester.py:246-247 | The keys are listed once each in ascending order, as `sorted(params.items())` writes them. |
| PagedSearch.SortedUnique | ckanext/sintef/harvesters/geonorgeharvester.py:246-247 | Only one strictly sorted listing of a key set exists. |
| PagedSearch.PageParamsKeys | ckanext/sintef/harvesters/geonorgeharvester.py:278-280 | Page `n` has the same keys as the first page, with `offset` = 1 + 10n and `limit` unchanged. |
| PagedSearch.QueryListsParams | ckanext/sintef/harvesters/geonorgeharvester.py:244-248 | The URL query lists every parameter with its rendered value, in ascending key order. |
| PagedSearch.PageQuery | ckanext/sintef/harvesters/geonorgeharvester.py:244-248 | The request for page `n` has a sorted query that carries that page's offset and the limit. |
| PagedSearch.AsciiTermsReachRemote | ckanext/sintef/harvesters/geonorgeharvester.py:244-256 | When every search term and value is ASCII, `urlencode` writes every page's query and the page is the catalogue's answer. |
| PagedSearch.NonAsciiTermCrashes | ckanext/sintef/harvesters/geonorgeharvester.py:244-248 | A term value with a character outside ASCII makes `urlencode` raise UnicodeEncodeError on the first page, so the search crashes before any request. |
| PagedSearch.TermValueParam | ckanext/sintef/harvesters/geonorgeharvester.py:232-238 | Every search term's value is the value of some request parameter. |
| PagedSearch.PageErrors | ckanext/sintef/harvesters/geonorgeharvester.py:250-277 | A fetch error or a body that is not JSON fails the search. A body without `Results` is an empty page. A `Results` list is the page's items. |
| PagedSearch.GatheredStep | ckanext/sintef/harvesters/geonorgeharvester.py:266-280 | Each page that does not end the loop appends its items to the result. |
| PagedSearch.Collect | ckanext/sintef/harvesters/geonorgeharvester.py:243-282 | The loop stops at the first page that ends it. The result is that page's error, or all earlier pages' items in order. |
| PagedSearch.SearchForDatasets | ckanext/sintef/harvesters/geonorgeharvester.py:215-282 | The whole search returns what the first ending page decides, for the given facet order. |
| ModifiedDatasets.UuidOf | ckanext/sintef/harvesters/geonorgeharvester.py:301-302 | A result has a Uuid exactly when it is an object with a string `Uuid`. |
| ModifiedDatasets.Judge | ckanext/sintef/harvesters/geonorgeharvester.py:302-324 | A result without a string Uuid crashes. Otherwise it is dropped exactly when the catalogue returns an object whose `DateMetadataUpdated` sorts before the last harvest, kept exactly when there is no content or the object is newer, fails with SearchError exactly when the body is not JSON, and crashes on a fetch error or a body that is not an object. |
| ModifiedDatasets.RemoveFirst | ckanext/sintef/harvesters/geonorgeharvester.py:324 | `list.remove` takes out one occurrence. The length drops by one and the multiset loses one copy. |
| ModifiedDatasets.FirstIndex | ckanext/sintef/harvesters/geonorgeharvester.py:324 | Finds the first occurrence, the one `list.remove` takes out. |
| ModifiedDatasets.GetModifiedDatasets | ckanext/sintef/harvesters/geonorgeharvester.py:285-326 | The loop with `list.remove` returns the filter: either the first error, or the results judged keep, in order. |
| ModifiedDatasets.LoopStep | ckanext/sintef/harvesters/geonorgeharvester.py:301-324 | One turn of the loop keeps the working list equal to the kept prefix followed by the unexamined rest. |
| ModifiedDatasets.FilteredStep | ckanext/sintef/harvesters/geonorgeharvester.py:301-324 | How one verdict extends the filter of a prefix. |
| ModifiedDatasets.ErrorSticks | ckanext/sintef/harvesters/geonorgeharvester.py:301-326 | Once a prefix ends in an error, no later result changes the outcome. |
| ModifiedDatasets.KeptAreKept | ckanext/sintef/harvesters/geonorgeharvester.py:311-324 | Every returned result was judged keep. |
| ModifiedDatasets.FilteredDone | ckanext/sintef/harvesters/geonorgeharvester.py:301-326 | The filter succeeds exactly when no result is judged an error. |
| ModifiedDatasets.FilteredFirstError | ckanext/sintef/harvesters/geonorgeharvester.py:301-326 | The outcome is set by the first result judged an error. |
| ModifiedDatasets.FilteredCounts | ckanext/sintef/harvesters/geonorgeharvester.py:301-326 | Each kept result appears as often as in the input, and every other result is gone. |
| ModifiedDatasets.NothingStale | ckanext/sintef/harvesters/geonorgeharvester.py:301-326 | When every result is kept, the list comes back unchanged. |
| JobScan.LastErrorFreeJob | ckanext/sintef/harvesters/geonorgeharvester.py:205-212 | A job is found exactly when one of the jobs has no unsuccessful object. The job found is the first such, newest first. A job without objects always qualifies. |
| Materialise.HashKey | ckanext/sintef/harvesters/geonorgeharvester.py:566-573 | A Uuid can be added to the `package_ids` set exactly when it is hashable. `True` and `False` stand for `1` and `0`, and every other hashable value stands for itself. |
| Materialise.HashKeyIsEquality | ckanext/sintef/harvesters/geonorgeharvester.py:566-573 | Two hashable Uuids are the same set member exactly when Python's `==` holds between them. |
| Materialise.CreateHarvestObjects | ckanext/sintef/harvesters/geonorgeharvester.py:562-591 | The loop saves one harvest object per deduplicated result, in order. It returns their ids, or None when the stage fails. |
| Materialise.LoopStep | ckanext/sintef/harvesters/geonorgeharvester.py:564-582 | One turn either fails, skips a repeated Uuid, or adds the result and its key. |
| Materialise.FailureSticks | ckanext/sintef/harvesters/geonorgeharvester.py:564-591 | After a failure, later results change nothing. |
| Materialise.DedupKept | ckanext/sintef/harvesters/geonorgeharvester.py:564-582 | The saved results are a subsequence of the search results. Each has a hashable Uuid and a Title, and no two share a Uuid. On success, every Uuid of the input is represented. |
| Materialise.DedupFails | ckanext/sintef/harvesters/geonorgeharvester.py:564-591 | The stage fails exactly when some result is the first with its key and is unhashable or lacks a Title. |
| Materialise.FirstOccurrencesSaved | ckanext/sintef/harvesters/geonorgeharvester.py:564-582 | On success, the first result with each Uuid is the one saved. |
| ImportMapping.NewTags | ckanext/sintef/harvesters/geonorgeharvester.py:662-665 | The default tags added are exactly those not already in the tag list. |
| ImportMapping.StringTagsNeverFiltered | ckanext/sintef/harvesters/geonorgeharvester.py:662-665 | String default tags are never equal to the dict-shaped tags, so all of them are added. |
| ImportMapping.RenameFields | ckanext/sintef/harvesters/geonorgeharvester.py:647-651 | The renames succeed exactly when every source field is present. Each target then holds the source's value, and the source is removed. |
| ImportMapping.TagsAfterOrder | ckanext/sintef/harvesters/geonorgeharvester.py:656-665 | The tag list is the record's own tags, then the theme, then exactly the default tags not among those, in config order, or nothing when the default tags are unset or falsy. |
| ImportMapping.StringDefaultTagsAppended | ckanext/sintef/harvesters/geonorgeharvester.py:656-665 | When the default tags are strings and the record's tags hold no strings, every default tag is appended after the theme, in config order. |
| ImportMapping.AddTags | ckanext/sintef/harvesters/geonorgeharvester.py:656-665 | The tag step succeeds exactly when the tags are a list, the Theme is present and the config's default tags are usable. It sets `tags`, removes `Theme` and changes nothing else. |
| ImportMapping.SetResources | ckanext/sintef/harvesters/geonorgeharvester.py:667-689 | The GEONORGE:DOWNLOAD protocol gives the download API resource. Otherwise a URL gives a page resource, and with neither the resources are untouched. No other field changes. |
| ImportMapping.OwnerSetAgrees | ckanext/sintef/harvesters/geonorgeharvester.py:647-654 | Renaming and setting `owner_org` leave the tag, theme and distribution fields untouched. |
| ImportMapping.ComposeFields | ckanext/sintef/harvesters/geonorgeharvester.py:647-689 | The later steps keep the renamed fields and the owner organization. |
| ImportMapping.ComposeFrame | ckanext/sintef/harvesters/geonorgeharvester.py:647-689 | Only the renamed fields, `owner_org`, `tags`, `Theme` and `resources` change. |
| ImportMapping.ComposeResources | ckanext/sintef/harvesters/geonorgeharvester.py:667-689 | The resources are chosen from the record's own protocol, URL and Uuid. |
| ImportMapping.MapPackage | ckanext/sintef/harvesters/geonorgeharvester.py:639-689 | A non-object fails, and a record of type `harvest` is ignored. Otherwise a package is produced exactly when the required fields, a tag list and a usable config are present. It has the mapped fields, the tags, the chosen resources and every other field unchanged. |
| Provenance.JustThisHarvest | ckanext/sintef/harvesters/geonorgeharvester.py:358-375 | The record has the six keys, says harvest or reharvest, and names this object's guid and source URL. |
| Provenance.MetadataProvenance | ckanext/sintef/harvesters/geonorgeharvester.py:378-400 | It succeeds exactly when the earlier provenance is None, a list, or text that decodes to a list, and it adds one record. |
| Provenance.AppendsOne | ckanext/sintef/harvesters/geonorgeharvester.py:389-400 | The earlier records are kept as they were. The new last record names this harvest's guid. |
| Provenance.FirstHarvest | ckanext/sintef/harvesters/geonorgeharvester.py:365-400 | With no provenance, the chain is one record marked `harvest`. |
| Provenance.Reharvest | ckanext/sintef/harvesters/geonorgeharvester.py:365-400 | The new record says `reharvest` exactly when there was earlier provenance. |
| Provenance.ChainAccumulates | ckanext/sintef/harvesters/geonorgeharvester.py:378-400 | Storing a chain and importing again gives that chain plus one reharvest record. |
| Harvester.GeonorgeHarvester.constructor | ckanext/sintef/harvesters/geonorgeharvester.py:29 | A new harvester's config is `None` until it is set. |
| Harvester.GeonorgeHarvester.SetConfig | ckanext/sintef/harvesters/geonorgeharvester.py:76-91 | An empty or missing config string sets `{}`. Otherwise the decoded document is set. On a decoding error the call fails and the config is unchanged. |
| Slug.Lower | ckanext/sintef/harvesters/datanorgeharvester.py:94 | ASCII capitals map to their lower case. Lower-case letters, digits, `-` and `_` are fixed. Nothing maps to an ASCII capital. |
| Slug.ReplaceAll | ckanext/sintef/harvesters/datanorgeharvester.py:89-92 | A string without the character is unchanged. When the replacement lacks the character, the result lacks it too. |
| Slug.KeepAllowed | ckanext/sintef/harvesters/datanorgeharvester.py:97 | Only `[A-Za-z0-9_-]` characters remain, and the string does not grow. |
| Slug.MakeLowerAndAlphanumeric | ckanext/sintef/harvesters/datanorgeharvester.py:66-99 | Replacing in any iteration order, lower-casing and filtering gives the per-character reference name. |
| Slug.ReplaceStep | ckanext/sintef/harvesters/datanorgeharvester.py:89-92 | One replacement extends the set of replaced letters, because no replacement text holds a key. |
| Slug.PipelineIsSlug | ckanext/sintef/harvesters/datanorgeharvester.py:89-97 | Lower-casing and filtering the fully replaced title gives the reference name. |
| Slug.SlugIsName | ckanext/sintef/harvesters/datanorgeharvester.py:66-78 | The name holds only lower-case letters, digits, `-` and `_`. |
| Slug.SlugAppend | ckanext/sintef/harvesters/datanorgeharvester.py:66-99 | The name of a concatenation is the concatenation of the names. |
| Slug.NameIsFixed | ckanext/sintef/harvesters/datanorgeharvester.py:66-99 | A string that is already a name is unchanged. |
| Slug.SlugIdempotent | ckanext/sintef/harvesters/datanorgeharvester.py:66-99 | Naming a name changes nothing. |
| Slug.NorwegianWordsStayApart | ckanext/sintef/harvesters/datanorgeharvester.py:79-88 | "kjære" becomes "kjaere" and "kjøre" becomes "kjoere", as the comment intends. |
| Slug.CapitalsAndSpaces | ckanext/sintef/harvesters/datanorgeharvester.py:81-95 | "BØ I" becomes "boe-i". |

## Left out

- HTTP itself (`_get_content`, lines 329-355) is an oracle. Timeouts, headers and URL quoting are not modelled, and a query is a list of key/value pairs. The one failure of writing the URL, `str()` of non-ASCII text in `urlencode`, is modelled as a crash.
- The ORM is not modelled: the job query before line 205, saving harvest objects, and package creation and update. Database ids and the clock are parameters.
- JSON encoding (`json.dumps`) of the validated config, of the provenance chain and of harvest object content is not modelled. The values are returned as `Json`.
- Floating-point JSON numbers are not modelled; numbers are integers.
- The gather stage's orchestration (lines 497-560) and the organization lookup and creation of the import stage (lines 693-738) are not modelled. They glue the modelled parts together through the database and the CKAN action API.
- The fetch and import stages' error reporting is not modelled: `_save_object_error` and the log calls.
- base.py is not part of this model, and neither is the Data Norge harvester beyond `_make_lower_and_alphanumeric`.
- ModifiedDatasets.GetModifiedDatasets: the remote is a function, so the model assumes the catalogue gives the same answer to the same getdata request within one run. Without that, two equal search results can get different verdicts. `list.remove` at line 324 then removes the first equal copy even when a later one was judged stale, so the order of the result can differ from the in-order filter. Its multiset of kept results would not change.
- PagedSearch.SearchForDatasets: requires that some page ends the loop. The source loops forever on a server that never returns an empty page or an error.
- PagedSearch.PageErrors: a `Results` value that is a JSON object is treated as a crash. The source would extend the result list with the object's keys, in hash order.
- PagedSearch.BuildParams: `fq_terms` is a map. The `None` that a caller could pass is not modelled, because every caller passes a dict.
- Slug.Lower: `unicode.lower()` is modelled for ASCII and for the two non-ASCII capitals whose lower case is ASCII. Other characters keep their case, which cannot change the result because the filter drops all non-ASCII characters anyway. Titles are Unicode strings; UTF-8 byte strings are not modelled.
- ImportMapping.SetResources: `'%s' % id` renders a list or dict id approximately (`Show`). Only strings, numbers, booleans and null render exactly.
- ImportMapping.AddTags: a dict `default_tags` is treated as a failure, not iterated by its keys. The membership test compares JSON values, so `1 == True` in Python is not modelled.
- Provenance.MetadataProvenance: the nullable columns of the harvest source and object are modelled as strings.
- Materialise.CreateHarvestObjects: the harvest object's `content` is the result itself, not its JSON text.
