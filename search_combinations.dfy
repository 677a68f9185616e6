/**
 * The filter-combination builder inside `GeonorgeHarvester.gather_stage`
 * (geonorgeharvester.py:446-490). The configured filter fields, each a
 * string or a list of strings, are collected into `filter_include`; then
 * `fq_terms_list` gets one single-valued search map per combination of one
 * value from every list, enumerated by a hand-rolled mixed-radix counter.
 *
 * Python 2 iterates dicts in an order fixed by hashing. The config loop does
 * not depend on it (the model picks keys in any order); the combination
 * loop does, so the model takes the iteration order of `filter_include` as
 * the parameter `order`, and every property below holds for every order.
 */
module SearchCombinations {
  import opened JsonValues
  import opened MixedRadix
  import opened ConfigValidation

  /** The names `filter_include` uses (lines 449-468). */
  const TargetKeys: set<string> := {"text", "title", "uuid", "type", "organization", "theme"}

  /** The configuration key each filter name is read from. */
  function SourceKey(target: string): (k: string)
    requires target in TargetKeys
    ensures k in ListKeys && k != "default_tags"
  {
    match target
    case "type" => "datatypes"
    case "organization" => "organizations"
    case "theme" => "themes"
    case _ => target
  }

  lemma SourceKeyInjective(t1: string, t2: string)
    requires t1 in TargetKeys && t2 in TargetKeys && SourceKey(t1) == SourceKey(t2)
    ensures t1 == t2
  {
  }

  /** A configured filter value as a list (line 451: a lone string becomes a one-element list). */
  function AsList(v: Json): (values: seq<string>)
    requires IsStringOrStringList(v)
    ensures v.JStr? ==> values == [v.s]
    ensures v.JArr? ==> |values| == |v.items| && forall i :: 0 <= i < |values| ==> v.items[i] == JStr(values[i])
  {
    if v.JStr? then [v.s] else seq(|v.items|, i requires 0 <= i < |v.items| => v.items[i].s)
  }

  /**
   * The `filter_include` name a configuration key is stored under (lines
   * 449-468), or None for a key that is not a filter.
   */
  function FilterName(item: string): (r: Option<string>)
    ensures r.Some? ==> r.value in TargetKeys && SourceKey(r.value) == item
    ensures r.None? ==> forall t | t in TargetKeys :: SourceKey(t) != item
  {
    if item == "text" || item == "title" || item == "uuid" then Some(item)
    // 'datatypes', 'organizations' and 'themes' are stored as 'type', 'organization' and 'theme'
    else if item == "datatypes" then Some("type")
    else if item == "organizations" then Some("organization")
    else if item == "themes" then Some("theme")
    else None
  }

  /** The filters collected from the configuration keys in `done`. */
  function Collected(config: map<string, Json>, done: set<string>): map<string, seq<string>>
    requires ValidFields(config)
  {
    map t | t in TargetKeys && SourceKey(t) in config && SourceKey(t) in done :: AsList(config[SourceKey(t)])
  }

  /** The content of `filter_include` after line 471. */
  function FilterInclude(config: map<string, Json>): (fi: map<string, seq<string>>)
    requires ValidFields(config)
  {
    var collected := Collected(config, config.Keys);
    if "type" in collected then collected else collected["type" := ["dataset"]]
  }

  /**
   * `filter_include` holds, under its renamed key, the list of every filter
   * key present in the configuration (a lone string as a one-element list),
   * and 'type' defaults to ['dataset'].
   */
  lemma FilterIncludeContents(config: map<string, Json>)
    requires ValidFields(config)
    ensures FilterInclude(config).Keys <= TargetKeys && "type" in FilterInclude(config)
    ensures forall t | t in TargetKeys && SourceKey(t) in config ::
              t in FilterInclude(config) && FilterInclude(config)[t] == AsList(config[SourceKey(t)])
    ensures forall t | t in FilterInclude(config) && SourceKey(t) !in config ::
              t == "type" && FilterInclude(config)[t] == ["dataset"]
  {
  }

  /** Some iteration order of a set of keys. */
  ghost function Enumerate(keys: set<string>): (order: seq<string>)
    ensures IsEnumeration(order, keys)
    decreases keys
  {
    if keys == {} then []
    else
      var k :| k in keys;
      var rest := Enumerate(keys - {k});
      assert forall j :: 0 <= j < |rest| ==> rest[j] in keys - {k};
      [k] + rest
  }

  /** The list lengths, in the given key order. */
  function LensOf(fi: map<string, seq<string>>, order: seq<string>): (lens: seq<nat>)
    requires forall k | k in order :: k in fi
    ensures |lens| == |order|
    ensures forall j :: 0 <= j < |order| ==> lens[j] == |fi[order[j]]|
  {
    seq(|order|, j requires 0 <= j < |order| => |fi[order[j]]|)
  }

  lemma LensOfConcat(fi: map<string, seq<string>>, a: seq<string>, b: seq<string>)
    requires forall k | k in a + b :: k in fi
    ensures LensOf(fi, a + b) == LensOf(fi, a) + LensOf(fi, b)
  {
  }

  /** The product of the lengths of all filter lists. */
  ghost function FilterProduct(fi: map<string, seq<string>>): nat
  {
    Prod(LensOf(fi, Enumerate(fi.Keys)))
  }

  /** Removing one position of a sequence without repeats removes exactly that element. */
  lemma RemoveAt(b: seq<string>, i: nat)
    requires Distinct(b) && i < |b|
    ensures Distinct(b[..i] + b[i + 1..])
    ensures forall k :: k in b[..i] + b[i + 1..] <==> k in b && k != b[i]
  {
    var b' := b[..i] + b[i + 1..];
    assert forall j :: 0 <= j < |b'| ==> b'[j] == if j < i then b[j] else b[j + 1];
    forall k | k in b
      ensures k in b' || k == b[i]
    {
      var m :| 0 <= m < |b| && b[m] == k;
      if m < i {
        assert b'[m] == k;
      } else if m > i {
        assert b'[m - 1] == k;
      }
    }
  }

  /** Taking out one list divides the product by that list's length. */
  lemma ProdWithout(fi: map<string, seq<string>>, b: seq<string>, i: nat)
    requires i < |b| && forall k | k in b :: k in fi
    ensures Prod(LensOf(fi, b)) == |fi[b[i]]| * Prod(LensOf(fi, b[..i] + b[i + 1..]))
  {
    var lens := LensOf(fi, b);
    assert LensOf(fi, b[..i] + b[i + 1..]) == lens[..i] + lens[i + 1..];
    ProdRemove(lens, i);
  }

  /** The product of the list lengths does not depend on the order they are multiplied in. */
  lemma {:induction false} ProductAnyOrder(fi: map<string, seq<string>>, a: seq<string>, b: seq<string>)
    requires Distinct(a) && Distinct(b) && (forall k :: k in a <==> k in b)
    requires forall k | k in a :: k in fi
    ensures Prod(LensOf(fi, a)) == Prod(LensOf(fi, b))
    decreases |a|
  {
    if a != [] {
      var x := a[0];
      assert x in b;
      var i :| 0 <= i < |b| && b[i] == x;
      var a', b' := a[..0] + a[1..], b[..i] + b[i + 1..];
      RemoveAt(b, i);
      RemoveAt(a, 0);
      forall k
        ensures k in a' <==> k in b'
      {
        assert k in a' <==> k in a && k != x;
        assert k in b' <==> k in b && k != x;
        assert k in a <==> k in b;
      }
      ProductAnyOrder(fi, a', b');
      ProdWithout(fi, a, 0);
      ProdWithout(fi, b, i);
    }
  }

  /** Any two iteration orders of the same filters give the same product. */
  lemma ProductOfEnumerations(fi: map<string, seq<string>>, order: seq<string>)
    requires IsEnumeration(order, fi.Keys)
    ensures Prod(LensOf(fi, order)) == FilterProduct(fi)
  {
    ProductAnyOrder(fi, order, Enumerate(fi.Keys));
  }

  /** Adding a list under a new key extends the enumeration and multiplies the product by its length. */
  lemma InsertFilter(fi: map<string, seq<string>>, inserted: seq<string>, t: string, v: seq<string>)
    requires IsEnumeration(inserted, fi.Keys) && t !in fi
    ensures IsEnumeration(inserted + [t], fi[t := v].Keys)
    ensures Prod(LensOf(fi[t := v], inserted + [t])) == Prod(LensOf(fi, inserted)) * |v|
  {
    var fi' := fi[t := v];
    assert LensOf(fi', inserted) == LensOf(fi, inserted);
    LensOfConcat(fi', inserted, [t]);
    assert LensOf(fi', [t]) == [|v|];
    ProdAppend(LensOf(fi', inserted), [|v|]);
    assert Prod([|v|]) == |v| * Prod([]);
  }

  /** Processing one more configuration key adds at most the one filter it is the source of. */
  /** A configuration key that is not a filter leaves the collected filters alone. */
  lemma CollectedSkip(config: map<string, Json>, done: set<string>, item: string)
    requires ValidFields(config) && FilterName(item).None?
    ensures Collected(config, done + {item}) == Collected(config, done)
  {
    assert forall t | t in TargetKeys :: SourceKey(t) in done + {item} <==> SourceKey(t) in done;
  }

  /** A filter key adds its list under its `filter_include` name, which was not there yet. */
  lemma CollectedAdd(config: map<string, Json>, done: set<string>, item: string)
    requires ValidFields(config) && item in config && item !in done && FilterName(item).Some?
    ensures var t := FilterName(item).value;
            && t !in Collected(config, done)
            && Collected(config, done + {item}) == Collected(config, done)[t := AsList(config[item])]
  {
    var t := FilterName(item).value;
    forall u | u in TargetKeys
      ensures SourceKey(u) in done + {item} <==> SourceKey(u) in done || u == t
    {
      if SourceKey(u) == item {
        SourceKeyInjective(u, t);
      }
    }
  }

  /** One pass of the loop of lines 448-468 keeps the collected filters and their product in step. */
  lemma CollectStep(config: map<string, Json>, done: set<string>, item: string,
                    fi: map<string, seq<string>>, inserted: seq<string>, length: nat)
    requires ValidFields(config) && item in config && item !in done
    requires fi == Collected(config, done)
    requires IsEnumeration(inserted, fi.Keys) && length == Prod(LensOf(fi, inserted))
    ensures FilterName(item).None? ==> Collected(config, done + {item}) == fi
    ensures FilterName(item).Some? ==>
              var t, v := FilterName(item).value, AsList(config[item]);
              && Collected(config, done + {item}) == fi[t := v]
              && IsEnumeration(inserted + [t], fi[t := v].Keys)
              && length * |v| == Prod(LensOf(fi[t := v], inserted + [t]))
  {
    if FilterName(item).None? {
      CollectedSkip(config, done, item);
    } else {
      CollectedAdd(config, done, item);
      InsertFilter(fi, inserted, FilterName(item).value, AsList(config[item]));
    }
  }

  /** Lines 469-471: the default 'type' list has one entry, so the product is unchanged. */
  lemma DefaultTypeProduct(fi: map<string, seq<string>>)
    requires "type" !in fi
    ensures FilterProduct(fi["type" := ["dataset"]]) == FilterProduct(fi)
  {
    var order := Enumerate(fi.Keys);
    InsertFilter(fi, order, "type", ["dataset"]);
    ProductOfEnumerations(fi["type" := ["dataset"]], order + ["type"]);
  }

  /**
   * Lines 446-468: collects `filter_include` from the configuration and
   * multiplies the list lengths into `fq_terms_list_length`. A validated
   * configuration is what the harvest source stores.
   */
  method CollectFilters(config: map<string, Json>) returns (fi: map<string, seq<string>>, length: nat)
    requires ValidFields(config)
    ensures fi == Collected(config, config.Keys)
    ensures length == FilterProduct(fi)
  {
    fi := map[];
    length := 1;
    var remaining := config.Keys;
    ghost var done: set<string> := {};
    ghost var inserted: seq<string> := [];
    while remaining != {}
      invariant done + remaining == config.Keys && done !! remaining
      invariant fi == Collected(config, done)
      invariant IsEnumeration(inserted, fi.Keys)
      invariant length == Prod(LensOf(fi, inserted))
      decreases remaining
    {
      var filterItem :| filterItem in remaining;
      remaining := remaining - {filterItem};
      var target := FilterName(filterItem);
      CollectStep(config, done, filterItem, fi, inserted, length);
      done := done + {filterItem};
      if target.Some? {
        var t := target.value;
        var configItem := AsList(config[filterItem]);
        fi := fi[t := configItem];
        length := length * |fi[t]|;
        inserted := inserted + [t];
      }
    }
    assert done == config.Keys;
    ProductOfEnumerations(fi, inserted);
  }

  /** `get_item_from_list` (lines 436-441): the item at position `index` of an iteration, or None. */
  method GetItemFromList(items: seq<string>, index: nat) returns (r: Option<string>)
    ensures index < |items| ==> r == Some(items[index])
    ensures index >= |items| ==> r == None
  {
    var counter := 0;
    var k := 0;
    while k < |items|
      invariant k <= |items| && counter == k && k <= index
    {
      if counter == index {
        return Some(items[k]);
      }
      counter := counter + 1;
      k := k + 1;
    }
    return None;
  }

  /** The first `n` keys of search `i`, each with the value the counter picks for it. */
  function Partial(fi: map<string, seq<string>>, order: seq<string>, n: nat, i: nat): map<string, string>
    requires n <= |order| && (forall k | k in order :: k in fi)
    requires AllPositive(LensOf(fi, order))
  {
    map k | k in order[..n] :: fi[k][Digit(LensOf(fi, order), IndexOf(order, k), i)]
  }

  /**
   * Search number `i` of the built list: for the j-th key in iteration
   * order, the value at index `(i / P_j) % n_j` of its list, where `n_j` is
   * the list's length and `P_j` the product of the lengths before it.
   */
  function Combination(fi: map<string, seq<string>>, order: seq<string>, i: nat): map<string, string>
    requires IsEnumeration(order, fi.Keys)
    requires i < Prod(LensOf(fi, order))
  {
    ProdPositive(LensOf(fi, order));
    map k | k in fi :: fi[k][Digit(LensOf(fi, order), IndexOf(order, k), i)]
  }

  /**
   * `(search_counter, switchnum_counter)` after `search` steps of the inner
   * loop of lines 477-481: `search - 1` written as a quotient by
   * `switchnum_max` and a remainder counted from one.
   */
  function Counters(search: nat, switchnumMax: nat): (nat, nat)
    requires switchnumMax > 0
  {
    if search == 0 then (0, 0) else ((search - 1) / switchnumMax, (search - 1) % switchnumMax + 1)
  }

  /**
   * One step of the counters: `switchnum_counter` wraps to 1 after reaching
   * `switchnum_max`, carrying into `search_counter`, which is then the
   * quotient of the step's `search` by `switchnum_max`.
   */
  lemma CounterStep(search: nat, switchnumMax: nat)
    requires switchnumMax > 0
    ensures var (searchCounter, switchnumCounter) := Counters(search, switchnumMax);
            && Counters(search + 1, switchnumMax) ==
                 (if switchnumCounter == switchnumMax then (searchCounter + 1, 1)
                  else (searchCounter, switchnumCounter + 1))
            && Counters(search + 1, switchnumMax).0 == search / switchnumMax
  {
    var p := switchnumMax;
    if search > 0 {
      var (q, r) := Counters(search, p);
      assert search - 1 == q * p + (r - 1);
      if r == p {
        assert search == (q + 1) * p + 0;
        DivModUnique(search, q + 1, 0, p);
      } else {
        DivModUnique(search, q, r, p);
      }
    }
  }

  /** Adding key `n` to search `i` puts the value picked by digit `n` of `i` under it. */
  lemma PartialStep(fi: map<string, seq<string>>, order: seq<string>, n: nat, i: nat)
    requires n < |order| && (forall k | k in order :: k in fi) && Distinct(order)
    requires AllPositive(LensOf(fi, order))
    ensures Prod(LensOf(fi, order)[..n]) > 0
    ensures var k := order[n];
            Partial(fi, order, n + 1, i) ==
              Partial(fi, order, n, i)[k := fi[k][(i / Prod(LensOf(fi, order)[..n])) % |fi[k]|]]
  {
    ProdPositive(LensOf(fi, order)[..n]);
    var k := order[n];
    assert order[..n + 1] == order[..n] + [k];
    assert IndexOf(order, k) == n;
  }

  /**
   * The inner loop of lines 475-484: writes `filterItem` into every search
   * map, stepping `switchnum_counter` and `search_counter` so that search
   * `search` gets the value at index `search / switchnum_max` of `values`,
   * modulo its length.
   */
  method FillKey(terms: array<map<string, string>>, filterItem: string, values: seq<string>,
                 switchnumMax: nat)
    requires terms.Length > 0 ==> switchnumMax > 0 && |values| > 0
    modifies terms
    ensures forall i :: 0 <= i < terms.Length ==>
              terms[i] == old(terms[i])[filterItem := values[(i / switchnumMax) % |values|]]
  {
    var switchnumCounter := 0;
    var searchCounter := 0;
    for search := 0 to terms.Length
      invariant terms.Length > 0 ==> searchCounter == Counters(search, switchnumMax).0
      invariant terms.Length > 0 ==> switchnumCounter == Counters(search, switchnumMax).1
      invariant forall i :: 0 <= i < search ==>
                  terms[i] == old(terms[i])[filterItem := values[(i / switchnumMax) % |values|]]
      invariant forall i :: search <= i < terms.Length ==> terms[i] == old(terms[i])
    {
      CounterStep(search, switchnumMax);
      if switchnumCounter == switchnumMax {
        searchCounter := searchCounter + 1;
        switchnumCounter := 0;
      }
      switchnumCounter := switchnumCounter + 1;
      terms[search] := terms[search][filterItem := values[searchCounter % |values|]];
    }
  }

  /**
   * Lines 472-490: fills `fq_terms_list` in place, one key of
   * `filter_include` after another, multiplying `switchnum_max` by the
   * length of each list once its key is written.
   */
  method ExpandCombinations(fi: map<string, seq<string>>, order: seq<string>, length: nat)
    returns (fqTermsList: seq<map<string, string>>)
    requires IsEnumeration(order, fi.Keys)
    requires length == Prod(LensOf(fi, order))
    ensures |fqTermsList| == length
    ensures forall i :: 0 <= i < length ==> fqTermsList[i] == Combination(fi, order, i)
  {
    ghost var lens := LensOf(fi, order);
    ProdPositive(lens);
    var terms := new map<string, string>[length](_ => map[]);
    var switchnumMax := 1;
    var filterCounter := 0;
    for n := 0 to |order|
      invariant filterCounter == n
      invariant switchnumMax == Prod(lens[..n])
      invariant forall i :: 0 <= i < length ==> terms[i] == Partial(fi, order, n, i)
    {
      if length > 0 {
        ProdPositive(lens[..n]);
      }
      FillKey(terms, order[n], fi[order[n]], switchnumMax);
      forall i | 0 <= i < length
        ensures terms[i] == Partial(fi, order, n + 1, i)
      {
        PartialStep(fi, order, n, i);
      }
      var tempFilterItem := GetItemFromList(order, filterCounter);
      if tempFilterItem.Some? {
        switchnumMax := switchnumMax * |fi[tempFilterItem.value]|;
      }
      filterCounter := filterCounter + 1;
      ProdPrefixStep(lens, n);
    }
    fqTermsList := terms[..];
    forall i | 0 <= i < length
      ensures fqTermsList[i] == Combination(fi, order, i)
    {
      PartialIsCombination(fi, order, i);
    }
  }

  /** Lines 446-490 end to end, for a given iteration order of `filter_include`. */
  method BuildSearchCombinations(config: map<string, Json>, order: seq<string>)
    returns (fqTermsList: seq<map<string, string>>)
    requires ValidFields(config)
    requires IsEnumeration(order, FilterInclude(config).Keys)
    ensures |fqTermsList| == Prod(LensOf(FilterInclude(config), order))
    ensures forall i :: 0 <= i < |fqTermsList| ==> fqTermsList[i] == Combination(FilterInclude(config), order, i)
  {
    var filterInclude, length := CollectFilters(config);
    // 'type' defaults to 'dataset' (lines 469-471)
    if "type" !in filterInclude {
      DefaultTypeProduct(filterInclude);
      filterInclude := filterInclude["type" := ["dataset"]];
    }
    ProductOfEnumerations(filterInclude, order);
    fqTermsList := ExpandCombinations(filterInclude, order, length);
  }

  /**
   * The configuration keys and values the loop of line 448 meets in the
   * decoded configuration, or None when it raises TypeError. An object
   * yields its own fields. A string yields its characters, and a
   * one-character string names no filter. A list yields its items; one that
   * names a filter key raises at `self.config[filter_item]`, and otherwise
   * no filter is set. A number, a boolean or None cannot be iterated.
   */
  function ConfigFields(config: Json): (r: Option<map<string, Json>>)
    ensures config.JObj? ==> r == Some(config.fields)
    ensures config.JArr? ==>
              (r.None? <==> exists t | t in TargetKeys :: JStr(SourceKey(t)) in config.items)
    ensures config.JStr? ==> r == Some(map[])
    ensures config.JNum? || config.JBool? || config.JNull? ==> r.None?
    ensures r.Some? && !config.JObj? ==> r == Some(map[])
  {
    match config
    case JObj(fields) => Some(fields)
    case JStr(_) => Some(map[])
    case JArr(items) =>
      if exists t | t in TargetKeys :: JStr(SourceKey(t)) in items then None else Some(map[])
    case _ => None
  }

  /**
   * Lines 446-490 on the configuration document the harvester holds: None
   * when iterating it raises, otherwise the combinations of its filters.
   */
  method BuildSearchCombinationsOf(config: Json, order: seq<string>)
    returns (fqTermsList: Option<seq<map<string, string>>>)
    requires ConfigFields(config).Some? ==>
               && ValidFields(ConfigFields(config).value)
               && IsEnumeration(order, FilterInclude(ConfigFields(config).value).Keys)
    ensures fqTermsList.None? <==> ConfigFields(config).None?
    ensures fqTermsList.Some? ==>
              var fi := FilterInclude(ConfigFields(config).value);
              && |fqTermsList.value| == Prod(LensOf(fi, order))
              && forall i :: 0 <= i < |fqTermsList.value| ==> fqTermsList.value[i] == Combination(fi, order, i)
  {
    var fields := ConfigFields(config);
    if fields.None? {
      return None;
    }
    var combinations := BuildSearchCombinations(fields.value, order);
    fqTermsList := Some(combinations);
  }

  /**
   * A configuration that passes validation without being an object (a
   * string, or a list naming none of the checked keys) sets no filter, so
   * the harvest makes the single search for datasets.
   */
  lemma AcceptedNonObjectSearchesDatasets(text: string, doc: Json, order: seq<string>)
    requires ValidateConfig(text, Some(doc)).Accepted? && !doc.JObj?
    requires IsEnumeration(order, FilterInclude(map[]).Keys)
    ensures ConfigFields(doc) == Some(map[])
    ensures Prod(LensOf(FilterInclude(map[]), order)) == 1
    ensures Combination(FilterInclude(map[]), order, 0) == map["type" := "dataset"]
  {
    assert Passes(doc, Checks[0]);
    if doc.JArr? {
      ValidateList(text, doc.items);
      FilterSourcesChecked();
    }
    EmptyConfigSearchesDatasets(order);
  }

  /** Every key a filter is read from is validated as a string or a string list. */
  lemma FilterSourcesChecked()
    ensures forall t | t in TargetKeys :: StringOrList(SourceKey(t)) in Checks
  {
    assert Checks[0] == StringOrList(SourceKey("theme"));
    assert Checks[1] == StringOrList(SourceKey("organization"));
    assert Checks[2] == StringOrList(SourceKey("text"));
    assert Checks[3] == StringOrList(SourceKey("title"));
    assert Checks[4] == StringOrList(SourceKey("uuid"));
    assert Checks[5] == StringOrList(SourceKey("type"));
  }

  /** Once every key is written, search `i` is combination `i`. */
  lemma PartialIsCombination(fi: map<string, seq<string>>, order: seq<string>, i: nat)
    requires IsEnumeration(order, fi.Keys)
    requires i < Prod(LensOf(fi, order))
    ensures AllPositive(LensOf(fi, order))
    ensures Partial(fi, order, |order|, i) == Combination(fi, order, i)
  {
    ProdPositive(LensOf(fi, order));
    assert order[..|order|] == order;
  }

  /**
   * Search `i` sets every filter key, and the j-th key in iteration order
   * to the entry of its list at digit j of `i`.
   */
  lemma CombinationLookup(fi: map<string, seq<string>>, order: seq<string>, i: nat)
    requires IsEnumeration(order, fi.Keys)
    requires i < Prod(LensOf(fi, order))
    ensures AllPositive(LensOf(fi, order))
    ensures Combination(fi, order, i).Keys == fi.Keys
    ensures forall j :: 0 <= j < |order| ==>
              Combination(fi, order, i)[order[j]] == fi[order[j]][Digit(LensOf(fi, order), j, i)]
  {
    ProdPositive(LensOf(fi, order));
    forall j | 0 <= j < |order|
      ensures IndexOf(order, order[j]) == j
    {
    }
  }

  /** A search only ever uses values configured for its key. */
  lemma SearchUsesConfiguredValues(fi: map<string, seq<string>>, order: seq<string>, i: nat, k: string)
    requires IsEnumeration(order, fi.Keys)
    requires i < Prod(LensOf(fi, order))
    requires k in fi
    ensures k in Combination(fi, order, i) && Combination(fi, order, i)[k] in fi[k]
  {
    CombinationLookup(fi, order, i);
    var j :| 0 <= j < |order| && order[j] == k;
  }

  /** The position of a value in a list. */
  function IndexOf(s: seq<string>, x: string): (idx: nat)
    requires x in s
    ensures idx < |s| && s[idx] == x
  {
    if s[0] == x then 0 else 1 + IndexOf(s[1..], x)
  }

  /** A choice of one configured value per filter key. */
  ghost predicate IsChoice(fi: map<string, seq<string>>, c: map<string, string>)
  {
    c.Keys == fi.Keys && forall k | k in c :: c[k] in fi[k]
  }

  /** Combination `i` has the chosen value at key `order[j]` when digit j of `i` is its position. */
  lemma ChoiceKeyAtDigit(fi: map<string, seq<string>>, order: seq<string>, c: map<string, string>,
                         i: nat, j: nat)
    requires IsEnumeration(order, fi.Keys)
    requires IsChoice(fi, c)
    requires j < |order| && i < Prod(LensOf(fi, order))
    requires AllPositive(LensOf(fi, order))
    requires Digit(LensOf(fi, order), j, i) == IndexOf(fi[order[j]], c[order[j]])
    ensures order[j] in Combination(fi, order, i)
    ensures Combination(fi, order, i)[order[j]] == c[order[j]]
  {
    CombinationLookup(fi, order, i);
  }

  /** The search whose digits are the positions of a choice's values is that choice. */
  lemma ChoiceAtDigits(fi: map<string, seq<string>>, order: seq<string>, c: map<string, string>,
                       d: seq<nat>, i: nat)
    requires IsEnumeration(order, fi.Keys)
    requires IsChoice(fi, c)
    requires |d| == |order|
    requires forall j :: 0 <= j < |order| ==> d[j] == IndexOf(fi[order[j]], c[order[j]])
    requires i < Prod(LensOf(fi, order))
    requires AllPositive(LensOf(fi, order)) && Digits(LensOf(fi, order), i) == d
    ensures Combination(fi, order, i) == c
  {
    var m := Combination(fi, order, i);
    assert m.Keys == c.Keys;
    forall k | k in c
      ensures m[k] == c[k]
    {
      var j :| 0 <= j < |order| && order[j] == k;
      ChoiceKeyAtDigit(fi, order, c, i, j);
    }
  }

  /** Every combination of configured values is searched for. */
  lemma EveryChoiceSearched(fi: map<string, seq<string>>, order: seq<string>, c: map<string, string>)
    requires IsEnumeration(order, fi.Keys)
    requires IsChoice(fi, c)
    ensures exists i :: 0 <= i < Prod(LensOf(fi, order)) && Combination(fi, order, i) == c
  {
    var lens := LensOf(fi, order);
    var d := seq(|order|, j requires 0 <= j < |order| => IndexOf(fi[order[j]], c[order[j]]));
    assert InRange(lens, d);
    DigitsSurjective(lens, d);
    var i :| 0 <= i < Prod(lens) && Digits(lens, i) == d;
    ChoiceAtDigits(fi, order, c, d, i);
  }

  /** In a list without repeats, equal values sit at equal positions. */
  lemma DistinctPosition(s: seq<string>, a: nat, b: nat)
    requires Distinct(s) && a < |s| && b < |s| && s[a] == s[b]
    ensures a == b
  {
  }

  /** Two searches that agree on a key whose list has no repeats share that key's digit. */
  lemma SameValueSameDigit(fi: map<string, seq<string>>, order: seq<string>, i1: nat, i2: nat, j: nat)
    requires IsEnumeration(order, fi.Keys)
    requires j < |order| && Distinct(fi[order[j]])
    requires i1 < Prod(LensOf(fi, order)) && i2 < Prod(LensOf(fi, order))
    requires Combination(fi, order, i1)[order[j]] == Combination(fi, order, i2)[order[j]]
    ensures AllPositive(LensOf(fi, order))
    ensures Digit(LensOf(fi, order), j, i1) == Digit(LensOf(fi, order), j, i2)
  {
    var lens := LensOf(fi, order);
    CombinationLookup(fi, order, i1);
    CombinationLookup(fi, order, i2);
    DistinctPosition(fi[order[j]], Digit(lens, j, i1), Digit(lens, j, i2));
  }

  /** Lists without repeated values give pairwise different searches. */
  lemma SearchesDistinct(fi: map<string, seq<string>>, order: seq<string>, i1: nat, i2: nat)
    requires IsEnumeration(order, fi.Keys)
    requires forall k | k in fi :: Distinct(fi[k])
    requires i1 < Prod(LensOf(fi, order)) && i2 < Prod(LensOf(fi, order))
    requires Combination(fi, order, i1) == Combination(fi, order, i2)
    ensures i1 == i2
  {
    var lens := LensOf(fi, order);
    ProdPositive(lens);
    forall j | 0 <= j < |order|
      ensures Digits(lens, i1)[j] == Digits(lens, i2)[j]
    {
      SameValueSameDigit(fi, order, i1, i2, j);
    }
    DigitsInjective(lens, i1, i2);
  }

  /** With no filter configured, `filter_include` holds only the default type. */
  lemma EmptyConfigFilters()
    ensures FilterInclude(map[]) == map["type" := ["dataset"]]
  {
    assert Collected(map[], {}) == map[];
  }

  lemma DistinctHead(s: seq<string>)
    requires Distinct(s)
    ensures |s| <= 1 || s[0] != s[1]
  {
  }

  /** An enumeration of a single key is that key alone. */
  lemma OnlyKey(order: seq<string>, k: string)
    requires IsEnumeration(order, {k})
    ensures order == [k]
  {
    assert k in order;
    forall i | 0 <= i < |order|
      ensures order[i] == k
    {
      assert order[i] in order;
    }
    DistinctHead(order);
  }

  /** With only the default type in `filter_include`, exactly one search is made: for datasets. */
  lemma DefaultOnlySearch(order: seq<string>)
    requires IsEnumeration(order, {"type"})
    ensures var fi := map["type" := ["dataset"]];
            && Prod(LensOf(fi, order)) == 1
            && Combination(fi, order, 0) == map["type" := "dataset"]
  {
    var fi := map["type" := ["dataset"]];
    OnlyKey(order, "type");
    assert LensOf(fi, order) == [1];
    assert Prod([1]) == 1 * Prod([]);
    CombinationLookup(fi, order, 0);
    assert Digit(LensOf(fi, order), 0, 0) == 0;
  }

  /** With no filter configured, exactly one search is made: for datasets. */
  lemma EmptyConfigSearchesDatasets(order: seq<string>)
    requires IsEnumeration(order, FilterInclude(map[]).Keys)
    ensures Prod(LensOf(FilterInclude(map[]), order)) == 1
    ensures Combination(FilterInclude(map[]), order, 0) == map["type" := "dataset"]
  {
    EmptyConfigFilters();
    assert FilterInclude(map[]).Keys == {"type"};
    DefaultOnlySearch(order);
  }
}
