/**
 * `GeonorgeHarvester._search_for_datasets` (geonorgeharvester.py:215-282):
 * one search of the Geonorge catalogue for one map of search terms, paging
 * through the results until the first empty page.
 *
 * The request parameters are kept as the dict the source builds (`params`);
 * the URL text that `urllib.urlencode` and the `&` joining make of them is
 * represented by the list of key/value pairs in the order they are written.
 */
module PagedSearch {
  import opened JsonValues
  import opened Remote

  /** `_get_search_api_offset` (lines 37-38). */
  const SearchApiOffset: string := "/api/search/"

  /** The first `offset` and the page size `limit` (lines 227-228). */
  const FirstOffset: nat := 1
  const Limit: nat := 10

  /** `offset` on page `n` (0-based). */
  function Offset(n: nat): nat
  {
    FirstOffset + Limit * n
  }

  /** A value in `params`: one of the paging integers, or a search term. */
  datatype Param = PInt(n: int) | PStr(s: string)

  /** `"%s" % value` (lines 237 and 247). */
  function Render(p: Param): string
  {
    match p
    case PInt(n) => IntToString(n)
    case PStr(s) => s
  }

  /** The parameter names of facet number `c` (lines 236-237). */
  function FacetName(c: nat): string
  {
    "facets[" + Decimal(c) + "]name"
  }

  function FacetValue(c: nat): string
  {
    "facets[" + Decimal(c) + "]value"
  }

  lemma FacetLayout(c: nat)
    ensures |FacetName(c)| == 12 + |Decimal(c)| && |FacetValue(c)| == 13 + |Decimal(c)|
    ensures FacetName(c)[0] == 'f' && FacetValue(c)[0] == 'f'
    ensures FacetName(c)[7..7 + |Decimal(c)|] == Decimal(c)
    ensures FacetValue(c)[7..7 + |Decimal(c)|] == Decimal(c)
    ensures FacetValue(c)[7 + |Decimal(c)|] == ']'
  {
  }

  /** Facet parameter names never collide: each names one facet, and a name is never a value. */
  lemma FacetKeysDistinct(c1: nat, c2: nat)
    ensures FacetName(c1) == FacetName(c2) ==> c1 == c2
    ensures FacetValue(c1) == FacetValue(c2) ==> c1 == c2
    ensures FacetName(c1) != FacetValue(c2)
  {
    FacetLayout(c1);
    FacetLayout(c2);
    var d1, d2 := Decimal(c1), Decimal(c2);
    if FacetName(c1) == FacetName(c2) || FacetValue(c1) == FacetValue(c2) {
      assert |d1| == |d2|;
      DecimalInjective(c1, c2);
    }
    if |d1| == |d2| + 1 {
      assert FacetName(c1)[7 + |d2|] == d1[|d2|];
      assert IsDigit(d1[|d2|]);
    }
  }

  /** The terms that become facets: all but `text`, in iteration order. */
  function NonText(order: seq<string>): (nt: seq<string>)
    ensures forall k :: k in nt <==> k in order && k != "text"
  {
    if order == [] then []
    else
      var last := order[|order| - 1];
      NonText(order[..|order| - 1]) + (if last == "text" then [] else [last])
  }

  /** When the terms are distinct (a dict's keys), so are the facets. */
  lemma {:induction false} NonTextDistinct(order: seq<string>)
    requires Distinct(order)
    ensures Distinct(NonText(order))
  {
    if order != [] {
      var init, last := order[..|order| - 1], order[|order| - 1];
      assert Distinct(init);
      NonTextDistinct(init);
      assert order == init + [last];
      assert last !in init;
    }
  }

  /** The facet parameters for the terms `nt`, numbered from 0 in their order. */
  function Facets(fqTerms: map<string, string>, nt: seq<string>): map<string, Param>
    requires forall k | k in nt :: k in fqTerms
  {
    if nt == [] then map[]
    else
      var c := |nt| - 1;
      Facets(fqTerms, nt[..c])[FacetName(c) := PStr(nt[c])][FacetValue(c) := PStr(fqTerms[nt[c]])]
  }

  /** Facet `c` names the c-th term and carries that term's value. */
  lemma {:induction false} FacetsLookup(fqTerms: map<string, string>, nt: seq<string>, c: nat)
    requires forall k | k in nt :: k in fqTerms
    requires c < |nt|
    ensures FacetName(c) in Facets(fqTerms, nt) && Facets(fqTerms, nt)[FacetName(c)] == PStr(nt[c])
    ensures FacetValue(c) in Facets(fqTerms, nt) && Facets(fqTerms, nt)[FacetValue(c)] == PStr(fqTerms[nt[c]])
  {
    var last := |nt| - 1;
    FacetKeysDistinct(c, last);
    FacetKeysDistinct(last, c);
    if c < last {
      FacetsLookup(fqTerms, nt[..last], c);
    }
  }

  /** Only facet parameters of numbers below `|nt|` are set. */
  lemma {:induction false} FacetsKeys(fqTerms: map<string, string>, nt: seq<string>)
    requires forall k | k in nt :: k in fqTerms
    ensures forall key | key in Facets(fqTerms, nt) ::
              exists c :: 0 <= c < |nt| && (key == FacetName(c) || key == FacetValue(c))
    ensures forall key | key in Facets(fqTerms, nt) :: key != [] && key[0] == 'f'
  {
    if nt != [] {
      var last := |nt| - 1;
      FacetsKeys(fqTerms, nt[..last]);
      FacetLayout(last);
    }
  }

  /** The paging parameters, and `text` when it is one of the terms. */
  function Plain(fqTerms: map<string, string>, order: seq<string>): map<string, Param>
    requires forall k | k in order :: k in fqTerms
  {
    var paging := map["offset" := PInt(FirstOffset), "limit" := PInt(Limit)];
    if "text" in order then paging["text" := PStr(fqTerms["text"])] else paging
  }

  /** The `params` dict of lines 227-238 for the terms iterated in `order`. */
  function SearchParams(fqTerms: map<string, string>, order: seq<string>): map<string, Param>
    requires forall k | k in order :: k in fqTerms
  {
    Plain(fqTerms, order) + Facets(fqTerms, NonText(order))
  }

  /**
   * Paging starts at offset 1 with 10 results a page, and the `text` term,
   * when there is one, is passed as a plain `text` parameter.
   */
  lemma SearchParamsPlain(fqTerms: map<string, string>, order: seq<string>)
    requires forall k | k in order :: k in fqTerms
    ensures "offset" in SearchParams(fqTerms, order) && SearchParams(fqTerms, order)["offset"] == PInt(FirstOffset)
    ensures "limit" in SearchParams(fqTerms, order) && SearchParams(fqTerms, order)["limit"] == PInt(Limit)
    ensures "text" in SearchParams(fqTerms, order) <==> "text" in order
    ensures "text" in order ==> SearchParams(fqTerms, order)["text"] == PStr(fqTerms["text"])
  {
    FacetsKeys(fqTerms, NonText(order));
  }

  /**
   * Term number `c` other than `text` is passed as the facet pair
   * `facets[c]name`/`facets[c]value`, `c` counting from 0 and skipping `text`.
   */
  lemma SearchParamsFacet(fqTerms: map<string, string>, order: seq<string>, c: nat)
    requires forall k | k in order :: k in fqTerms
    requires c < |NonText(order)|
    ensures FacetName(c) in SearchParams(fqTerms, order)
    ensures SearchParams(fqTerms, order)[FacetName(c)] == PStr(NonText(order)[c])
    ensures FacetValue(c) in SearchParams(fqTerms, order)
    ensures SearchParams(fqTerms, order)[FacetValue(c)] == PStr(fqTerms[NonText(order)[c]])
  {
    FacetsLookup(fqTerms, NonText(order), c);
  }

  /** No parameter is passed besides paging, `text` and the facet pairs. */
  lemma SearchParamsKeys(fqTerms: map<string, string>, order: seq<string>)
    requires forall k | k in order :: k in fqTerms
    ensures forall key | key in SearchParams(fqTerms, order) ::
              || key in {"offset", "limit", "text"}
              || exists c :: 0 <= c < |NonText(order)| && (key == FacetName(c) || key == FacetValue(c))
  {
    FacetsKeys(fqTerms, NonText(order));
  }

  lemma UnionUpdateRight(w: map<string, Param>, f: map<string, Param>, a: string, x: Param)
    ensures w + f[a := x] == (w + f)[a := x]
  {
  }

  lemma UnionUpdateLeft(w: map<string, Param>, f: map<string, Param>, a: string, x: Param)
    requires a !in f
    ensures w[a := x] + f == (w + f)[a := x]
  {
  }

  /** One pass of the loop of lines 232-238 for the term `text`. */
  lemma ParamsStepText(fqTerms: map<string, string>, order: seq<string>, i: nat)
    requires forall k | k in order :: k in fqTerms
    requires i < |order| && order[i] == "text"
    ensures SearchParams(fqTerms, order[..i + 1])
            == SearchParams(fqTerms, order[..i])["text" := PStr(fqTerms["text"])]
  {
    var pre, post := order[..i], order[..i + 1];
    assert post[..i] == pre;
    assert NonText(post) == NonText(pre);
    var f := Facets(fqTerms, NonText(pre));
    FacetsKeys(fqTerms, NonText(pre));
    assert Plain(fqTerms, post) == Plain(fqTerms, pre)["text" := PStr(fqTerms["text"])];
    UnionUpdateLeft(Plain(fqTerms, pre), f, "text", PStr(fqTerms["text"]));
  }

  /** One pass of the loop of lines 232-238 for a term other than `text`. */
  lemma ParamsStepFacet(fqTerms: map<string, string>, order: seq<string>, i: nat)
    requires forall k | k in order :: k in fqTerms
    requires i < |order| && order[i] != "text"
    ensures var c := |NonText(order[..i])|;
            SearchParams(fqTerms, order[..i + 1])
            == SearchParams(fqTerms, order[..i])[FacetName(c) := PStr(order[i])][FacetValue(c) := PStr(fqTerms[order[i]])]
  {
    var pre, post := order[..i], order[..i + 1];
    assert post[..i] == pre;
    var nt := NonText(pre);
    var c := |nt|;
    assert NonText(post) == nt + [order[i]];
    assert (nt + [order[i]])[..c] == nt;
    var f := Facets(fqTerms, nt);
    var w := Plain(fqTerms, pre);
    assert Plain(fqTerms, post) == w;
    assert Facets(fqTerms, NonText(post)) == f[FacetName(c) := PStr(order[i])][FacetValue(c) := PStr(fqTerms[order[i]])];
    UnionUpdateRight(w, f[FacetName(c) := PStr(order[i])], FacetValue(c), PStr(fqTerms[order[i]]));
    UnionUpdateRight(w, f, FacetName(c), PStr(order[i]));
  }

  /** Lines 227-238: builds `params` from the search terms, iterated in `order`. */
  method BuildParams(fqTerms: map<string, string>, order: seq<string>) returns (params: map<string, Param>)
    requires forall k | k in order :: k in fqTerms
    ensures params == SearchParams(fqTerms, order)
  {
    params := map["offset" := PInt(FirstOffset), "limit" := PInt(Limit)];
    var fqTermCounter := 0;
    for i := 0 to |order|
      invariant fqTermCounter == |NonText(order[..i])|
      invariant params == SearchParams(fqTerms, order[..i])
    {
      var fqTerm := order[i];
      assert order[..i + 1][..i] == order[..i];
      if fqTerm == "text" {
        ParamsStepText(fqTerms, order, i);
        params := params["text" := PStr(fqTerms["text"])];
        continue;
      }
      ParamsStepFacet(fqTerms, order, i);
      params := params[FacetName(fqTermCounter) := PStr(fqTerm)];
      params := params[FacetValue(fqTermCounter) := PStr(fqTerms[fqTerm])];
      fqTermCounter := fqTermCounter + 1;
    }
    assert order[..|order|] == order;
  }

  /** Every key is ordered strictly before the keys after it. */
  predicate StrictlySorted(s: seq<string>)
  {
    forall i, j :: 0 <= i < j < |s| ==> LexLess(s[i], s[j])
  }

  predicate IsLeast(x: string, keys: set<string>)
  {
    x in keys && forall k | k in keys :: !LexLess(k, x)
  }

  lemma {:induction false} LeastExists(keys: set<string>)
    requires keys != {}
    ensures exists x :: IsLeast(x, keys)
    decreases |keys|
  {
    var y :| y in keys;
    LexIrreflexive(y);
    if keys != {y} {
      var rest := keys - {y};
      LeastExists(rest);
      var m :| IsLeast(m, rest);
      if LexLess(y, m) {
        forall k | k in keys
          ensures !LexLess(k, y)
        {
          if k != y && LexLess(k, y) {
            LexTransitive(k, y, m);
          }
        }
        assert IsLeast(y, keys);
      } else {
        assert IsLeast(m, keys);
      }
    } else {
      assert IsLeast(y, keys);
    }
  }

  lemma LeastUnique(keys: set<string>)
    ensures forall x, y | IsLeast(x, keys) && IsLeast(y, keys) :: x == y
  {
    forall x, y | IsLeast(x, keys) && IsLeast(y, keys)
      ensures x == y
    {
      if x != y {
        LexTotal(x, y);
      }
    }
  }

  lemma LeastBelowOthers(x: string, keys: set<string>)
    requires IsLeast(x, keys)
    ensures forall k | k in keys && k != x :: LexLess(x, k)
  {
    forall k | k in keys && k != x
      ensures LexLess(x, k)
    {
      LexTotal(x, k);
    }
  }

  lemma ConsSorted(x: string, rest: seq<string>)
    requires StrictlySorted(rest)
    requires forall k | k in rest :: LexLess(x, k)
    ensures StrictlySorted([x] + rest)
  {
    var s := [x] + rest;
    forall i, j | 0 <= i < j < |s|
      ensures LexLess(s[i], s[j])
    {
      assert s[j] == rest[j - 1];
      if i > 0 {
        assert s[i] == rest[i - 1];
      }
    }
  }

  /** `sorted(keys)`: the keys in ascending order, each once. */
  function Sorted(keys: set<string>): (s: seq<string>)
    ensures StrictlySorted(s)
    ensures forall k :: k in s <==> k in keys
    decreases |keys|
  {
    if keys == {} then []
    else
      LeastExists(keys);
      LeastUnique(keys);
      var x :| x in keys && IsLeast(x, keys);
      LeastBelowOthers(x, keys);
      var rest := Sorted(keys - {x});
      ConsSorted(x, rest);
      [x] + rest
  }

  lemma TailMember(a: seq<string>, b: seq<string>, k: string)
    requires StrictlySorted(a) && StrictlySorted(b)
    requires a != [] && b != [] && a[0] == b[0]
    requires forall x :: x in a <==> x in b
    requires k in a[1..]
    ensures k in b[1..]
  {
    var i :| 1 <= i < |a| && a[i] == k;
    assert LexLess(a[0], a[i]);
    LexIrreflexive(a[0]);
    assert k in b;
    var j :| 0 <= j < |b| && b[j] == k;
    assert j != 0;
    assert b[1..][j - 1] == k;
  }

  lemma NonEmptyAlike(a: seq<string>, b: seq<string>)
    requires forall k :: k in a <==> k in b
    ensures a != [] ==> b != []
  {
    if a != [] {
      assert a[0] in a;
    }
  }

  /** There is only one ascending listing of a set of keys, whatever order the dict had. */
  lemma {:induction false} SortedUnique(a: seq<string>, b: seq<string>)
    requires StrictlySorted(a) && StrictlySorted(b)
    requires forall k :: k in a <==> k in b
    ensures a == b
  {
    NonEmptyAlike(a, b);
    NonEmptyAlike(b, a);
    if a != [] && b != [] {
      assert a[0] in b && b[0] in a;
      if a[0] != b[0] {
        var i :| 0 <= i < |b| && b[i] == a[0];
        var j :| 0 <= j < |a| && a[j] == b[0];
        LexAsymmetric(a[0], a[j]);
      }
      forall k
        ensures k in a[1..] <==> k in b[1..]
      {
        if k in a[1..] {
          TailMember(a, b, k);
        }
        if k in b[1..] {
          TailMember(b, a, k);
        }
      }
      SortedUnique(a[1..], b[1..]);
      assert a == [a[0]] + a[1..] && b == [b[0]] + b[1..];
    }
  }

  /** The URL parameters of lines 246-247: each key in `keys` order with its value. */
  function QueryOf(params: map<string, Param>, keys: seq<string>): (q: seq<(string, string)>)
    requires forall k | k in keys :: k in params
  {
    seq(|keys|, i requires 0 <= i < |keys| => (keys[i], Render(params[keys[i]])))
  }

  /** `params` on page `n`, after line 280 has run `n` times. */
  function PageParams(fqTerms: map<string, string>, order: seq<string>, n: nat): map<string, Param>
    requires forall k | k in order :: k in fqTerms
  {
    SearchParams(fqTerms, order)["offset" := PInt(Offset(n))]
  }

  lemma UpdateSame(m: map<string, Param>, k: string)
    requires k in m
    ensures m[k := m[k]] == m
  {
  }

  lemma UpdateTwice(m: map<string, Param>, k: string, a: Param, b: Param)
    ensures m[k := a][k := b] == m[k := b]
  {
  }

  /** Paging only changes the value of `offset`. */
  lemma PageParamsKeys(fqTerms: map<string, string>, order: seq<string>, n: nat)
    requires forall k | k in order :: k in fqTerms
    ensures PageParams(fqTerms, order, n).Keys == SearchParams(fqTerms, order).Keys
    ensures PageParams(fqTerms, order, n)["offset"] == PInt(Offset(n))
    ensures "limit" in PageParams(fqTerms, order, n) && PageParams(fqTerms, order, n)["limit"] == PInt(Limit)
  {
    SearchParamsPlain(fqTerms, order);
  }

  /**
   * The pages of one search: the remote, the search URL, `params` as built
   * for the first page, and its keys in the order they are written.
   */
  datatype Pager = Pager(remote: Request -> Response, url: string,
                         params: map<string, Param>, keys: seq<string>)

  predicate ValidPager(p: Pager)
  {
    forall k | k in p.keys :: k in p.params
  }

  /** The pages of `_search_for_datasets(baseUrl, fqTerms)`, the terms iterated in `order`. */
  function PagerOf(remote: Request -> Response, baseUrl: string,
                   fqTerms: map<string, string>, order: seq<string>): (p: Pager)
    requires forall k | k in order :: k in fqTerms
    ensures ValidPager(p)
  {
    var params := SearchParams(fqTerms, order);
    Pager(remote, baseUrl + SearchApiOffset, params, Sorted(params.Keys))
  }

  /** The request of page `n` (lines 244-248). */
  function RequestAt(p: Pager, n: nat): Request
    requires ValidPager(p)
  {
    Request(p.url, QueryOf(p.params["offset" := PInt(Offset(n))], p.keys))
  }

  /** The query lists every parameter once, with its value, in ascending key order. */
  lemma QueryListsParams(params: map<string, Param>)
    ensures var q := QueryOf(params, Sorted(params.Keys));
            && (forall i, j :: 0 <= i < j < |q| ==> LexLess(q[i].0, q[j].0))
            && (forall i :: 0 <= i < |q| ==> q[i].0 in params && q[i].1 == Render(params[q[i].0]))
            && (forall k | k in params :: (k, Render(params[k])) in q)
  {
    var keys := Sorted(params.Keys);
    var q := QueryOf(params, keys);
    forall k | k in params
      ensures (k, Render(params[k])) in q
    {
      var i :| 0 <= i < |keys| && keys[i] == k;
      assert q[i] == (k, Render(params[k]));
    }
  }

  /**
   * The query of page `n` is in ascending key order, with `offset` at
   * 1 + 10n and `limit` at 10.
   */
  lemma PageQuery(remote: Request -> Response, baseUrl: string,
                  fqTerms: map<string, string>, order: seq<string>, n: nat)
    requires forall k | k in order :: k in fqTerms
    ensures var q := RequestAt(PagerOf(remote, baseUrl, fqTerms, order), n).query;
            && (forall i, j :: 0 <= i < j < |q| ==> LexLess(q[i].0, q[j].0))
            && ("offset", Decimal(Offset(n))) in q
            && ("limit", Decimal(Limit)) in q
  {
    var params := PageParams(fqTerms, order, n);
    PageParamsKeys(fqTerms, order, n);
    QueryListsParams(params);
  }

  lemma DecimalAscii(n: nat)
    ensures IsAscii(Decimal(n))
  {
  }

  lemma FacetKeysAscii(c: nat)
    ensures IsAscii(FacetName(c)) && IsAscii(FacetValue(c))
  {
    DecimalAscii(c);
    assert IsAscii("facets[") && IsAscii("]name") && IsAscii("]value");
  }

  /** A parameter of page `n` is written in ASCII when the search terms are. */
  lemma ParamAscii(fqTerms: map<string, string>, order: seq<string>, n: nat, key: string)
    requires forall k | k in order :: k in fqTerms && IsAscii(k) && IsAscii(fqTerms[k])
    requires key in PageParams(fqTerms, order, n)
    ensures IsAscii(key) && IsAscii(Render(PageParams(fqTerms, order, n)[key]))
  {
    var params := SearchParams(fqTerms, order);
    SearchParamsKeys(fqTerms, order);
    SearchParamsPlain(fqTerms, order);
    assert key in params;
    if key == "offset" {
      DecimalAscii(Offset(n));
      assert IsAscii("offset");
    } else if key == "limit" {
      DecimalAscii(Limit);
      assert IsAscii("limit");
    } else if key == "text" {
      assert IsAscii("text");
    } else {
      var c :| 0 <= c < |NonText(order)| && (key == FacetName(c) || key == FacetValue(c));
      SearchParamsFacet(fqTerms, order, c);
      FacetKeysAscii(c);
      assert NonText(order)[c] in NonText(order);
    }
  }

  /**
   * When every search term and its value are ASCII, every page's query can
   * be written and the page is what the catalogue answers.
   */
  lemma AsciiTermsReachRemote(remote: Request -> Response, baseUrl: string,
                              fqTerms: map<string, string>, order: seq<string>, n: nat)
    requires forall k | k in order :: k in fqTerms && IsAscii(k) && IsAscii(fqTerms[k])
    ensures var p := PagerOf(remote, baseUrl, fqTerms, order);
            PageAt(p, n) == PageOf(remote(RequestAt(p, n)))
  {
    var p := PagerOf(remote, baseUrl, fqTerms, order);
    var params := PageParams(fqTerms, order, n);
    PageParamsKeys(fqTerms, order, n);
    QueryListsParams(params);
    var q := RequestAt(p, n).query;
    assert q == QueryOf(params, Sorted(params.Keys));
    forall i | 0 <= i < |q|
      ensures IsAscii(q[i].0) && IsAscii(q[i].1)
    {
      ParamAscii(fqTerms, order, n, q[i].0);
    }
  }

  /** Every search term's value is the value of some parameter of page `n`. */
  lemma TermValueParam(fqTerms: map<string, string>, order: seq<string>, n: nat, k: string)
      returns (key: string)
    requires forall k | k in order :: k in fqTerms
    requires k in order
    ensures key in PageParams(fqTerms, order, n)
    ensures PageParams(fqTerms, order, n)[key] == PStr(fqTerms[k])
  {
    SearchParamsPlain(fqTerms, order);
    if k == "text" {
      key := "text";
    } else {
      assert k in NonText(order);
      var c :| 0 <= c < |NonText(order)| && NonText(order)[c] == k;
      SearchParamsFacet(fqTerms, order, c);
      FacetLayout(c);
      key := FacetValue(c);
    }
  }

  /**
   * A search term whose value holds a character outside ASCII crashes the
   * search while the first URL is written, before any request is made.
   */
  lemma NonAsciiTermCrashes(remote: Request -> Response, baseUrl: string,
                            fqTerms: map<string, string>, order: seq<string>, k: string)
    requires forall k | k in order :: k in fqTerms
    requires k in order && !IsAscii(fqTerms[k])
    ensures var p := PagerOf(remote, baseUrl, fqTerms, order);
            && PageAt(p, 0) == Crash
            && IsFirstEnd(p, 0) && ResultAt(p, 0) == Crashed
  {
    var p := PagerOf(remote, baseUrl, fqTerms, order);
    var params := PageParams(fqTerms, order, 0);
    var key := TermValueParam(fqTerms, order, 0, k);
    PageParamsKeys(fqTerms, order, 0);
    QueryListsParams(params);
    var q := RequestAt(p, 0).query;
    assert q == QueryOf(params, Sorted(params.Keys));
    assert (key, fqTerms[k]) in q;
  }

  /** What one page of results yields (lines 250-277). */
  datatype Page = Failure | Crash | Items(items: seq<Json>)

  /**
   * The fetch of lines 250-256, `json.loads` of 258-263, and the
   * `response_dict.get('Results', [])` and `extend` of 265-272.
   */
  function PageOf(response: Response): Page
  {
    match response
    case FetchError => Failure
    case NoContent => Crash
    case NotJson => Failure
    case Body(doc) =>
      if !doc.JObj? then Crash
      else
        match Get(doc.fields, "Results")
        case None => Items([])
        case Some(JArr(xs)) => Items(xs)
        case Some(JStr(text)) => Items(Chars(text))
        case Some(_) => Crash
  }

  /**
   * SearchError is raised exactly when the fetch fails or the content is not
   * JSON; a response with no `Results` field is an empty page.
   */
  lemma PageErrors(response: Response)
    ensures PageOf(response) == Failure <==> response.FetchError? || response.NotJson?
    ensures response.Body? && response.doc.JObj? && "Results" !in response.doc.fields ==>
              PageOf(response) == Items([])
    ensures response.Body? && response.doc.JObj? && "Results" in response.doc.fields
            && response.doc.fields["Results"].JArr? ==>
              PageOf(response) == Items(response.doc.fields["Results"].items)
  {
  }

  /** Whether the loop stops at this page: on an error, or on an empty page (line 276). */
  predicate Ends(p: Page)
  {
    !p.Items? || p.items == []
  }

  /** `str()` of a unicode string succeeds only when every character is ASCII. */
  predicate IsAscii(s: string)
  {
    forall i | 0 <= i < |s| :: s[i] as int < 128
  }

  /**
   * Whether `urllib.urlencode` can write the query. Python 2 applies `str()`
   * to every key and value (line 247), and the search terms decoded from
   * the configuration are unicode, so a character outside ASCII raises
   * UnicodeEncodeError before the request is sent.
   */
  predicate Encodable(q: seq<(string, string)>)
  {
    forall i | 0 <= i < |q| :: IsAscii(q[i].0) && IsAscii(q[i].1)
  }

  /** What page `n` yields: a crash while writing its URL, or the catalogue's answer. */
  function PageAt(p: Pager, n: nat): Page
    requires ValidPager(p)
  {
    var request := RequestAt(p, n);
    if !Encodable(request.query) then Crash else PageOf(p.remote(request))
  }

  ghost predicate IsFirstEnd(p: Pager, m: nat)
    requires ValidPager(p)
  {
    Ends(PageAt(p, m)) && forall j | 0 <= j < m :: !Ends(PageAt(p, j))
  }

  /** The results of pages 0 to m - 1, in page order. */
  ghost function Gathered(p: Pager, m: nat): seq<Json>
    requires ValidPager(p)
    requires forall j | 0 <= j < m :: !Ends(PageAt(p, j))
  {
    if m == 0 then []
    else
      assert !Ends(PageAt(p, m - 1));
      Gathered(p, m - 1) + PageAt(p, m - 1).items
  }

  lemma GatheredStep(p: Pager, n: nat)
    requires ValidPager(p)
    requires forall j | 0 <= j < n + 1 :: !Ends(PageAt(p, j))
    ensures Gathered(p, n + 1) == Gathered(p, n) + PageAt(p, n).items
  {
  }

  /** What the search returns when page `m` is the first one it stops at. */
  ghost function ResultAt(p: Pager, m: nat): Outcome<seq<Json>>
    requires ValidPager(p) && IsFirstEnd(p, m)
  {
    match PageAt(p, m)
    case Failure => SearchFailed
    case Crash => Crashed
    case Items(_) => Done(Gathered(p, m))
  }

  /**
   * Lines 215-247: the search URL, the parameters and their written order,
   * then the paging loop.
   */
  method SearchForDatasets(remote: Request -> Response, baseUrl: string,
                           fqTerms: map<string, string>, order: seq<string>)
      returns (outcome: Outcome<seq<Json>>)
    requires IsEnumeration(order, fqTerms.Keys)
    requires exists n: nat :: Ends(PageAt(PagerOf(remote, baseUrl, fqTerms, order), n))
    ensures exists m: nat :: IsFirstEnd(PagerOf(remote, baseUrl, fqTerms, order), m)
              && outcome == ResultAt(PagerOf(remote, baseUrl, fqTerms, order), m)
  {
    var baseSearchUrl := baseUrl + SearchApiOffset;
    var params := BuildParams(fqTerms, order);
    var paramKeysSorted := Sorted(params.Keys);
    var p := Pager(remote, baseSearchUrl, params, paramKeysSorted);
    assert p == PagerOf(remote, baseUrl, fqTerms, order);
    SearchParamsPlain(fqTerms, order);
    outcome := Collect(p);
  }

  /**
   * Lines 243-282: fetch page after page, adding 10 to `offset` each
   * time, until a page is empty, the fetch fails or the URL cannot be
   * written. The source loops for as
   * long as the remote returns non-empty pages; the model asks that some
   * page ends the search.
   */
  method Collect(p: Pager) returns (outcome: Outcome<seq<Json>>)
    requires ValidPager(p)
    requires "offset" in p.params && p.params["offset"] == PInt(FirstOffset)
    requires "limit" in p.params && p.params["limit"] == PInt(Limit)
    requires exists n: nat :: Ends(PageAt(p, n))
    ensures exists m: nat :: IsFirstEnd(p, m) && outcome == ResultAt(p, m)
  {
    var params := p.params;
    UpdateSame(params, "offset");
    var pkgDicts: seq<Json> := [];
    ghost var n: nat := 0;
    ghost var stop: nat :| Ends(PageAt(p, stop));
    ghost var last: nat := 0;
    while true
      invariant n <= stop
      invariant forall j | 0 <= j < n :: !Ends(PageAt(p, j))
      invariant params == p.params["offset" := PInt(Offset(n))]
      invariant pkgDicts == Gathered(p, n)
      decreases stop - n
    {
      var request := Request(p.url, QueryOf(params, p.keys));
      if !Encodable(request.query) {
        assert IsFirstEnd(p, n);
        return Crashed;
      }
      var page := PageOf(p.remote(request));
      assert page == PageAt(p, n);
      if page.Failure? {
        assert IsFirstEnd(p, n);
        return SearchFailed;
      }
      if page.Crash? {
        assert IsFirstEnd(p, n);
        return Crashed;
      }
      ghost var gathered := pkgDicts;
      pkgDicts := pkgDicts + page.items;
      if |page.items| == 0 {
        assert IsFirstEnd(p, n);
        assert pkgDicts == gathered;
        last := n;
        break;
      }
      GatheredStep(p, n);
      var nextOffset := params["offset"].n + params["limit"].n;
      assert nextOffset == Offset(n) + Limit == Offset(n + 1);
      UpdateTwice(p.params, "offset", PInt(Offset(n)), PInt(nextOffset));
      params := params["offset" := PInt(nextOffset)];
      n := n + 1;
    }
    outcome := Done(pkgDicts);
    assert IsFirstEnd(p, last) && outcome == ResultAt(p, last);
  }
}
