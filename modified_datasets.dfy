/**
 * `_get_modified_datasets` (geonorgeharvester.py:285-326): when an earlier
 * job finished without errors, the gather stage looks up every search
 * result by its Uuid and drops those whose metadata has not changed since
 * that job started.
 */
module ModifiedDatasets {
  import opened JsonValues
  import opened Remote

  const GetdataApiOffset := "/api/getdata/"

  /** What the loop does with one search result. */
  datatype Verdict = Keep | Drop | Fail | Crash

  predicate IsError(v: Verdict)
  {
    v.Fail? || v.Crash?
  }

  /**
   * Python 2 `updated < last_harvest`, where `last_harvest` is an ISO
   * timestamp string and `updated` is what `.get('DateMetadataUpdated')`
   * returned. None, numbers, booleans, lists and dicts all order before a
   * string; two strings compare code point by code point.
   */
  predicate Stale(updated: Option<Json>, lastHarvest: string)
  {
    match updated
    case Some(JStr(s)) => LexLess(s, lastHarvest)
    case _ => true
  }

  /**
   * The Uuid of a search result, when `base_getdata_url + pkg_dict['Uuid']`
   * can be evaluated: the result is an object and its Uuid is a string.
   */
  function UuidOf(pkg: Json): (r: Option<string>)
    ensures r.Some? <==> pkg.JObj? && "Uuid" in pkg.fields && pkg.fields["Uuid"].JStr?
  {
    if pkg.JObj? && "Uuid" in pkg.fields && pkg.fields["Uuid"].JStr?
    then Some(pkg.fields["Uuid"].s)
    else None
  }

  function DataRequest(baseUrl: string, uuid: string): Request
  {
    Request(baseUrl + GetdataApiOffset + uuid, [])
  }

  /**
   * The verdict on one result (lines 302-324). A failed fetch crashes: the
   * handler at line 309 names a variable that does not exist in this
   * method, so it raises NameError instead of SearchError. A result with no
   * content is kept; a body that is not JSON raises SearchError; a body that
   * is not an object crashes at `.get`.
   */
  function VerdictOf(remote: Request -> Response, baseUrl: string, lastHarvest: string,
                     pkg: Json): Verdict
  {
    match UuidOf(pkg)
    case None => Crash
    case Some(uuid) =>
      match remote(DataRequest(baseUrl, uuid))
      case FetchError => Crash
      case NoContent => Keep
      case NotJson => Fail
      case Body(doc) =>
        if !doc.JObj? then Crash
        else if Stale(Get(doc.fields, "DateMetadataUpdated"), lastHarvest) then Drop
        else Keep
  }

  /**
   * The outcome of judging `pkgs` in order: the first error ends it; otherwise
   * the kept results, in their original order.
   */
  function Filtered(remote: Request -> Response, baseUrl: string, lastHarvest: string,
                    pkgs: seq<Json>): Outcome<seq<Json>>
  {
    if pkgs == [] then Done([])
    else
      var before := Filtered(remote, baseUrl, lastHarvest, pkgs[..|pkgs| - 1]);
      var pkg := pkgs[|pkgs| - 1];
      if !before.Done? then before
      else match VerdictOf(remote, baseUrl, lastHarvest, pkg)
        case Crash => Crashed
        case Fail => SearchFailed
        case Drop => before
        case Keep => Done(before.value + [pkg])
  }

  /** Where `list.index(x)` finds `x`: its first occurrence. */
  function FirstIndex<T(==)>(s: seq<T>, x: T): (k: nat)
    requires x in s
    ensures k < |s| && s[k] == x && x !in s[..k]
  {
    if s[0] == x then 0
    else
      var k := 1 + FirstIndex(s[1..], x);
      assert s[..k] == [s[0]] + s[1..][..k - 1];
      k
  }

  /** `list.remove(x)`: drop the first element equal to `x`. */
  function RemoveFirst<T(==)>(s: seq<T>, x: T): (r: seq<T>)
    requires x in s
    ensures |r| == |s| - 1
    ensures multiset(r) == multiset(s) - multiset{x}
  {
    var k := FirstIndex(s, x);
    assert s == s[..k] + [x] + s[k + 1..];
    s[..k] + s[k + 1..]
  }

  /** The first occurrence is the only index with no earlier copy. */
  lemma FirstIndexUnique<T>(s: seq<T>, x: T, k: nat)
    requires k < |s| && s[k] == x && x !in s[..k]
    ensures FirstIndex(s, x) == k
  {
  }

  /** Every result the filter keeps was judged Keep. */
  lemma {:induction false} KeptAreKept(remote: Request -> Response, baseUrl: string,
                                       lastHarvest: string, pkgs: seq<Json>)
    requires Filtered(remote, baseUrl, lastHarvest, pkgs).Done?
    ensures forall x | x in Filtered(remote, baseUrl, lastHarvest, pkgs).value ::
              VerdictOf(remote, baseUrl, lastHarvest, x) == Keep
  {
    if pkgs != [] {
      KeptAreKept(remote, baseUrl, lastHarvest, pkgs[..|pkgs| - 1]);
    }
  }

  /** Once an error has ended the filter, later results change nothing. */
  lemma {:induction false} ErrorSticks(remote: Request -> Response, baseUrl: string,
                                       lastHarvest: string, pkgs: seq<Json>, i: nat)
    requires i <= |pkgs|
    requires !Filtered(remote, baseUrl, lastHarvest, pkgs[..i]).Done?
    ensures Filtered(remote, baseUrl, lastHarvest, pkgs) == Filtered(remote, baseUrl, lastHarvest, pkgs[..i])
    decreases |pkgs| - i
  {
    if i < |pkgs| {
      PrefixStep(pkgs, i);
      ErrorSticks(remote, baseUrl, lastHarvest, pkgs, i + 1);
    } else {
      assert pkgs[..i] == pkgs;
    }
  }

  /** One more result extends the filter by its verdict. */
  lemma FilteredStep(remote: Request -> Response, baseUrl: string, lastHarvest: string,
                     pkgs: seq<Json>, i: nat, kept: seq<Json>)
    requires i < |pkgs|
    requires Filtered(remote, baseUrl, lastHarvest, pkgs[..i]) == Done(kept)
    ensures var verdict := VerdictOf(remote, baseUrl, lastHarvest, pkgs[i]);
            && (verdict == Crash ==> Filtered(remote, baseUrl, lastHarvest, pkgs[..i + 1]) == Crashed)
            && (verdict == Fail ==> Filtered(remote, baseUrl, lastHarvest, pkgs[..i + 1]) == SearchFailed)
            && (verdict == Drop ==> Filtered(remote, baseUrl, lastHarvest, pkgs[..i + 1]) == Done(kept))
            && (verdict == Keep ==> Filtered(remote, baseUrl, lastHarvest, pkgs[..i + 1]) == Done(kept + [pkgs[i]]))
  {
    PrefixStep(pkgs, i);
  }

  /** Removing a result the kept prefix does not hold takes it from the head of the rest. */
  lemma RemoveFromRest<T>(kept: seq<T>, rest: seq<T>)
    requires rest != [] && rest[0] !in kept
    ensures rest[0] in kept + rest
    ensures RemoveFirst(kept + rest, rest[0]) == kept + rest[1..]
  {
    var s := kept + rest;
    assert s[..|kept|] == kept;
    assert s[|kept|] == rest[0];
    FirstIndexUnique(s, rest[0], |kept|);
    assert s[|kept| + 1..] == rest[1..];
  }

  /** What one turn of the loop needs to know about the filter. */
  lemma LoopStep(remote: Request -> Response, baseUrl: string, lastHarvest: string,
                 pkgs: seq<Json>, i: nat, kept: seq<Json>, verdict: Verdict)
    requires i < |pkgs|
    requires Filtered(remote, baseUrl, lastHarvest, pkgs[..i]) == Done(kept)
    requires verdict == VerdictOf(remote, baseUrl, lastHarvest, pkgs[i])
    ensures verdict == Crash ==> Filtered(remote, baseUrl, lastHarvest, pkgs) == Crashed
    ensures verdict == Fail ==> Filtered(remote, baseUrl, lastHarvest, pkgs) == SearchFailed
    ensures verdict == Drop ==>
              && Filtered(remote, baseUrl, lastHarvest, pkgs[..i + 1]) == Done(kept)
              && pkgs[i] in kept + pkgs[i..]
              && RemoveFirst(kept + pkgs[i..], pkgs[i]) == kept + pkgs[i + 1..]
    ensures verdict == Keep ==>
              && Filtered(remote, baseUrl, lastHarvest, pkgs[..i + 1]) == Done(kept + [pkgs[i]])
              && kept + pkgs[i..] == (kept + [pkgs[i]]) + pkgs[i + 1..]
  {
    FilteredStep(remote, baseUrl, lastHarvest, pkgs, i, kept);
    if IsError(verdict) {
      ErrorSticks(remote, baseUrl, lastHarvest, pkgs, i + 1);
    } else if verdict == Drop {
      KeptAreKept(remote, baseUrl, lastHarvest, pkgs[..i]);
      RemoveFromRest(kept, pkgs[i..]);
      assert pkgs[i..][1..] == pkgs[i + 1..];
    } else {
      assert pkgs[i..] == [pkgs[i]] + pkgs[i + 1..];
    }
  }

  /**
   * Lines 302-324 for one result: look it up by its Uuid and judge whether
   * it is still wanted. A result is dropped only when the catalogue's
   * metadata for it predates `lastHarvest`; a missing record is kept; only a
   * body that is not JSON is a SearchError.
   */
  method Judge(remote: Request -> Response, ghost baseUrl: string, baseGetdataUrl: string,
               lastHarvest: string, pkgDict: Json) returns (verdict: Verdict)
    requires baseGetdataUrl == baseUrl + GetdataApiOffset
    ensures UuidOf(pkgDict).None? ==> verdict == Crash
    ensures UuidOf(pkgDict).Some? ==>
              var response := remote(DataRequest(baseUrl, UuidOf(pkgDict).value));
              && (verdict == Drop <==>
                    response.Body? && response.doc.JObj?
                    && Stale(Get(response.doc.fields, "DateMetadataUpdated"), lastHarvest))
              && (verdict == Keep <==>
                    || response.NoContent?
                    || (response.Body? && response.doc.JObj?
                        && !Stale(Get(response.doc.fields, "DateMetadataUpdated"), lastHarvest)))
              && (verdict == Fail <==> response.NotJson?)
              && (verdict == Crash <==> response.FetchError? || (response.Body? && !response.doc.JObj?))
  {
    if !(pkgDict.JObj? && "Uuid" in pkgDict.fields && pkgDict.fields["Uuid"].JStr?) {
      return Crash;
    }
    var url := baseGetdataUrl + pkgDict.fields["Uuid"].s;
    assert Request(url, []) == DataRequest(baseUrl, pkgDict.fields["Uuid"].s);
    var content := remote(Request(url, []));
    match content {
      case FetchError =>
        verdict := Crash;
      case NotJson =>
        verdict := Fail;
      case NoContent =>
        verdict := Keep;
      case Body(responseDict) =>
        if !responseDict.JObj? {
          verdict := Crash;
        } else if Stale(Get(responseDict.fields, "DateMetadataUpdated"), lastHarvest) {
          verdict := Drop;
        } else {
          verdict := Keep;
        }
    }
  }

  /**
   * Lines 285-326. The result list starts as a copy of the search results;
   * each result found unchanged since `lastHarvest` is removed from it with
   * `list.remove`.
   */
  method GetModifiedDatasets(remote: Request -> Response, pkgDicts: seq<Json>,
                             baseUrl: string, lastHarvest: string)
      returns (outcome: Outcome<seq<Json>>)
    ensures outcome == Filtered(remote, baseUrl, lastHarvest, pkgDicts)
  {
    var baseGetdataUrl := baseUrl + GetdataApiOffset;
    var newPkgDicts := pkgDicts;
    ghost var kept: seq<Json> := [];
    for i := 0 to |pkgDicts|
      invariant Filtered(remote, baseUrl, lastHarvest, pkgDicts[..i]) == Done(kept)
      invariant newPkgDicts == kept + pkgDicts[i..]
    {
      var pkgDict := pkgDicts[i];
      var verdict := Judge(remote, baseUrl, baseGetdataUrl, lastHarvest, pkgDict);
      LoopStep(remote, baseUrl, lastHarvest, pkgDicts, i, kept, verdict);
      if verdict == Crash {
        return Crashed;
      }
      if verdict == Fail {
        return SearchFailed;
      }
      if verdict == Drop {
        newPkgDicts := RemoveFirst(newPkgDicts, pkgDict);
      } else {
        kept := kept + [pkgDict];
      }
    }
    assert pkgDicts[..|pkgDicts|] == pkgDicts;
    assert newPkgDicts == kept;
    outcome := Done(newPkgDicts);
  }

  /** The filter succeeds exactly when no result is judged an error. */
  lemma {:induction false} FilteredDone(remote: Request -> Response, baseUrl: string,
                                        lastHarvest: string, pkgs: seq<Json>)
    ensures Filtered(remote, baseUrl, lastHarvest, pkgs).Done?
            <==> forall i | 0 <= i < |pkgs| :: !IsError(VerdictOf(remote, baseUrl, lastHarvest, pkgs[i]))
  {
    if pkgs != [] {
      var init := pkgs[..|pkgs| - 1];
      FilteredDone(remote, baseUrl, lastHarvest, init);
      assert forall i | 0 <= i < |init| :: init[i] == pkgs[i];
    }
  }

  /**
   * When the filter fails, it fails with the first erroneous result's error:
   * SearchError for a body that is not JSON, a crash otherwise.
   */
  lemma {:induction false} FilteredFirstError(remote: Request -> Response, baseUrl: string,
                                              lastHarvest: string, pkgs: seq<Json>, i: nat)
    requires i < |pkgs|
    requires IsError(VerdictOf(remote, baseUrl, lastHarvest, pkgs[i]))
    requires forall j | 0 <= j < i :: !IsError(VerdictOf(remote, baseUrl, lastHarvest, pkgs[j]))
    ensures Filtered(remote, baseUrl, lastHarvest, pkgs)
            == if VerdictOf(remote, baseUrl, lastHarvest, pkgs[i]).Fail? then SearchFailed else Crashed
  {
    PrefixStep(pkgs, i);
    FilteredDone(remote, baseUrl, lastHarvest, pkgs[..i]);
    assert forall j | 0 <= j < i :: pkgs[..i][j] == pkgs[j];
    ErrorSticks(remote, baseUrl, lastHarvest, pkgs, i + 1);
  }

  /**
   * A successful filter keeps every copy of each result judged Keep and no
   * copy of any other.
   */
  lemma {:induction false} FilteredCounts(remote: Request -> Response, baseUrl: string,
                                          lastHarvest: string, pkgs: seq<Json>)
    requires Filtered(remote, baseUrl, lastHarvest, pkgs).Done?
    ensures forall x :: multiset(Filtered(remote, baseUrl, lastHarvest, pkgs).value)[x]
              == if VerdictOf(remote, baseUrl, lastHarvest, x) == Keep then multiset(pkgs)[x] else 0
  {
    if pkgs != [] {
      var init, last := pkgs[..|pkgs| - 1], pkgs[|pkgs| - 1];
      FilteredCounts(remote, baseUrl, lastHarvest, init);
      var before := Filtered(remote, baseUrl, lastHarvest, init).value;
      var after := Filtered(remote, baseUrl, lastHarvest, pkgs).value;
      assert multiset(pkgs) == multiset(init) + multiset{last} by {
        assert pkgs == init + [last];
      }
      if VerdictOf(remote, baseUrl, lastHarvest, last) == Keep {
        assert multiset(after) == multiset(before) + multiset{last};
      } else {
        assert after == before;
      }
    }
  }

  /** Keeping every result: when none is found unchanged, the results pass through untouched. */
  lemma {:induction false} NothingStale(remote: Request -> Response, baseUrl: string,
                                        lastHarvest: string, pkgs: seq<Json>)
    requires forall i | 0 <= i < |pkgs| :: VerdictOf(remote, baseUrl, lastHarvest, pkgs[i]) == Keep
    ensures Filtered(remote, baseUrl, lastHarvest, pkgs) == Done(pkgs)
  {
    if pkgs != [] {
      var init := pkgs[..|pkgs| - 1];
      assert forall i | 0 <= i < |init| :: init[i] == pkgs[i];
      NothingStale(remote, baseUrl, lastHarvest, init);
      assert pkgs == init + [pkgs[|pkgs| - 1]];
    }
  }
}
