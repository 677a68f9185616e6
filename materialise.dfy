/**
 * The end of the gather stage (geonorgeharvester.py:562-591): one harvest
 * object per distinct Uuid among the search results, the first result with
 * a Uuid winning, and the list of the new objects' ids.
 */
module Materialise {
  import opened JsonValues

  /**
   * A saved harvest object: its guid, its content (the search result, which
   * the source stores JSON-encoded) and the id the database gave it.
   */
  datatype HarvestObject = HarvestObject(guid: Json, content: Json, id: string)

  /**
   * The value a Python set compares `v` by, or None when `v` cannot be put in
   * a set (a list or a dict raises TypeError). `True == 1` and `False == 0`
   * in Python, so booleans stand for their numbers.
   */
  function HashKey(v: Json): (r: Option<Json>)
    ensures r.Some? <==> !v.JArr? && !v.JObj?
    ensures r.Some? ==> !r.value.JBool?
    ensures v.JBool? ==> r == Some(JNum(if v.b then 1 else 0))
    ensures !v.JBool? && r.Some? ==> r.value == v
  {
    match v
    case JArr(_) => None
    case JObj(_) => None
    case JBool(b) => Some(JNum(if b then 1 else 0))
    case _ => Some(v)
  }

  /** The number a boolean or a number stands for in Python arithmetic. */
  function NumberOf(v: Json): int
    requires v.JBool? || v.JNum?
  {
    if v.JNum? then v.n else if v.b then 1 else 0
  }

  /**
   * Python 2 `==` on two hashable JSON values: booleans and numbers compare
   * as numbers, None equals only None, strings equal only equal strings.
   */
  predicate PyEquals(a: Json, b: Json)
    requires !a.JArr? && !a.JObj? && !b.JArr? && !b.JObj?
  {
    if (a.JBool? || a.JNum?) && (b.JBool? || b.JNum?) then NumberOf(a) == NumberOf(b)
    else a == b
  }

  /** Two hashable values are the same set member exactly when Python finds them equal. */
  lemma HashKeyIsEquality(a: Json, b: Json)
    requires HashKey(a).Some? && HashKey(b).Some?
    ensures HashKey(a) == HashKey(b) <==> PyEquals(a, b)
  {
  }

  /** The set key of a result's Uuid: None when `pkg_dict['Uuid']` or the set test raises. */
  function UuidKey(pkg: Json): Option<Json>
  {
    if pkg.JObj? && "Uuid" in pkg.fields then HashKey(pkg.fields["Uuid"]) else None
  }

  /** The set keys of the results in `kept`. */
  function KeysOf(kept: seq<Json>): set<Json>
  {
    set x | x in kept && UuidKey(x).Some? :: UuidKey(x).value
  }

  /**
   * The state of the loop: the results saved so far, and whether an
   * exception has ended it (caught at line 589, after which the stage
   * returns None).
   */
  datatype Run = Run(kept: seq<Json>, failed: bool)

  /**
   * The loop over `pkgs`: a result without a usable Uuid ends it; a Uuid seen
   * before is skipped; a new one is recorded, and then a result without a
   * Title ends the loop at the debug message before anything is saved.
   */
  function Dedup(pkgs: seq<Json>): Run
  {
    if pkgs == [] then Run([], false)
    else
      var before := Dedup(pkgs[..|pkgs| - 1]);
      var pkg := pkgs[|pkgs| - 1];
      if before.failed then before
      else if UuidKey(pkg).None? then Run(before.kept, true)
      else if UuidKey(pkg).value in KeysOf(before.kept) then before
      else if "Title" !in pkg.fields then Run(before.kept, true)
      else Run(before.kept + [pkg], false)
  }

  function GuidOf(pkg: Json): Json
  {
    if pkg.JObj? && "Uuid" in pkg.fields then pkg.fields["Uuid"] else JNull
  }

  /** The objects saved for `kept`, the n-th of them getting id `newId(n)`. */
  function Saved(kept: seq<Json>, newId: nat -> string): (r: seq<HarvestObject>)
    ensures |r| == |kept|
  {
    seq(|kept|, j requires 0 <= j < |kept| => HarvestObject(GuidOf(kept[j]), kept[j], newId(j)))
  }

  function Ids(n: nat, newId: nat -> string): (r: seq<string>)
    ensures |r| == n
  {
    seq(n, j requires 0 <= j < n => newId(j))
  }

  /** Once the loop has failed, later results change nothing. */
  lemma {:induction false} FailureSticks(pkgs: seq<Json>, i: nat)
    requires i <= |pkgs|
    requires Dedup(pkgs[..i]).failed
    ensures Dedup(pkgs) == Dedup(pkgs[..i])
    decreases |pkgs| - i
  {
    if i < |pkgs| {
      PrefixStep(pkgs, i);
      FailureSticks(pkgs, i + 1);
    } else {
      assert pkgs[..i] == pkgs;
    }
  }

  lemma KeysOfAppend(kept: seq<Json>, pkg: Json)
    requires UuidKey(pkg).Some?
    ensures KeysOf(kept + [pkg]) == KeysOf(kept) + {UuidKey(pkg).value}
  {
    assert forall x :: x in kept + [pkg] <==> x in kept || x == pkg;
  }

  lemma SavedAppend(kept: seq<Json>, pkg: Json, newId: nat -> string)
    ensures Saved(kept + [pkg], newId)
            == Saved(kept, newId) + [HarvestObject(GuidOf(pkg), pkg, newId(|kept|))]
  {
  }

  /** What one turn of the loop needs to know about `Dedup`. */
  lemma LoopStep(pkgs: seq<Json>, i: nat, kept: seq<Json>, newId: nat -> string)
    requires i < |pkgs|
    requires Dedup(pkgs[..i]) == Run(kept, false)
    ensures UuidKey(pkgs[i]).None? ==> Dedup(pkgs) == Run(kept, true)
    ensures UuidKey(pkgs[i]).Some? && UuidKey(pkgs[i]).value in KeysOf(kept) ==>
              Dedup(pkgs[..i + 1]) == Run(kept, false)
    ensures UuidKey(pkgs[i]).Some? && UuidKey(pkgs[i]).value !in KeysOf(kept) ==>
              && pkgs[i].JObj?
              && (KeysOf(kept + [pkgs[i]]) == KeysOf(kept) + {UuidKey(pkgs[i]).value})
              && ("Title" !in pkgs[i].fields ==> Dedup(pkgs) == Run(kept, true))
              && ("Title" in pkgs[i].fields ==> Dedup(pkgs[..i + 1]) == Run(kept + [pkgs[i]], false))
              && Saved(kept + [pkgs[i]], newId)
                 == Saved(kept, newId) + [HarvestObject(pkgs[i].fields["Uuid"], pkgs[i], newId(|kept|))]
  {
    PrefixStep(pkgs, i);
    var pkg := pkgs[i];
    if UuidKey(pkg).None? || (UuidKey(pkg).value !in KeysOf(kept) && "Title" !in pkg.fields) {
      FailureSticks(pkgs, i + 1);
    }
    if UuidKey(pkg).Some? {
      KeysOfAppend(kept, pkg);
      SavedAppend(kept, pkg, newId);
    }
  }

  /**
   * Lines 562-591. `package_ids` holds the Uuids seen, `object_ids` the ids
   * of the objects saved; `saved` is what was written to the database, which
   * stays written when an exception ends the loop.
   */
  method CreateHarvestObjects(pkgDicts: seq<Json>, newId: nat -> string)
      returns (saved: seq<HarvestObject>, objectIds: Option<seq<string>>)
    ensures saved == Saved(Dedup(pkgDicts).kept, newId)
    ensures objectIds == if Dedup(pkgDicts).failed then None
                         else Some(Ids(|Dedup(pkgDicts).kept|, newId))
  {
    var packageIds: set<Json> := {};
    var ids: seq<string> := [];
    saved := [];
    ghost var kept: seq<Json> := [];
    for i := 0 to |pkgDicts|
      invariant Dedup(pkgDicts[..i]) == Run(kept, false)
      invariant packageIds == KeysOf(kept)
      invariant saved == Saved(kept, newId)
      invariant ids == Ids(|kept|, newId)
    {
      var pkgDict := pkgDicts[i];
      LoopStep(pkgDicts, i, kept, newId);
      if !(pkgDict.JObj? && "Uuid" in pkgDict.fields) || HashKey(pkgDict.fields["Uuid"]).None? {
        return saved, None;
      }
      var uuid := HashKey(pkgDict.fields["Uuid"]).value;
      if uuid in packageIds {
        continue;
      }
      packageIds := packageIds + {uuid};
      if "Title" !in pkgDict.fields {
        return saved, None;
      }
      var id := newId(|ids|);
      saved := saved + [HarvestObject(pkgDict.fields["Uuid"], pkgDict, id)];
      ids := ids + [id];
      kept := kept + [pkgDict];
    }
    assert pkgDicts[..|pkgDicts|] == pkgDicts;
    objectIds := Some(ids);
  }

  /** `a` is `b` with some elements left out, the rest in their order. */
  predicate IsSubsequence<T(==)>(a: seq<T>, b: seq<T>)
  {
    a == [] || (b != [] && if a[0] == b[0] then IsSubsequence(a[1..], b[1..]) else IsSubsequence(a, b[1..]))
  }

  lemma {:induction false} SubsequenceExtend<T>(a: seq<T>, b: seq<T>, x: T)
    requires IsSubsequence(a, b)
    ensures IsSubsequence(a, b + [x])
  {
    if a != [] {
      assert (b + [x])[1..] == b[1..] + [x];
      if a[0] == b[0] {
        SubsequenceExtend(a[1..], b[1..], x);
      } else {
        SubsequenceExtend(a, b[1..], x);
      }
    }
  }

  lemma {:induction false} SubsequenceExtendBoth<T>(a: seq<T>, b: seq<T>, x: T)
    requires IsSubsequence(a, b)
    ensures IsSubsequence(a + [x], b + [x])
  {
    if a == [] {
      if b != [] && b[0] != x {
        assert (b + [x])[1..] == b[1..] + [x];
        SubsequenceExtendBoth(a, b[1..], x);
      }
    } else {
      assert (b + [x])[1..] == b[1..] + [x];
      assert (a + [x])[1..] == a[1..] + [x];
      if a[0] == b[0] {
        SubsequenceExtendBoth(a[1..], b[1..], x);
      } else {
        SubsequenceExtendBoth(a, b[1..], x);
      }
    }
  }

  /** The i-th result is the first with its Uuid. */
  predicate IsFirst(pkgs: seq<Json>, i: nat)
    requires i < |pkgs|
  {
    UuidKey(pkgs[i]).Some? && UuidKey(pkgs[i]).value !in KeysOf(pkgs[..i])
  }

  /**
   * What the saved results are: search results, in their order, each with a
   * Title and a Uuid of its own; when the loop completes, every Uuid among
   * the results is among them.
   */
  lemma {:induction false} DedupKept(pkgs: seq<Json>)
    ensures var run := Dedup(pkgs);
            && IsSubsequence(run.kept, pkgs)
            && (forall x | x in run.kept :: UuidKey(x).Some? && "Title" in x.fields)
            && (forall j1, j2 | 0 <= j1 < j2 < |run.kept| :: UuidKey(run.kept[j1]) != UuidKey(run.kept[j2]))
            && (!run.failed ==> KeysOf(run.kept) == KeysOf(pkgs))
  {
    if pkgs != [] {
      var init, pkg := pkgs[..|pkgs| - 1], pkgs[|pkgs| - 1];
      assert pkgs == init + [pkg];
      DedupKept(init);
      var before := Dedup(init);
      if before.failed || UuidKey(pkg).None? {
        SubsequenceExtend(before.kept, init, pkg);
      } else {
        KeysOfAppend(init, pkg);
        if UuidKey(pkg).value in KeysOf(before.kept) {
          SubsequenceExtend(before.kept, init, pkg);
        } else if "Title" !in pkg.fields {
          SubsequenceExtend(before.kept, init, pkg);
        } else {
          SubsequenceExtendBoth(before.kept, init, pkg);
          KeysOfAppend(before.kept, pkg);
          var kept := before.kept + [pkg];
          forall j1, j2 | 0 <= j1 < j2 < |kept|
            ensures UuidKey(kept[j1]) != UuidKey(kept[j2])
          {
            if j2 == |kept| - 1 {
              assert kept[j1] in before.kept;
            }
          }
        }
      }
    }
  }

  /** The i-th result ends the loop if the loop gets that far. */
  predicate Breaks(pkgs: seq<Json>, i: nat)
    requires i < |pkgs|
  {
    UuidKey(pkgs[i]).None? || (IsFirst(pkgs, i) && "Title" !in pkgs[i].fields)
  }

  lemma BreaksPrefix(pkgs: seq<Json>, n: nat)
    requires n <= |pkgs|
    ensures forall i | 0 <= i < n :: Breaks(pkgs, i) == Breaks(pkgs[..n], i)
  {
    forall i | 0 <= i < n
      ensures Breaks(pkgs, i) == Breaks(pkgs[..n], i)
    {
      assert pkgs[..n][..i] == pkgs[..i];
    }
  }

  /** The loop fails exactly when some result has no usable Uuid, or is the first with its Uuid and has no Title. */
  lemma {:induction false} DedupFails(pkgs: seq<Json>)
    ensures Dedup(pkgs).failed <==> exists i | 0 <= i < |pkgs| :: Breaks(pkgs, i)
  {
    if pkgs != [] {
      var n := |pkgs| - 1;
      var init, pkg := pkgs[..n], pkgs[n];
      DedupFails(init);
      BreaksPrefix(pkgs, n);
      var before := Dedup(init);
      if !before.failed {
        DedupKept(init);
        assert Breaks(pkgs, n) <==>
               UuidKey(pkg).None? || (UuidKey(pkg).value !in KeysOf(before.kept) && "Title" !in pkg.fields);
      }
    }
  }

  /** Every result that is the first with its Uuid is saved, when the loop completes. */
  lemma {:induction false} FirstOccurrencesSaved(pkgs: seq<Json>)
    requires !Dedup(pkgs).failed
    ensures forall i | 0 <= i < |pkgs| && IsFirst(pkgs, i) :: pkgs[i] in Dedup(pkgs).kept
  {
    if pkgs != [] {
      var n := |pkgs| - 1;
      var init, pkg := pkgs[..n], pkgs[n];
      var before := Dedup(init);
      assert !before.failed;
      FirstOccurrencesSaved(init);
      forall i | 0 <= i < |pkgs| && IsFirst(pkgs, i)
        ensures pkgs[i] in Dedup(pkgs).kept
      {
        if i < n {
          assert pkgs[i] == init[i] && pkgs[..i] == init[..i];
          assert pkgs[i] in before.kept;
        } else {
          DedupKept(init);
          assert pkgs[..n] == init;
        }
      }
    }
  }
}
