/**
 * JSON documents as the harvesters see them after `json.loads`, plus the
 * few pieces of Python 2 value semantics the harvesters rely on: truthiness,
 * `dict.get`, `str()` of an integer and the ordering of strings.
 */
module JsonValues {

  datatype Option<+T> = None | Some(value: T)

  /**
   * A decoded JSON value. Objects are maps: a Python 2 dict has no
   * meaningful key order, and two dicts are equal exactly when they hold the
   * same keys with equal values, which is map equality.
   */
  datatype Json =
    | JNull
    | JBool(b: bool)
    | JNum(n: int)
    | JStr(s: string)
    | JArr(items: seq<Json>)
    | JObj(fields: map<string, Json>)

  /** Python truthiness of a decoded JSON value (`if value:`). */
  predicate Truthy(v: Json)
  {
    match v
    case JNull => false
    case JBool(b) => b
    case JNum(n) => n != 0
    case JStr(s) => s != ""
    case JArr(xs) => xs != []
    case JObj(m) => m != map[]
  }

  /** `d.get(key)`: the value stored under `key`, or None. */
  function Get(d: map<string, Json>, key: string): (r: Option<Json>)
    ensures r.Some? <==> key in d
    ensures r.Some? ==> r.value == d[key]
  {
    if key in d then Some(d[key]) else None
  }

  /**
   * The characters of a string, each a one-character string: what
   * `for t in s` and `list.extend(s)` take from it.
   */
  function Chars(s: string): (r: seq<Json>)
    ensures |r| == |s|
    ensures forall i | 0 <= i < |s| :: r[i] == JStr([s[i]])
  {
    if s == [] then [] else [JStr([s[0]])] + Chars(s[1..])
  }

  /** The prefix of length i + 1 extends the prefix of length i by `s[i]`. */
  lemma PrefixStep<T>(s: seq<T>, i: nat)
    requires i < |s|
    ensures s[..i + 1][..i] == s[..i]
    ensures s[..i + 1] != [] && s[..i + 1][i] == s[i]
  {
  }

  predicate IsDigit(c: char)
  {
    '0' <= c <= '9'
  }

  function DigitChar(d: nat): (c: char)
    requires d < 10
    ensures IsDigit(c)
  {
    ['0', '1', '2', '3', '4', '5', '6', '7', '8', '9'][d]
  }

  /** `str(n)` for a non-negative integer: its decimal digits, most significant first. */
  function Decimal(n: nat): (r: string)
    ensures r != []
    ensures forall i :: 0 <= i < |r| ==> IsDigit(r[i])
    ensures n < 10 <==> |r| == 1
  {
    if n < 10 then [DigitChar(n)] else Decimal(n / 10) + [DigitChar(n % 10)]
  }

  lemma DigitCharInjective(a: nat, b: nat)
    requires a < 10 && b < 10
    requires DigitChar(a) == DigitChar(b)
    ensures a == b
  {
  }

  /** Different numbers have different decimal renderings. */
  lemma {:induction false} DecimalInjective(a: nat, b: nat)
    requires Decimal(a) == Decimal(b)
    ensures a == b
  {
    if a < 10 || b < 10 {
      assert |Decimal(a)| == 1 && |Decimal(b)| == 1;
      assert a < 10 && b < 10;
      assert Decimal(a)[0] == DigitChar(a) && Decimal(b)[0] == DigitChar(b);
      DigitCharInjective(a, b);
    } else {
      var da, db := Decimal(a), Decimal(b);
      assert da == Decimal(a / 10) + [DigitChar(a % 10)];
      assert db == Decimal(b / 10) + [DigitChar(b % 10)];
      assert da[|da| - 1] == DigitChar(a % 10) && db[|db| - 1] == DigitChar(b % 10);
      DigitCharInjective(a % 10, b % 10);
      assert Decimal(a / 10) == da[..|da| - 1] == db[..|db| - 1] == Decimal(b / 10);
      DecimalInjective(a / 10, b / 10);
    }
  }

  /** `str(n)` for any integer. */
  function IntToString(n: int): (r: string)
    ensures r != []
    ensures n >= 0 ==> r == Decimal(n)
    ensures n < 0 ==> r[0] == '-'
  {
    if n < 0 then "-" + Decimal(-n) else Decimal(n)
  }

  /**
   * Python 2 ordering of two strings: code point by code point, a proper
   * prefix sorting first. (Dafny's own `<` on sequences is the proper-prefix
   * relation, not this one.)
   */
  predicate LexLess(a: string, b: string)
  {
    if a == [] then b != []
    else if b == [] then false
    else if a[0] == b[0] then LexLess(a[1..], b[1..])
    else a[0] < b[0]
  }

  lemma {:induction false} LexIrreflexive(a: string)
    ensures !LexLess(a, a)
  {
    if a != [] {
      LexIrreflexive(a[1..]);
    }
  }

  lemma {:induction false} LexTransitive(a: string, b: string, c: string)
    requires LexLess(a, b) && LexLess(b, c)
    ensures LexLess(a, c)
  {
    if a != [] && b != [] && c != [] && a[0] == b[0] && b[0] == c[0] {
      LexTransitive(a[1..], b[1..], c[1..]);
    }
  }

  /** Any two distinct strings are ordered one way or the other. */
  lemma {:induction false} LexTotal(a: string, b: string)
    requires a != b
    ensures LexLess(a, b) || LexLess(b, a)
  {
    if a != [] && b != [] && a[0] == b[0] {
      LexTotal(a[1..], b[1..]);
    }
  }

  lemma LexAsymmetric(a: string, b: string)
    requires LexLess(a, b)
    ensures !LexLess(b, a)
  {
    if LexLess(b, a) {
      LexTransitive(a, b, a);
      LexIrreflexive(a);
    }
  }

  predicate Distinct(s: seq<string>)
  {
    forall i, j :: 0 <= i < j < |s| ==> s[i] != s[j]
  }

  /** `order` lists every key of `keys` exactly once: one iteration order of a dict. */
  ghost predicate IsEnumeration(order: seq<string>, keys: set<string>)
  {
    && (forall k | k in order :: k in keys)
    && (forall k | k in keys :: k in order)
    && Distinct(order)
  }

}
