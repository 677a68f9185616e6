/**
 * `_make_lower_and_alphanumeric` (datanorgeharvester.py:66-99): turns an
 * organization title into a name CKAN accepts, by spelling out the
 * Norwegian letters, lower-casing and dropping every other character.
 */
module Slug {

  /** `chars_to_replace`: a space and the six Norwegian letters. */
  const Replacements: map<char, string> :=
    map[' ' := "-",
        '\U{00E6}' := "ae", '\U{00C6}' := "ae",
        '\U{00F8}' := "oe", '\U{00D8}' := "oe",
        '\U{00E5}' := "aa", '\U{00C5}' := "aa"]

  /** `order` lists every key of the table once: one iteration order of the dict. */
  ghost predicate IsTableOrder(order: seq<char>)
  {
    && (forall c | c in order :: c in Replacements)
    && (forall c | c in Replacements :: c in order)
    && (forall i, j | 0 <= i < j < |order| :: order[i] != order[j])
  }

  /** The characters the regular expression `[^A-Za-z0-9\-\_]` leaves in place. */
  predicate Allowed(c: char)
  {
    ('A' <= c <= 'Z') || ('a' <= c <= 'z') || ('0' <= c <= '9') || c == '-' || c == '_'
  }

  /** What a name may consist of: lower-case letters, digits, `-` and `_`. */
  predicate NameChar(c: char)
  {
    ('a' <= c <= 'z') || ('0' <= c <= '9') || c == '-' || c == '_'
  }

  /**
   * `unicode.lower()` on one character, as far as it can matter here: ASCII
   * capitals, and the two non-ASCII capitals whose lower case is ASCII
   * (U+0130 to 'i', the Kelvin sign U+212A to 'k'). Every other character
   * that changes case stays outside ASCII and is dropped afterwards.
   */
  function Lower(c: char): (r: char)
    ensures 'A' <= c <= 'Z' ==> 'a' <= r <= 'z' && r as int == c as int + 32
    ensures Allowed(r) ==> NameChar(r)
    ensures NameChar(c) ==> r == c
  {
    if 'A' <= c <= 'Z' then (c as int + 32) as char
    else if c == '\U{0130}' then 'i'
    else if c == '\U{212A}' then 'k'
    else c
  }

  function LowerAll(s: string): (r: string)
    ensures |r| == |s|
  {
    seq(|s|, i requires 0 <= i < |s| => Lower(s[i]))
  }

  /** `s.replace(old, new)` for a one-character `old`. */
  function ReplaceAll(s: string, target: char, replacement: string): (r: string)
    ensures target !in s ==> r == s
    ensures target !in replacement ==> target !in r
  {
    if s == [] then []
    else (if s[0] == target then replacement else [s[0]]) + ReplaceAll(s[1..], target, replacement)
  }

  /** `re.sub(r'[^A-Za-z0-9\-\_]+', '', s)`: the allowed characters, in order. */
  function KeepAllowed(s: string): (r: string)
    ensures forall k | 0 <= k < |r| :: Allowed(r[k])
    ensures |r| <= |s|
  {
    if s == [] then []
    else (if Allowed(s[0]) then [s[0]] else []) + KeepAllowed(s[1..])
  }

  /**
   * The reference definition: what each character of the title becomes in
   * the name, independently of its neighbours.
   */
  function SlugChar(c: char): string
  {
    if c in Replacements then Replacements[c]
    else if Allowed(Lower(c)) then [Lower(c)]
    else []
  }

  function Slug(s: string): string
  {
    if s == [] then [] else SlugChar(s[0]) + Slug(s[1..])
  }

  /** The title after the replacements for the keys in `done`. */
  function Substituted(s: string, done: set<char>): string
    requires done <= Replacements.Keys
  {
    if s == [] then []
    else (if s[0] in done then Replacements[s[0]] else [s[0]]) + Substituted(s[1..], done)
  }

  /**
   * Lines 83-99: the replacements in the dict's iteration order, then
   * `lower()`, then the regular expression. The name is the same for
   * every iteration order.
   */
  method MakeLowerAndAlphanumeric(title: string, order: seq<char>) returns (name: string)
    requires IsTableOrder(order)
    ensures name == Slug(title)
  {
    var s := title;
    ghost var done: set<char> := {};
    SubstitutedNone(title);
    for i := 0 to |order|
      invariant forall d :: d in done <==> d in order[..i]
      invariant done <= Replacements.Keys
      invariant s == Substituted(title, done)
    {
      var c := order[i];
      assert c !in done;
      ReplaceStep(title, done, c);
      s := ReplaceAll(s, c, Replacements[c]);
      assert order[..i + 1] == order[..i] + [c];
      done := done + {c};
    }
    assert order[..|order|] == order;
    assert done == Replacements.Keys;
    name := KeepAllowed(LowerAll(s));
    PipelineIsSlug(title);
  }

  lemma {:induction false} SubstitutedNone(s: string)
    ensures Substituted(s, {}) == s
  {
    if s != [] {
      SubstitutedNone(s[1..]);
    }
  }

  /** No replacement text contains a key of the table. */
  lemma ReplacementsHaveNoKeys(c: char, d: char)
    requires c in Replacements && d in Replacements
    ensures c !in Replacements[d]
  {
  }

  lemma {:induction false} ReplaceAllAppend(a: string, b: string, target: char, replacement: string)
    ensures ReplaceAll(a + b, target, replacement) == ReplaceAll(a, target, replacement) + ReplaceAll(b, target, replacement)
  {
    if a == [] {
      assert a + b == b;
    } else {
      assert (a + b)[1..] == a[1..] + b;
      ReplaceAllAppend(a[1..], b, target, replacement);
    }
  }

  /** One turn of the loop replaces the next key throughout. */
  lemma {:induction false} ReplaceStep(s: string, done: set<char>, c: char)
    requires done <= Replacements.Keys && c in Replacements && c !in done
    ensures ReplaceAll(Substituted(s, done), c, Replacements[c]) == Substituted(s, done + {c})
  {
    if s != [] {
      var head := if s[0] in done then Replacements[s[0]] else [s[0]];
      ReplaceAllAppend(head, Substituted(s[1..], done), c, Replacements[c]);
      if s[0] in done {
        ReplacementsHaveNoKeys(c, s[0]);
      }
      ReplaceStep(s[1..], done, c);
    }
  }

  lemma {:induction false} LowerAllAppend(a: string, b: string)
    ensures LowerAll(a + b) == LowerAll(a) + LowerAll(b)
  {
  }

  lemma {:induction false} KeepAllowedAppend(a: string, b: string)
    ensures KeepAllowed(a + b) == KeepAllowed(a) + KeepAllowed(b)
  {
    if a == [] {
      assert a + b == b;
    } else {
      assert (a + b)[1..] == a[1..] + b;
      KeepAllowedAppend(a[1..], b);
    }
  }

  /** Lower-casing and filtering after all replacements is the per-character definition. */
  lemma {:induction false} PipelineIsSlug(s: string)
    ensures KeepAllowed(LowerAll(Substituted(s, Replacements.Keys))) == Slug(s)
  {
    if s != [] {
      var c := s[0];
      var head := if c in Replacements then Replacements[c] else [c];
      var rest := Substituted(s[1..], Replacements.Keys);
      LowerAllAppend(head, rest);
      KeepAllowedAppend(LowerAll(head), LowerAll(rest));
      if c in Replacements {
        assert LowerAll(head) == head;
        assert KeepAllowed(head) == head by {
          assert forall k | 0 <= k < |head| :: Allowed(head[k]);
          AllAllowedKept(head);
        }
      } else {
        assert LowerAll(head) == [Lower(c)];
        assert KeepAllowed([Lower(c)]) == (if Allowed(Lower(c)) then [Lower(c)] else []) + KeepAllowed([]);
      }
      PipelineIsSlug(s[1..]);
    }
  }

  lemma {:induction false} AllAllowedKept(s: string)
    requires forall k | 0 <= k < |s| :: Allowed(s[k])
    ensures KeepAllowed(s) == s
  {
    if s != [] {
      AllAllowedKept(s[1..]);
    }
  }

  /** The promise of the docstring: the name holds only lower-case letters, digits, `-` and `_`. */
  lemma {:induction false} SlugIsName(s: string)
    ensures forall k | 0 <= k < |Slug(s)| :: NameChar(Slug(s)[k])
  {
    if s != [] {
      SlugIsName(s[1..]);
      var h := SlugChar(s[0]);
      assert forall k | 0 <= k < |h| :: NameChar(h[k]);
    }
  }

  /** The name of a title is the names of its parts, joined. */
  lemma {:induction false} SlugAppend(a: string, b: string)
    ensures Slug(a + b) == Slug(a) + Slug(b)
  {
    if a == [] {
      assert a + b == b;
    } else {
      assert (a + b)[1..] == a[1..] + b;
      SlugAppend(a[1..], b);
    }
  }

  /** A string that is already a name is left as it is. */
  lemma {:induction false} NameIsFixed(s: string)
    requires forall k | 0 <= k < |s| :: NameChar(s[k])
    ensures Slug(s) == s
  {
    if s != [] {
      assert s[0] !in Replacements;
      NameIsFixed(s[1..]);
    }
  }

  /** Making a name of a name changes nothing. */
  lemma SlugIdempotent(s: string)
    ensures Slug(Slug(s)) == Slug(s)
  {
    SlugIsName(s);
    NameIsFixed(Slug(s));
  }

  /**
   * The reason for the replacements: "kjære" and "kjøre" get different
   * names, where dropping the letters would give both "kjre".
   */
  lemma NorwegianWordsStayApart()
    ensures Slug("kj\U{00E6}re") == "kjaere"
    ensures Slug("kj\U{00F8}re") == "kjoere"
  {
    assert Slug("e") == "e";
    assert Slug("re") == "r" + Slug("e");
    assert Slug("\U{00E6}re") == "ae" + Slug("re");
    assert Slug("\U{00F8}re") == "oe" + Slug("re");
    assert Slug("j\U{00E6}re") == "j" + Slug("\U{00E6}re");
    assert Slug("j\U{00F8}re") == "j" + Slug("\U{00F8}re");
    assert Slug("kj\U{00E6}re") == "k" + Slug("j\U{00E6}re");
    assert Slug("kj\U{00F8}re") == "k" + Slug("j\U{00F8}re");
  }

  /** Capitals are lower-cased, capital Ø is spelled out and the space becomes a hyphen. */
  lemma CapitalsAndSpaces()
    ensures Slug("B\U{00D8} I") == "boe-i"
  {
    assert Slug("I") == "i";
    assert Slug(" I") == "-" + Slug("I");
    assert Slug("\U{00D8} I") == "oe" + Slug(" I");
  }
}
