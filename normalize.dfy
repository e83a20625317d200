/** Term canonicalisation: the Python normaliser applied to a user's term
    (`norm_term_input`, `norm_term`) and the SQL expression applied to stored
    terms, over one shared whitespace class and one shared ASCII lower-casing. */
module TermNorm {
  import opened Wrappers

  /** The whitespace class shared by the Python `strip()`/`\s` and the SQL
      `\s`: space, tab, line feed, vertical tab, form feed, carriage return. */
  predicate IsSpace(c: char) {
    c == ' ' || ('\t' <= c <= '\r')
  }

  /** ASCII lower-casing of one character. */
  function Lower(c: char): char {
    if 'A' <= c <= 'Z' then (c as int + 32) as char else c
  }

  /** `str.lower()`. */
  function LowerStr(s: string): (r: string)
    ensures |r| == |s|
  {
    seq(|s|, i requires 0 <= i < |s| => Lower(s[i]))
  }

  /** The character classes the normalisers work with: `\s`, `_` and `[\s_]`. */
  datatype Class = Space | Underscore | SpaceOrUnderscore

  predicate InClass(k: Class, c: char) {
    match k
    case Space => IsSpace(c)
    case Underscore => c == '_'
    case SpaceOrUnderscore => IsSpace(c) || c == '_'
  }

  /** `re.sub(<class>+, "_", s)` scanning `s` from the left; `inRun` says that
      the character before `s` belonged to the class, so that the run it
      started has already produced its `_`. */
  function Squash(k: Class, s: string, inRun: bool): string
    decreases |s|
  {
    if s == [] then []
    else if InClass(k, s[0]) then (if inRun then [] else "_") + Squash(k, s[1..], true)
    else [s[0]] + Squash(k, s[1..], false)
  }

  /** Replace every maximal run of class `k` by one `_`. */
  function ReplaceRuns(k: Class, s: string): string {
    Squash(k, s, false)
  }

  /** Remove class-`k` characters at the start. */
  function DropLeft(k: Class, s: string): string
    decreases |s|
  {
    if s != [] && InClass(k, s[0]) then DropLeft(k, s[1..]) else s
  }

  /** Remove class-`k` characters at the end. */
  function DropRight(k: Class, s: string): string
    decreases |s|
  {
    if s != [] && InClass(k, s[|s| - 1]) then DropRight(k, s[..|s| - 1]) else s
  }

  /** `s.strip()` (k = Space) and `s.strip("_")` / SQL `trim(both '_' from s)`
      (k = Underscore). */
  function Strip(k: Class, s: string): string {
    DropRight(k, DropLeft(k, s))
  }

  /** `norm_term_input` of the term endpoint (app.py:43-51). */
  function NormTermInput(t: Option<string>): (r: Option<string>)
    ensures r.None? <==> t.None?
  {
    match t
    case None => None
    case Some(raw) =>
      var s := LowerStr(Strip(Space, raw));
      var s1 := ReplaceRuns(Space, s);
      var s2 := ReplaceRuns(Underscore, s1);
      Some(Strip(Underscore, s2))
  }

  /** `norm_term` of the term-dissociation endpoint (app.py:149-154). */
  function NormTerm(t: string): string {
    Strip(Underscore, ReplaceRuns(Underscore, ReplaceRuns(Space, LowerStr(Strip(Space, t)))))
  }

  /** The stored-term expression
      `trim(both '_' from regexp_replace(lower(term), '[\s_]+', '_', 'g'))`
      (app.py:61, app.py:169). */
  function SqlCanon(term: string): string {
    Strip(Underscore, ReplaceRuns(SpaceOrUnderscore, LowerStr(term)))
  }

  // ---------------------------------------------------------------------
  // Shape of a canonical term

  predicate NoSpace(s: string) {
    forall i :: 0 <= i < |s| ==> !IsSpace(s[i])
  }

  predicate NoDoubleUnderscore(s: string) {
    forall i :: 0 <= i < |s| - 1 ==> !(s[i] == '_' && s[i + 1] == '_')
  }

  predicate LowerFixed(s: string) {
    forall i :: 0 <= i < |s| ==> Lower(s[i]) == s[i]
  }

  /** The shape promised by the normalisers: no whitespace, no `__`, no `_`
      at either end, already lower-case. */
  predicate Canonical(s: string) {
    NoSpace(s) && NoDoubleUnderscore(s) && LowerFixed(s) &&
    (s != [] ==> s[0] != '_' && s[|s| - 1] != '_')
  }

  // ---------------------------------------------------------------------
  // Facts about the building blocks

  lemma LowerFacts(c: char)
    ensures IsSpace(Lower(c)) == IsSpace(c)
    ensures (Lower(c) == '_') == (c == '_')
    ensures Lower(Lower(c)) == Lower(c)
  {
  }

  lemma {:induction false} DropLeftIsSuffix(k: Class, s: string)
    ensures |DropLeft(k, s)| <= |s|
    ensures DropLeft(k, s) == s[|s| - |DropLeft(k, s)|..]
    ensures DropLeft(k, s) != [] ==> !InClass(k, DropLeft(k, s)[0])
    ensures forall i :: 0 <= i < |s| - |DropLeft(k, s)| ==> InClass(k, s[i])
    decreases |s|
  {
    if s != [] && InClass(k, s[0]) {
      DropLeftIsSuffix(k, s[1..]);
    }
  }

  lemma {:induction false} DropRightIsPrefix(k: Class, s: string)
    ensures |DropRight(k, s)| <= |s|
    ensures DropRight(k, s) == s[..|DropRight(k, s)|]
    ensures DropRight(k, s) != [] ==> !InClass(k, DropRight(k, s)[|DropRight(k, s)| - 1])
    ensures forall i :: |DropRight(k, s)| <= i < |s| ==> InClass(k, s[i])
    decreases |s|
  {
    if s != [] && InClass(k, s[|s| - 1]) {
      DropRightIsPrefix(k, s[..|s| - 1]);
    }
  }

  /** Lower-casing and stripping whitespace commute, because lower-casing
      keeps every character's whitespace status. */
  lemma {:induction false} LowerDropLeft(s: string)
    ensures LowerStr(DropLeft(Space, s)) == DropLeft(Space, LowerStr(s))
    decreases |s|
  {
    if s != [] {
      LowerFacts(s[0]);
      if IsSpace(s[0]) {
        assert LowerStr(s)[1..] == LowerStr(s[1..]);
        LowerDropLeft(s[1..]);
      }
    }
  }

  lemma {:induction false} LowerDropRight(s: string)
    ensures LowerStr(DropRight(Space, s)) == DropRight(Space, LowerStr(s))
    decreases |s|
  {
    if s != [] {
      LowerFacts(s[|s| - 1]);
      if IsSpace(s[|s| - 1]) {
        assert LowerStr(s)[..|s| - 1] == LowerStr(s[..|s| - 1]);
        LowerDropRight(s[..|s| - 1]);
      }
    }
  }

  lemma LowerStrip(s: string)
    ensures LowerStr(Strip(Space, s)) == Strip(Space, LowerStr(s))
  {
    LowerDropLeft(s);
    LowerDropRight(DropLeft(Space, s));
  }

  /** Replacing whitespace runs and then underscore runs is the same as
      replacing runs of whitespace-or-underscore in one pass. The two flags
      track whether each pass is inside a run; `b` is also the one-pass flag. */
  lemma {:induction false} TwoPassesAreOne(x: string, a: bool, b: bool)
    requires a ==> b
    ensures Squash(Underscore, Squash(Space, x, a), b) == Squash(SpaceOrUnderscore, x, b)
    decreases |x|
  {
    if x != [] {
      var rest := x[1..];
      if IsSpace(x[0]) {
        if a {
          assert Squash(Space, x, a) == [] + Squash(Space, rest, true) == Squash(Space, rest, true);
          assert Squash(SpaceOrUnderscore, x, b) == [] + Squash(SpaceOrUnderscore, rest, true);
          TwoPassesAreOne(rest, true, b);
        } else {
          var t := Squash(Space, rest, true);
          assert Squash(Space, x, a) == "_" + t;
          assert ("_" + t)[0] == '_' && ("_" + t)[1..] == t;
          TwoPassesAreOne(rest, true, true);
        }
      } else if x[0] == '_' {
        var t := Squash(Space, rest, false);
        assert Squash(Space, x, a) == "_" + t;
        assert ("_" + t)[0] == '_' && ("_" + t)[1..] == t;
        TwoPassesAreOne(rest, false, true);
      } else {
        var t := Squash(Space, rest, false);
        assert Squash(Space, x, a) == [x[0]] + t;
        assert ([x[0]] + t)[0] == x[0] && ([x[0]] + t)[1..] == t;
        TwoPassesAreOne(rest, false, false);
      }
    }
  }

  lemma DropLeftUnderscorePrefix(t: string)
    ensures DropLeft(Underscore, "_" + t) == DropLeft(Underscore, t)
  {
    assert ("_" + t)[1..] == t;
  }

  /** Whether a run was already open before `v` only decides an extra leading
      `_`, which trimming removes. */
  lemma FlagIrrelevantAfterTrim(v: string)
    ensures DropLeft(Underscore, Squash(SpaceOrUnderscore, v, true))
         == DropLeft(Underscore, Squash(SpaceOrUnderscore, v, false))
  {
    if v != [] && InClass(SpaceOrUnderscore, v[0]) {
      var t := Squash(SpaceOrUnderscore, v[1..], true);
      assert Squash(SpaceOrUnderscore, v, true) == [] + t == t;
      DropLeftUnderscorePrefix(Squash(SpaceOrUnderscore, v[1..], true));
    }
  }

  /** Leading whitespace of the input only adds a leading `_`. */
  lemma {:induction false} LeadingSpaceIrrelevant(y: string)
    ensures DropLeft(Underscore, Squash(SpaceOrUnderscore, DropLeft(Space, y), false))
         == DropLeft(Underscore, Squash(SpaceOrUnderscore, y, false))
    decreases |y|
  {
    if y != [] && IsSpace(y[0]) {
      DropLeftUnderscorePrefix(Squash(SpaceOrUnderscore, y[1..], true));
      FlagIrrelevantAfterTrim(y[1..]);
      LeadingSpaceIrrelevant(y[1..]);
    }
  }

  /** The flag after scanning `x` starting with flag `p`. */
  function EndFlag(k: Class, x: string, p: bool): bool {
    if x == [] then p else InClass(k, x[|x| - 1])
  }

  lemma {:induction false} SquashAppend(k: Class, x: string, y: string, p: bool)
    ensures Squash(k, x + y, p) == Squash(k, x, p) + Squash(k, y, EndFlag(k, x, p))
    decreases |x|
  {
    if x == [] {
      assert x + y == y;
    } else {
      assert (x + y)[0] == x[0];
      assert (x + y)[1..] == x[1..] + y;
      var p' := InClass(k, x[0]);
      SquashAppend(k, x[1..], y, p');
      assert EndFlag(k, x[1..], p') == EndFlag(k, x, p);
    }
  }

  /** A run made only of class-`k` characters gives one `_` or nothing. */
  lemma {:induction false} SquashAllInClass(k: Class, q: string, f: bool)
    requires forall i :: 0 <= i < |q| ==> InClass(k, q[i])
    ensures Squash(k, q, f) == if q == [] || f then [] else "_"
    decreases |q|
  {
    if q != [] {
      SquashAllInClass(k, q[1..], true);
    }
  }

  lemma {:induction false} DropLeftAppend(k: Class, x: string, y: string)
    ensures DropLeft(k, x + y) == if DropLeft(k, x) == [] then DropLeft(k, y) else DropLeft(k, x) + y
    decreases |x|
  {
    if x == [] {
      assert x + y == y;
    } else {
      assert (x + y)[0] == x[0];
      assert (x + y)[1..] == x[1..] + y;
      if InClass(k, x[0]) {
        DropLeftAppend(k, x[1..], y);
      }
    }
  }

  /** A trailing `_` disappears under trimming. */
  lemma StripTrailingUnderscore(x: string)
    ensures Strip(Underscore, x + "_") == Strip(Underscore, x)
  {
    DropLeftAppend(Underscore, x, "_");
    var d := DropLeft(Underscore, x);
    if d != [] {
      assert (d + "_")[..|d|] == d;
    }
  }

  /** Trailing whitespace of the input only adds a trailing `_`. */
  lemma TrailingSpaceIrrelevant(z: string)
    ensures Strip(Underscore, Squash(SpaceOrUnderscore, DropRight(Space, z), false))
         == Strip(Underscore, Squash(SpaceOrUnderscore, z, false))
  {
    var d := DropRight(Space, z);
    DropRightIsPrefix(Space, z);
    var q := z[|d|..];
    assert z == d + q;
    SquashAppend(SpaceOrUnderscore, d, q, false);
    SquashAllInClass(SpaceOrUnderscore, q, EndFlag(SpaceOrUnderscore, d, false));
    var sd := Squash(SpaceOrUnderscore, d, false);
    if Squash(SpaceOrUnderscore, q, EndFlag(SpaceOrUnderscore, d, false)) == [] {
      assert sd + [] == sd;
    } else {
      StripTrailingUnderscore(sd);
    }
  }

  /** Stripping whitespace before the one-pass replacement changes nothing
      once underscores are trimmed. */
  lemma StripSpaceIrrelevant(y: string)
    ensures Strip(Underscore, ReplaceRuns(SpaceOrUnderscore, Strip(Space, y)))
         == Strip(Underscore, ReplaceRuns(SpaceOrUnderscore, y))
  {
    TrailingSpaceIrrelevant(DropLeft(Space, y));
    LeadingSpaceIrrelevant(y);
  }

  // ---------------------------------------------------------------------
  // The properties of the normalisers

  /** The query-side normaliser and the stored-term SQL expression agree on
      every string (the claim of the comments at app.py:42 and app.py:55). */
  lemma NormTermMatchesSql(t: string)
    ensures NormTerm(t) == SqlCanon(t)
  {
    LowerStrip(t);
    TwoPassesAreOne(LowerStr(Strip(Space, t)), false, false);
    StripSpaceIrrelevant(LowerStr(t));
  }

  /** `norm_term` (app.py:149-154) returns what `norm_term_input`
      (app.py:43-51) returns on every string, and `None` maps to `None`. */
  lemma NormalisersAgree(t: Option<string>)
    ensures t.None? ==> NormTermInput(t) == None
    ensures t.Some? ==> NormTermInput(t) == Some(NormTerm(t.value))
  {
  }

  lemma {:induction false} SquashShape(s: string, p: bool)
    ensures NoSpace(Squash(SpaceOrUnderscore, s, p))
    ensures NoDoubleUnderscore(Squash(SpaceOrUnderscore, s, p))
    ensures LowerFixed(s) ==> LowerFixed(Squash(SpaceOrUnderscore, s, p))
    ensures p && Squash(SpaceOrUnderscore, s, p) != [] ==> Squash(SpaceOrUnderscore, s, p)[0] != '_'
    decreases |s|
  {
    if s != [] {
      var c := s[0];
      var k := SpaceOrUnderscore;
      if InClass(k, c) {
        SquashShape(s[1..], true);
        var t := Squash(k, s[1..], true);
        if !p {
          assert Squash(k, s, p) == "_" + t;
          assert forall i :: 1 <= i < |t| + 1 ==> ("_" + t)[i] == t[i - 1];
        }
      } else {
        SquashShape(s[1..], false);
        var t := Squash(k, s[1..], false);
        assert Squash(k, s, p) == [c] + t;
        assert forall i :: 1 <= i < |t| + 1 ==> ([c] + t)[i] == t[i - 1];
      }
    }
  }

  lemma StripUnderscoreShape(s: string)
    requires NoSpace(s) && NoDoubleUnderscore(s) && LowerFixed(s)
    ensures Canonical(Strip(Underscore, s))
  {
    DropLeftIsSuffix(Underscore, s);
    var l := DropLeft(Underscore, s);
    DropRightIsPrefix(Underscore, l);
    var r := DropRight(Underscore, l);
    assert forall i :: 0 <= i < |r| ==> r[i] == s[|s| - |l| + i];
  }

  /** Every stored term canonicalises to a canonical key. */
  lemma SqlCanonShape(t: string)
    ensures Canonical(SqlCanon(t))
  {
    var l := LowerStr(t);
    forall i | 0 <= i < |l| ensures Lower(l[i]) == l[i] {
      LowerFacts(t[i]);
    }
    SquashShape(l, false);
    StripUnderscoreShape(ReplaceRuns(SpaceOrUnderscore, l));
  }

  /** For a non-None input the normaliser's result has no whitespace, no
      `__`, and no `_` at either end (app.py:43-51). */
  lemma NormTermShape(t: string)
    ensures Canonical(NormTerm(t))
    ensures NoSpace(NormTerm(t)) && NoDoubleUnderscore(NormTerm(t))
    ensures NormTerm(t) != [] ==> NormTerm(t)[0] != '_' && NormTerm(t)[|NormTerm(t)| - 1] != '_'
  {
    NormTermMatchesSql(t);
    SqlCanonShape(t);
  }

  lemma {:induction false} SquashOfCanonical(s: string, p: bool)
    requires NoSpace(s) && NoDoubleUnderscore(s)
    requires p && s != [] ==> s[0] != '_'
    ensures Squash(SpaceOrUnderscore, s, p) == s
    decreases |s|
  {
    if s != [] {
      assert NoSpace(s[1..]) && NoDoubleUnderscore(s[1..]);
      SquashOfCanonical(s[1..], s[0] == '_');
    }
  }

  /** A canonical key is its own stored-term canonicalisation. */
  lemma SqlCanonOfCanonical(s: string)
    requires Canonical(s)
    ensures SqlCanon(s) == s
  {
    assert LowerStr(s) == s;
    SquashOfCanonical(s, false);
    if s != [] {
      assert DropLeft(Underscore, s) == s;
    }
  }

  /** Normalising twice is normalising once. */
  lemma NormTermIdempotent(t: string)
    ensures NormTerm(NormTerm(t)) == NormTerm(t)
  {
    NormTermShape(t);
    NormTermMatchesSql(NormTerm(t));
    SqlCanonOfCanonical(NormTerm(t));
  }

  /** A stored term is found by the term queries (app.py:61, app.py:169)
      exactly when it normalises like the user's term: the user's spelling
      and the stored spelling matter only through `NormTerm`. */
  lemma StoredTermMatches(stored: string, query: string)
    ensures SqlCanon(stored) == NormTerm(query) <==> NormTerm(stored) == NormTerm(query)
  {
    NormTermMatchesSql(stored);
  }
}
