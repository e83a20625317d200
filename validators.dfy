/** The boundary checks: the coordinate-string parsers of the location
    endpoints (app.py:102-105, app.py:246-253) and the database URL scheme
    rewrite (app.py:15-20). Python's `float(...)` is a parameter: a partial
    function from a string to a number. */
module Validators {
  import opened Wrappers
  import opened Records

  // ---------------------------------------------------------------------
  // `s.split("_")`

  /** `"_".join(parts)`. */
  function Join(parts: seq<string>): string
    requires |parts| >= 1
    decreases |parts|
  {
    if |parts| == 1 then parts[0] else parts[0] + "_" + Join(parts[1..])
  }

  /** `s.split("_")`: at least one part, no part holds `_`, and joining the
      parts back gives `s`. */
  function Split(s: string): (parts: seq<string>)
    ensures |parts| >= 1
    ensures forall i :: 0 <= i < |parts| ==> '_' !in parts[i]
    ensures Join(parts) == s
    decreases |s|
  {
    if s == [] then [""]
    else
      var rest := Split(s[1..]);
      if s[0] == '_' then
        assert ([""] + rest)[1..] == rest;
        [""] + rest
      else
        var parts := [[s[0]] + rest[0]] + rest[1..];
        assert parts[1..] == rest[1..];
        assert s == [s[0]] + s[1..];
        if |rest| == 1 then parts
        else
          assert Join(rest) == rest[0] + "_" + Join(rest[1..]);
          parts
  }

  /** The number of `_` characters in `s`. */
  function Underscores(s: string): nat
    decreases |s|
  {
    if s == [] then 0 else (if s[0] == '_' then 1 else 0) + Underscores(s[1..])
  }

  /** `split` gives one part more than there are separators. */
  lemma {:induction false} SplitCount(s: string)
    ensures |Split(s)| == Underscores(s) + 1
    decreases |s|
  {
    if s != [] {
      SplitCount(s[1..]);
    }
  }

  lemma {:induction false} SplitNoSeparator(p: string)
    requires '_' !in p
    ensures Split(p) == [p]
    decreases |p|
  {
    if p != [] {
      assert p[1..] == [] || p[1..][0] in p;
      assert '_' !in p[1..] by {
        forall i | 0 <= i < |p[1..]| ensures p[1..][i] != '_' {
          assert p[1..][i] == p[i + 1];
        }
      }
      SplitNoSeparator(p[1..]);
      assert [p[0]] + p[1..] == p;
    }
  }

  lemma {:induction false} SplitAfterPart(p: string, t: string)
    requires '_' !in p
    ensures Split(p + "_" + t) == [p] + Split(t)
    decreases |p|
  {
    var s := p + "_" + t;
    if p == [] {
      assert s == "_" + t;
      assert s[1..] == t;
    } else {
      assert s[0] == p[0];
      assert s[1..] == p[1..] + "_" + t;
      assert '_' !in p[1..] by {
        forall i | 0 <= i < |p[1..]| ensures p[1..][i] != '_' {
          assert p[1..][i] == p[i + 1];
        }
      }
      SplitAfterPart(p[1..], t);
      assert [p[0]] + p[1..] == p;
    }
  }

  /** `split` undoes `join` on parts free of the separator. */
  lemma {:induction false} SplitJoin(parts: seq<string>)
    requires |parts| >= 1
    requires forall i :: 0 <= i < |parts| ==> '_' !in parts[i]
    ensures Split(Join(parts)) == parts
    decreases |parts|
  {
    if |parts| == 1 {
      SplitNoSeparator(parts[0]);
    } else {
      SplitJoin(parts[1..]);
      SplitAfterPart(parts[0], Join(parts[1..]));
      assert [parts[0]] + parts[1..] == parts;
    }
  }

  // ---------------------------------------------------------------------
  // Coordinate strings `x_y_z`

  /** `parse_coords` (app.py:246-253): exactly three `_`-separated parts,
      each a number; anything else is a 400 response. */
  function ParseCoords(s: string, parseFloat: string -> Option<real>): (r: Result<Point>)
    ensures r.Err? ==> r.failure == BadRequest
  {
    var parts := Split(s);
    if |parts| != 3 then Err(BadRequest)
    else
      match (parseFloat(parts[0]), parseFloat(parts[1]), parseFloat(parts[2]))
      case (Some(x), Some(y), Some(z)) => Ok(Point(x, y, z))
      case _ => Err(BadRequest)
  }

  /** What `parse_coords` accepts, stated on the raw string: exactly two
      underscores, and each of the three parts a number; the point holds
      those numbers in order. */
  lemma ParseCoordsAccepts(s: string, parseFloat: string -> Option<real>)
    ensures |Split(s)| == 3 <==> Underscores(s) == 2
    ensures ParseCoords(s, parseFloat).Ok? <==>
      |Split(s)| == 3 && forall i :: 0 <= i < 3 ==> parseFloat(Split(s)[i]).Some?
    ensures ParseCoords(s, parseFloat).Ok? ==>
      ParseCoords(s, parseFloat).value ==
        Point(parseFloat(Split(s)[0]).value, parseFloat(Split(s)[1]).value, parseFloat(Split(s)[2]).value)
  {
    SplitCount(s);
  }

  /** Three numbers written `x_y_z` are accepted as that point. */
  lemma ParseCoordsOfTriple(x: string, y: string, z: string, parseFloat: string -> Option<real>)
    requires '_' !in x && '_' !in y && '_' !in z
    requires parseFloat(x).Some? && parseFloat(y).Some? && parseFloat(z).Some?
    ensures ParseCoords(x + "_" + y + "_" + z, parseFloat) ==
      Ok(Point(parseFloat(x).value, parseFloat(y).value, parseFloat(z).value))
  {
    SplitJoin([x, y, z]);
    assert [x, y, z][1..] == [y, z] && [y, z][1..] == [z];
    assert Join([y, z]) == y + "_" + z;
    assert Join([x, y, z]) == x + "_" + (y + "_" + z);
    assert x + "_" + (y + "_" + z) == x + "_" + y + "_" + z;
  }

  /** `map(float, parts)` consumed to the end: `None` as soon as one part is
      not a number. */
  function MapFloat(parts: seq<string>, parseFloat: string -> Option<real>): (r: Option<seq<real>>)
    ensures r.Some? <==> forall i :: 0 <= i < |parts| ==> parseFloat(parts[i]).Some?
    ensures r.Some? ==> |r.value| == |parts|
    ensures r.Some? ==> forall i :: 0 <= i < |parts| ==> r.value[i] == parseFloat(parts[i]).value
    decreases |parts|
  {
    if parts == [] then Some([])
    else
      match (parseFloat(parts[0]), MapFloat(parts[1..], parseFloat))
      case (Some(v), Some(vs)) =>
        assert forall i :: 1 <= i < |parts| ==> parts[i] == parts[1..][i - 1];
        Some([v] + vs)
      case (None, _) => None
      case (_, None) =>
        assert forall i :: 0 <= i < |parts| - 1 ==> parts[1..][i] == parts[i + 1];
        None
  }

  /** `x, y, z = map(float, coords.split("_"))` (app.py:103): a failing
      `float` and a wrong number of values both end in a 400 response
      (app.py:104-105). */
  function UnpackCoords(coords: string, parseFloat: string -> Option<real>): (r: Result<Point>)
    ensures r.Err? ==> r.failure == BadRequest
  {
    match MapFloat(Split(coords), parseFloat)
    case None => Err(BadRequest)
    case Some(vs) => if |vs| != 3 then Err(BadRequest) else Ok(Point(vs[0], vs[1], vs[2]))
  }

  /** The two location endpoints accept and reject the same strings and
      read the same point from them. */
  lemma LocationParsersAgree(s: string, parseFloat: string -> Option<real>)
    ensures UnpackCoords(s, parseFloat) == ParseCoords(s, parseFloat)
  {
  }

  // ---------------------------------------------------------------------
  // The database URL

  const PostgresScheme: string := "postgres://"
  const PostgresqlScheme: string := "postgresql://"

  predicate StartsWith(s: string, prefix: string) {
    |prefix| <= |s| && s[..|prefix|] == prefix
  }

  /** The scheme rewrite (app.py:19-20): the old scheme is replaced and the
      rest of the URL kept; other URLs pass unchanged. The result never
      carries the old scheme. */
  function RewriteScheme(url: string): (r: string)
    ensures StartsWith(url, PostgresScheme) ==> r == PostgresqlScheme + url[|PostgresScheme|..]
    ensures !StartsWith(url, PostgresScheme) ==> r == url
    ensures !StartsWith(r, PostgresScheme)
  {
    if StartsWith(url, PostgresScheme) then
      var r := PostgresqlScheme + url[|PostgresScheme|..];
      assert r[8] == 'q' && PostgresScheme[8] == ':';
      r
    else url
  }

  /** Rewriting twice is rewriting once. */
  lemma RewriteSchemeIdempotent(url: string)
    ensures RewriteScheme(RewriteScheme(url)) == RewriteScheme(url)
  {
  }

  /** `get_engine`'s URL step (app.py:15-20): an unset or empty `DB_URL` is
      an error; otherwise the URL with its scheme rewritten. */
  function ResolveDbUrl(env: Option<string>): (r: Result<string>)
    ensures r.Ok? <==> env.Some? && env.value != ""
    ensures r.Err? ==> r.failure == MissingDbUrl
    ensures r.Ok? ==> r.value == RewriteScheme(env.value)
    ensures r.Ok? ==> !StartsWith(r.value, PostgresScheme)
  {
    match env
    case None => Err(MissingDbUrl)
    case Some(url) => if url == "" then Err(MissingDbUrl) else Ok(RewriteScheme(url))
  }
}
