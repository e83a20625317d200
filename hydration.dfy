/** Hydration (`fetch_details`, app.py:187-220 and its copy at
    app.py:286-319): one `{study_id, coords, top_terms}` record per id. */
module Hydration {
  import opened Wrappers
  import opened Records
  import opened TopTerms

  /** The dict comprehension building `coords_map` (app.py:211): rows are
      inserted in order, so a later row of a study overwrites an earlier one.
      The map has a key for exactly the studies that have a row. */
  function CoordsMap(rows: seq<CoordRow>): (m: map<StudyId, Option<Point>>)
    ensures m.Keys == SetOf(CoordIds(rows))
    decreases |rows|
  {
    if rows == [] then map[]
    else
      var n := |rows| - 1;
      var m := CoordsMap(rows[..n]);
      assert CoordIds(rows) == CoordIds(rows[..n]) + [rows[n].studyId];
      m[rows[n].studyId := rows[n].point]
  }

  /** `coords_map.get(sid)`. */
  function CoordsLookup(m: map<StudyId, Option<Point>>, sid: StudyId): Option<Point> {
    if sid in m then m[sid] else None
  }

  /** Row `j` is the last row of study `sid`. */
  predicate IsLastRowOf(rows: seq<CoordRow>, j: int, sid: StudyId) {
    0 <= j < |rows| && rows[j].studyId == sid &&
    forall j' :: j < j' < |rows| ==> rows[j'].studyId != sid
  }

  /** The last row of a study decides its coordinates. */
  lemma {:induction false} CoordsMapLastWins(rows: seq<CoordRow>, j: nat, sid: StudyId)
    requires IsLastRowOf(rows, j, sid)
    ensures CoordsLookup(CoordsMap(rows), sid) == rows[j].point
    decreases |rows|
  {
    var n := |rows| - 1;
    if j < n {
      assert rows[..n][j] == rows[j];
      forall j' | j < j' < n ensures rows[..n][j'].studyId != sid {
        assert rows[..n][j'] == rows[j'];
      }
      CoordsMapLastWins(rows[..n], j, sid);
    }
  }

  /** The record `fetch_details` builds for study `sid` when the `IN (...)`
      list holds the ids `ids`. */
  function Hydrate(db: Db, ids: set<StudyId>, sid: StudyId): (r: Hydrated)
    ensures r.studyId == sid && |r.topTerms| <= TopTermsLimit
  {
    Hydrated(sid, CoordsLookup(CoordsMap(db.coordsFor(ids)), sid), TopTermsOf(db.termsFor(ids), sid))
  }

  /** A record's coordinates come from the study's last coordinate row, or
      are `None` when it has none. */
  lemma HydratedCoords(db: Db, ids: set<StudyId>, sid: StudyId)
    ensures Hydrate(db, ids, sid).studyId == sid
    ensures (forall j :: 0 <= j < |db.coordsFor(ids)| ==> db.coordsFor(ids)[j].studyId != sid) ==>
      Hydrate(db, ids, sid).coords == None
    ensures forall j :: IsLastRowOf(db.coordsFor(ids), j, sid) ==>
      Hydrate(db, ids, sid).coords == db.coordsFor(ids)[j].point
  {
    var rows := db.coordsFor(ids);
    forall j | IsLastRowOf(rows, j, sid)
      ensures Hydrate(db, ids, sid).coords == rows[j].point
    {
      CoordsMapLastWins(rows, j, sid);
    }
  }

  /** A record's top terms are the first `min(5, n)` of the study's `n` term
      entries, and `[]` when it has none. */
  lemma HydratedTopTerms(db: Db, ids: set<StudyId>, sid: StudyId)
    ensures !Mentions(db.termsFor(ids), sid) ==> Hydrate(db, ids, sid).topTerms == []
    ensures var es := EntriesOf(db.termsFor(ids), sid);
      Hydrate(db, ids, sid).topTerms == es[..if |es| < TopTermsLimit then |es| else TopTermsLimit]
  {
    if !Mentions(db.termsFor(ids), sid) {
      EntriesOfAbsent(db.termsFor(ids), sid);
    }
  }

  /** `fetch_details(study_ids)`: no ids give `[]` without a query;
      otherwise one record per id, in the ids' order. */
  method FetchDetails(studyIds: seq<StudyId>, db: Db) returns (results: seq<Hydrated>)
    ensures |results| == |studyIds|
    ensures forall i :: 0 <= i < |studyIds| ==> results[i] == Hydrate(db, SetOf(studyIds), studyIds[i])
  {
    if studyIds == [] {
      return [];
    }
    var ids := SetOf(studyIds);
    var coordsRows := db.coordsFor(ids);
    var termRows := db.termsFor(ids);
    var topTerms := GroupTerms(termRows);
    var coordsMap := CoordsMap(coordsRows);
    results := [];
    for i := 0 to |studyIds|
      invariant |results| == i
      invariant forall j :: 0 <= j < i ==> results[j] == Hydrate(db, ids, studyIds[j])
    {
      var sid := studyIds[i];
      if sid !in topTerms {
        EntriesOfAbsent(termRows, sid);
      }
      var terms := if sid in topTerms then topTerms[sid] else [];
      assert Hydrated(sid, CoordsLookup(coordsMap, sid), TopFive(terms)) == Hydrate(db, ids, sid);
      results := results + [Hydrated(sid, CoordsLookup(coordsMap, sid), TopFive(terms))];
    }
  }
}
