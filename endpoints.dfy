/** The four query handlers of app.py with the database abstracted: the term
    query (app.py:38-97), the location query (app.py:99-144) and the two
    dissociations (app.py:146-241, app.py:243-338), which share one
    partition-and-hydrate engine. */
module Endpoints {
  import opened Wrappers
  import opened Records
  import opened TermNorm
  import opened Dissociation
  import opened TopTerms
  import opened Hydration
  import opened Validators

  /** The `LIMIT`s of the queries. */
  const TermQueryLimit: nat := 100
  const NearestLimit: nat := 50
  const DissociationTermLimit: nat := 1000
  const DissociationNearestLimit: nat := 100

  /** One entry of the term query's `studies` list. */
  datatype StudyHit = StudyHit(studyId: StudyId, contrastId: string, weightForQueryTerm: Option<real>,
                               coords: Option<Point>, topTerms: seq<TermEntry>)

  datatype TermQuery = TermQuery(queryTerm: string, count: nat, studies: seq<StudyHit>)

  /** One entry of the location query's `nearest` list. */
  datatype Nearby = Nearby(studyId: StudyId, coords: Point, topTerms: seq<TermEntry>)

  datatype LocationQuery = LocationQuery(queryCoords: Point, count: nat, nearest: seq<Nearby>)

  /** The counts and the three hydrated lists of a dissociation. */
  datatype Dissociated = Dissociated(aOnlyCount: nat, bOnlyCount: nat, overlapCount: nat,
                                     aOnly: seq<Hydrated>, bOnly: seq<Hydrated>, overlap: seq<Hydrated>)

  datatype TermDissociation = TermDissociation(termARaw: string, termBRaw: string,
                                               termA: string, termB: string, parts: Dissociated)

  datatype LocationDissociation = LocationDissociation(queryA: Point, queryB: Point, parts: Dissociated)

  // ---------------------------------------------------------------------
  // The term query

  /** The top-terms rows: skipped (`[]`) when no study matched. */
  function TermRowsForMatches(db: Db, rows: seq<MatchRow>): seq<TermRow> {
    if rows == [] then [] else db.termsFor(SetOf(MatchIds(rows)))
  }

  predicate AllWeighted(termRows: seq<TermRow>) {
    forall j :: 0 <= j < |termRows| ==> termRows[j].weight.Some?
  }

  /** The entry built for one matched row. */
  function HitOf(row: MatchRow, termRows: seq<TermRow>): (r: StudyHit)
    ensures r.studyId == row.studyId && |r.topTerms| <= TopTermsLimit
  {
    StudyHit(row.studyId, row.contrastId, row.weight, row.point, TopTermsOf(termRows, row.studyId))
  }

  /** The result loop of the term query (app.py:87-96), given the groups
      built from `termRows`: one entry per row, in row order. */
  method BuildHits(rows: seq<MatchRow>, termRows: seq<TermRow>, groups: map<StudyId, seq<TermEntry>>)
    returns (result: seq<StudyHit>)
    requires forall k :: k in groups <==> Mentions(termRows, k)
    requires forall k :: k in groups ==> groups[k] == EntriesOf(termRows, k)
    ensures |result| == |rows|
    ensures forall i :: 0 <= i < |rows| ==> result[i] == HitOf(rows[i], termRows)
  {
    result := [];
    for i := 0 to |rows|
      invariant |result| == i
      invariant forall j :: 0 <= j < i ==> result[j] == HitOf(rows[j], termRows)
    {
      var row := rows[i];
      if row.studyId !in groups {
        EntriesOfAbsent(termRows, row.studyId);
      }
      var terms := if row.studyId in groups then groups[row.studyId] else [];
      result := result + [StudyHit(row.studyId, row.contrastId, row.weight, row.point, TopFive(terms))];
    }
  }

  /** `get_studies_by_term`: the normalised term, then one entry per matched
      row in row order, so the count is the number of rows. A top-terms row
      without a weight makes `float(None)` raise (app.py:85), a 500. */
  method TermStudies(term: string, db: Db) returns (r: Result<TermQuery>)
    ensures var termNorm := NormTerm(term);
      var rows := db.termMatches(termNorm, TermQueryLimit);
      var termRows := TermRowsForMatches(db, rows);
      && (r.Err? <==> !AllWeighted(termRows))
      && (r.Err? ==> r.failure == InternalError)
      && (r.Ok? ==> r.value.queryTerm == termNorm && r.value.count == |rows| && |r.value.studies| == |rows|)
      && (r.Ok? ==> forall i :: 0 <= i < |rows| ==> r.value.studies[i] == HitOf(rows[i], termRows))
  {
    NormalisersAgree(Some(term));
    var termNorm := NormTermInput(Some(term)).value;
    var rows := db.termMatches(termNorm, TermQueryLimit);
    var termRows := if rows != [] then db.termsFor(SetOf(MatchIds(rows))) else [];
    if !AllWeighted(termRows) {
      return Err(InternalError);
    }
    var topTerms := GroupTerms(termRows);
    var result := BuildHits(rows, termRows, topTerms);
    r := Ok(TermQuery(termNorm, |result|, result));
  }

  // ---------------------------------------------------------------------
  // The location query

  function TermRowsForNearest(db: Db, rows: seq<CoordRow>): seq<TermRow> {
    if rows == [] then [] else db.termsFor(SetOf(CoordIds(rows)))
  }

  predicate AllLocated(rows: seq<CoordRow>) {
    forall j :: 0 <= j < |rows| ==> rows[j].point.Some?
  }

  /** The entry built for one nearest row with a geometry. */
  function NearbyOf(row: CoordRow, termRows: seq<TermRow>): (r: Nearby)
    requires row.point.Some?
    ensures r.studyId == row.studyId && |r.topTerms| <= TopTermsLimit
  {
    Nearby(row.studyId, row.point.value, TopTermsOf(termRows, row.studyId))
  }

  /** The result loop of the location query (app.py:136-143): one entry per
      row in row order; a row without a geometry makes `float(None)` raise. */
  method BuildNearby(rows: seq<CoordRow>, termRows: seq<TermRow>, groups: map<StudyId, seq<TermEntry>>)
    returns (r: Result<seq<Nearby>>)
    requires forall k :: k in groups <==> Mentions(termRows, k)
    requires forall k :: k in groups ==> groups[k] == EntriesOf(termRows, k)
    ensures r.Err? <==> !AllLocated(rows)
    ensures r.Err? ==> r.failure == InternalError
    ensures r.Ok? ==> |r.value| == |rows|
    ensures r.Ok? ==> forall i :: 0 <= i < |rows| ==> r.value[i] == NearbyOf(rows[i], termRows)
  {
    var result: seq<Nearby> := [];
    for i := 0 to |rows|
      invariant |result| == i
      invariant forall j :: 0 <= j < i ==> rows[j].point.Some? && result[j] == NearbyOf(rows[j], termRows)
    {
      var row := rows[i];
      if row.point.None? {
        return Err(InternalError);
      }
      if row.studyId !in groups {
        EntriesOfAbsent(termRows, row.studyId);
      }
      var terms := if row.studyId in groups then groups[row.studyId] else [];
      result := result + [Nearby(row.studyId, row.point.value, TopFive(terms))];
    }
    r := Ok(result);
  }

  /** `get_studies_by_coordinates`: a malformed `x_y_z` is a 400; then one
      entry per nearest coordinate row in row order. A missing weight or a
      missing geometry makes `float(None)` raise (app.py:134, 141), a 500. */
  method LocationStudies(coords: string, parseFloat: string -> Option<real>, db: Db)
    returns (r: Result<LocationQuery>)
    ensures UnpackCoords(coords, parseFloat).Err? ==> r == Err(BadRequest)
    ensures UnpackCoords(coords, parseFloat).Ok? ==>
      var p := UnpackCoords(coords, parseFloat).value;
      var rows := db.nearest(p, NearestLimit);
      var termRows := TermRowsForNearest(db, rows);
      && (r.Err? <==> !AllWeighted(termRows) || !AllLocated(rows))
      && (r.Err? ==> r.failure == InternalError)
      && (r.Ok? ==> r.value.queryCoords == p && r.value.count == |rows| && |r.value.nearest| == |rows|)
      && (r.Ok? ==> AllLocated(rows) && forall i :: 0 <= i < |rows| ==> r.value.nearest[i] == NearbyOf(rows[i], termRows))
  {
    var parsed := UnpackCoords(coords, parseFloat);
    if parsed.Err? {
      return Err(BadRequest);
    }
    var p := parsed.value;
    var rows := db.nearest(p, NearestLimit);
    var termRows := if rows != [] then db.termsFor(SetOf(CoordIds(rows))) else [];
    if !AllWeighted(termRows) {
      return Err(InternalError);
    }
    var topTerms := GroupTerms(termRows);
    var result := BuildNearby(rows, termRows, topTerms);
    if result.Err? {
      return Err(InternalError);
    }
    r := Ok(LocationQuery(p, |result.value|, result.value));
  }

  // ---------------------------------------------------------------------
  // The dissociation engine

  /** `recs` holds one record per study of `s`, each as `fetch_details`
      builds it for the id set `s`, in some order. */
  predicate HydratesAll(recs: seq<Hydrated>, s: set<StudyId>, db: Db) {
    Enumerates(RecordIds(recs), s) &&
    forall i :: 0 <= i < |recs| ==> recs[i] == Hydrate(db, s, recs[i].studyId)
  }

  /** What a dissociation of the id sets `a` and `b` returns: each part
      hydrated, and each count the size of its part. */
  predicate IsDissociation(d: Dissociated, a: set<StudyId>, b: set<StudyId>, db: Db) {
    var p := Partition(a, b);
    HydratesAll(d.aOnly, p.aOnly, db) && HydratesAll(d.bOnly, p.bOnly, db) &&
    HydratesAll(d.overlap, p.overlap, db) && PartsListed(d, a, b)
  }

  /** The study lists and counts of a dissociation, without the hydration:
      each list enumerates its part and each count is its part's size. */
  predicate PartsListed(d: Dissociated, a: set<StudyId>, b: set<StudyId>) {
    var p := Partition(a, b);
    Enumerates(RecordIds(d.aOnly), p.aOnly) && Enumerates(RecordIds(d.bOnly), p.bOnly) &&
    Enumerates(RecordIds(d.overlap), p.overlap) &&
    d.aOnlyCount == |p.aOnly| && d.bOnlyCount == |p.bOnly| && d.overlapCount == |p.overlap|
  }

  /** Hydrate one part listed in `list(part)` order. */
  method HydratePart(part: set<StudyId>, db: Db) returns (recs: seq<Hydrated>)
    ensures HydratesAll(recs, part, db) && |recs| == |part|
  {
    var ids := ListOf(part);
    assert SetOf(ids) == part;
    recs := FetchDetails(ids, db);
    assert RecordIds(recs) == ids;
  }

  /** The shared body of both dissociation handlers (app.py:180-237,
      app.py:279-334): partition the two id lists as sets, hydrate the three
      parts, report the counts as the list lengths. */
  method Dissociate(aRows: seq<StudyId>, bRows: seq<StudyId>, db: Db) returns (d: Dissociated)
    ensures IsDissociation(d, SetOf(aRows), SetOf(bRows), db)
    ensures d.aOnlyCount == |d.aOnly| && d.bOnlyCount == |d.bOnly| && d.overlapCount == |d.overlap|
  {
    var p := Partition(SetOf(aRows), SetOf(bRows));
    var aOnly := HydratePart(p.aOnly, db);
    var bOnly := HydratePart(p.bOnly, db);
    var overlap := HydratePart(p.overlap, db);
    d := Dissociated(|aOnly|, |bOnly|, |overlap|, aOnly, bOnly, overlap);
  }

  /** The counts of a dissociation add up: each side's size is its
      exclusive count plus the overlap count, and no study is in two lists. */
  lemma DissociationCounts(d: Dissociated, a: set<StudyId>, b: set<StudyId>)
    requires PartsListed(d, a, b)
    ensures d.aOnlyCount + d.overlapCount == |a| && d.bOnlyCount + d.overlapCount == |b|
    ensures forall i, j :: 0 <= i < |d.aOnly| && 0 <= j < |d.overlap| ==> d.aOnly[i].studyId != d.overlap[j].studyId
    ensures forall i, j :: 0 <= i < |d.aOnly| && 0 <= j < |d.bOnly| ==> d.aOnly[i].studyId != d.bOnly[j].studyId
    ensures forall i, j :: 0 <= i < |d.bOnly| && 0 <= j < |d.overlap| ==> d.bOnly[i].studyId != d.overlap[j].studyId
  {
    var p := Partition(a, b);
    forall i, j | 0 <= i < |d.aOnly| && 0 <= j < |d.overlap|
      ensures d.aOnly[i].studyId != d.overlap[j].studyId
    {
      assert RecordIds(d.aOnly)[i] in p.aOnly && RecordIds(d.overlap)[j] in p.overlap;
    }
    forall i, j | 0 <= i < |d.aOnly| && 0 <= j < |d.bOnly|
      ensures d.aOnly[i].studyId != d.bOnly[j].studyId
    {
      assert RecordIds(d.aOnly)[i] in p.aOnly && RecordIds(d.bOnly)[j] in p.bOnly;
    }
    forall i, j | 0 <= i < |d.bOnly| && 0 <= j < |d.overlap|
      ensures d.bOnly[i].studyId != d.overlap[j].studyId
    {
      assert RecordIds(d.bOnly)[i] in p.bOnly && RecordIds(d.overlap)[j] in p.overlap;
    }
  }

  /** Two lookups that find the same studies give no exclusive studies and
      put every study in the overlap. */
  lemma DissociationOfSameSets(d: Dissociated, a: set<StudyId>)
    requires PartsListed(d, a, a)
    ensures d.aOnly == [] && d.bOnly == [] && d.aOnlyCount == 0 && d.bOnlyCount == 0
    ensures d.overlapCount == |a| && Enumerates(RecordIds(d.overlap), a)
  {
    PartitionOfEqualSets(a);
    EnumerationLength(RecordIds(d.aOnly), {});
    EnumerationLength(RecordIds(d.bOnly), {});
  }

  /** A lookup that finds nothing leaves the other side wholly exclusive:
      a valid result, not an error. */
  lemma DissociationWithEmpty(d: Dissociated, a: set<StudyId>)
    requires PartsListed(d, a, {})
    ensures d.bOnly == [] && d.overlap == [] && d.bOnlyCount == 0 && d.overlapCount == 0
    ensures d.aOnlyCount == |a| && Enumerates(RecordIds(d.aOnly), a)
  {
    PartitionWithEmpty(a);
    EnumerationLength(RecordIds(d.bOnly), {});
    EnumerationLength(RecordIds(d.overlap), {});
  }

  /** `dissociate_terms`: both raw terms normalised, each looked up (at most
      1000 distinct studies), then the shared engine. */
  method DissociateTerms(termA: string, termB: string, db: Db) returns (r: TermDissociation)
    ensures r.termARaw == termA && r.termBRaw == termB
    ensures r.termA == NormTerm(termA) && r.termB == NormTerm(termB)
    ensures IsDissociation(r.parts,
      SetOf(db.studiesWithTerm(NormTerm(termA), DissociationTermLimit)),
      SetOf(db.studiesWithTerm(NormTerm(termB), DissociationTermLimit)), db)
    ensures r.parts.aOnlyCount == |r.parts.aOnly| && r.parts.bOnlyCount == |r.parts.bOnly|
    ensures r.parts.overlapCount == |r.parts.overlap|
  {
    var aTerm := NormTerm(termA);
    var bTerm := NormTerm(termB);
    var aRows := db.studiesWithTerm(aTerm, DissociationTermLimit);
    var bRows := db.studiesWithTerm(bTerm, DissociationTermLimit);
    var d := Dissociate(aRows, bRows, db);
    r := TermDissociation(termA, termB, aTerm, bTerm, d);
  }

  /** `dissociate_locations`: both `x_y_z` strings must parse (else 400,
      before any lookup); then the 100 nearest coordinates of each point,
      then the shared engine. */
  method DissociateLocations(coordsA: string, coordsB: string, parseFloat: string -> Option<real>, db: Db)
    returns (r: Result<LocationDissociation>)
    ensures r.Err? <==> ParseCoords(coordsA, parseFloat).Err? || ParseCoords(coordsB, parseFloat).Err?
    ensures r.Err? ==> r.failure == BadRequest
    ensures r.Ok? ==>
      && r.value.queryA == ParseCoords(coordsA, parseFloat).value
      && r.value.queryB == ParseCoords(coordsB, parseFloat).value
      && IsDissociation(r.value.parts,
           SetOf(CoordIds(db.nearest(r.value.queryA, DissociationNearestLimit))),
           SetOf(CoordIds(db.nearest(r.value.queryB, DissociationNearestLimit))), db)
  {
    var a := ParseCoords(coordsA, parseFloat);
    if a.Err? {
      return Err(BadRequest);
    }
    var b := ParseCoords(coordsB, parseFloat);
    if b.Err? {
      return Err(BadRequest);
    }
    var aRows := CoordIds(db.nearest(a.value, DissociationNearestLimit));
    var bRows := CoordIds(db.nearest(b.value, DissociationNearestLimit));
    var d := Dissociate(aRows, bRows, db);
    r := Ok(LocationDissociation(a.value, b.value, d));
  }
}
