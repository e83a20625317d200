/** The rows the database hands to the query engine and the record shapes the
    engine hands back. Floating-point values are modelled as reals. */
module Records {
  import opened Wrappers

  /** Opaque study identifier. */
  type StudyId = string

  /** A stereotactic coordinate triple `[x, y, z]`. */
  datatype Point = Point(x: real, y: real, z: real)

  /** A row `(study_id, term, weight)` of `ns.annotations_terms`; the weight
      column may be NULL. */
  datatype TermRow = TermRow(studyId: StudyId, term: string, weight: Option<real>)

  /** One `{"term", "weight"}` entry of a study's top-terms list. */
  datatype TermEntry = TermEntry(term: string, weight: Option<real>)

  /** A row `(study_id, x, y, z)` of `ns.coordinates`; `point` is `None` when
      the geometry is NULL. */
  datatype CoordRow = CoordRow(studyId: StudyId, point: Option<Point>)

  /** A row of the term query: an annotation joined (LEFT JOIN) with one of
      its study's coordinates. */
  datatype MatchRow = MatchRow(studyId: StudyId, contrastId: string, weight: Option<real>, point: Option<Point>)

  /** The `{study_id, coords, top_terms}` record built by hydration. */
  datatype Hydrated = Hydrated(studyId: StudyId, coords: Option<Point>, topTerms: seq<TermEntry>)

  /** The database as the engine sees it: one function per query it issues.
      Each takes the query's parameters (a canonical term, a point, a row
      limit, or the set of ids of an `IN (...)` list) and gives the rows in
      the order the database returns them. */
  datatype Db = Db(
    termMatches: (string, nat) -> seq<MatchRow>,
    studiesWithTerm: (string, nat) -> seq<StudyId>,
    nearest: (Point, nat) -> seq<CoordRow>,
    coordsFor: set<StudyId> -> seq<CoordRow>,
    termsFor: set<StudyId> -> seq<TermRow>)

  /** Python's `set(rows)`: the elements of a list as a set. */
  function SetOf(xs: seq<StudyId>): set<StudyId> {
    set x | x in xs
  }

  // The study id of each row, in row order: one projection per row type.

  function MatchIds(rows: seq<MatchRow>): (ids: seq<StudyId>)
    ensures |ids| == |rows|
  {
    seq(|rows|, i requires 0 <= i < |rows| => rows[i].studyId)
  }

  function CoordIds(rows: seq<CoordRow>): (ids: seq<StudyId>)
    ensures |ids| == |rows|
  {
    seq(|rows|, i requires 0 <= i < |rows| => rows[i].studyId)
  }

  function RecordIds(recs: seq<Hydrated>): (ids: seq<StudyId>)
    ensures |ids| == |recs|
  {
    seq(|recs|, i requires 0 <= i < |recs| => recs[i].studyId)
  }
}
