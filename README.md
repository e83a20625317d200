# Neuroimaging study query engine — Dafny model

This project models the query engine of a small Flask service over a corpus
of neuroimaging studies (`app.py`). Each study has weighted term annotations
and 3D stereotactic coordinates. The service answers four kinds of request:

- studies annotated with a term;
- studies with coordinates nearest to a point;
- a term-pair dissociation;
- a location-pair dissociation.

A dissociation splits two study sets into "only A", "only B" and "overlap",
and then hydrates every study. Hydrating a study means attaching its
coordinates and its first five term entries.

Every database call is abstract. The datatype `Records.Db` holds one function
per query the code issues. Each function takes the query's parameters (a
canonical term, a point, a row limit, or the id set of an `IN (...)` list) and
returns rows in the order the database delivers them. Python's `float(...)`
on a coordinate string is a parameter `parseFloat: string -> Option<real>`.

Modules, one per component of `app.py`:

- `Wrappers`: `Option`, `Result`, and the failure kinds (400, 500, missing URL).
- `Records`: the row and record shapes, and the `Db` interface.
- `TermNorm`: the Python normalisers `norm_term_input` and `norm_term`, and the
  SQL expression applied to stored terms. They share one whitespace class and
  one ASCII lower-casing. The module proves that the Python and SQL sides
  agree, and proves the shape and idempotence of the result.
- `Dissociation`: the set partition, and `list(set)` as some duplicate-free
  order of the set.
- `TopTerms`: the `setdefault(...).append(...)` grouping loop and the `[:5]`
  cut.
- `Hydration`: `coords_map` (the last row of a study wins) and `fetch_details`.
- `Endpoints`: the four handlers, with the result-assembly loops.
- `Validators`: `split("_")`, both coordinate parsers, and the `DB_URL` scheme
  rewrite.

Three behaviours of `app.py` are easy to misread. The model follows the code:

- The code sorts no top-terms list and breaks no ties. A top-terms list is in
  whatever order the database returns. `TopTerms.EntriesOfSorted` proves that
  this order is kept, not that any order is created.
- `coords_map` is a dict comprehension, so a study with several coordinate
  rows is reported with its **last** row, not its first.
- The two location endpoints fetch different numbers of rows. The location
  query takes the 50 nearest coordinates (app.py:108-115); the location-pair
  dissociation takes 100 (app.py:264).

## Model

| member | source | states |
|---|---|---|
| `TermNorm.NormTermInput` | app.py:43-51 | `norm_term_input`: `None` exactly for `None`; the value is specified by `NormalisersAgree`, `NormTermShape` and `NormTermIdempotent` |
| `TermNorm.NormTerm` | app.py:149-154 | `norm_term`: strip, lower, replace whitespace runs, replace `_` runs, strip `_`; specified by `NormTermMatchesSql`, `NormTermShape` and `NormTermIdempotent` |
| `TermNorm.SqlCanon` | app.py:61 | the stored-term expression, also at app.py:169; specified by `SqlCanonShape`, `SqlCanonOfCanonical` and `StoredTermMatches` |
| `TermNorm.NormTermMatchesSql` | app.py:43-61 | for every string, the query-side normaliser equals the stored-term SQL canonicalisation `trim(both '_' from regexp_replace(lower(t), '[\s_]+', '_', 'g'))` |
| `TermNorm.NormalisersAgree` | app.py:149-154 | `norm_term` returns what `norm_term_input` returns on every string; `None` maps to `None` |
| `TermNorm.NormTermShape` | app.py:43-51 | the normalised term has no whitespace, never contains `__`, does not start or end with `_`, and is lower-case |
| `TermNorm.NormTermIdempotent` | app.py:43-51 | normalising a normalised term gives it back unchanged |
| `TermNorm.SqlCanonShape` | app.py:169 | the stored-term expression always yields a canonical key (no whitespace, no `__`, no `_` at either end, lower-case) |
| `TermNorm.SqlCanonOfCanonical` | app.py:61 | a canonical key is left unchanged by the stored-term expression |
| `TermNorm.StoredTermMatches` | app.py:166-171 | a stored term matches a user's term exactly when both normalise to the same key |
| `TermNorm.TwoPassesAreOne` | app.py:48-49 | replacing whitespace runs and then `_` runs equals replacing runs of whitespace-or-`_` in one pass |
| `TermNorm.LowerStrip` | app.py:46 | stripping whitespace and lower-casing commute |
| `Dissociation.Partition` | app.py:180-185 | `a_only`, `b_only`, `overlap` are pairwise disjoint; their union is `A ∪ B`; the sizes satisfy `len(a_only) + len(overlap) = len(A)` and `len(b_only) + len(overlap) = len(B)` |
| `Dissociation.PartitionMembership` | app.py:183-185 | a study is in `a_only` iff it is in A and not B, in `b_only` iff in B and not A, in `overlap` iff in both |
| `Dissociation.PartitionOfEqualSets` | app.py:282-284 | equal inputs give empty exclusive parts and the whole set as overlap |
| `Dissociation.PartitionWithEmpty` | app.py:183-185 | an empty side gives the other side wholly exclusive and an empty overlap |
| `Dissociation.PartitionExample` | app.py:180-185 | {1,2} against {2,3} gives `a_only` {1}, `b_only` {3}, `overlap` {2} |
| `Dissociation.EnumerationLength` | app.py:231-233 | a duplicate-free list of a set's elements is exactly as long as the set is large |
| `Dissociation.ListOf` | app.py:183 | `list(set)` lists each element of the set exactly once, in some order |
| `TopTerms.GroupTerms` | app.py:82-85 | the grouping loop makes a list for exactly the studies that have rows; each list holds that study's entries in row order |
| `TopTerms.EntriesOfAbsent` | app.py:95 | a study without rows has no entries, matching `top_terms.get(sid, [])` |
| `TopTerms.EntriesOfOrigin` | app.py:206-209 | every entry in a study's list comes from a row of that study and no other; the list has one entry per such row |
| `TopTerms.GroupSizesSumToRows` | app.py:131-134 | the group lengths, summed over the studies, equal the number of rows |
| `TopTerms.EntriesOfSorted` | app.py:72-85 | if the rows come sorted by weight within each study (`ORDER BY study_id, weight DESC`, NULL first), so does every group |
| `TopTerms.TopFive` | app.py:218 | `lst[:5]` holds `min(5, n)` entries, the first ones of the list |
| `TopTerms.TopTermsSorted` | app.py:142 | a top-terms list is a prefix of at most 5 of the study's entries and keeps the database's weight order |
| `Hydration.CoordsMap` | app.py:211 | `coords_map` has a key for exactly the studies that have a coordinate row |
| `Hydration.CoordsLookup` | app.py:217 | `coords_map.get(sid)`: `None` for a study without a key; specified together with `CoordsMap` by `CoordsMapLastWins` |
| `Hydration.Hydrate` | app.py:213-219 | one `fetch_details` record: it carries the study's own id and at most five top terms; its fields are specified by `HydratedCoords` and `HydratedTopTerms` |
| `Hydration.CoordsMapLastWins` | app.py:310 | the last coordinate row of a study decides its `coords_map` value |
| `Hydration.HydratedCoords` | app.py:211-217 | a record's coordinates come from the study's last coordinate row, or are `None` if it has none |
| `Hydration.HydratedTopTerms` | app.py:213-219 | a record's top terms are the first `min(5, n)` entries of its group, or `[]` if it has none |
| `Hydration.FetchDetails` | app.py:187-220 | `fetch_details([])` is `[]`; otherwise exactly one record per input id, in input order, each hydrated from the queries for that id set |
| `Endpoints.TermRowsForMatches` | app.py:66-79 | the term query's top-terms rows: the `IN` query over the matched studies, skipped when there are no matches; `TermStudies` states its result through it |
| `Endpoints.HitOf` | app.py:90-96 | one term-query entry: it carries the row's study and at most five top terms; `BuildHits` and `TermStudies` tie each entry to it |
| `Endpoints.BuildHits` | app.py:87-96 | the term query's result loop gives one entry per matched row, in row order, with that row's study, contrast, weight and coordinates and its study's top terms |
| `Endpoints.BuildNearby` | app.py:136-143 | the location query's result loop gives one entry per row, in row order, with the study's top terms; a row without a geometry gives a 500 |
| `Endpoints.TermRowsForNearest` | app.py:117-128 | the location query's top-terms rows, skipped when there are no nearest rows; `LocationStudies` states its result through it |
| `Endpoints.NearbyOf` | app.py:139-143 | one location-query entry for a row with a geometry: it carries the row's study and at most five top terms; `BuildNearby` and `LocationStudies` tie each entry to it |
| `Endpoints.TermStudies` | app.py:53-97 | the term query returns the normalised term and one entry per matched row in row order, with count = number of rows; a top-terms row without a weight gives a 500 |
| `Endpoints.LocationStudies` | app.py:100-144 | a malformed `x_y_z` is a 400; otherwise one entry per nearest row in row order, with count = number of rows; a missing weight or geometry gives a 500 |
| `Endpoints.HydratePart` | app.py:222-224 | hydrating a part yields one record per study of the part, each once, as `fetch_details` builds it |
| `Endpoints.Dissociate` | app.py:279-334 | the shared engine: each of the three lists hydrates exactly its part of the partition, and each reported count equals its list's length and its set's size |
| `Endpoints.DissociationCounts` | app.py:226-237 | `a_only_count + overlap_count = len(A)`, `b_only_count + overlap_count = len(B)`, and no study appears in two lists |
| `Endpoints.DissociationOfSameSets` | app.py:321-333 | two lookups that return the same studies give empty `a_only` and `b_only` and full overlap |
| `Endpoints.DissociationWithEmpty` | app.py:222-233 | an empty lookup on the B side is a valid result: `a_only` is all of A, `b_only` and `overlap` are empty |
| `Endpoints.DissociateTerms` | app.py:148-237 | both raw terms are normalised, each looked up (up to 1000 studies), and the results partitioned and hydrated |
| `Endpoints.DissociateLocations` | app.py:245-334 | a 400 exactly when either coordinate string fails to parse, before any lookup; otherwise the 100 nearest studies of each point, partitioned and hydrated |
| `Validators.Split` | app.py:247 | `split("_")` yields at least one part, no part contains `_`, and joining the parts with `_` gives the input back |
| `Validators.SplitJoin` | app.py:247 | splitting undoes joining for parts free of `_` |
| `Validators.SplitCount` | app.py:248 | the number of parts is the number of `_` plus one |
| `Validators.ParseCoords` | app.py:246-253 | every rejection is a 400 |
| `Validators.ParseCoordsAccepts` | app.py:246-253 | accepted iff there are exactly three parts (two `_`) and each parses as a number; the point holds those numbers in order |
| `Validators.ParseCoordsOfTriple` | app.py:250-251 | `x_y_z` built from three numbers without `_` is accepted as the point (x, y, z) |
| `Validators.MapFloat` | app.py:103 | `map(float, parts)` succeeds iff every part parses, and gives their values in order |
| `Validators.UnpackCoords` | app.py:102-105 | `x, y, z = map(float, coords.split("_"))`: every failure is a 400; `LocationParsersAgree` shows it accepts exactly what `ParseCoords` accepts |
| `Validators.LocationParsersAgree` | app.py:102-105 | the location query's unpacking parser and the dissociation's `parse_coords` accept the same strings and give the same point |
| `Validators.RewriteScheme` | app.py:19-20 | a `postgres://` URL becomes `postgresql://` plus the unchanged remainder; any other URL is unchanged; the result never starts with `postgres://` |
| `Validators.RewriteSchemeIdempotent` | app.py:19-20 | applying the rewrite twice equals applying it once |
| `Validators.ResolveDbUrl` | app.py:15-20 | an unset or empty `DB_URL` is an error; otherwise the result is `RewriteScheme` of the URL, which never starts with `postgres://` |

## Left out

- Flask routing, `jsonify`, `abort`, `send_file`, and the health, image and `/test_db` handlers (app.py:30-36, 340-386): transport and plumbing. The handlers that can fail return `Result` values, with `BadRequest` for a 400 and `InternalError` for a 500. `Endpoints.DissociateTerms` cannot fail in the model, so it returns its record directly.
- The `/ui` handler and its page (app.py:388-463): unreachable code after a `return`.
- SQLAlchemy and PostGIS: the engine singleton and its connection pool, `SET search_path`, the KNN `<->` ordering, `IN`-list building, and the enforcement of `LIMIT` and `ORDER BY`. Query results are the outputs of the abstract `Db` functions. The model therefore never assumes a result is capped, sorted or duplicate-free. It states sortedness as a hypothesis where the code relies on it.
- Database failures (`OperationalError`, app.py:238-241 and 335-338): the `Db` functions are total, so no lookup fails in the model.
- The handlers assume the engine resolves. Every handler calls `get_engine()` outside any `try` (app.py:41, 107, 159, 258), so an unset `DB_URL` makes each of them fail with a 500. The model's handlers take the database as a parameter and cannot fail that way.
- `get_engine`'s caching of the engine in a global (app.py:9-25): only the URL step is modelled, as `Validators.ResolveDbUrl`.
- Floating-point conversion: weights and coordinates are reals. A coordinate is atomic, present or absent, so a row with `x` present but `y` NULL is not modelled.
- Python's `float` on strings is the parameter `parseFloat`. Which strings it accepts is not modelled.
- Unicode: `Lower` is ASCII lower-casing, and `IsSpace` is the ASCII whitespace class (space and `\t` to `\r`). Python's `strip()`/`\s` also treat `\x1c`-`\x1f` and Unicode spaces as whitespace. Postgres's `\s` depends on the locale. `TermNorm.NormTermMatchesSql` holds for the shared class.
- `TermNorm.NormTermMatchesSql` also assumes both sides lower-case alike. Python's multi-character lower-casings (such as `İ`) are not modelled.
- `Endpoints.TermStudies` and `Endpoints.LocationStudies` check all top-terms weights before grouping. Python raises at the first NULL weight inside the grouping loop. Both give the same response, a 500 with no partial result.
- The order of `list(set)` is Python's iteration order. `Dissociation.ListOf` picks an arbitrary order, and the contracts hold for every order.
- `query_terms.py`: a script that prints database counts. It has no logic.
