/** Grouping of `(study_id, term, weight)` rows into per-study lists
    (`top_terms.setdefault(sid, []).append(...)`, app.py:82-85, 131-134,
    206-209) and the first-five cut taken by every consumer. */
module TopTerms {
  import opened Wrappers
  import opened Records

  /** Every consumer keeps this many entries per study. */
  const TopTermsLimit: nat := 5

  function EntryOf(r: TermRow): TermEntry {
    TermEntry(r.term, r.weight)
  }

  /** Reference definition: the entries of the rows of study `k`, in row
      order. */
  function EntriesOf(rows: seq<TermRow>, k: StudyId): seq<TermEntry>
    decreases |rows|
  {
    if rows == [] then []
    else
      var last := rows[|rows| - 1];
      EntriesOf(rows[..|rows| - 1], k) + (if last.studyId == k then [EntryOf(last)] else [])
  }

  /** The studies the rows belong to. */
  function StudiesOf(rows: seq<TermRow>): set<StudyId> {
    set j | 0 <= j < |rows| :: rows[j].studyId
  }

  /** Some row belongs to study `k`. */
  predicate Mentions(rows: seq<TermRow>, k: StudyId) {
    k in StudiesOf(rows)
  }

  /** The grouping loop. The map has a list for exactly the studies that
      occur in `rows`, and each list is that study's entries in row order. */
  method GroupTerms(rows: seq<TermRow>) returns (groups: map<StudyId, seq<TermEntry>>)
    ensures forall k :: k in groups <==> Mentions(rows, k)
    ensures forall k :: k in groups ==> groups[k] == EntriesOf(rows, k)
  {
    groups := map[];
    var i := 0;
    while i < |rows|
      invariant 0 <= i <= |rows|
      invariant forall k :: k in groups <==> Mentions(rows[..i], k)
      invariant forall k :: k in groups ==> groups[k] == EntriesOf(rows[..i], k)
    {
      var sid := rows[i].studyId;
      ghost var prefix := rows[..i];
      assert rows[..i + 1][..i] == prefix;
      if sid !in groups {
        EntriesOfAbsent(prefix, sid);
      }
      var list := if sid in groups then groups[sid] else [];
      groups := groups[sid := list + [EntryOf(rows[i])]];
      forall k ensures EntriesOf(rows[..i + 1], k) ==
        EntriesOf(prefix, k) + (if k == sid then [EntryOf(rows[i])] else [])
      {
      }
      forall k ensures Mentions(rows[..i + 1], k) <==> Mentions(prefix, k) || k == sid {
        if Mentions(rows[..i + 1], k) {
          var j :| 0 <= j < i + 1 && rows[..i + 1][j].studyId == k;
          if j < i { assert prefix[j].studyId == k; }
        }
        if Mentions(prefix, k) {
          var j :| 0 <= j < i && prefix[j].studyId == k;
          assert rows[..i + 1][j].studyId == k;
        }
        if k == sid { assert rows[..i + 1][i].studyId == k; }
      }
      i := i + 1;
    }
    assert rows[..|rows|] == rows;
  }

  /** A study that no row mentions has no entries (`top_terms.get(sid, [])`). */
  lemma {:induction false} EntriesOfAbsent(rows: seq<TermRow>, k: StudyId)
    requires !Mentions(rows, k)
    ensures EntriesOf(rows, k) == []
    decreases |rows|
  {
    if rows != [] {
      var init := rows[..|rows| - 1];
      assert !Mentions(init, k) by {
        forall j | 0 <= j < |init| ensures init[j].studyId != k {
          assert init[j] == rows[j];
        }
      }
      EntriesOfAbsent(init, k);
    }
  }

  /** Every entry in study `k`'s list comes from a row of study `k` and no
      other, and the list has one entry per row of study `k`. */
  lemma {:induction false} EntriesOfOrigin(rows: seq<TermRow>, k: StudyId)
    ensures forall e :: e in EntriesOf(rows, k) ==>
      exists j :: 0 <= j < |rows| && rows[j].studyId == k && EntryOf(rows[j]) == e
    ensures |EntriesOf(rows, k)| == |set j | 0 <= j < |rows| && rows[j].studyId == k|
    decreases |rows|
  {
    if rows != [] {
      var n := |rows| - 1;
      var init := rows[..n];
      EntriesOfOrigin(init, k);
      forall e | e in EntriesOf(init, k)
        ensures exists j :: 0 <= j < |rows| && rows[j].studyId == k && EntryOf(rows[j]) == e
      {
        var j :| 0 <= j < |init| && init[j].studyId == k && EntryOf(init[j]) == e;
        assert rows[j] == init[j];
      }
      var before := set j | 0 <= j < n && init[j].studyId == k;
      var now := set j | 0 <= j < |rows| && rows[j].studyId == k;
      if rows[n].studyId == k {
        assert now == before + {n};
      } else {
        assert now == before;
      }
    }
  }

  // ---------------------------------------------------------------------
  // The group lengths sum to the number of rows

  /** The total of `|EntriesOf(rows, k)|` over the studies `keys`. */
  ghost function GroupSizeSum(rows: seq<TermRow>, keys: set<StudyId>): nat
    decreases keys
  {
    if keys == {} then 0
    else
      var k :| k in keys;
      |EntriesOf(rows, k)| + GroupSizeSum(rows, keys - {k})
  }

  lemma {:induction false} GroupSizeSumRemove(rows: seq<TermRow>, keys: set<StudyId>, k: StudyId)
    requires k in keys
    ensures GroupSizeSum(rows, keys) == |EntriesOf(rows, k)| + GroupSizeSum(rows, keys - {k})
    decreases keys
  {
    var c :| c in keys && GroupSizeSum(rows, keys) == |EntriesOf(rows, c)| + GroupSizeSum(rows, keys - {c});
    if c != k {
      GroupSizeSumRemove(rows, keys - {c}, k);
      GroupSizeSumRemove(rows, keys - {k}, c);
      assert keys - {c} - {k} == keys - {k} - {c};
    }
  }

  /** Adding a row leaves the sum over studies other than its own unchanged. */
  lemma {:induction false} GroupSizeSumOthers(rows: seq<TermRow>, keys: set<StudyId>)
    requires rows != [] && rows[|rows| - 1].studyId !in keys
    ensures GroupSizeSum(rows, keys) == GroupSizeSum(rows[..|rows| - 1], keys)
    decreases keys
  {
    if keys != {} {
      var k :| k in keys;
      GroupSizeSumRemove(rows, keys, k);
      GroupSizeSumRemove(rows[..|rows| - 1], keys, k);
      GroupSizeSumOthers(rows, keys - {k});
    }
  }

  /** Every row lands in exactly one list: summed over any set of studies
      that includes all the rows' studies, the list lengths add up to the
      number of rows. */
  lemma {:induction false} GroupSizesSumToRows(rows: seq<TermRow>, keys: set<StudyId>)
    requires StudiesOf(rows) <= keys
    ensures GroupSizeSum(rows, keys) == |rows|
    decreases |rows|, keys
  {
    if rows == [] {
      if keys != {} {
        var k :| k in keys;
        GroupSizeSumRemove(rows, keys, k);
        GroupSizesSumToRows(rows, keys - {k});
      }
    } else {
      var n := |rows| - 1;
      var init := rows[..n];
      var k := rows[n].studyId;
      assert k in StudiesOf(rows);
      assert StudiesOf(init) <= keys by {
        forall j | 0 <= j < |init| ensures init[j].studyId in keys {
          assert init[j] == rows[j];
        }
      }
      GroupSizeSumRemove(rows, keys, k);
      GroupSizeSumOthers(rows, keys - {k});
      GroupSizeSumRemove(init, keys, k);
      GroupSizesSumToRows(init, keys);
    }
  }

  // ---------------------------------------------------------------------
  // Order: the engine keeps the order the database sorted by

  /** `a` may come before `b` under `ORDER BY weight DESC`, where NULL sorts
      first. */
  predicate AtLeast(a: Option<real>, b: Option<real>) {
    a.None? || (b.Some? && a.value >= b.value)
  }

  /** Rows of the same study come in non-increasing weight order, as
      `ORDER BY study_id, weight DESC` delivers them. */
  predicate SortedWithinStudies(rows: seq<TermRow>) {
    forall i, j :: 0 <= i < j < |rows| && rows[i].studyId == rows[j].studyId ==>
      AtLeast(rows[i].weight, rows[j].weight)
  }

  predicate Descending(es: seq<TermEntry>) {
    forall i, j :: 0 <= i < j < |es| ==> AtLeast(es[i].weight, es[j].weight)
  }

  /** The grouping keeps the database's order: if the rows are sorted by
      weight within each study, so is every study's list. */
  lemma {:induction false} EntriesOfSorted(rows: seq<TermRow>, k: StudyId)
    requires SortedWithinStudies(rows)
    ensures Descending(EntriesOf(rows, k))
    decreases |rows|
  {
    if rows != [] {
      var n := |rows| - 1;
      var init := rows[..n];
      assert SortedWithinStudies(init) by {
        forall i, j | 0 <= i < j < |init| && init[i].studyId == init[j].studyId
          ensures AtLeast(init[i].weight, init[j].weight)
        {
          assert init[i] == rows[i] && init[j] == rows[j];
        }
      }
      EntriesOfSorted(init, k);
      if rows[n].studyId == k {
        EntriesOfOrigin(init, k);
        var es := EntriesOf(init, k);
        forall i | 0 <= i < |es| ensures AtLeast(es[i].weight, rows[n].weight) {
          assert es[i] in es;
          var j :| 0 <= j < |init| && init[j].studyId == k && EntryOf(init[j]) == es[i];
          assert rows[j] == init[j];
        }
      }
    }
  }

  /** `lst[:5]`: at most five entries, the first ones of the list. */
  function TopFive(es: seq<TermEntry>): (r: seq<TermEntry>)
    ensures |r| <= TopTermsLimit
    ensures |r| == if |es| < TopTermsLimit then |es| else TopTermsLimit
    ensures r == es[..|r|]
  {
    if |es| <= TopTermsLimit then es else es[..TopTermsLimit]
  }

  /** What a record shows for study `k`: the first five entries of its
      group, or `[]` when it has none. */
  function TopTermsOf(rows: seq<TermRow>, k: StudyId): seq<TermEntry> {
    TopFive(EntriesOf(rows, k))
  }

  /** Each top-terms list is in the database's weight order and holds at
      most five of the study's own entries. */
  lemma TopTermsSorted(rows: seq<TermRow>, k: StudyId)
    requires SortedWithinStudies(rows)
    ensures Descending(TopTermsOf(rows, k))
    ensures |TopTermsOf(rows, k)| <= TopTermsLimit
    ensures TopTermsOf(rows, k) == EntriesOf(rows, k)[..|TopTermsOf(rows, k)|]
  {
    EntriesOfSorted(rows, k);
  }
}
