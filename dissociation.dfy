/** The two-set partition shared by both dissociation endpoints
    (app.py:180-185 and app.py:279-284). */
module Dissociation {
  import opened Records

  /** `a_only`, `b_only` and `overlap` as sets. */
  datatype Parts = Parts(aOnly: set<StudyId>, bOnly: set<StudyId>, overlap: set<StudyId>)

  /** `a_ids - b_ids`, `b_ids - a_ids` and `a_ids & b_ids`: the three parts
      are pairwise disjoint, cover `A + B`, and each side is its exclusive
      part plus the overlap. */
  function Partition(a: set<StudyId>, b: set<StudyId>): (p: Parts)
    ensures p.aOnly !! p.bOnly && p.aOnly !! p.overlap && p.bOnly !! p.overlap
    ensures p.aOnly + p.bOnly + p.overlap == a + b
    ensures p.aOnly + p.overlap == a && p.bOnly + p.overlap == b
    ensures |p.aOnly| + |p.overlap| == |a| && |p.bOnly| + |p.overlap| == |b|
  {
    SplitCard(a, b);
    SplitCard(b, a);
    assert b * a == a * b;
    Parts(a - b, b - a, a * b)
  }

  /** A set is its part outside `b` plus its part inside `b`. */
  lemma SplitCard(a: set<StudyId>, b: set<StudyId>)
    ensures (a - b) + (a * b) == a
    ensures |a - b| + |a * b| == |a|
  {
    var x, y := a - b, a * b;
    assert x !! y;
    assert x + y == a;
    assert |x + y| + |x * y| == |x| + |y|;
    assert x * y == {};
  }

  /** Two identical inputs have no exclusive studies. */
  lemma PartitionOfEqualSets(a: set<StudyId>)
    ensures Partition(a, a) == Parts({}, {}, a)
  {
  }

  /** An empty side leaves the other side entirely exclusive. */
  lemma PartitionWithEmpty(a: set<StudyId>)
    ensures Partition(a, {}) == Parts(a, {}, {})
    ensures Partition({}, a) == Parts({}, a, {})
  {
  }

  /** Membership spelled out: a study is in exactly the part its membership
      in `A` and `B` decides. */
  lemma PartitionMembership(a: set<StudyId>, b: set<StudyId>, s: StudyId)
    ensures s in Partition(a, b).aOnly <==> s in a && s !in b
    ensures s in Partition(a, b).bOnly <==> s in b && s !in a
    ensures s in Partition(a, b).overlap <==> s in a && s in b
  {
  }

  /** The worked example of two term queries: "alpha" finds studies 1 and 2,
      "beta" finds 2 and 3. */
  lemma PartitionExample()
    ensures Partition({"1", "2"}, {"2", "3"}) == Parts({"1"}, {"3"}, {"2"})
  {
    var p := Partition({"1", "2"}, {"2", "3"});
    assert "1" != "2" && "2" != "3" && "1" != "3";
    assert p.aOnly == {"1"};
    assert p.bOnly == {"3"};
    assert p.overlap == {"2"};
  }

  // ---------------------------------------------------------------------
  // `list(set)`: some duplicate-free order of the set's elements

  predicate Distinct(xs: seq<StudyId>) {
    forall i, j :: 0 <= i < j < |xs| ==> xs[i] != xs[j]
  }

  /** `xs` lists the elements of `s`, each once, in some order. */
  predicate Enumerates(xs: seq<StudyId>, s: set<StudyId>) {
    Distinct(xs) && (forall x :: x in xs ==> x in s) && (forall x :: x in s ==> x in xs)
  }

  /** A duplicate-free listing of a set is as long as the set is large, so a
      count taken from the list is the set's size. */
  lemma {:induction false} EnumerationLength(xs: seq<StudyId>, s: set<StudyId>)
    requires Enumerates(xs, s)
    ensures |xs| == |s|
    decreases |xs|
  {
    if xs != [] {
      var last := xs[|xs| - 1];
      var init := xs[..|xs| - 1];
      assert last !in init by {
        forall i | 0 <= i < |init| ensures init[i] != last {
          assert xs[i] != xs[|xs| - 1];
        }
      }
      assert forall x :: x in xs <==> x in init || x == last;
      assert Enumerates(init, s - {last});
      EnumerationLength(init, s - {last});
    }
  }

  /** Python's `list(s)`: the order is whatever iteration gives, so the model
      picks an arbitrary element at each step. */
  method ListOf(s: set<StudyId>) returns (xs: seq<StudyId>)
    ensures Enumerates(xs, s)
    ensures |xs| == |s|
  {
    xs := [];
    var rest := s;
    while rest != {}
      invariant rest <= s
      invariant Distinct(xs)
      invariant forall x :: x in xs <==> x in s && x !in rest
      decreases |rest|
    {
      var x :| x in rest;
      xs := xs + [x];
      rest := rest - {x};
    }
    EnumerationLength(xs, s);
  }
}
