/** When greedy matching pairs as many findings as any pairing could: exactly when no finding can take an
    entry that another one needs more. */
module Pairing {
  import opened Basics
  import opened Baseline

  /** Whenever g matches k and l, and f matches k but not l, g prefers l: l is exact for g and k is not. */
  ghost predicate NoTheft(findings: seq<Finding>, entries: seq<Entry>) {
    forall f, g, k, l {:trigger Steals(f, g, k, l)} ::
      f in findings && g in findings && k in entries && l in entries && Steals(f, g, k, l) ==>
        ExactMatch(l, g) && !ExactMatch(k, g)
  }

  predicate Steals(f: Finding, g: Finding, k: Entry, l: Entry) {
    Matches(k, f) && Matches(k, g) && Matches(l, g) && !Matches(l, f)
  }

  // ----- Counting ----------------------------------------------------------------------------------------

  function One(m: Option<nat>): nat {
    if m.Some? then 1 else 0
  }

  lemma {:induction false} CountAfterUpdate(pairs: seq<Option<nat>>, i: nat, m: Option<nat>)
    requires i < |pairs|
    ensures CountMatched(pairs[i := m]) == CountMatched(pairs) - One(pairs[i]) + One(m)
  {
    var n := |pairs| - 1;
    if i < n {
      assert pairs[i := m][..n] == pairs[..n][i := m];
      CountAfterUpdate(pairs[..n], i, m);
    } else {
      assert pairs[i := m][..n] == pairs[..n];
    }
  }

  lemma {:induction false} MarkedHasAPair(n: nat, pairs: seq<Option<nat>>, k: nat) returns (i: nat)
    requires k < n && Marks(n, pairs)[k]
    ensures i < |pairs| && pairs[i] == Some(k)
  {
    var last := |pairs| - 1;
    if pairs != [] && pairs[last] == Some(k) {
      i := last;
    } else {
      assert pairs != [];
      i := MarkedHasAPair(n, pairs[..last], k);
    }
  }

  // ----- The exchange ------------------------------------------------------------------------------------

  /** A pairing that starts like the greedy one. */
  ghost predicate Follows(findings: seq<Finding>, entries: seq<Entry>, b: seq<Option<nat>>,
      pairs: seq<Option<nat>>, n: nat) {
    |b| == |findings| && n <= |pairs| == |findings| && Matching(findings, entries, b) && b[..n] == pairs[..n]
  }

  lemma MarkedIsEarlier(findings: seq<Finding>, entries: seq<Entry>, b: seq<Option<nat>>,
      pairs: seq<Option<nat>>, n: nat, k: nat)
      returns (i: nat)
    requires Follows(findings, entries, b, pairs, n) && k < |entries| && Marks(|entries|, pairs[..n])[k]
    ensures i < n && b[i] == Some(k)
  {
    i := MarkedHasAPair(|entries|, pairs[..n], k);
    assert b[..n][i] == b[i] && pairs[..n][i] == pairs[i];
  }

  /** An entry that a later finding has in b is free when greedy comes to the n-th finding. */
  lemma LaterPairIsFree(findings: seq<Finding>, entries: seq<Entry>, b: seq<Option<nat>>,
      pairs: seq<Option<nat>>, n: nat, j: nat)
    requires Follows(findings, entries, b, pairs, n) && n <= j < |b| && b[j].Some?
    ensures b[j].value < |entries| && !Marks(|entries|, pairs[..n])[b[j].value]
  {
    assert MatchedBy(findings[j], entries, b[j].value);
    if Marks(|entries|, pairs[..n])[b[j].value] {
      var i := MarkedIsEarlier(findings, entries, b, pairs, n, b[j].value);
      assert false;
    }
  }

  /** An entry that is free when greedy comes to the n-th finding is nobody's before it. */
  lemma FreeEntryIsLater(findings: seq<Finding>, entries: seq<Entry>, b: seq<Option<nat>>,
      pairs: seq<Option<nat>>, n: nat, k: nat, j: nat)
    requires Follows(findings, entries, b, pairs, n) && k < |entries| && !Marks(|entries|, pairs[..n])[k]
    requires j < |b| && b[j] == Some(k)
    ensures j >= n
  {
    if j < n {
      assert b[..n][j] == pairs[..n][j];
      PairsAreMarked(|entries|, pairs[..n], j);
    }
  }

  /** The finding that has in b what greedy gives f can take what f has in b instead. */
  lemma TakenEntryIsReplaceable(findings: seq<Finding>, entries: seq<Entry>, used: seq<bool>, f: Finding,
      g: Finding, m: Option<nat>, k: nat, l: nat)
    requires NoTheft(findings, entries) && f in findings && g in findings
    requires |used| == |entries| && Greedy(entries, used, f, m) && m == Some(k)
    requires l < |entries| && !used[l] && MatchedBy(f, entries, l) && MatchedBy(g, entries, k)
    ensures MatchedBy(g, entries, l)
  {
    assert Matches(entries[k], g) && Matches(entries[l], f) && Matches(entries[k], f);
    assert Steals(g, f, entries[k], entries[l]) || Matches(entries[l], g);
    assert FreeExact(entries, used, f, l) <==> ExactMatch(entries[l], f);
  }

  lemma {:induction false} Swapped(findings: seq<Finding>, entries: seq<Entry>, b: seq<Option<nat>>, n: nat, j: nat)
    requires |b| == |findings| && n < j < |b| && Matching(findings, entries, b)
    requires b[j].Some? && MatchedBy(findings[n], entries, b[j].value)
    requires b[n].Some? ==> MatchedBy(findings[j], entries, b[n].value)
    ensures var c := b[n := b[j]][j := b[n]];
            Matching(findings, entries, c) && CountMatched(c) == CountMatched(b)
  {
    CountAfterUpdate(b, n, b[j]);
    CountAfterUpdate(b[n := b[j]], j, b[n]);
  }

  lemma {:induction false} Filled(findings: seq<Finding>, entries: seq<Entry>, b: seq<Option<nat>>, n: nat,
      m: Option<nat>)
    requires |b| == |findings| && n < |b| && Matching(findings, entries, b)
    requires m.Some? && MatchedBy(findings[n], entries, m.value) && forall j :: 0 <= j < |b| ==> b[j] != m
    ensures Matching(findings, entries, b[n := m]) && CountMatched(b[n := m]) >= CountMatched(b)
  {
    CountAfterUpdate(b, n, m);
  }

  /** What follows greedy for n findings can be made to follow it for one more, at no loss. */
  lemma FollowsOneMore(findings: seq<Finding>, entries: seq<Entry>, b: seq<Option<nat>>, pairs: seq<Option<nat>>, n: nat)
      returns (c: seq<Option<nat>>)
    requires NoTheft(findings, entries) && Follows(findings, entries, b, pairs, n) && n < |pairs|
    requires Greedy(entries, Marks(|entries|, pairs[..n]), findings[n], pairs[n])
    ensures Follows(findings, entries, c, pairs, n + 1) && CountMatched(c) >= CountMatched(b)
  {
    var used, f, m := Marks(|entries|, pairs[..n]), findings[n], pairs[n];
    if b[n].Some? {
      LaterPairIsFree(findings, entries, b, pairs, n, n);
      assert MatchedBy(f, entries, b[n].value);
      assert FreeExact(entries, used, f, b[n].value) || FreeFingerprint(entries, used, f, b[n].value);
    }
    if b[n] == m {
      c := b;
    } else {
      var k := m.value;
      assert MatchedBy(f, entries, k);
      if j :| 0 <= j < |b| && b[j] == m {
        FreeEntryIsLater(findings, entries, b, pairs, n, k, j);
        assert MatchedBy(findings[j], entries, k);
        if b[n].Some? {
          TakenEntryIsReplaceable(findings, entries, used, f, findings[j], m, k, b[n].value);
        }
        Swapped(findings, entries, b, n, j);
        c := b[n := b[j]][j := b[n]];
      } else {
        Filled(findings, entries, b, n, m);
        c := b[n := m];
      }
    }
    assert c[..n + 1] == c[..n] + [c[n]] && pairs[..n + 1] == pairs[..n] + [pairs[n]] && c[..n] == b[..n];
  }

  lemma {:induction false} PassAt(findings: seq<Finding>, entries: seq<Entry>, pairs: seq<Option<nat>>, n: nat)
    requires Pass(findings, entries, pairs) && n < |pairs|
    ensures Greedy(entries, Marks(|entries|, pairs[..n]), findings[n], pairs[n])
    decreases |pairs|
  {
    var last := |pairs| - 1;
    if n < last {
      PassAt(findings[..last], entries, pairs[..last], n);
      assert pairs[..last][..n] == pairs[..n];
    }
  }

  lemma {:induction false} CanFollow(findings: seq<Finding>, entries: seq<Entry>, pairs: seq<Option<nat>>,
      better: seq<Option<nat>>, n: nat)
      returns (c: seq<Option<nat>>)
    requires NoTheft(findings, entries) && Pass(findings, entries, pairs)
    requires |better| == |findings| && Matching(findings, entries, better) && n <= |pairs|
    ensures Follows(findings, entries, c, pairs, n) && CountMatched(c) >= CountMatched(better)
  {
    if n == 0 {
      c := better;
    } else {
      var b := CanFollow(findings, entries, pairs, better, n - 1);
      PassAt(findings, entries, pairs, n - 1);
      c := FollowsOneMore(findings, entries, b, pairs, n - 1);
    }
  }

  /** Greedy pairs as many findings as any other matching of these findings with these entries. */
  ghost predicate Optimal(findings: seq<Finding>, entries: seq<Entry>) {
    forall pairs, better :: Pass(findings, entries, pairs) && |better| == |findings| && Matching(findings, entries, better) ==>
      CountMatched(better) <= CountMatched(pairs)
  }

  lemma NoTheftIsOptimal(findings: seq<Finding>, entries: seq<Entry>)
    requires NoTheft(findings, entries)
    ensures Optimal(findings, entries)
  {
    forall pairs, better | Pass(findings, entries, pairs) && |better| == |findings| && Matching(findings, entries, better)
      ensures CountMatched(better) <= CountMatched(pairs)
    {
      var c := CanFollow(findings, entries, pairs, better, |pairs|);
      assert c == c[..|pairs|] == pairs[..|pairs|] == pairs;
    }
  }

  // ----- The condition is needed -------------------------------------------------------------------------

  /** g, first in line, takes k, and f goes without, although g could have had l. */
  lemma TheftMissesAPairing(f: Finding, g: Finding, k: Entry, l: Entry)
    requires Steals(f, g, k, l) && !(ExactMatch(l, g) && !ExactMatch(k, g))
    ensures !Optimal([g, f], [k, l])
  {
    var findings, entries := [g, f], [k, l];
    var pairs: seq<Option<nat>>, better: seq<Option<nat>> := [Some(0), None], [Some(1), Some(0)];
    assert Marks(2, []) == [false, false];
    assert Greedy(entries, [false, false], g, Some(0)) by {
      assert FreeExact(entries, [false, false], g, 0) || FreeFingerprint(entries, [false, false], g, 0);
    }
    assert pairs[..1] == [Some(0)] && pairs[..1][..0] == [] && findings[..1][..0] == [];
    assert Marks(2, pairs[..1]) == [true, false];
    assert Greedy(entries, [true, false], f, None);
    assert Pass(findings[..1][..0], entries, pairs[..1][..0]);
    assert Pass(findings[..1], entries, pairs[..1]);
    assert Pass(findings, entries, pairs);
    assert better[..1] == [Some(1)] && better[..1][..0] == [];
    assert CountMatched(pairs) == 1 && CountMatched(better) == 2;
    assert Matching(findings, entries, better);
  }

  /** All elements of xs come from ys. */
  ghost predicate From<T>(xs: seq<T>, ys: seq<T>) {
    forall x :: x in xs ==> x in ys
  }

  /** Greedy is optimal for every choice and order of these findings and entries exactly when no theft is
      possible among them. */
  lemma GreedyIsOptimalIffNoTheft(findings: seq<Finding>, entries: seq<Entry>)
    ensures (forall fs, es :: From(fs, findings) && From(es, entries) ==> Optimal(fs, es)) <==> NoTheft(findings, entries)
  {
    if NoTheft(findings, entries) {
      forall fs, es | From(fs, findings) && From(es, entries) ensures Optimal(fs, es) {
        NoTheftIsOptimal(fs, es);
      }
    } else {
      var f, g, k, l :| f in findings && g in findings && k in entries && l in entries && Steals(f, g, k, l)
                        && !(ExactMatch(l, g) && !ExactMatch(k, g));
      TheftMissesAPairing(f, g, k, l);
      assert From([g, f], findings) && From([k, l], entries);
    }
  }
}
