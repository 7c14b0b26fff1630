/** Guardrail findings against a baseline: greedy matching, shrink candidates, rebuilding the baseline,
    and the summary. */
module Baseline {
  import opened Basics
  import opened Sorting

  datatype Status = New | Existing | ShrinkCandidate | Unset

  datatype Finding = Finding(
    ruleId: string, severity: string, file: string, kind: string,
    startLine: int, endLine: int, symbol: string, message: string, fingerprint: string, status: Status)

  /** Baseline entries are findings without a status. */
  datatype Entry = Entry(
    ruleId: string, severity: string, file: string, kind: string,
    startLine: int, endLine: int, symbol: string, message: string, fingerprint: string)

  predicate SameKind(e: Entry, f: Finding) {
    e.ruleId == f.ruleId && e.file == f.file && e.kind == f.kind
  }

  predicate ExactMatch(e: Entry, f: Finding) {
    SameKind(e, f)
    && if e.kind == "file" then e.fingerprint == f.fingerprint
       else e.startLine == f.startLine && e.endLine == f.endLine && e.symbol == f.symbol
  }

  predicate FingerprintMatch(e: Entry, f: Finding) {
    SameKind(e, f) && e.symbol == f.symbol && e.fingerprint == f.fingerprint
  }

  // ----- Collecting --------------------------------------------------------------------------------------

  function Collect<A, B>(f: A -> Option<B>, xs: seq<A>): seq<B> {
    if xs == [] then []
    else
      var n := |xs| - 1;
      Collect(f, xs[..n]) + if f(xs[n]).Some? then [f(xs[n]).value] else []
  }

  lemma {:induction false} CollectAppends<A, B>(f: A -> Option<B>, xs: seq<A>, ys: seq<A>)
    ensures Collect(f, xs + ys) == Collect(f, xs) + Collect(f, ys)
  {
    if ys == [] {
      assert xs + ys == xs;
    } else {
      var n := |ys| - 1;
      assert (xs + ys)[..|xs| + n] == xs + ys[..n];
      CollectAppends(f, xs, ys[..n]);
    }
  }

  function Gives<A, B>(f: A -> Option<B>, x: A): multiset<B> {
    if f(x).Some? then multiset{f(x).value} else multiset{}
  }

  function WithoutAt<A>(xs: seq<A>, j: nat): seq<A>
    requires j < |xs|
  {
    xs[..j] + xs[j + 1..]
  }

  /** Without its j-th element a list collects one thing less, or as much as before. */
  lemma {:induction false} CollectWithout<A, B>(f: A -> Option<B>, xs: seq<A>, j: nat)
    requires j < |xs|
    ensures multiset(Collect(f, xs)) == multiset(Collect(f, WithoutAt(xs, j))) + Gives(f, xs[j])
  {
    var one, rest := [xs[j]], xs[j + 1..];
    assert xs == xs[..j] + (one + rest);
    CollectAppends(f, xs[..j], rest);
    CollectAppends(f, xs[..j], one + rest);
    CollectAppends(f, one, rest);
    assert multiset(Collect(f, one)) == Gives(f, xs[j]);
  }

  lemma {:induction false} WithoutKeepsOthers<A>(xs: seq<A>, j: nat)
    requires j < |xs|
    ensures multiset(xs) == multiset(WithoutAt(xs, j)) + multiset{xs[j]}
  {
    assert xs == xs[..j] + ([xs[j]] + xs[j + 1..]);
  }

  lemma {:induction false} SameWithout<A>(xs: seq<A>, ys: seq<A>, j: nat)
    requires xs != [] && j < |ys| && ys[j] == xs[0] && multiset(xs) == multiset(ys)
    ensures multiset(WithoutAt(xs, 0)) == multiset(WithoutAt(ys, j)) && |WithoutAt(xs, 0)| < |xs|
  {
    WithoutKeepsOthers(xs, 0);
    WithoutKeepsOthers(ys, j);
    assert multiset(WithoutAt(xs, 0)) == multiset(xs) - multiset{xs[0]} == multiset(WithoutAt(ys, j));
  }

  /** What is collected depends on the elements and not on their order. */
  lemma {:induction false} CollectIgnoresOrder<A, B>(f: A -> Option<B>, xs: seq<A>, ys: seq<A>)
    requires multiset(xs) == multiset(ys)
    ensures multiset(Collect(f, xs)) == multiset(Collect(f, ys))
    decreases |xs|
  {
    if xs == [] {
      assert |multiset(ys)| == |ys|;
    } else {
      assert xs[0] in multiset(ys);
      var j :| 0 <= j < |ys| && ys[j] == xs[0];
      var xr, yr := WithoutAt(xs, 0), WithoutAt(ys, j);
      SameWithout(xs, ys, j);
      CollectIgnoresOrder(f, xr, yr);
      CollectWithout(f, xs, 0);
      CollectWithout(f, ys, j);
    }
  }

  // ----- Greedy matching ---------------------------------------------------------------------------------

  predicate FreeExact(entries: seq<Entry>, used: seq<bool>, f: Finding, i: nat)
    requires |used| == |entries|
  {
    i < |entries| && !used[i] && ExactMatch(entries[i], f)
  }

  predicate FreeFingerprint(entries: seq<Entry>, used: seq<bool>, f: Finding, i: nat)
    requires |used| == |entries|
  {
    i < |entries| && !used[i] && FingerprintMatch(entries[i], f)
  }

  /** What matchBaseline promises: the first free exact match, else the first free fingerprint match. */
  ghost predicate Greedy(entries: seq<Entry>, used: seq<bool>, f: Finding, m: Option<nat>)
    requires |used| == |entries|
  {
    match m
    case Some(i) =>
      || (FreeExact(entries, used, f, i) && forall j: nat :: j < i ==> !FreeExact(entries, used, f, j))
      || (FreeFingerprint(entries, used, f, i) && (forall j: nat :: !FreeExact(entries, used, f, j))
          && forall j: nat :: j < i ==> !FreeFingerprint(entries, used, f, j))
    case None => forall j: nat :: !FreeExact(entries, used, f, j) && !FreeFingerprint(entries, used, f, j)
  }

  /** Of one rule, file and kind: a whole-file entry has the finding's fingerprint, any other its span and
      symbol. */
  predicate SamePlace(e: Entry, f: Finding) {
    && (e.ruleId, e.file, e.kind) == (f.ruleId, f.file, f.kind)
    && (e.kind == "file" ==> e.fingerprint == f.fingerprint)
    && (e.kind != "file" ==> (e.startLine, e.endLine, e.symbol) == (f.startLine, f.endLine, f.symbol))
  }

  /** Of one rule, file, kind, symbol and fingerprint, wherever it stands now. */
  predicate SameText(e: Entry, f: Finding) {
    (e.ruleId, e.file, e.kind, e.symbol, e.fingerprint) == (f.ruleId, f.file, f.kind, f.symbol, f.fingerprint)
  }

  method MatchBaseline(f: Finding, entries: seq<Entry>, used: array<bool>) returns (m: Option<nat>)
    requires used.Length == |entries|
    ensures Greedy(entries, used[..], f, m)
    ensures m.Some? ==>
              && m.value < |entries| && !used[m.value] && (SamePlace(entries[m.value], f) || SameText(entries[m.value], f))
              && forall j :: 0 <= j < |entries| && !used[j] && SamePlace(entries[j], f) ==> SamePlace(entries[m.value], f) && m.value <= j
    ensures m.None? ==> forall j :: 0 <= j < |entries| && !used[j] ==> !SamePlace(entries[j], f) && !SameText(entries[j], f)
  {
    var i := 0;
    while i < |entries|
      invariant 0 <= i <= |entries|
      invariant forall j: nat :: j < i ==> !FreeExact(entries, used[..], f, j)
    {
      if !used[i] && ExactMatch(entries[i], f) {
        forall j | 0 <= j < i && !used[j] ensures !SamePlace(entries[j], f) {
          assert !FreeExact(entries, used[..], f, j);
        }
        return Some(i);
      }
      i := i + 1;
    }
    forall j | 0 <= j < |entries| && !used[j] ensures !SamePlace(entries[j], f) {
      assert !FreeExact(entries, used[..], f, j);
    }
    i := 0;
    while i < |entries|
      invariant 0 <= i <= |entries|
      invariant forall j: nat :: j < i ==> !FreeFingerprint(entries, used[..], f, j)
    {
      if !used[i] && FingerprintMatch(entries[i], f) {
        return Some(i);
      }
      i := i + 1;
    }
    forall j | 0 <= j < |entries| && !used[j] ensures !SameText(entries[j], f) {
      assert !FreeFingerprint(entries, used[..], f, j);
    }
    m := None;
  }

  function Classified(f: Finding, entries: seq<Entry>, m: Option<nat>): Finding
  {
    if m.Some? && m.value < |entries| then
      f.(status := Existing, message := if f.message == "" then entries[m.value].message else f.message)
    else f
  }

  function Marked(used: seq<bool>, m: Option<nat>): (now: seq<bool>)
    ensures |now| == |used|
  {
    if m.Some? && m.value < |used| then used[m.value := true] else used
  }

  /** The used flags of n entries after the pairs so far. */
  function Marks(n: nat, pairs: seq<Option<nat>>): (used: seq<bool>)
    ensures |used| == n
  {
    if pairs == [] then seq(n, i => false) else Marked(Marks(n, pairs[..|pairs| - 1]), pairs[|pairs| - 1])
  }

  /** pairs is what front-to-back greedy matching gives: every finding takes its match among the entries
      the earlier ones left. */
  ghost predicate Pass(findings: seq<Finding>, entries: seq<Entry>, pairs: seq<Option<nat>>) {
    |findings| == |pairs|
    && (pairs == []
        || var n := |pairs| - 1;
           Pass(findings[..n], entries, pairs[..n]) && Greedy(entries, Marks(|entries|, pairs[..n]), findings[n], pairs[n]))
  }

  function CountUsed(used: seq<bool>): nat {
    if used == [] then 0 else CountUsed(used[..|used| - 1]) + if used[|used| - 1] then 1 else 0
  }

  function CountMatched(pairs: seq<Option<nat>>): nat {
    if pairs == [] then 0 else CountMatched(pairs[..|pairs| - 1]) + if pairs[|pairs| - 1].Some? then 1 else 0
  }

  lemma {:induction false} CountAfterMark(used: seq<bool>, k: nat)
    requires k < |used| && !used[k]
    ensures CountUsed(used[k := true]) == CountUsed(used) + 1
  {
    var n := |used| - 1;
    if k < n {
      assert used[k := true][..n] == used[..n][k := true];
      CountAfterMark(used[..n], k);
    } else {
      assert used[k := true][..n] == used[..n];
    }
  }

  lemma {:induction false} CountNone(used: seq<bool>)
    requires forall k :: 0 <= k < |used| ==> !used[k]
    ensures CountUsed(used) == 0
  {
    if used != [] {
      CountNone(used[..|used| - 1]);
    }
  }

  // ----- Exact keys --------------------------------------------------------------------------------------

  /** What an exact match compares. */
  datatype Key = FileKey(ruleId: string, file: string, kind: string, fingerprint: string)
               | SpanKey(ruleId: string, file: string, kind: string, startLine: int, endLine: int, symbol: string)

  function EntryKey(e: Entry): Key {
    if e.kind == "file" then FileKey(e.ruleId, e.file, e.kind, e.fingerprint)
    else SpanKey(e.ruleId, e.file, e.kind, e.startLine, e.endLine, e.symbol)
  }

  function FindingKey(f: Finding): Key {
    if f.kind == "file" then FileKey(f.ruleId, f.file, f.kind, f.fingerprint)
    else SpanKey(f.ruleId, f.file, f.kind, f.startLine, f.endLine, f.symbol)
  }

  lemma ExactMatchIsKeyEquality(e: Entry, f: Finding)
    ensures ExactMatch(e, f) <==> EntryKey(e) == FindingKey(f)
  {
  }

  function EntryKeyOf(e: Entry): Option<Key> {
    Some(EntryKey(e))
  }

  function FindingKeyOf(f: Finding): Option<Key> {
    Some(FindingKey(f))
  }

  function EntryKeys(entries: seq<Entry>): (keys: seq<Key>)
    ensures |keys| == |entries|
  {
    OneKeyEach(entries);
    Collect(EntryKeyOf, entries)
  }

  function FindingKeys(fs: seq<Finding>): seq<Key> {
    Collect(FindingKeyOf, fs)
  }

  lemma {:induction false} OneKeyEach(entries: seq<Entry>)
    ensures |Collect(EntryKeyOf, entries)| == |entries|
  {
    if entries != [] {
      OneKeyEach(entries[..|entries| - 1]);
    }
  }

  lemma {:induction false} EntryKeyAt(entries: seq<Entry>, i: nat)
    requires i < |entries|
    ensures EntryKeys(entries)[i] == EntryKey(entries[i])
  {
    var n := |entries| - 1;
    assert EntryKeys(entries) == EntryKeys(entries[..n]) + [EntryKey(entries[n])];
    if i < n {
      EntryKeyAt(entries[..n], i);
    }
  }

  /** The keys that are not used yet. */
  function Free<K>(keys: seq<K>, used: seq<bool>): multiset<K>
    requires |used| == |keys|
  {
    if keys == [] then multiset{}
    else
      var n := |keys| - 1;
      Free(keys[..n], used[..n]) + if used[n] then multiset{} else multiset{keys[n]}
  }

  lemma {:induction false} FreeKeyHasAPlace<K>(keys: seq<K>, used: seq<bool>, key: K) returns (i: nat)
    requires |used| == |keys| && key in Free(keys, used)
    ensures i < |keys| && !used[i] && keys[i] == key
  {
    var n := |keys| - 1;
    if !used[n] && keys[n] == key {
      i := n;
    } else {
      i := FreeKeyHasAPlace(keys[..n], used[..n], key);
    }
  }

  lemma {:induction false} UnusedKeyIsFree<K>(keys: seq<K>, used: seq<bool>, i: nat)
    requires |used| == |keys| && i < |keys| && !used[i]
    ensures keys[i] in Free(keys, used)
  {
    var n := |keys| - 1;
    if i < n {
      UnusedKeyIsFree(keys[..n], used[..n], i);
    }
  }

  lemma {:induction false} FreeAfterMark<K>(keys: seq<K>, used: seq<bool>, k: nat)
    requires |used| == |keys| && k < |used| && !used[k]
    ensures Free(keys, used) == Free(keys, used[k := true]) + multiset{keys[k]}
  {
    var n := |keys| - 1;
    if k < n {
      assert used[k := true][..n] == used[..n][k := true];
      FreeAfterMark(keys[..n], used[..n], k);
    } else {
      assert used[k := true][..n] == used[..n];
    }
  }

  lemma {:induction false} NothingUsed<K>(keys: seq<K>, used: seq<bool>)
    requires |used| == |keys| && forall k :: 0 <= k < |used| ==> !used[k]
    ensures Free(keys, used) == multiset(keys)
  {
    if keys != [] {
      var n := |keys| - 1;
      NothingUsed(keys[..n], used[..n]);
      assert keys == keys[..n] + [keys[n]];
    }
  }

  // ----- applyBaseline -----------------------------------------------------------------------------------

  /** The findings with the status and message their pairs give them. */
  function AllClassified(findings: seq<Finding>, entries: seq<Entry>, pairs: seq<Option<nat>>): (out: seq<Finding>)
    requires |findings| == |pairs|
    ensures |out| == |findings|
  {
    if pairs == [] then []
    else
      var n := |pairs| - 1;
      AllClassified(findings[..n], entries, pairs[..n]) + [Classified(findings[n], entries, pairs[n])]
  }

  /** g is the finding f after the pass: existing exactly if it was given an entry, whose message it takes when
      it has none of its own. */
  ghost predicate Kept(f: Finding, entries: seq<Entry>, m: Option<nat>, g: Finding) {
    match m
    case None => g == f
    case Some(k) =>
      && k < |entries| && g.status == Existing
      && g.message == (if f.message == "" then entries[k].message else f.message)
      && g == f.(status := g.status, message := g.message)
  }

  lemma {:induction false} ClassifiedAreKept(findings: seq<Finding>, entries: seq<Entry>, pairs: seq<Option<nat>>, i: nat)
    requires Pass(findings, entries, pairs) && i < |pairs|
    ensures Kept(findings[i], entries, pairs[i], AllClassified(findings, entries, pairs)[i])
  {
    var n := |pairs| - 1;
    if i < n {
      ClassifiedAreKept(findings[..n], entries, pairs[..n], i);
    }
  }

  lemma PassGrows(findings: seq<Finding>, entries: seq<Entry>, pairs: seq<Option<nat>>, f: Finding, m: Option<nat>)
    requires Pass(findings, entries, pairs) && Greedy(entries, Marks(|entries|, pairs), f, m)
    ensures Pass(findings + [f], entries, pairs + [m])
    ensures Marks(|entries|, pairs + [m]) == Marked(Marks(|entries|, pairs), m)
    ensures AllClassified(findings + [f], entries, pairs + [m]) == AllClassified(findings, entries, pairs) + [Classified(f, entries, m)]
  {
    assert (pairs + [m])[..|pairs|] == pairs && (findings + [f])[..|pairs|] == findings;
  }

  /** One round of applyBaseline: match the finding, mark its entry, classify it. */
  method MatchOne(f: Finding, entries: seq<Entry>,
      marks: array<bool>, ghost seen: seq<Finding>, ghost pairs: seq<Option<nat>>)
    returns (g: Finding, ghost m: Option<nat>)
    requires Pass(seen, entries, pairs) && marks[..] == Marks(|entries|, pairs)
    modifies marks
    ensures Pass(seen + [f], entries, pairs + [m]) && marks[..] == Marks(|entries|, pairs + [m])
    ensures AllClassified(seen + [f], entries, pairs + [m]) == AllClassified(seen, entries, pairs) + [g]
  {
    var match_ := MatchBaseline(f, entries, marks);
    m := match_;
    PassGrows(seen, entries, pairs, f, m);
    if match_.Some? {
      marks[match_.value] := true;
    }
    g := Classified(f, entries, match_);
  }

  /** applyBaseline. */
  method ApplyBaseline(findings: seq<Finding>, entries: seq<Entry>)
    returns (out: seq<Finding>, used: seq<bool>, ghost pairs: seq<Option<nat>>)
    ensures Pass(findings, entries, pairs) && used == Marks(|entries|, pairs)
    ensures out == AllClassified(findings, entries, pairs)
    ensures |out| == |findings| && |used| == |entries|
    ensures forall i :: 0 <= i < |findings| ==> Kept(findings[i], entries, pairs[i], out[i])
    ensures multiset(FindingKeys(findings)) <= multiset(EntryKeys(entries)) ==> forall f :: f in out ==> f.status == Existing
  {
    var marks := new bool[|entries|](i => false);
    out, pairs := [], [];
    var n := 0;
    while n < |findings|
      invariant 0 <= n <= |findings|
      invariant Pass(findings[..n], entries, pairs) && marks[..] == Marks(|entries|, pairs)
      invariant out == AllClassified(findings[..n], entries, pairs)
    {
      assert findings[..n + 1] == findings[..n] + [findings[n]];
      var g;
      ghost var m;
      g, m := MatchOne(findings[n], entries, marks, findings[..n], pairs);
      out, pairs := out + [g], pairs + [m];
      n := n + 1;
    }
    assert findings[..n] == findings;
    used := marks[..];
    forall i | 0 <= i < |findings| ensures Kept(findings[i], entries, pairs[i], out[i]) {
      ClassifiedAreKept(findings, entries, pairs, i);
    }
    if multiset(FindingKeys(findings)) <= multiset(EntryKeys(entries)) {
      CoveredFindingsExist(findings, entries, pairs);
      AllMatchedAllExist(findings, entries, pairs);
    }
  }

  // ----- What a pass gives -------------------------------------------------------------------------------

  /** Every matched finding has an entry of its own that it matches. */
  ghost predicate Matching(findings: seq<Finding>, entries: seq<Entry>, pairs: seq<Option<nat>>)
    requires |pairs| == |findings|
  {
    && (forall i :: 0 <= i < |pairs| && pairs[i].Some? ==> MatchedBy(findings[i], entries, pairs[i].value))
    && (forall i, j :: 0 <= i < j < |pairs| && pairs[i].Some? ==> pairs[i] != pairs[j])
  }

  predicate Matches(e: Entry, f: Finding) {
    ExactMatch(e, f) || FingerprintMatch(e, f)
  }

  predicate MatchedBy(f: Finding, entries: seq<Entry>, k: nat) {
    k < |entries| && Matches(entries[k], f)
  }

  lemma {:induction false} PairsAreMarked(n: nat, pairs: seq<Option<nat>>, i: nat)
    requires i < |pairs| && pairs[i].Some? && pairs[i].value < n
    ensures Marks(n, pairs)[pairs[i].value]
  {
    var last := |pairs| - 1;
    if i < last {
      PairsAreMarked(n, pairs[..last], i);
    }
  }

  lemma {:induction false} PassUsesAsMany(findings: seq<Finding>, entries: seq<Entry>, pairs: seq<Option<nat>>)
    requires Pass(findings, entries, pairs)
    ensures CountUsed(Marks(|entries|, pairs)) == CountMatched(pairs)
  {
    if pairs == [] {
      CountNone(Marks(|entries|, pairs));
    } else {
      var n := |pairs| - 1;
      PassUsesAsMany(findings[..n], entries, pairs[..n]);
      if pairs[n].Some? {
        CountAfterMark(Marks(|entries|, pairs[..n]), pairs[n].value);
      }
    }
  }

  /** Greedy matching pairs each existing finding with an entry of its own. */
  lemma {:induction false} PassIsAMatching(findings: seq<Finding>, entries: seq<Entry>, pairs: seq<Option<nat>>)
    requires Pass(findings, entries, pairs)
    ensures Matching(findings, entries, pairs)
  {
    if pairs != [] {
      var n := |pairs| - 1;
      PassIsAMatching(findings[..n], entries, pairs[..n]);
      forall i | 0 <= i < n && pairs[i].Some? ensures MatchedBy(findings[i], entries, pairs[i].value) && pairs[i] != pairs[n] {
        assert MatchedBy(findings[..n][i], entries, pairs[..n][i].value);
        PairsAreMarked(|entries|, pairs[..n], i);
      }
    }
  }

  /** A finding whose key is free takes an entry with that key. */
  lemma FreeKeyIsTaken(entries: seq<Entry>, used: seq<bool>, f: Finding, m: Option<nat>)
    requires |used| == |entries| && Greedy(entries, used, f, m) && FindingKey(f) in Free(EntryKeys(entries), used)
    ensures m.Some? && m.value < |entries| && !used[m.value] && EntryKey(entries[m.value]) == FindingKey(f)
  {
    var i := FreeKeyHasAPlace(EntryKeys(entries), used, FindingKey(f));
    EntryKeyAt(entries, i);
    ExactMatchIsKeyEquality(entries[i], f);
    assert FreeExact(entries, used, f, i);
    ExactMatchIsKeyEquality(entries[m.value], f);
  }

  /** The step of CoveredFindingsExist: the keys before key are gone from total, and key is covered too. */
  lemma OneTaken<K>(total: multiset<K>, taken: seq<K>, key: K, before: multiset<K>)
    requires multiset(taken + [key]) <= total && before == total - multiset(taken)
    ensures key in before && before - multiset{key} == total - multiset(taken + [key])
  {
    assert multiset(taken + [key]) == multiset(taken) + multiset{key};
    assert multiset(taken + [key])[key] <= total[key];
  }

  /** When the baseline has the keys of the findings and perhaps more, in any order, every finding becomes
      existing and the entries that stay unused have exactly the keys that are left over. */
  lemma {:induction false} CoveredFindingsExist(findings: seq<Finding>, entries: seq<Entry>, pairs: seq<Option<nat>>)
    requires Pass(findings, entries, pairs) && multiset(FindingKeys(findings)) <= multiset(EntryKeys(entries))
    ensures AllMatched(pairs)
    ensures Free(EntryKeys(entries), Marks(|entries|, pairs)) == multiset(EntryKeys(entries)) - multiset(FindingKeys(findings))
  {
    if pairs == [] {
      NothingUsed(EntryKeys(entries), Marks(|entries|, pairs));
    } else {
      var n := |pairs| - 1;
      var key := FindingKey(findings[n]);
      assert FindingKeys(findings) == FindingKeys(findings[..n]) + [key];
      CoveredFindingsExist(findings[..n], entries, pairs[..n]);
      var used := Marks(|entries|, pairs[..n]);
      OneTaken(multiset(EntryKeys(entries)), FindingKeys(findings[..n]), key, Free(EntryKeys(entries), used));
      CoveredFindingExists(entries, used, findings[n], pairs[n]);
    }
  }

  predicate AllMatched(pairs: seq<Option<nat>>) {
    pairs == [] || (pairs[|pairs| - 1].Some? && AllMatched(pairs[..|pairs| - 1]))
  }

  lemma CoveredFindingExists(entries: seq<Entry>, used: seq<bool>, f: Finding, m: Option<nat>)
    requires |used| == |entries| && Greedy(entries, used, f, m) && FindingKey(f) in Free(EntryKeys(entries), used)
    ensures m.Some? && m.value < |used|
    ensures Free(EntryKeys(entries), Marked(used, m)) == Free(EntryKeys(entries), used) - multiset{FindingKey(f)}
  {
    FreeKeyIsTaken(entries, used, f, m);
    EntryKeyAt(entries, m.value);
    FreeAfterMark(EntryKeys(entries), used, m.value);
  }

  lemma {:induction false} AllMatchedAllExist(findings: seq<Finding>, entries: seq<Entry>, pairs: seq<Option<nat>>)
    requires Pass(findings, entries, pairs) && AllMatched(pairs)
    ensures forall f :: f in AllClassified(findings, entries, pairs) ==> f.status == Existing
  {
    if pairs != [] {
      var n := |pairs| - 1;
      AllMatchedAllExist(findings[..n], entries, pairs[..n]);
    }
  }
}
