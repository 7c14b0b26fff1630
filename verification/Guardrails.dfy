/** The guardrail report around the matching: shrink candidates, the sorted report, the baseline rebuilt
    from it, and the summary. */
module Guardrails {
  import opened Basics
  import opened Sorting
  import opened Baseline

  // ----- Orders ------------------------------------------------------------------------------------------

  function StatusRank(s: Status): int {
    match s
    case Unset => 0
    case Existing => 1
    case New => 2
    case ShrinkCandidate => 3
  }

  predicate EntryBefore(a: Entry, b: Entry) {
    if a.file != b.file then TextBefore(a.file, b.file)
    else if a.ruleId != b.ruleId then TextBefore(a.ruleId, b.ruleId)
    else if a.startLine != b.startLine then a.startLine < b.startLine
    else TextBefore(a.fingerprint, b.fingerprint)
  }

  predicate FindingBefore(a: Finding, b: Finding) {
    if a.status != b.status then StatusRank(a.status) < StatusRank(b.status)
    else if a.file != b.file then TextBefore(a.file, b.file)
    else if a.startLine != b.startLine then a.startLine < b.startLine
    else if a.ruleId != b.ruleId then TextBefore(a.ruleId, b.ruleId)
    else TextBefore(a.fingerprint, b.fingerprint)
  }

  lemma EntryBeforeIsWeak()
    ensures WeakOrder(EntryBefore)
  {
    forall x, y | EntryBefore(x, y) ensures !EntryBefore(y, x) {
      TextIsWeak(x.file, y.file, x.file);
      TextIsWeak(x.ruleId, y.ruleId, x.ruleId);
      TextIsWeak(x.fingerprint, y.fingerprint, x.fingerprint);
    }
    forall x, y, z | !EntryBefore(y, x) && !EntryBefore(z, y) ensures !EntryBefore(z, x) {
      NotBefore(x.file, y.file, z.file);
      NotBefore(x.ruleId, y.ruleId, z.ruleId);
      NotBefore(x.fingerprint, y.fingerprint, z.fingerprint);
    }
  }

  lemma FindingBeforeIsWeak()
    ensures WeakOrder(FindingBefore)
  {
    forall x, y | FindingBefore(x, y) ensures !FindingBefore(y, x) {
      TextIsWeak(x.file, y.file, x.file);
      TextIsWeak(x.ruleId, y.ruleId, x.ruleId);
      TextIsWeak(x.fingerprint, y.fingerprint, x.fingerprint);
    }
    forall x, y, z | !FindingBefore(y, x) && !FindingBefore(z, y) ensures !FindingBefore(z, x) {
      NotBefore(x.file, y.file, z.file);
      NotBefore(x.ruleId, y.ruleId, z.ruleId);
      NotBefore(x.fingerprint, y.fingerprint, z.fingerprint);
    }
  }

  /** The order of three texts, as the comparisons of the orders above use it. */
  lemma NotBefore(a: string, b: string, c: string)
    ensures !TextBefore(b, a) && !TextBefore(c, b) ==> !TextBefore(c, a)
    ensures a != b ==> (TextBefore(a, b) <==> !TextBefore(b, a))
    ensures b != c ==> (TextBefore(b, c) <==> !TextBefore(c, b))
    ensures a != c ==> (TextBefore(a, c) <==> !TextBefore(c, a))
    ensures TextBefore(a, b) && TextBefore(b, c) ==> a != c
  {
    TextIsWeak(a, b, c);
    TextIsWeak(b, c, a);
    TextIsWeak(a, c, b);
    TextTotal(a, b);
    TextTotal(b, c);
    TextTotal(a, c);
  }

  /** The status as the report spells it. */
  function StatusText(s: Status): string {
    match s
    case Unset => ""
    case Existing => "existing"
    case New => "new"
    case ShrinkCandidate => "shrink_candidate"
  }

  predicate TextAtMost(a: string, b: string) {
    a == b || TextBefore(a, b)
  }

  /** By status, file, line, rule and fingerprint, each deciding only when the ones before are equal. */
  predicate InReportOrder(x: Finding, y: Finding) {
    && TextAtMost(StatusText(x.status), StatusText(y.status))
    && (x.status == y.status ==> TextAtMost(x.file, y.file))
    && (x.status == y.status && x.file == y.file ==> x.startLine <= y.startLine)
    && ((x.status, x.file, x.startLine) == (y.status, y.file, y.startLine) ==> TextAtMost(x.ruleId, y.ruleId))
    && ((x.status, x.file, x.startLine, x.ruleId) == (y.status, y.file, y.startLine, y.ruleId) ==>
          TextAtMost(x.fingerprint, y.fingerprint))
  }

  /** By file, rule, line and fingerprint. */
  predicate InBaselineOrder(x: Entry, y: Entry) {
    && TextAtMost(x.file, y.file)
    && (x.file == y.file ==> TextAtMost(x.ruleId, y.ruleId))
    && ((x.file, x.ruleId) == (y.file, y.ruleId) ==> x.startLine <= y.startLine)
    && ((x.file, x.ruleId, x.startLine) == (y.file, y.ruleId, y.startLine) ==> TextAtMost(x.fingerprint, y.fingerprint))
  }

  lemma StatusTextsDiffer(a: Status, b: Status)
    ensures a == b || TextBefore(StatusText(a), StatusText(b)) || TextBefore(StatusText(b), StatusText(a))
    ensures TextBefore(StatusText(a), StatusText(b)) <==> StatusRank(a) < StatusRank(b)
  {
    assert StatusText(Existing)[0] == 'e' && StatusText(New)[0] == 'n' && StatusText(ShrinkCandidate)[0] == 's';
    TextTotal(StatusText(a), StatusText(a));
  }

  lemma ReportOrderMeans(x: Finding, y: Finding)
    ensures !FindingBefore(y, x) <==> InReportOrder(x, y)
  {
    StatusTextsDiffer(x.status, y.status);
    NotBefore(x.file, y.file, x.file);
    NotBefore(x.ruleId, y.ruleId, x.ruleId);
    NotBefore(x.fingerprint, y.fingerprint, x.fingerprint);
    TextTotal(x.file, x.file);
    TextTotal(x.ruleId, x.ruleId);
    TextTotal(x.fingerprint, x.fingerprint);
  }

  lemma BaselineOrderMeans(x: Entry, y: Entry)
    ensures !EntryBefore(y, x) <==> InBaselineOrder(x, y)
  {
    NotBefore(x.file, y.file, x.file);
    NotBefore(x.ruleId, y.ruleId, x.ruleId);
    NotBefore(x.fingerprint, y.fingerprint, x.fingerprint);
    TextTotal(x.file, x.file);
    TextTotal(x.ruleId, x.ruleId);
    TextTotal(x.fingerprint, x.fingerprint);
  }

  // ----- Shrink candidates -------------------------------------------------------------------------------

  /** The entry as a finding: nothing is lost. */
  function AsCandidate(e: Entry): (f: Finding)
    ensures AsEntry(f) == e && f.status == ShrinkCandidate
  {
    Finding(e.ruleId, e.severity, e.file, e.kind, e.startLine, e.endLine, e.symbol, e.message, e.fingerprint, ShrinkCandidate)
  }

  function Candidates(entries: seq<Entry>, used: seq<bool>): seq<Finding>
    requires |used| == |entries|
  {
    if entries == [] then []
    else
      var n := |entries| - 1;
      Candidates(entries[..n], used[..n]) + if used[n] then [] else [AsCandidate(entries[n])]
  }

  method ShrinkCandidates(entries: seq<Entry>, used: seq<bool>) returns (shrink: seq<Finding>)
    requires |used| == |entries|
    ensures shrink == Candidates(entries, used)
  {
    shrink := [];
    var i := 0;
    while i < |entries|
      invariant 0 <= i <= |entries| && shrink == Candidates(entries[..i], used[..i])
    {
      assert entries[..i + 1][..i] == entries[..i] && used[..i + 1][..i] == used[..i];
      if !used[i] {
        shrink := shrink + [AsCandidate(entries[i])];
      }
      i := i + 1;
    }
    assert entries[..i] == entries && used[..i] == used;
  }

  /** An unused entry stands behind the unused ones before it. */
  lemma {:induction false} CandidateAt(entries: seq<Entry>, used: seq<bool>, i: nat)
    requires |used| == |entries| && i < |entries| && !used[i]
    ensures var k := i - CountUsed(used[..i]);
            0 <= k < |Candidates(entries, used)| && Candidates(entries, used)[k] == AsCandidate(entries[i])
  {
    var n := |entries| - 1;
    if i < n {
      CandidateAt(entries[..n], used[..n], i);
      assert used[..n][..i] == used[..i];
    } else {
      CandidatesAreUnused(entries[..n], used[..n]);
    }
  }

  lemma {:induction false} CandidatesAreUnused(entries: seq<Entry>, used: seq<bool>)
    requires |used| == |entries|
    ensures |Candidates(entries, used)| + CountUsed(used) == |entries|
  {
    if entries != [] {
      CandidatesAreUnused(entries[..|entries| - 1], used[..|used| - 1]);
    }
  }

  ghost predicate Reports(report: seq<Finding>, findings: seq<Finding>, entries: seq<Entry>,
      pairs: seq<Option<nat>>, wholeRepo: bool)
    requires |findings| == |pairs|
  {
    multiset(report) == multiset(AllClassified(findings, entries, pairs)
                                 + if wholeRepo then Candidates(entries, Marks(|entries|, pairs)) else [])
  }

  // ----- Counting by status ------------------------------------------------------------------------------

  function Having(s: Status): Finding -> Option<Finding> {
    (f: Finding) => if f.status == s then Some(f) else None
  }

  function CountStatus(fs: seq<Finding>, s: Status): nat {
    |Collect(Having(s), fs)|
  }

  lemma CountsAddUp(xs: seq<Finding>, ys: seq<Finding>, zs: seq<Finding>, s: Status)
    requires multiset(zs) == multiset(xs + ys)
    ensures CountStatus(zs, s) == CountStatus(xs, s) + CountStatus(ys, s)
  {
    CollectIgnoresOrder(Having(s), zs, xs + ys);
    CollectAppends(Having(s), xs, ys);
    assert |multiset(Collect(Having(s), zs))| == |multiset(Collect(Having(s), xs + ys))|;
  }

  lemma {:induction false} ClassifiedCounts(findings: seq<Finding>, entries: seq<Entry>, pairs: seq<Option<nat>>)
    requires Pass(findings, entries, pairs) && Scanned(findings)
    ensures CountStatus(AllClassified(findings, entries, pairs), Existing) == CountMatched(pairs)
    ensures CountStatus(AllClassified(findings, entries, pairs), ShrinkCandidate) == 0
  {
    if pairs != [] {
      var n := |pairs| - 1;
      var before, last := AllClassified(findings[..n], entries, pairs[..n]), Classified(findings[n], entries, pairs[n]);
      assert findings[n].status == New;
      ClassifiedCounts(findings[..n], entries, pairs[..n]);
      OneMoreCounted(before, last, Existing);
      OneMoreCounted(before, last, ShrinkCandidate);
    }
  }

  lemma OneMoreCounted(xs: seq<Finding>, x: Finding, s: Status)
    ensures CountStatus(xs + [x], s) == CountStatus(xs, s) + if x.status == s then 1 else 0
  {
    assert (xs + [x])[..|xs|] == xs;
  }

  lemma {:induction false} CandidateCounts(entries: seq<Entry>, used: seq<bool>)
    requires |used| == |entries|
    ensures CountStatus(Candidates(entries, used), Existing) == 0
    ensures CountStatus(Candidates(entries, used), ShrinkCandidate) + CountUsed(used) == |entries|
  {
    if entries != [] {
      var n := |entries| - 1;
      var before, last := Candidates(entries[..n], used[..n]), if used[n] then [] else [AsCandidate(entries[n])];
      CandidateCounts(entries[..n], used[..n]);
      CollectAppends(Having(Existing), before, last);
      CollectAppends(Having(ShrinkCandidate), before, last);
    }
  }

  /** What the scanner gives: every finding is new. */
  ghost predicate Scanned(findings: seq<Finding>) {
    forall i :: 0 <= i < |findings| ==> findings[i].status == New
  }

  lemma {:induction false} AllMatchedCount(pairs: seq<Option<nat>>)
    requires AllMatched(pairs)
    ensures CountMatched(pairs) == |pairs|
  {
    if pairs != [] {
      AllMatchedCount(pairs[..|pairs| - 1]);
    }
  }

  /** Existing findings and shrink candidates of a whole-repository report make up the baseline. */
  lemma ReportSplitsTheBaseline(findings: seq<Finding>, entries: seq<Entry>, pairs: seq<Option<nat>>,
      report: seq<Finding>)
    requires Pass(findings, entries, pairs) && Scanned(findings) && Reports(report, findings, entries, pairs, true)
    ensures CountStatus(report, Existing) == CountMatched(pairs)
    ensures CountStatus(report, Existing) + CountStatus(report, ShrinkCandidate) == |entries|
  {
    var out, shrink := AllClassified(findings, entries, pairs), Candidates(entries, Marks(|entries|, pairs));
    CountsAddUp(out, shrink, report, Existing);
    CountsAddUp(out, shrink, report, ShrinkCandidate);
    ClassifiedCounts(findings, entries, pairs);
    CandidateCounts(entries, Marks(|entries|, pairs));
    PassUsesAsMany(findings, entries, pairs);
  }

  // ----- The report --------------------------------------------------------------------------------------

  /** Check after the scan: match, add the shrink candidates of a whole-repository run, sort. */
  method Check(findings: seq<Finding>, entries: seq<Entry>, wholeRepo: bool)
      returns (report: seq<Finding>, ghost pairs: seq<Option<nat>>)
    ensures Pass(findings, entries, pairs) && Ordered(FindingBefore, report)
    ensures Reports(report, findings, entries, pairs, wholeRepo)
    ensures forall i, j :: 0 <= i < j < |report| ==> InReportOrder(report[i], report[j])
  {
    var used;
    report, used, pairs := ApplyBaseline(findings, entries);
    if wholeRepo {
      var shrink := ShrinkCandidates(entries, used);
      report := report + shrink;
    }
    FindingBeforeIsWeak();
    SortOrders(FindingBefore, report);
    report := Sort(FindingBefore, report);
    forall i, j | 0 <= i < j < |report| ensures InReportOrder(report[i], report[j]) {
      ReportOrderMeans(report[i], report[j]);
    }
  }

  function AsEntry(f: Finding): (e: Entry)
    ensures (e.ruleId, e.severity, e.file, e.kind) == (f.ruleId, f.severity, f.file, f.kind)
    ensures (e.startLine, e.endLine, e.symbol) == (f.startLine, f.endLine, f.symbol)
    ensures (e.message, e.fingerprint) == (f.message, f.fingerprint)
  {
    Entry(f.ruleId, f.severity, f.file, f.kind, f.startLine, f.endLine, f.symbol, f.message, f.fingerprint)
  }

  function KeptEntry(f: Finding): Option<Entry> {
    if f.status == ShrinkCandidate then None else Some(AsEntry(f))
  }

  function KeptKey(f: Finding): Option<Key> {
    if f.status == ShrinkCandidate then None else Some(FindingKey(f))
  }

  method BuildBaseline(report: seq<Finding>) returns (entries: seq<Entry>)
    ensures Ordered(EntryBefore, entries) && multiset(entries) == multiset(Collect(KeptEntry, report))
    ensures forall i, j :: 0 <= i < j < |entries| ==> InBaselineOrder(entries[i], entries[j])
  {
    entries := [];
    var i := 0;
    while i < |report|
      invariant 0 <= i <= |report| && entries == Collect(KeptEntry, report[..i])
    {
      assert report[..i + 1][..i] == report[..i];
      if report[i].status != ShrinkCandidate {
        entries := entries + [AsEntry(report[i])];
      }
      i := i + 1;
    }
    assert report[..i] == report;
    EntryBeforeIsWeak();
    SortOrders(EntryBefore, entries);
    entries := Sort(EntryBefore, entries);
    forall i, j | 0 <= i < j < |entries| ensures InBaselineOrder(entries[i], entries[j]) {
      BaselineOrderMeans(entries[i], entries[j]);
    }
  }

  // ----- Check, sync, check again ------------------------------------------------------------------------

  lemma {:induction false} KeptEntriesKeepKeys(report: seq<Finding>)
    ensures Collect(EntryKeyOf, Collect(KeptEntry, report)) == Collect(KeptKey, report)
  {
    if report != [] {
      var n := |report| - 1;
      KeptEntriesKeepKeys(report[..n]);
      CollectAppends(EntryKeyOf, Collect(KeptEntry, report[..n]), if KeptEntry(report[n]).Some? then [KeptEntry(report[n]).value] else []);
    }
  }

  lemma {:induction false} ClassifiedKeepsKeys(findings: seq<Finding>, entries: seq<Entry>, pairs: seq<Option<nat>>)
    requires |findings| == |pairs| && Scanned(findings)
    ensures Collect(KeptKey, AllClassified(findings, entries, pairs)) == FindingKeys(findings)
  {
    if pairs != [] {
      var n := |pairs| - 1;
      ClassifiedKeepsKeys(findings[..n], entries, pairs[..n]);
      var before, last := AllClassified(findings[..n], entries, pairs[..n]), Classified(findings[n], entries, pairs[n]);
      assert findings[n].status == New;
      assert KeptKey(last) == FindingKeyOf(findings[n]);
      assert (before + [last])[..n] == before;
    }
  }

  lemma {:induction false} CandidatesAreNotKept(entries: seq<Entry>, used: seq<bool>)
    requires |used| == |entries|
    ensures Collect(KeptKey, Candidates(entries, used)) == []
  {
    if entries != [] {
      var n := |entries| - 1;
      CandidatesAreNotKept(entries[..n], used[..n]);
      CollectAppends(KeptKey, Candidates(entries[..n], used[..n]), if used[n] then [] else [AsCandidate(entries[n])]);
    }
  }

  /** A baseline rebuilt from a report has the keys of the scanned findings, whatever the baseline before. */
  lemma RebuiltBaselineCovers(findings: seq<Finding>, before: seq<Entry>, pairs: seq<Option<nat>>,
      repo: bool, report: seq<Finding>, entries: seq<Entry>)
    requires |findings| == |pairs| && Scanned(findings) && Reports(report, findings, before, pairs, repo)
    requires multiset(entries) == multiset(Collect(KeptEntry, report))
    ensures multiset(EntryKeys(entries)) == multiset(FindingKeys(findings)) && |entries| == |findings|
  {
    var out, shrink := AllClassified(findings, before, pairs), Candidates(before, Marks(|before|, pairs));
    CollectIgnoresOrder(EntryKeyOf, entries, Collect(KeptEntry, report));
    KeptEntriesKeepKeys(report);
    CollectIgnoresOrder(KeptKey, report, out + if repo then shrink else []);
    CollectAppends(KeptKey, out, shrink);
    CandidatesAreNotKept(before, Marks(|before|, pairs));
    ClassifiedKeepsKeys(findings, before, pairs);
    assert out + [] == out;
    assert |multiset(EntryKeys(entries))| == |multiset(FindingKeys(findings))|;
    FindingKeyEach(findings);
  }

  lemma {:induction false} FindingKeyEach(findings: seq<Finding>)
    ensures |FindingKeys(findings)| == |findings|
  {
    if findings != [] {
      FindingKeyEach(findings[..|findings| - 1]);
    }
  }

  /** `check`, `baseline sync`, and a later whole-repository check. When the later scan finds nothing but
      keys the first one found, in any order, nothing is new: every later finding is existing, and the
      findings that are gone are the shrink candidates. */
  method CheckAfterSync(findings: seq<Finding>, before: seq<Entry>, repo: bool, later: seq<Finding>)
    returns (report: seq<Finding>)
    requires Scanned(findings) && Scanned(later)
    requires multiset(FindingKeys(later)) <= multiset(FindingKeys(findings))
    ensures Ordered(FindingBefore, report)
    ensures CountStatus(report, Existing) == |later| && CountStatus(report, ShrinkCandidate) == |findings| - |later|
    ensures |report| == |findings|
  {
    ghost var pairs;
    report, pairs := Check(findings, before, repo);
    var entries := BuildBaseline(report);
    RebuiltBaselineCovers(findings, before, pairs, repo, report, entries);
    report, pairs := Check(later, entries, true);
    CoveredFindingsExist(later, entries, pairs);
    AllMatchedCount(pairs);
    ReportSplitsTheBaseline(later, entries, pairs, report);
    PassUsesAsMany(later, entries, pairs);
    CandidatesAreUnused(entries, Marks(|entries|, pairs));
    assert |multiset(report)| == |later| + |Candidates(entries, Marks(|entries|, pairs))|;
  }

  // ----- The summary -------------------------------------------------------------------------------------

  datatype RuleCount = RuleCount(ruleId: string, count: nat)

  datatype Summary = Summary(total: nat, new_: nat, existing: nat, shrinkCandidates: nat, warnings: nat,
      errors: nat, byRule: seq<RuleCount>)

  predicate CountBefore(a: RuleCount, b: RuleCount) {
    if a.count != b.count then a.count > b.count else TextBefore(a.ruleId, b.ruleId)
  }

  function Counted(rules: set<string>): Finding -> Option<Finding> {
    (f: Finding) => if f.status != ShrinkCandidate && f.ruleId in rules then Some(f) else None
  }

  /** Findings of these rules that are not shrink candidates. */
  function CountIn(fs: seq<Finding>, rules: set<string>): nat {
    |Collect(Counted(rules), fs)|
  }

  lemma {:induction false} OneMoreRule(fs: seq<Finding>, rules: set<string>, r: string)
    requires r !in rules
    ensures CountIn(fs, rules + {r}) == CountIn(fs, rules) + CountIn(fs, {r})
  {
    if fs != [] {
      OneMoreRule(fs[..|fs| - 1], rules, r);
    }
  }

  lemma {:induction false} NoRules(fs: seq<Finding>)
    ensures CountIn(fs, {}) == 0
  {
    if fs != [] {
      NoRules(fs[..|fs| - 1]);
    }
  }

  function SumCounts(xs: seq<RuleCount>): nat {
    if xs == [] then 0 else xs[0].count + SumCounts(xs[1..])
  }

  lemma {:induction false} InsertKeepsSum(xs: seq<RuleCount>, x: RuleCount)
    ensures SumCounts(Insert(CountBefore, xs, x)) == SumCounts(xs) + x.count
  {
    if xs != [] && !CountBefore(x, xs[0]) {
      InsertKeepsSum(xs[1..], x);
    }
  }

  lemma {:induction false} SortKeepsSum(xs: seq<RuleCount>)
    ensures SumCounts(Sort(CountBefore, xs)) == SumCounts(xs)
  {
    if xs != [] {
      SortKeepsSum(xs[1..]);
      InsertKeepsSum(Sort(CountBefore, xs[1..]), xs[0]);
    }
  }

  lemma {:induction false} SumGrows(xs: seq<RuleCount>, x: RuleCount)
    ensures SumCounts(xs + [x]) == SumCounts(xs) + x.count
  {
    if xs != [] {
      assert (xs + [x])[1..] == xs[1..] + [x];
      SumGrows(xs[1..], x);
    }
  }

  lemma CountBeforeIsTotal(xs: set<RuleCount>)
    ensures TotalOn(CountBefore, xs)
  {
    forall x, y, z | x in xs && y in xs && z in xs
      ensures !CountBefore(x, x) && (x != y ==> CountBefore(x, y) || CountBefore(y, x))
      ensures CountBefore(x, y) && CountBefore(y, z) ==> CountBefore(x, z)
    {
      TextTotal(x.ruleId, y.ruleId);
      if TextBefore(x.ruleId, y.ruleId) && TextBefore(y.ruleId, z.ruleId) {
        TextTransitive(x.ruleId, y.ruleId, z.ruleId);
      }
    }
  }

  function Warns(f: Finding): Option<Finding> {
    if f.status != ShrinkCandidate && f.severity == "warning" then Some(f) else None
  }

  /** The counters say how many of the findings so far have each status, and split the open ones by severity. */
  ghost predicate Tallied(s: Summary, fs: seq<Finding>) {
    && s.total == |fs|
    && s.new_ == CountStatus(fs, New) && s.existing == CountStatus(fs, Existing)
    && s.shrinkCandidates == CountStatus(fs, ShrinkCandidate)
    && s.warnings == |Collect(Warns, fs)|
    && s.warnings + s.errors == s.total - s.shrinkCandidates
  }

  method Tally(s: Summary, f: Finding, ghost fs: seq<Finding>) returns (t: Summary)
    requires Tallied(s, fs)
    ensures Tallied(t, fs + [f])
  {
    t := s.(total := s.total + 1);
    match f.status {
      case New => t := t.(new_ := t.new_ + 1);
      case Existing => t := t.(existing := t.existing + 1);
      case ShrinkCandidate => t := t.(shrinkCandidates := t.shrinkCandidates + 1);
      case Unset =>
    }
    if f.status != ShrinkCandidate {
      if f.severity == "warning" {
        t := t.(warnings := t.warnings + 1);
      } else {
        t := t.(errors := t.errors + 1);
      }
    }
    assert (fs + [f])[..|fs|] == fs;
  }

  /** byRule has the count of every rule among the open findings so far. */
  ghost predicate CountsRules(byRule: map<string, nat>, fs: seq<Finding>) {
    && (forall r :: CountIn(fs, {r}) == if r in byRule then byRule[r] else 0)
    && (forall r :: r in byRule ==> byRule[r] > 0)
    && CountIn(fs, byRule.Keys) == |fs| - CountStatus(fs, ShrinkCandidate)
  }

  function Bumped(byRule: map<string, nat>, f: Finding): map<string, nat> {
    if f.status == ShrinkCandidate then byRule
    else byRule[f.ruleId := (if f.ruleId in byRule then byRule[f.ruleId] else 0) + 1]
  }

  lemma RulesGrow(byRule: map<string, nat>, fs: seq<Finding>, f: Finding)
    requires CountsRules(byRule, fs)
    ensures CountsRules(Bumped(byRule, f), fs + [f])
  {
    var after := Bumped(byRule, f);
    assert (fs + [f])[..|fs|] == fs;
    if f.status != ShrinkCandidate {
      assert after.Keys == byRule.Keys + {f.ruleId};
      if f.ruleId !in byRule {
        OneMoreRule(fs, byRule.Keys, f.ruleId);
      } else {
        assert after.Keys == byRule.Keys;
      }
    }
  }

  /** list has the counts of these rules. */
  ghost predicate Lists(list: seq<RuleCount>, byRule: map<string, nat>, rules: set<string>)
    requires rules <= byRule.Keys
  {
    && NoRepeats(list)
    && forall rc :: rc in list <==> rc.ruleId in rules && rc.count == byRule[rc.ruleId]
  }

  method CountOne(s: Summary, byRule: map<string, nat>, fs: seq<Finding>, i: nat)
    returns (t: Summary, after: map<string, nat>)
    requires i < |fs| && Tallied(s, fs[..i]) && CountsRules(byRule, fs[..i])
    ensures Tallied(t, fs[..i + 1]) && CountsRules(after, fs[..i + 1])
  {
    t := Tally(s, fs[i], fs[..i]);
    RulesGrow(byRule, fs[..i], fs[i]);
    after := Bumped(byRule, fs[i]);
    OneMoreTaken(fs, i);
  }

  lemma OneMoreTaken<T>(s: seq<T>, i: nat)
    requires i < |s|
    ensures s[..i] + [s[i]] == s[..i + 1]
  {
  }

  /** The pass over the findings. */
  method CountFindings(fs: seq<Finding>) returns (s: Summary, byRule: map<string, nat>)
    ensures Tallied(s, fs) && CountsRules(byRule, fs)
  {
    s, byRule := Summary(0, 0, 0, 0, 0, 0, []), map[];
    var i := 0;
    while i < |fs|
      invariant 0 <= i <= |fs| && Tallied(s, fs[..i]) && CountsRules(byRule, fs[..i])
    {
      s, byRule := CountOne(s, byRule, fs, i);
      i := i + 1;
    }
    assert fs[..i] == fs;
  }

  /** buildSummary. The per-rule counts are exact, sorted, complete, and add up to errors and warnings. */
  method BuildSummary(fs: seq<Finding>) returns (s: Summary)
    ensures Tallied(s, fs)
    ensures forall rc :: rc in s.byRule <==> rc.count > 0 && rc.count == CountIn(fs, {rc.ruleId})
    ensures SortedBy(CountBefore, s.byRule)
    ensures forall i, j :: 0 <= i < j < |s.byRule| ==>
              s.byRule[i].count > s.byRule[j].count
              || (s.byRule[i].count == s.byRule[j].count && TextBefore(s.byRule[i].ruleId, s.byRule[j].ruleId))
    ensures SumCounts(s.byRule) == s.errors + s.warnings == s.total - s.shrinkCandidates
  {
    var byRule;
    s, byRule := CountFindings(fs);
    var list := RuleCounts(byRule, fs);
    CountBeforeIsTotal(Elements(list));
    SortSorts(CountBefore, list);
    SortKeepsSum(list);
    s := s.(byRule := Sort(CountBefore, list));
  }

  lemma ListGrows(list: seq<RuleCount>, byRule: map<string, nat>, done: set<string>, r: string, fs: seq<Finding>)
    requires done <= byRule.Keys && Lists(list, byRule, done) && r in byRule && r !in done && CountIn(fs, {r}) == byRule[r]
    requires SumCounts(list) == CountIn(fs, done)
    ensures Lists(list + [RuleCount(r, byRule[r])], byRule, done + {r})
    ensures SumCounts(list + [RuleCount(r, byRule[r])]) == CountIn(fs, done + {r})
  {
    SumGrows(list, RuleCount(r, byRule[r]));
    OneMoreRule(fs, done, r);
  }

  /** The map's entries in the order the iteration happens to take. */
  method RuleCounts(byRule: map<string, nat>, ghost fs: seq<Finding>) returns (list: seq<RuleCount>)
    requires CountsRules(byRule, fs)
    ensures Lists(list, byRule, byRule.Keys) && SumCounts(list) == |fs| - CountStatus(fs, ShrinkCandidate)
  {
    list := [];
    var todo := byRule.Keys;
    ghost var done: set<string> := {};
    NoRules(fs);
    while todo != {}
      invariant todo <= byRule.Keys && done == byRule.Keys - todo
      invariant Lists(list, byRule, done) && SumCounts(list) == CountIn(fs, done)
      decreases |todo|
    {
      var r := Take(todo);
      ListGrows(list, byRule, done, r, fs);
      list := list + [RuleCount(r, byRule[r])];
      todo, done := todo - {r}, done + {r};
    }
    assert done == byRule.Keys;
  }
}
