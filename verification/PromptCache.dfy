/** The static-prefix cache of the prompt builder: validated by fingerprints, filled by a build that was
    bracketed by equal snapshots. */
module PromptCache {
  import opened Basics
  import opened Sorting
  import opened Prompt

  datatype CacheEntry = CacheEntry(content: string, fingerprints: Snapshot)

  /** equalStringMap: same size, and every pair of the left one is in the right one. */
  predicate EqualStringMap<K, V(==)>(left: map<K, V>, right: map<K, V>) {
    |left| == |right| && forall k :: k in left ==> k in right && left[k] == right[k]
  }

  lemma EqualStringMapIsEquality<K, V>(left: map<K, V>, right: map<K, V>)
    ensures EqualStringMap(left, right) <==> left == right
  {
    if EqualStringMap(left, right) {
      SubsetOfSameSize(left.Keys, right.Keys);
      assert left.Keys == right.Keys;
    }
  }

  lemma SubsetOfSameSize<K>(a: set<K>, b: set<K>)
    requires a <= b && |a| == |b|
    ensures a == b
  {
    assert b == a + (b - a);
    assert |b| == |a| + |b - a|;
    assert b - a == {};
  }

  /** staticVariant.key. */
  function VariantKey(v: Variant): string {
    (if v.mode == PublicPrivate then "public_private" else "public_only") + if v.heartbeat then "|heartbeat" else "|normal"
  }

  lemma VariantKeyIsInjective(v: Variant, w: Variant)
    ensures VariantKey(v) == VariantKey(w) ==> v == w
  {
    assert VariantKey(v)[7] == if v.mode == PublicPrivate then 'p' else 'o';
    assert VariantKey(w)[7] == if w.mode == PublicPrivate then 'p' else 'o';
    assert VariantKey(v)[|VariantKey(v)| - 1] == if v.heartbeat then 't' else 'l';
    assert VariantKey(w)[|VariantKey(w)| - 1] == if w.heartbeat then 't' else 'l';
  }

  /** The entry holds what any workspace with its fingerprints builds. */
  ghost predicate Faithful(env: Env, v: Variant, entry: CacheEntry) {
    forall fs: Fs {:trigger SnapshotOf(fs, v)} ::
      Walked(fs) && SnapshotOf(fs, v) == entry.fingerprints ==> Build(env, fs, v) == entry.content
  }

  /** The environment with another renderer. */
  function Rendering(env: Env, render: Bundle -> string): Env {
    env.(render := render)
  }

  /** An entry built from one state under the snapshot of another is faithful, with this renderer. */
  ghost predicate FaithfulWith(env: Env, v: Variant, built: Fs, snapped: Fs, render: Bundle -> string) {
    Faithful(Rendering(env, render), v, CacheEntry(Build(Rendering(env, render), built, v), SnapshotOf(snapped, v)))
  }

  lemma FaithfulIffSameBuild(env: Env, v: Variant, built: Fs, snapped: Fs)
    requires Walked(built) && Walked(snapped)
    ensures Faithful(env, v, CacheEntry(Build(env, built, v), SnapshotOf(snapped, v))) <==> Build(env, built, v) == Build(env, snapped, v)
  {
    forall fs | Walked(fs) && SnapshotOf(fs, v) == SnapshotOf(snapped, v) ensures Build(env, fs, v) == Build(env, snapped, v) {
      SnapshotDeterminesBuild(env, fs, snapped, v);
    }
  }

  /** A renderer that tells one bundle from all others. */
  function Telling(b: Bundle): Bundle -> string {
    (c: Bundle) => if c == b then "same" else ""
  }

  /** An entry built from one state under the snapshot of another is faithful, whatever the renderer makes of
      it, exactly when the two states are read alike: same context entries, memory blocks and summaries. */
  lemma EntryIsFaithfulIffReadAlike(env: Env, v: Variant, built: Fs, snapped: Fs)
    requires Walked(built) && Walked(snapped)
    ensures (forall render :: FaithfulWith(env, v, built, snapped, render)) <==> ReadAlike(env, built, snapped, v)
  {
    SameBundleIffReadAlike(env, built, snapped, v);
    if ReadAlike(env, built, snapped, v) {
      forall render ensures FaithfulWith(env, v, built, snapped, render) {
        BundleIgnoresRenderer(env, built, v, render);
        BundleIgnoresRenderer(env, snapped, v, render);
        FaithfulIffSameBuild(Rendering(env, render), v, built, snapped);
      }
    } else {
      TellingRendererShowsIt(env, v, built, snapped);
    }
  }

  lemma BundleIgnoresRenderer(env: Env, fs: Fs, v: Variant, render: Bundle -> string)
    requires Walked(fs)
    ensures LoadBundle(Rendering(env, render), fs, v) == LoadBundle(env, fs, v)
  {
    var other := Rendering(env, render);
    SkillsArePerFile(env, fs);
    SkillsArePerFile(other, fs);
    assert forall x, y :: SkillBefore(other, x, y) == SkillBefore(env, x, y);
    assert forall n :: Summary(other, fs, n) == Summary(env, fs, n);
    SortedIsUnique((x, y) => SkillBefore(env, x, y), Skills(env, fs), Skills(other, fs));
  }

  lemma TellingRendererShowsIt(env: Env, v: Variant, built: Fs, snapped: Fs)
    requires Walked(built) && Walked(snapped) && LoadBundle(env, built, v) != LoadBundle(env, snapped, v)
    ensures !FaithfulWith(env, v, built, snapped, Telling(LoadBundle(env, built, v)))
  {
    var render := Telling(LoadBundle(env, built, v));
    BundleIgnoresRenderer(env, built, v, render);
    BundleIgnoresRenderer(env, snapped, v, render);
    assert Build(Rendering(env, render), built, v) == "same" && Build(Rendering(env, render), snapped, v) == "";
    FaithfulIffSameBuild(Rendering(env, render), v, built, snapped);
  }

  // ----- A build between two snapshots ---------------------------------------------------------------

  datatype Stable = Stable(content: string, fingerprints: Snapshot, cacheable: bool, end: nat)

  /** stableStaticBuild over its two callbacks, every call of which takes one tick, with the attempts
      that are left. */
  function StableBuild(build: nat -> string, snapshot: nat -> Snapshot, t: nat, attempts: nat): Stable
    decreases attempts
  {
    if attempts == 0 then Stable(build(t), snapshot(t + 1), false, t + 2)
    else if snapshot(t) == snapshot(t + 2) then Stable(build(t + 1), snapshot(t + 2), true, t + 3)
    else StableBuild(build, snapshot, t + 3, attempts - 1)
  }

  /** The retry loop; the builder calls it with a limit of three attempts. */
  method StableStaticBuild(build: nat -> string, snapshot: nat -> Snapshot, start: nat, limit: nat) returns (r: Stable)
    ensures r == StableBuild(build, snapshot, start, limit)
  {
    var attempt, t := 0, start;
    while attempt < limit
      invariant 0 <= attempt <= limit
      invariant StableBuild(build, snapshot, t, limit - attempt) == StableBuild(build, snapshot, start, limit)
    {
      var before := snapshot(t);
      var content := build(t + 1);
      var after := snapshot(t + 2);
      EqualStringMapIsEquality(before, after);
      if EqualStringMap(before, after) {
        return Stable(content, after, true, t + 3);
      }
      attempt, t := attempt + 1, t + 3;
    }
    r := Stable(build(t), snapshot(t + 1), false, t + 2);
  }

  /** The result is a build of some tick; a cacheable one was made between two snapshots that equal the
      returned one. */
  lemma {:induction false} BracketedBuild(build: nat -> string, snapshot: nat -> Snapshot, t: nat, attempts: nat)
    returns (i: nat)
    ensures var r := StableBuild(build, snapshot, t, attempts);
            && t <= i < r.end && r.content == build(i)
            && (r.cacheable ==> i > 0 && snapshot(i - 1) == snapshot(i + 1) == r.fingerprints)
    decreases attempts
  {
    if attempts == 0 {
      i := t;
    } else if snapshot(t) == snapshot(t + 2) {
      i := t + 1;
    } else {
      i := BracketedBuild(build, snapshot, t + 3, attempts - 1);
    }
  }

  /** Exactly when the loop returns what: the first attempt with equal snapshots around its build, or after the
      last attempt one more build that is not cached. */
  lemma {:induction false} FirstStableAttemptWins(build: nat -> string, snapshot: nat -> Snapshot, t: nat, attempts: nat)
    returns (k: nat)
    ensures k <= attempts && forall j: nat :: j < k ==> snapshot(t + 3 * j) != snapshot(t + 3 * j + 2)
    ensures k < attempts ==> snapshot(t + 3 * k) == snapshot(t + 3 * k + 2)
    ensures StableBuild(build, snapshot, t, attempts)
              == if k < attempts then Stable(build(t + 3 * k + 1), snapshot(t + 3 * k + 2), true, t + 3 * k + 3)
                 else Stable(build(t + 3 * k), snapshot(t + 3 * k + 1), false, t + 3 * k + 2)
    decreases attempts
  {
    if attempts == 0 || snapshot(t) == snapshot(t + 2) {
      k := 0;
    } else {
      var rest := FirstStableAttemptWins(build, snapshot, t + 3, attempts - 1);
      k := rest + 1;
      forall j: nat | j < k ensures snapshot(t + 3 * j) != snapshot(t + 3 * j + 2) {
        if j > 0 {
          var i: nat := j - 1;
          assert t + 3 + 3 * i == t + 3 * j;
        }
      }
    }
  }

  /** Builds and snapshots of the workspace's history. */
  function Builds(env: Env, v: Variant, world: nat -> Fs): nat -> string {
    (i: nat) => Build(env, world(i), v)
  }

  function Snapshots(v: Variant, world: nat -> Fs): nat -> Snapshot {
    (i: nat) => SnapshotOf(world(i), v)
  }

  ghost predicate AllWalked(world: nat -> Fs) {
    forall i: nat :: Walked(world(i))
  }

  /** Whenever the snapshots around a moment are equal, what a build reads at that moment is what a build would
      read under the second one. */
  ghost predicate ReadsHold(env: Env, v: Variant, world: nat -> Fs) {
    forall i: nat {:trigger Snapshots(v, world)(i)} :: i > 0 && Snapshots(v, world)(i - 1) == Snapshots(v, world)(i + 1) ==>
      ReadAlike(env, world(i), world(i + 1), v)
  }

  /** Between two equal snapshots the fingerprints had not changed and come back. */
  ghost predicate NoReturn(snapshot: nat -> Snapshot) {
    forall i: nat {:trigger snapshot(i)} :: i > 0 && snapshot(i - 1) == snapshot(i + 1) ==> snapshot(i) == snapshot(i + 1)
  }

  lemma NoReturnReadsHold(env: Env, v: Variant, world: nat -> Fs)
    requires NoReturn(Snapshots(v, world))
    ensures ReadsHold(env, v, world)
  {
    var snapshot := Snapshots(v, world);
    forall i: nat | i > 0 && snapshot(i - 1) == snapshot(i + 1) ensures ReadAlike(env, world(i), world(i + 1), v) {
      assert snapshot(i) == snapshot(i + 1);
      SnapshotDeterminesReads(env, world(i), world(i + 1), v);
    }
  }

  /** The build of the history that starts at tick t is faithful if it may be cached. */
  ghost predicate CachesFaithfully(env: Env, v: Variant, world: nat -> Fs, t: nat, attempts: nat) {
    var r := StableBuild(Builds(env, v, world), Snapshots(v, world), t, attempts);
    r.cacheable ==> Faithful(env, v, CacheEntry(r.content, r.fingerprints))
  }

  /** What the build returns was built at some tick; what may be cached is faithful. */
  lemma {:induction false} StableBuildIsFaithful(env: Env, v: Variant, world: nat -> Fs, t: nat, attempts: nat)
    returns (i: nat)
    requires AllWalked(world) && ReadsHold(env, v, world)
    ensures var r := StableBuild(Builds(env, v, world), Snapshots(v, world), t, attempts);
            t <= i < r.end && r.content == Build(env, world(i), v) && CachesFaithfully(env, v, world, t, attempts)
  {
    var build, snapshot := Builds(env, v, world), Snapshots(v, world);
    i := BracketedBuild(build, snapshot, t, attempts);
    var r := StableBuild(build, snapshot, t, attempts);
    assert Walked(world(i)) && Walked(world(i + 1));
    if r.cacheable {
      assert snapshot(i - 1) == snapshot(i + 1) && snapshot(i) == snapshot(i);
      SameBundleIffReadAlike(env, world(i), world(i + 1), v);
      FaithfulIffSameBuild(env, v, world(i), world(i + 1));
    }
  }

  lemma ReadsIgnoreRenderer(env: Env, v: Variant, world: nat -> Fs, render: Bundle -> string)
    ensures ReadsHold(Rendering(env, render), v, world) <==> ReadsHold(env, v, world)
  {
    var other := Rendering(env, render);
    assert forall a, b :: ReadAlike(other, a, b, v) <==> ReadAlike(env, a, b, v) by {
      assert forall fs, n :: Summary(other, fs, n) == Summary(env, fs, n);
    }
  }

  /** Over a history of the workspace, every build that may be cached is faithful, whatever the renderer,
      exactly when what was read holds whenever the snapshots around it are equal. */
  lemma CachingIsFaithfulIffReadsHold(env: Env, v: Variant, world: nat -> Fs)
    requires AllWalked(world)
    ensures (forall render, t, attempts :: CachesFaithfully(Rendering(env, render), v, world, t, attempts))
            <==> ReadsHold(env, v, world)
  {
    if ReadsHold(env, v, world) {
      forall render, t, attempts ensures CachesFaithfully(Rendering(env, render), v, world, t, attempts) {
        ReadsIgnoreRenderer(env, v, world, render);
        var _ := StableBuildIsFaithful(Rendering(env, render), v, world, t, attempts);
      }
    } else {
      var snapshot := Snapshots(v, world);
      var i: nat :| i > 0 && snapshot(i - 1) == snapshot(i + 1) && !ReadAlike(env, world(i), world(i + 1), v);
      BrokenReadIsCached(env, v, world, i);
    }
  }

  lemma BrokenReadIsCached(env: Env, v: Variant, world: nat -> Fs, i: nat)
    requires AllWalked(world) && i > 0 && Snapshots(v, world)(i - 1) == Snapshots(v, world)(i + 1)
    requires !ReadAlike(env, world(i), world(i + 1), v)
    ensures !CachesFaithfully(Rendering(env, Telling(LoadBundle(env, world(i), v))), v, world, i - 1, 1)
  {
    assert Walked(world(i)) && Walked(world(i + 1));
    SameBundleIffReadAlike(env, world(i), world(i + 1), v);
    TellingRendererShowsIt(env, v, world(i), world(i + 1));
  }

  // ----- The cache -----------------------------------------------------------------------------------

  class Builder {
    const env: Env
    var cached: map<string, CacheEntry>
    var staticBuilds: nat

    constructor (env: Env)
      ensures this.env == env && cached == map[] && staticBuilds == 0 && Valid()
    {
      this.env := env;
      cached, staticBuilds := map[], 0;
    }

    /** Every cached entry is faithful for the variant it is stored under. */
    ghost predicate Valid()
      reads this
    {
      AllFaithful(cached)
    }

    /** The read-locked section. */
    method LookUp(v: Variant, snapshot: Snapshot) returns (hit: Option<string>)
      ensures hit.Some? <==> VariantKey(v) in cached && cached[VariantKey(v)].fingerprints == snapshot
      ensures hit.Some? ==> hit.value == cached[VariantKey(v)].content
    {
      var key := VariantKey(v);
      if key in cached {
        EqualStringMapIsEquality(cached[key].fingerprints, snapshot);
        if EqualStringMap(cached[key].fingerprints, snapshot) {
          return Some(cached[key].content);
        }
      }
      hit := None;
    }

    /** The write-locked section: an entry that fits the latest snapshot wins, else a cacheable build
        that still fits it is stored. */
    method Settle(v: Variant, build: Stable, latest: Snapshot) returns (content: string)
      requires Valid() && (build.cacheable ==> Faithful(env, v, CacheEntry(build.content, build.fingerprints)))
      modifies this
      ensures Valid()
      ensures var key := VariantKey(v);
              if key in old(cached) && old(cached)[key].fingerprints == latest then
                content == old(cached)[key].content && cached == old(cached) && staticBuilds == old(staticBuilds)
              else
                content == build.content
                && if build.cacheable && build.fingerprints == latest
                   then cached == old(cached)[key := CacheEntry(build.content, latest)] && staticBuilds == old(staticBuilds) + 1
                   else cached == old(cached) && staticBuilds == old(staticBuilds)
    {
      var hit := LookUp(v, latest);
      if hit.Some? {
        return hit.value;
      }
      content := build.content;
      if build.cacheable && build.fingerprints == latest {
        cached := cached[VariantKey(v) := CacheEntry(content, build.fingerprints)];
        staticBuilds := staticBuilds + 1;
        forall w: Variant | VariantKey(w) in cached ensures Faithful(env, w, cached[VariantKey(w)]) {
          VariantKeyIsInjective(v, w);
        }
      }
    }

    /** Every entry of the cache is faithful for the variant it is stored under. */
    ghost predicate AllFaithful(entries: map<string, CacheEntry>) {
      forall v: Variant {:trigger VariantKey(v)} :: VariantKey(v) in entries ==> Faithful(env, v, entries[VariantKey(v)])
    }

    /** renderStaticPrefix over the workspace's history from tick 0: the result is what a fresh build gives
        at some tick of the call, on a hit at the tick of its snapshot. others is what other calls, each of
        which keeps the cache valid, have made of it by the time this one has the write lock. */
    method RenderStaticPrefix(v: Variant, world: nat -> Fs, others: map<string, CacheEntry>)
      returns (content: string, end: nat)
      requires Valid() && AllFaithful(others) && AllWalked(world) && ReadsHold(env, v, world)
      modifies this
      ensures Valid()
      ensures exists i: nat :: i <= end && content == Build(env, world(i), v)
      ensures var key := VariantKey(v);
              key in old(cached) && old(cached)[key].fingerprints == SnapshotOf(world(0), v) ==>
                content == Build(env, world(0), v) && cached == old(cached) && staticBuilds == old(staticBuilds)
    {
      var snapshot := TakeSnapshot(world(0), v);
      var hit := LookUp(v, snapshot);
      if hit.Some? {
        assert Walked(world(0)) && Faithful(env, v, cached[VariantKey(v)]);
        return hit.value, 0;
      }
      var build := StableStaticBuild(Builds(env, v, world), Snapshots(v, world), 1, 3);
      ghost var i := StableBuildIsFaithful(env, v, world, 1, 3);
      end := build.end;
      cached := others;
      var latest := TakeSnapshot(world(end), v);
      assert Walked(world(end)) && AllFaithful(cached);
      content := Settle(v, build, latest);
      assert content == Build(env, world(if content == build.content then i else end), v);
    }
  }

  // ----- The condition is needed, and what it takes from single files ---------------------------------

  /** fs with file n in another state. */
  function WithFile(fs: Fs, n: string, f: FileState): Fs {
    fs.(file := (m: string) => if m == n then f else fs.file(m))
  }

  /** fs at every tick but the first, when file n is in state f. */
  function Flicker(fs: Fs, n: string, f: FileState): nat -> Fs {
    (i: nat) => if i == 1 then WithFile(fs, n, f) else fs
  }

  /** A single context file that changes during a build and changes back makes the cache wrong exactly when
      something else was read from it: exactly when it held text before or during the build and its fingerprint
      changed. */
  lemma ReturningContextFileBreaksIff(env: Env, v: Variant, fs: Fs, n: string, f: FileState)
    requires Walked(fs) && n in ContextFiles(v) && n !in MemoryFiles(v.mode) && n !in fs.skills
    ensures (forall render, t, attempts :: CachesFaithfully(Rendering(env, render), v, Flicker(fs, n, f), t, attempts))
            <==> ((fs.file(n).Text? || f.Text?) ==> ContextFingerprint(f) == ContextFingerprint(fs.file(n)))
  {
    var world, broken := Flicker(fs, n, f), WithFile(fs, n, f);
    CachingIsFaithfulIffReadsHold(env, v, world);
    OnlyThatFile(env, v, fs, n, f);
    OnlyTheFirstTick(env, v, fs, n, f);
  }

  /** The two states are read alike exactly when the same is read from that file. */
  lemma OnlyThatFile(env: Env, v: Variant, fs: Fs, n: string, f: FileState)
    requires n in ContextFiles(v) && n !in MemoryFiles(v.mode) && n !in fs.skills
    ensures var broken := WithFile(fs, n, f);
            ReadAlike(env, broken, fs, v) <==> ((fs.file(n).Text? || f.Text?) ==> ContextFingerprint(f) == ContextFingerprint(fs.file(n)))
  {
    var broken := WithFile(fs, n, f);
    SameReadsSameCurated(broken, fs, MemoryFiles(v.mode), v.mode);
    forall m ensures Summary(env, broken, m) == Summary(env, fs, m) {
      OtherFilesStay(env, fs, n, f, m);
    }
    forall m | m != n ensures ReadContext(broken, m) == ReadContext(fs, m) {
      OtherFilesStay(env, fs, n, f, m);
    }
    ChangedFile(fs, n, f);
  }

  lemma OtherFilesStay(env: Env, fs: Fs, n: string, f: FileState, m: string)
    requires n !in fs.skills
    ensures m != n ==> ReadContext(WithFile(fs, n, f), m) == ReadContext(fs, m)
    ensures Summary(env, WithFile(fs, n, f), m) == Summary(env, fs, m)
  {
  }

  lemma ChangedFile(fs: Fs, n: string, f: FileState)
    ensures ReadContext(WithFile(fs, n, f), n) == ReadContext(fs, n) <==>
              ((fs.file(n).Text? || f.Text?) ==> ContextFingerprint(f) == ContextFingerprint(fs.file(n)))
  {
  }

  lemma OnlyTheFirstTick(env: Env, v: Variant, fs: Fs, n: string, f: FileState)
    ensures ReadsHold(env, v, Flicker(fs, n, f)) <==> ReadAlike(env, WithFile(fs, n, f), fs, v)
  {
    var world := Flicker(fs, n, f);
    var snapshot := Snapshots(v, world);
    assert snapshot(0) == snapshot(2) && world(1) == WithFile(fs, n, f) && world(2) == fs;
    if ReadsHold(env, v, world) {
      assert snapshot(1) == snapshot(1);
    }
    if ReadAlike(env, WithFile(fs, n, f), fs, v) {
      forall i: nat | i > 0 && snapshot(i - 1) == snapshot(i + 1) ensures ReadAlike(env, world(i), world(i + 1), v) {
        assert i != 1 ==> world(i) == fs && world(i + 1) == fs;
      }
    }
  }

  /** What a pass sees that reads each file, and walks, at its own moment of the history. */
  function Torn(history: nat -> Fs, when: string -> nat, walk: nat): Fs {
    Fs(n => history(when(n)).file(n), history(walk).skills)
  }

  /** No file of the variant, and not the set of skill files, returns to an earlier fingerprint. */
  ghost predicate NothingReturns(history: nat -> Fs, v: Variant) {
    && (forall key: SnapshotKey, i: nat, j: nat, k: nat ::
          i <= j <= k && FingerprintAt(history(i), v, key) == FingerprintAt(history(k), v, key) ==>
            FingerprintAt(history(j), v, key) == FingerprintAt(history(i), v, key))
    && (forall i: nat, j: nat, k: nat ::
          i <= j <= k && SkillFiles(history(i)) == SkillFiles(history(k)) ==> SkillFiles(history(j)) == SkillFiles(history(i)))
  }

  function SkillFiles(fs: Fs): set<string> {
    set n | n in fs.skills
  }

  lemma EqualSnapshotsEqualKeys(a: Fs, b: Fs, v: Variant)
    ensures SnapshotOf(a, v) == SnapshotOf(b, v) <==>
              SkillFiles(a) == SkillFiles(b) && forall key :: key in Keys(a, v) ==> FingerprintAt(a, v, key) == FingerprintAt(b, v, key)
  {
    var x, y := SnapshotOf(a, v), SnapshotOf(b, v);
    assert x.Keys == Keys(a, v) && y.Keys == Keys(b, v);
    if x == y {
      forall n ensures n in SkillFiles(a) <==> n in SkillFiles(b) {
        assert n in a.skills <==> SkillKey(n) in x;
        assert n in b.skills <==> SkillKey(n) in y;
      }
      forall key | key in Keys(a, v) ensures FingerprintAt(a, v, key) == FingerprintAt(b, v, key) {
        assert x[key] == y[key];
      }
    } else if SkillFiles(a) == SkillFiles(b) {
      forall n ensures n in a.skills <==> n in b.skills {
        assert n in SkillFiles(a) <==> n in SkillFiles(b);
      }
      assert Keys(a, v) == Keys(b, v);
    }
  }

  function PathOf(key: SnapshotKey): string {
    match key case CtxKey(n) => n case SkillKey(n) => n case MemoryKey(n) => n
  }

  /** Reading files one after the other is no weaker: when the passes before and after a build agree and
      no single file returned, the build saw the same fingerprints. */
  lemma TornReadsAgree(history: nat -> Fs, v: Variant,
                       t0: string -> nat, w0: nat, t1: string -> nat, w1: nat, t2: string -> nat, w2: nat)
    requires NothingReturns(history, v)
    requires (forall n :: t0(n) <= t1(n) <= t2(n)) && w0 <= w1 <= w2
    requires SnapshotOf(Torn(history, t0, w0), v) == SnapshotOf(Torn(history, t2, w2), v)
    ensures SnapshotOf(Torn(history, t0, w0), v) == SnapshotOf(Torn(history, t1, w1), v)
  {
    var a, b, c := Torn(history, t0, w0), Torn(history, t1, w1), Torn(history, t2, w2);
    EqualSnapshotsEqualKeys(a, c, v);
    assert SkillFiles(a) == SkillFiles(history(w0)) && SkillFiles(b) == SkillFiles(history(w1)) && SkillFiles(c) == SkillFiles(history(w2));
    forall key | key in Keys(a, v) ensures FingerprintAt(a, v, key) == FingerprintAt(b, v, key) {
      var n := PathOf(key);
      assert FingerprintAt(a, v, key) == FingerprintAt(history(t0(n)), v, key);
      assert FingerprintAt(b, v, key) == FingerprintAt(history(t1(n)), v, key);
      assert FingerprintAt(c, v, key) == FingerprintAt(history(t2(n)), v, key);
    }
    EqualSnapshotsEqualKeys(a, b, v);
  }
}
