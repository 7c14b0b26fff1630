/** What the static prompt prefix reads from the workspace, what the fingerprint snapshot records of it,
    and why equal snapshots mean equal prefixes. */
module Prompt {
  import opened Basics
  import opened Sorting

  datatype Visibility = Public | Private

  /** One file as the resolvers and readers see it; context files ignore the visibility. */
  datatype FileState =
    | Missing
    | StatError
    | Denied(marker: string)
    | Unreadable(visibility: Visibility)
    | Empty(resolved: string, visibility: Visibility)
    | Text(resolved: string, visibility: Visibility, content: string)

  /** The workspace at one moment: every file, and the SKILL.md files a walk finds, in walk order. */
  datatype Fs = Fs(file: string -> FileState, skills: seq<string>)

  datatype Mode = PublicOnly | PublicPrivate

  datatype Variant = Variant(mode: Mode, heartbeat: bool)

  const CONTEXT_FILES := ["SOUL.md", "IDENTITY.md", "USER.md", "AGENTS.md", "TOOLS.md", "BOOTSTRAP.md"]
  const HEARTBEAT_FILE := "HEARTBEAT.md"
  const PUBLIC_MEMORY := "memory/public/MEMORY.md"
  const ROOT_MEMORY := "MEMORY.md"
  const PRIVATE_MEMORY := "memory/private/MEMORY.md"

  predicate MayRead(mode: Mode, visibility: Visibility) {
    visibility == Public || mode == PublicPrivate
  }

  // ----- The snapshot --------------------------------------------------------------------------------

  /** A SHA-256 sum, taken to be injective. */
  datatype Digest = Digest(preimage: string)

  datatype Fingerprint =
    | FpMissing | FpStatError | FpDenied(marker: string) | FpDeniedVisibility(visibility: Visibility)
    | FpReadError | FpEmpty(resolved: string) | FpOk(resolved: string, sum: Digest)

  /** The keys "ctx:…", "skill:…" and "memory:…". */
  datatype SnapshotKey = CtxKey(name: string) | SkillKey(rel: string) | MemoryKey(rel: string)

  type Snapshot = map<SnapshotKey, Fingerprint>

  function ContextFingerprint(f: FileState): Fingerprint {
    match f
    case Missing => FpMissing
    case StatError => FpStatError
    case Denied(marker) => FpDenied(marker)
    case Unreadable(_) => FpReadError
    case Empty(resolved, _) => FpEmpty(resolved)
    case Text(resolved, _, content) => FpOk(resolved, Digest(content))
  }

  function MemoryFingerprint(f: FileState, mode: Mode): Fingerprint {
    if (f.Unreadable? || f.Empty? || f.Text?) && !MayRead(mode, f.visibility) then FpDeniedVisibility(f.visibility)
    else ContextFingerprint(f)
  }

  function MemoryFiles(mode: Mode): seq<string> {
    [PUBLIC_MEMORY, ROOT_MEMORY] + if mode == PublicPrivate then [PRIVATE_MEMORY] else []
  }

  function ContextFiles(v: Variant): seq<string> {
    CONTEXT_FILES + if v.heartbeat then [HEARTBEAT_FILE] else []
  }

  function Keys(fs: Fs, v: Variant): set<SnapshotKey> {
    (set n | n in ContextFiles(v) :: CtxKey(n)) + (set n | n in fs.skills :: SkillKey(n)) + (set n | n in MemoryFiles(v.mode) :: MemoryKey(n))
  }

  function FingerprintAt(fs: Fs, v: Variant, key: SnapshotKey): Fingerprint {
    match key
    case CtxKey(n) => ContextFingerprint(fs.file(n))
    case SkillKey(n) => ContextFingerprint(fs.file(n))
    case MemoryKey(n) => MemoryFingerprint(fs.file(n), v.mode)
  }

  function SnapshotOf(fs: Fs, v: Variant): Snapshot {
    map key | key in Keys(fs, v) :: FingerprintAt(fs, v, key)
  }

  /** snapshotStaticState. */
  method TakeSnapshot(fs: Fs, v: Variant) returns (state: Snapshot)
    ensures state == SnapshotOf(fs, v)
  {
    state := map[];
    state := AddContext(fs, v, state, ContextFiles(v));
    var i := 0;
    while i < |fs.skills|
      invariant 0 <= i <= |fs.skills|
      invariant state.Keys == (set n | n in ContextFiles(v) :: CtxKey(n)) + (set n | n in fs.skills[..i] :: SkillKey(n))
      invariant forall key :: key in state ==> state[key] == FingerprintAt(fs, v, key)
    {
      state := state[SkillKey(fs.skills[i]) := ContextFingerprint(fs.file(fs.skills[i]))];
      assert fs.skills[..i + 1] == fs.skills[..i] + [fs.skills[i]];
      i := i + 1;
    }
    assert fs.skills[..i] == fs.skills;
    var files := MemoryFiles(v.mode);
    i := 0;
    while i < |files|
      invariant 0 <= i <= |files|
      invariant state.Keys == (set n | n in ContextFiles(v) :: CtxKey(n)) + (set n | n in fs.skills :: SkillKey(n))
                              + (set n | n in files[..i] :: MemoryKey(n))
      invariant forall key :: key in state ==> state[key] == FingerprintAt(fs, v, key)
    {
      state := state[MemoryKey(files[i]) := MemoryFingerprint(fs.file(files[i]), v.mode)];
      assert files[..i + 1] == files[..i] + [files[i]];
      i := i + 1;
    }
    assert files[..i] == files;
  }

  method AddContext(fs: Fs, v: Variant, before: Snapshot, names: seq<string>) returns (state: Snapshot)
    ensures state.Keys == before.Keys + (set n | n in names :: CtxKey(n))
    ensures forall key :: key in state ==>
              state[key] == if key in before && (key.CtxKey? ==> key.name !in names) then before[key] else FingerprintAt(fs, v, key)
  {
    state := before;
    var i := 0;
    while i < |names|
      invariant 0 <= i <= |names|
      invariant state.Keys == before.Keys + (set n | n in names[..i] :: CtxKey(n))
      invariant forall key :: key in state ==>
                  state[key] == if key in before && (key.CtxKey? ==> key.name !in names[..i]) then before[key] else FingerprintAt(fs, v, key)
    {
      state := state[CtxKey(names[i]) := ContextFingerprint(fs.file(names[i]))];
      assert names[..i + 1] == names[..i] + [names[i]];
      i := i + 1;
    }
    assert names[..i] == names;
  }

  // ----- The bundle ----------------------------------------------------------------------------------

  datatype Entry = Entry(displayPath: string, resolvedPath: string, content: string)

  datatype Skill = Skill(name: string, description: string, path: string)

  datatype Bundle = Bundle(memory: seq<Entry>, context: seq<Entry>, skills: seq<Skill>,
      heartbeat: Option<Entry>, includeHeartbeat: bool)

  /** The parts of the prompt that only depend on their arguments: the skill file parser (None for an
      invalid file), lower-casing, and the renderer. */
  datatype Env = Env(parse: (string, string) -> Option<(string, string)>, lower: string -> string,
      render: Bundle -> string)

  function ReadContext(fs: Fs, name: string): Option<Entry> {
    match fs.file(name)
    case Text(resolved, _, content) => Some(Entry(name, resolved, content))
    case _ => None
  }

  function ReadMemory(fs: Fs, name: string, mode: Mode): Option<Entry> {
    match fs.file(name)
    case Text(resolved, visibility, content) => if MayRead(mode, visibility) then Some(Entry(name, resolved, content)) else None
    case _ => None
  }

  function Entries(fs: Fs, names: seq<string>): seq<Entry> {
    if names == [] then []
    else
      Entries(fs, names[..|names| - 1])
      + match ReadContext(fs, names[|names| - 1]) case Some(e) => [e] case None => []
  }

  predicate Seen(blocks: seq<Entry>, resolved: string) {
    exists i :: 0 <= i < |blocks| && blocks[i].resolvedPath == resolved
  }

  /** The readable memory files in order, each resolved path once. */
  function Curated(fs: Fs, names: seq<string>, mode: Mode): seq<Entry> {
    if names == [] then []
    else
      var before := Curated(fs, names[..|names| - 1], mode);
      match ReadMemory(fs, names[|names| - 1], mode)
      case Some(e) => if Seen(before, e.resolvedPath) then before else before + [e]
      case None => before
  }

  /** No resolved path is injected twice, and no readable one is missing. */
  lemma {:induction false} CuratedIsDeduplicated(fs: Fs, names: seq<string>, mode: Mode)
    ensures var blocks := Curated(fs, names, mode);
            && (forall i, j :: 0 <= i < j < |blocks| ==> blocks[i].resolvedPath != blocks[j].resolvedPath)
            && (forall n :: n in names && ReadMemory(fs, n, mode).Some? ==> Seen(blocks, ReadMemory(fs, n, mode).value.resolvedPath))
            && (forall b :: b in blocks ==> b.displayPath in names && ReadMemory(fs, b.displayPath, mode) == Some(b))
  {
    if names != [] {
      var last := names[|names| - 1];
      CuratedIsDeduplicated(fs, names[..|names| - 1], mode);
      var before, blocks := Curated(fs, names[..|names| - 1], mode), Curated(fs, names, mode);
      assert forall i :: 0 <= i < |before| ==> blocks[i] == before[i];
      assert forall n :: n in names ==> n in names[..|names| - 1] || n == last;
      forall n | n in names && ReadMemory(fs, n, mode).Some?
        ensures Seen(blocks, ReadMemory(fs, n, mode).value.resolvedPath)
      {
        if n != last {
          var i :| 0 <= i < |before| && before[i].resolvedPath == ReadMemory(fs, n, mode).value.resolvedPath;
          assert blocks[i] == before[i];
        } else if blocks != before {
          assert blocks[|before|].resolvedPath == ReadMemory(fs, n, mode).value.resolvedPath;
        }
      }
    }
  }

  /** The text of a file as an entry, if it may be shown. */
  function TextOf(fs: Fs, rel: string, mayShow: bool): seq<Entry> {
    if fs.file(rel).Text? && mayShow then [Entry(rel, fs.file(rel).resolved, fs.file(rel).content)] else []
  }

  predicate SamePath(a: seq<Entry>, b: seq<Entry>) {
    a != [] && b != [] && a[0].resolvedPath == b[0].resolvedPath
  }

  /** A memory file may show in this mode. */
  predicate Open(fs: Fs, mode: Mode, rel: string) {
    mode == PublicPrivate || (fs.file(rel).Text? && fs.file(rel).visibility == Public)
  }

  lemma CuratedOneMore(fs: Fs, names: seq<string>, name: string, mode: Mode)
    ensures var before := Curated(fs, names, mode);
            var text := TextOf(fs, name, Open(fs, mode, name));
            Curated(fs, names + [name], mode)
              == before + if text != [] && Seen(before, text[0].resolvedPath) then [] else text
  {
    assert (names + [name])[..|names|] == names;
  }

  lemma SeenInTwo(a: seq<Entry>, b: seq<Entry>, c: seq<Entry>)
    requires |a| <= 1 && |b| <= 1 && c != []
    ensures Seen(a, c[0].resolvedPath) <==> SamePath(a, c)
    ensures Seen(a + (if SamePath(a, b) then [] else b), c[0].resolvedPath) <==> SamePath(a, c) || SamePath(b, c)
  {
    var two := a + if SamePath(a, b) then [] else b;
    assert a != [] ==> two[0] == a[0];
    assert b != [] && !SamePath(a, b) ==> two[|a|] == b[0];
  }

  /** The memory blocks of a mode are the text of the public, the root and, for private prompts only, the
      private memory file, in this order and each resolved path once. Text marked private shows in a private
      prompt only. */
  lemma MemoryByMode(fs: Fs, mode: Mode)
    ensures var a := TextOf(fs, "memory/public/MEMORY.md", Open(fs, mode, "memory/public/MEMORY.md"));
            var b := TextOf(fs, "MEMORY.md", Open(fs, mode, "MEMORY.md"));
            var c := TextOf(fs, "memory/private/MEMORY.md", mode == PublicPrivate);
            Curated(fs, MemoryFiles(mode), mode)
              == a + (if SamePath(a, b) then [] else b) + (if SamePath(a, c) || SamePath(b, c) then [] else c)
  {
    var a := TextOf(fs, PUBLIC_MEMORY, Open(fs, mode, PUBLIC_MEMORY));
    var b := TextOf(fs, ROOT_MEMORY, Open(fs, mode, ROOT_MEMORY));
    var c := TextOf(fs, PRIVATE_MEMORY, mode == PublicPrivate);
    var two := [PUBLIC_MEMORY, ROOT_MEMORY];
    FirstTwo(fs, mode, a, b);
    assert two + [] == two;
    if mode == PublicPrivate {
      CuratedOneMore(fs, two, PRIVATE_MEMORY, mode);
      if c != [] {
        SeenInTwo(a, b, c);
      }
    }
  }

  lemma FirstTwo(fs: Fs, mode: Mode, a: seq<Entry>, b: seq<Entry>)
    requires a == TextOf(fs, PUBLIC_MEMORY, Open(fs, mode, PUBLIC_MEMORY))
    requires b == TextOf(fs, ROOT_MEMORY, Open(fs, mode, ROOT_MEMORY))
    ensures Curated(fs, [PUBLIC_MEMORY, ROOT_MEMORY], mode) == a + if SamePath(a, b) then [] else b
  {
    CuratedOneMore(fs, [], PUBLIC_MEMORY, mode);
    assert [] + [PUBLIC_MEMORY] == [PUBLIC_MEMORY] && [PUBLIC_MEMORY] + [ROOT_MEMORY] == [PUBLIC_MEMORY, ROOT_MEMORY];
    assert Curated(fs, [PUBLIC_MEMORY], mode) == [] + a == a;
    CuratedOneMore(fs, [PUBLIC_MEMORY], ROOT_MEMORY, mode);
    if b != [] {
      assert a + [] == a;
      SeenInTwo(a, [], b);
    }
  }

  method LoadCuratedMemoryBlocks(fs: Fs, mode: Mode) returns (blocks: seq<Entry>)
    ensures blocks == Curated(fs, MemoryFiles(mode), mode)
  {
    blocks := [];
    var seen: set<string> := {};
    var names := MemoryFiles(mode);
    var i := 0;
    while i < |names|
      invariant 0 <= i <= |names|
      invariant blocks == Curated(fs, names[..i], mode)
      invariant forall r :: r in seen <==> Seen(blocks, r)
    {
      assert names[..i + 1][..i] == names[..i];
      var entry := ReadMemory(fs, names[i], mode);
      if entry.Some? && entry.value.resolvedPath !in seen {
        ghost var before := blocks;
        blocks := blocks + [entry.value];
        seen := seen + {entry.value.resolvedPath};
        assert forall k :: 0 <= k < |before| ==> blocks[k] == before[k];
        assert blocks[|before|] == entry.value;
      }
      i := i + 1;
    }
    assert names[..i] == names;
  }

  // ----- Skills --------------------------------------------------------------------------------------

  /** The summary of one skill file, if it can be read and parsed. */
  function SkillAt(env: Env, fs: Fs, rel: string): Option<Skill> {
    match ReadContext(fs, rel)
    case None => None
    case Some(e) =>
      match env.parse(rel, e.content)
      case None => None
      case Some((name, description)) => Some(Skill(name, description, rel))
  }

  function SkillList(env: Env, fs: Fs, rels: seq<string>): seq<Skill> {
    if rels == [] then []
    else
      SkillList(env, fs, rels[..|rels| - 1])
      + match SkillAt(env, fs, rels[|rels| - 1]) case Some(s) => [s] case None => []
  }

  /** By lower-cased name, then by path. */
  predicate SkillBefore(env: Env, a: Skill, b: Skill) {
    var left, right := env.lower(a.name), env.lower(b.name);
    if left == right then TextBefore(a.path, b.path) else TextBefore(left, right)
  }

  function Skills(env: Env, fs: Fs): seq<Skill> {
    Sort((a, b) => SkillBefore(env, a, b), SkillList(env, fs, fs.skills))
  }

  lemma {:induction false} SkillListIsPerFile(env: Env, fs: Fs, rels: seq<string>)
    requires NoRepeats(rels)
    ensures var skills := SkillList(env, fs, rels);
            && NoRepeats(skills)
            && (forall s :: s in skills <==> s.path in rels && SkillAt(env, fs, s.path) == Some(s))
  {
    if rels != [] {
      var n := |rels| - 1;
      SkillListIsPerFile(env, fs, rels[..n]);
      assert forall r :: r in rels <==> r in rels[..n] || r == rels[n];
      assert rels[n] !in rels[..n];
    }
  }

  lemma SkillsOrdered(env: Env, skills: set<Skill>)
    requires forall a, b :: a in skills && b in skills && a.path == b.path ==> a == b
    ensures TotalOn((a, b) => SkillBefore(env, a, b), skills)
  {
    forall a, b | a in skills && b in skills
      ensures !SkillBefore(env, a, a) && (a != b ==> SkillBefore(env, a, b) || SkillBefore(env, b, a))
    {
      TextTotal(a.path, b.path);
      TextTotal(env.lower(a.name), env.lower(b.name));
    }
    forall a, b, c | a in skills && b in skills && c in skills && SkillBefore(env, a, b) && SkillBefore(env, b, c)
      ensures SkillBefore(env, a, c)
    {
      SkillBeforeTransitive(env, a, b, c);
    }
  }

  lemma SkillBeforeTransitive(env: Env, a: Skill, b: Skill, c: Skill)
    requires SkillBefore(env, a, b) && SkillBefore(env, b, c)
    ensures SkillBefore(env, a, c)
  {
    var x, y, z := env.lower(a.name), env.lower(b.name), env.lower(c.name);
    TextTotal(x, y);
    if x == y && y == z {
      TextTransitive(a.path, b.path, c.path);
    } else if x != y && y != z {
      TextTransitive(x, y, z);
      TextTotal(x, z);
    }
  }

  /** loadSkillSummaries: the walk collects, the sort orders. */
  method LoadSkillSummaries(env: Env, fs: Fs) returns (skills: seq<Skill>)
    ensures skills == Skills(env, fs)
    ensures Walked(fs) ==> ByNameThenPath(env, skills)
    ensures Walked(fs) ==>
              forall s :: s in skills <==>
                s.path in fs.skills && fs.file(s.path).Text?
                && env.parse(s.path, fs.file(s.path).content) == Some((s.name, s.description))
  {
    if Walked(fs) {
      SkillsArePerFile(env, fs);
    }
    var entries := [];
    var i := 0;
    while i < |fs.skills|
      invariant 0 <= i <= |fs.skills|
      invariant entries == SkillList(env, fs, fs.skills[..i])
    {
      assert fs.skills[..i + 1][..i] == fs.skills[..i];
      var skill := SkillAt(env, fs, fs.skills[i]);
      if skill.Some? {
        entries := entries + [skill.value];
      }
      i := i + 1;
    }
    assert fs.skills[..i] == fs.skills;
    skills := Sort((a, b) => SkillBefore(env, a, b), entries);
  }

  // ----- Equal snapshots, equal prefixes -------------------------------------------------------------

  function LoadBundle(env: Env, fs: Fs, v: Variant): Bundle {
    Bundle(Curated(fs, MemoryFiles(v.mode), v.mode), Entries(fs, CONTEXT_FILES), Skills(env, fs),
           if v.heartbeat then ReadContext(fs, HEARTBEAT_FILE) else None, v.heartbeat)
  }

  /** A fresh build of the static prefix. */
  function Build(env: Env, fs: Fs, v: Variant): string {
    env.render(LoadBundle(env, fs, v))
  }

  /** A walk visits every file once. */
  ghost predicate Walked(fs: Fs) {
    NoRepeats(fs.skills)
  }

  lemma SameFingerprints(a: Fs, b: Fs, v: Variant)
    requires SnapshotOf(a, v) == SnapshotOf(b, v)
    ensures forall n :: n in ContextFiles(v) ==> ReadContext(a, n) == ReadContext(b, n)
    ensures forall n :: n in MemoryFiles(v.mode) ==> ReadMemory(a, n, v.mode) == ReadMemory(b, n, v.mode)
    ensures forall n :: n in a.skills <==> n in b.skills
    ensures forall n :: n in a.skills ==> ReadContext(a, n) == ReadContext(b, n)
  {
    var x, y := SnapshotOf(a, v), SnapshotOf(b, v);
    assert x.Keys == Keys(a, v) && y.Keys == Keys(b, v);
    forall n | n in ContextFiles(v) ensures ReadContext(a, n) == ReadContext(b, n) {
      assert CtxKey(n) in x && x[CtxKey(n)] == y[CtxKey(n)];
    }
    forall n | n in MemoryFiles(v.mode) ensures ReadMemory(a, n, v.mode) == ReadMemory(b, n, v.mode) {
      assert MemoryKey(n) in x && x[MemoryKey(n)] == y[MemoryKey(n)];
    }
    forall n ensures n in a.skills <==> n in b.skills {
      assert n in a.skills <==> SkillKey(n) in x;
      assert n in b.skills <==> SkillKey(n) in y;
    }
    forall n | n in a.skills ensures ReadContext(a, n) == ReadContext(b, n) {
      assert SkillKey(n) in x && x[SkillKey(n)] == y[SkillKey(n)];
    }
  }

  lemma {:induction false} SameReadsSameCurated(a: Fs, b: Fs, names: seq<string>, mode: Mode)
    requires forall n :: n in names ==> ReadMemory(a, n, mode) == ReadMemory(b, n, mode)
    ensures Curated(a, names, mode) == Curated(b, names, mode)
  {
    if names != [] {
      SameReadsSameCurated(a, b, names[..|names| - 1], mode);
    }
  }

  lemma {:induction false} SameReadsSameEntries(a: Fs, b: Fs, names: seq<string>)
    requires forall n :: n in names ==> ReadContext(a, n) == ReadContext(b, n)
    ensures Entries(a, names) == Entries(b, names)
  {
    if names != [] {
      SameReadsSameEntries(a, b, names[..|names| - 1]);
    }
  }

  // ----- What a bundle tells ---------------------------------------------------------------------------

  lemma {:induction false} EntriesArePerFile(fs: Fs, names: seq<string>)
    ensures forall e :: e in Entries(fs, names) <==> e.displayPath in names && ReadContext(fs, e.displayPath) == Some(e)
  {
    if names != [] {
      EntriesArePerFile(fs, names[..|names| - 1]);
      assert names == names[..|names| - 1] + [names[|names| - 1]];
    }
  }

  lemma EntriesOneMore(fs: Fs, names: seq<string>, name: string)
    ensures Entries(fs, names + [name]) == Entries(fs, names) + TextOf(fs, name, true)
  {
    assert (names + [name])[..|names|] == names;
  }

  /** The context part of a prefix: the text of the six files that have any, in the fixed order, and that of
      the heartbeat file exactly for a heartbeat prompt. */
  lemma ContextOfBundle(env: Env, fs: Fs, v: Variant)
    ensures var b := LoadBundle(env, fs, v);
            var heartbeat := TextOf(fs, "HEARTBEAT.md", v.heartbeat);
            && b.context == TextOf(fs, "SOUL.md", true) + TextOf(fs, "IDENTITY.md", true) + TextOf(fs, "USER.md", true)
                            + TextOf(fs, "AGENTS.md", true) + TextOf(fs, "TOOLS.md", true) + TextOf(fs, "BOOTSTRAP.md", true)
            && b.heartbeat == (if heartbeat == [] then None else Some(heartbeat[0]))
            && b.includeHeartbeat == v.heartbeat
            && b.memory == Curated(fs, MemoryFiles(v.mode), v.mode) && b.skills == Skills(env, fs)
  {
    var f := CONTEXT_FILES;
    assert f[..0] + [f[0]] == f[..1] && f[..1] + [f[1]] == f[..2] && f[..2] + [f[2]] == f[..3];
    assert f[..3] + [f[3]] == f[..4] && f[..4] + [f[4]] == f[..5] && f[..5] + [f[5]] == f;
    EntriesOneMore(fs, f[..0], f[0]);
    EntriesOneMore(fs, f[..1], f[1]);
    EntriesOneMore(fs, f[..2], f[2]);
    EntriesOneMore(fs, f[..3], f[3]);
    EntriesOneMore(fs, f[..4], f[4]);
    EntriesOneMore(fs, f[..5], f[5]);
  }

  lemma SameEntriesSameReads(a: Fs, b: Fs, names: seq<string>)
    requires Entries(a, names) == Entries(b, names)
    ensures forall n :: n in names ==> ReadContext(a, n) == ReadContext(b, n)
  {
    EntriesArePerFile(a, names);
    EntriesArePerFile(b, names);
    forall n | n in names ensures ReadContext(a, n) == ReadContext(b, n) {
      if ReadContext(a, n).Some? {
        assert ReadContext(a, n).value in Entries(b, names);
      }
      if ReadContext(b, n).Some? {
        assert ReadContext(b, n).value in Entries(a, names);
      }
    }
  }

  /** The summary the walk collects for a path. */
  function Summary(env: Env, fs: Fs, rel: string): Option<Skill> {
    if rel in fs.skills then SkillAt(env, fs, rel) else None
  }

  /** Skills stand by lower-cased name, and skills of one name by path. */
  ghost predicate ByNameThenPath(env: Env, skills: seq<Skill>) {
    forall i, j :: 0 <= i < j < |skills| ==>
      var x, y := skills[i], skills[j];
      || TextBefore(env.lower(x.name), env.lower(y.name))
      || (env.lower(x.name) == env.lower(y.name) && TextBefore(x.path, y.path))
  }

  lemma SkillsArePerFile(env: Env, fs: Fs)
    requires Walked(fs)
    ensures forall s :: s in Skills(env, fs) <==> Summary(env, fs, s.path) == Some(s)
    ensures TotalOn((x, y) => SkillBefore(env, x, y), Elements(Skills(env, fs)))
    ensures SortedBy((x, y) => SkillBefore(env, x, y), Skills(env, fs))
    ensures ByNameThenPath(env, Skills(env, fs))
  {
    var less := (x: Skill, y: Skill) => SkillBefore(env, x, y);
    var xs := SkillList(env, fs, fs.skills);
    SkillListIsPerFile(env, fs, fs.skills);
    SkillsOrdered(env, Elements(xs));
    SortSorts(less, xs);
    assert Elements(Sort(less, xs)) == Elements(xs);
  }

  /** Two states are read alike: the same context entries, memory blocks and skill summaries. */
  ghost predicate ReadAlike(env: Env, a: Fs, b: Fs, v: Variant) {
    && (forall n :: n in ContextFiles(v) ==> ReadContext(a, n) == ReadContext(b, n))
    && Curated(a, MemoryFiles(v.mode), v.mode) == Curated(b, MemoryFiles(v.mode), v.mode)
    && (forall n :: Summary(env, a, n) == Summary(env, b, n))
  }

  lemma SameSkillsIffSameSummaries(env: Env, a: Fs, b: Fs)
    requires Walked(a) && Walked(b)
    ensures Skills(env, a) == Skills(env, b) <==> forall n :: Summary(env, a, n) == Summary(env, b, n)
  {
    SkillsArePerFile(env, a);
    SkillsArePerFile(env, b);
    if Skills(env, a) == Skills(env, b) {
      forall n ensures Summary(env, a, n) == Summary(env, b, n) {
        if Summary(env, a, n).Some? {
          assert Summary(env, a, n).value in Skills(env, b);
        }
        if Summary(env, b, n).Some? {
          assert Summary(env, b, n).value in Skills(env, a);
        }
      }
    }
    if forall n :: Summary(env, a, n) == Summary(env, b, n) {
      SortedIsUnique((x, y) => SkillBefore(env, x, y), Skills(env, a), Skills(env, b));
    }
  }

  /** The skill list does not depend on the order of the walk. */
  lemma SameReadsSameSkills(env: Env, a: Fs, b: Fs)
    requires Walked(a) && Walked(b)
    requires forall n :: n in a.skills <==> n in b.skills
    requires forall n :: n in a.skills ==> ReadContext(a, n) == ReadContext(b, n)
    ensures Skills(env, a) == Skills(env, b)
  {
    SameSkillsIffSameSummaries(env, a, b);
  }

  /** Two states have the same bundle exactly when they are read alike. */
  lemma SameBundleIffReadAlike(env: Env, a: Fs, b: Fs, v: Variant)
    requires Walked(a) && Walked(b)
    ensures LoadBundle(env, a, v) == LoadBundle(env, b, v) <==> ReadAlike(env, a, b, v)
  {
    SameSkillsIffSameSummaries(env, a, b);
    if LoadBundle(env, a, v) == LoadBundle(env, b, v) {
      SameEntriesSameReads(a, b, CONTEXT_FILES);
    }
    if ReadAlike(env, a, b, v) {
      SameReadsSameEntries(a, b, CONTEXT_FILES);
      assert v.heartbeat ==> HEARTBEAT_FILE in ContextFiles(v);
    }
  }

  /** Two states with equal snapshots for a variant are read alike. */
  lemma SnapshotDeterminesReads(env: Env, a: Fs, b: Fs, v: Variant)
    requires SnapshotOf(a, v) == SnapshotOf(b, v)
    ensures ReadAlike(env, a, b, v)
  {
    SameFingerprints(a, b, v);
    SameReadsSameCurated(a, b, MemoryFiles(v.mode), v.mode);
  }

  /** Two states of the workspace with equal snapshots for a variant have the same static prefix. */
  lemma SnapshotDeterminesBuild(env: Env, a: Fs, b: Fs, v: Variant)
    requires Walked(a) && Walked(b) && SnapshotOf(a, v) == SnapshotOf(b, v)
    ensures Build(env, a, v) == Build(env, b, v)
  {
    SnapshotDeterminesReads(env, a, b, v);
    SameBundleIffReadAlike(env, a, b, v);
  }

  /** The other way, for one file: when it holds text in either state, its fingerprint is the same exactly
      when the same is read from it, so only changes between states without text go unread. */
  lemma TextFingerprintIffSameRead(a: Fs, b: Fs, n: string)
    requires a.file(n).Text? || b.file(n).Text?
    ensures ContextFingerprint(a.file(n)) == ContextFingerprint(b.file(n)) <==> ReadContext(a, n) == ReadContext(b, n)
  {
  }
}
