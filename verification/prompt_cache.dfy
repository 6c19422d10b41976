/** The prompt cache of pkg/agent/context.go: when a cached system prompt may still be returned.  Files
    change while the cache is built; every stat and every read has its own moment. */
module PromptCache {
  import opened Json

  datatype File = File(mtime: nat, data: string)

  /** The files the prompt is made from: source files and skill roots, and the files below the roots. */
  datatype World = World(tracked: map<string, File>, skills: map<string, File>)

  /** The file system over time. */
  type Timeline = nat -> World

  /** Source paths and skill roots, and every path that is ever a skill file. */
  datatype Scope = Scope(paths: seq<string>, skillPaths: seq<string>, render: (map<string, string>, map<string, string>) -> string)

  // ----- What the prompt is -----

  /** The skill files or the tracked ones, at one moment. */
  function Files(fs: Timeline, skill: bool, t: nat): map<string, File> {
    if skill then fs(t).skills else fs(t).tracked
  }

  function Paths(sc: Scope, skill: bool): seq<string> {
    if skill then sc.skillPaths else sc.paths
  }

  /** The texts read, each path at its own moment. */
  function Texts(sc: Scope, fs: Timeline, skill: bool, readAt: string -> nat): map<string, string> {
    map p | p in Paths(sc, skill) && p in Files(fs, skill, readAt(p)) :: Files(fs, skill, readAt(p))[p].data
  }

  /** A prompt built from reads at these moments. */
  function Built(sc: Scope, fs: Timeline, readAt: string -> nat): string {
    sc.render(Texts(sc, fs, false, readAt), Texts(sc, fs, true, readAt))
  }

  function Always(t: nat): string -> nat {
    p => t
  }

  /** What a build at one moment would give. */
  function FreshAt(sc: Scope, fs: Timeline, t: nat): string {
    Built(sc, fs, Always(t))
  }

  // ----- The cache -----

  /** What is remembered of the moment before a build. */
  datatype Baseline = Baseline(existed: map<string, bool>, skillFiles: map<string, nat>, maxMtime: nat)

  function Existed(paths: seq<string>, fs: Timeline, statAt: string -> nat): map<string, bool> {
    map p | p in paths :: p in Files(fs, false, statAt(p))
  }

  function SkillTimes(paths: seq<string>, fs: Timeline, statAt: string -> nat): map<string, nat> {
    map p | p in paths && p in Files(fs, true, statAt(p)) :: Files(fs, true, statAt(p))[p].mtime
  }

  /** The latest mtime seen in the first n paths, or start. */
  function Latest(paths: seq<string>, fs: Timeline, skill: bool, statAt: string -> nat, n: nat, start: nat): nat
    requires n <= |paths|
  {
    if n == 0 then start
    else
      var before, p := Latest(paths, fs, skill, statAt, n - 1, start), paths[n - 1];
      var w := Files(fs, skill, statAt(p));
      if p in w && w[p].mtime > before then w[p].mtime else before
  }

  function BaselineOf(sc: Scope, fs: Timeline, statAt: string -> nat): Baseline {
    var tracked := Latest(sc.paths, fs, false, statAt, |sc.paths|, 0);
    var latest := Latest(sc.skillPaths, fs, true, statAt, |sc.skillPaths|, tracked);
    Baseline(Existed(sc.paths, fs, statAt), SkillTimes(sc.skillPaths, fs, statAt), if latest == 0 then 1 else latest)
  }

  lemma ExistedSnoc(paths: seq<string>, fs: Timeline, statAt: string -> nat, p: string)
    ensures Existed(paths + [p], fs, statAt) == Existed(paths, fs, statAt)[p := p in Files(fs, false, statAt(p))]
  {
    hide Files;
    assert forall q :: q in paths + [p] <==> q in paths || q == p;
  }

  lemma SkillTimesSnoc(paths: seq<string>, fs: Timeline, statAt: string -> nat, p: string)
    ensures SkillTimes(paths + [p], fs, statAt)
            == if p in Files(fs, true, statAt(p)) then SkillTimes(paths, fs, statAt)[p := Files(fs, true, statAt(p))[p].mtime]
               else SkillTimes(paths, fs, statAt)
  {
    hide Files;
    assert forall q :: q in paths + [p] <==> q in paths || q == p;
  }

  lemma NothingStatted(fs: Timeline, statAt: string -> nat)
    ensures Existed([], fs, statAt) == map[] && SkillTimes([], fs, statAt) == map[]
  {
  }

  /** buildCacheBaseline. */
  method BuildCacheBaseline(sc: Scope, fs: Timeline, statAt: string -> nat) returns (b: Baseline)
    ensures b == BaselineOf(sc, fs, statAt)
  {
    hide Files, Existed, SkillTimes;
    var existed, maxMtime := StatPaths(sc.paths, fs, statAt);
    var skillFiles: map<string, nat> := map[];
    ghost var start := maxMtime;
    NothingStatted(fs, statAt);
    assert sc.skillPaths[..0] == [];
    for i := 0 to |sc.skillPaths|
      invariant skillFiles == SkillTimes(sc.skillPaths[..i], fs, statAt)
      invariant maxMtime == Latest(sc.skillPaths, fs, true, statAt, i, start)
    {
      var p := sc.skillPaths[i];
      assert sc.skillPaths[..i + 1] == sc.skillPaths[..i] + [p];
      SkillTimesSnoc(sc.skillPaths[..i], fs, statAt, p);
      var w := Files(fs, true, statAt(p));
      if p in w {
        skillFiles := skillFiles[p := w[p].mtime];
        if w[p].mtime > maxMtime {
          maxMtime := w[p].mtime;
        }
      }
    }
    assert sc.skillPaths[..|sc.skillPaths|] == sc.skillPaths;
    b := Baseline(existed, skillFiles, if maxMtime == 0 then 1 else maxMtime);
  }

  method StatPaths(paths: seq<string>, fs: Timeline, statAt: string -> nat) returns (existed: map<string, bool>, maxMtime: nat)
    ensures existed == Existed(paths, fs, statAt) && maxMtime == Latest(paths, fs, false, statAt, |paths|, 0)
  {
    hide Files, Existed;
    existed, maxMtime := map[], 0;
    NothingStatted(fs, statAt);
    assert paths[..0] == [];
    for i := 0 to |paths|
      invariant existed == Existed(paths[..i], fs, statAt) && maxMtime == Latest(paths, fs, false, statAt, i, 0)
    {
      var p := paths[i];
      assert paths[..i + 1] == paths[..i] + [p];
      ExistedSnoc(paths[..i], fs, statAt, p);
      var w := Files(fs, false, statAt(p));
      existed := existed[p := p in w];
      if p in w && w[p].mtime > maxMtime {
        maxMtime := w[p].mtime;
      }
    }
    assert paths[..|paths|] == paths;
  }

  /** fileChangedSince: created, deleted, or with a later mtime. */
  predicate FileChanged(b: Baseline, w: World, path: string) {
    var before, now := path in b.existed && b.existed[path], path in w.tracked;
    before != now || (now && w.tracked[path].mtime > b.maxMtime)
  }

  /** skillFilesChangedSince: a remembered file gone or with another mtime, or a new file. */
  predicate SkillsChanged(b: Baseline, w: World) {
    (exists p | p in b.skillFiles :: p !in w.skills || w.skills[p].mtime != b.skillFiles[p])
    || exists p | p in w.skills :: p !in b.skillFiles
  }

  predicate SourceChanged(sc: Scope, b: Baseline, w: World) {
    b.maxMtime == 0 || (exists p | p in sc.paths :: FileChanged(b, w, p)) || SkillsChanged(b, w)
  }

  class ContextBuilder {
    const sc: Scope
    var cachedSystemPrompt: string
    var baseline: Option<Baseline>

    constructor (sc: Scope)
      ensures this.sc == sc && cachedSystemPrompt == "" && baseline == None
    {
      this.sc := sc;
      cachedSystemPrompt, baseline := "", None;
    }

    method InvalidateCache()
      modifies this
      ensures cachedSystemPrompt == "" && baseline == None
    {
      cachedSystemPrompt, baseline := "", None;
    }

    method SourceFilesChanged(w: World) returns (changed: bool)
      ensures changed <==> baseline.None? || SourceChanged(sc, baseline.value, w)
    {
      if baseline.None? || baseline.value.maxMtime == 0 {
        return true;
      }
      var b := baseline.value;
      for i := 0 to |sc.paths|
        invariant forall k | 0 <= k < i :: !FileChanged(b, w, sc.paths[k])
      {
        if FileChanged(b, w, sc.paths[i]) {
          assert sc.paths[i] in sc.paths;
          return true;
        }
      }
      changed := SkillFilesChanged(b, w);
    }

    method SkillFilesChanged(b: Baseline, w: World) returns (changed: bool)
      ensures changed <==> SkillsChanged(b, w)
    {
      var todo := b.skillFiles.Keys;
      while todo != {}
        invariant todo <= b.skillFiles.Keys
        invariant forall p | p in b.skillFiles && p !in todo :: p in w.skills && w.skills[p].mtime == b.skillFiles[p]
        decreases todo
      {
        var p :| p in todo;
        if p !in w.skills || w.skills[p].mtime != b.skillFiles[p] {
          return true;
        }
        todo := todo - {p};
      }
      var new' := w.skills.Keys;
      while new' != {}
        invariant new' <= w.skills.Keys && forall p | p in w.skills && p !in new' :: p in b.skillFiles
        decreases new'
      {
        var p :| p in new';
        if p !in b.skillFiles {
          return true;
        }
        new' := new' - {p};
      }
      changed := false;
    }

    /** The cache is a build whose stats and reads happened at these moments. */
    ghost predicate Remembers(fs: Timeline, statAt: string -> nat, readAt: string -> nat)
      reads this
    {
      cachedSystemPrompt == "" || (baseline == Some(BaselineOf(sc, fs, statAt)) && cachedSystemPrompt == Built(sc, fs, readAt))
    }

    /** BuildSystemPromptWithCache: a check, a second one under the write lock, and a build whose stats
        come before its reads.  hit tells whether the cached prompt was returned, and at which check. */
    method BuildSystemPromptWithCache(fs: Timeline, first: nat, second: nat, statAt: string -> nat, readAt: string -> nat)
      returns (prompt: string, hit: Option<nat>)
      modifies this
      ensures hit.Some? ==> (hit.value == first || hit.value == second) && prompt == old(cachedSystemPrompt) != ""
                            && old(baseline).Some? && !SourceChanged(sc, old(baseline).value, fs(hit.value))
                            && cachedSystemPrompt == old(cachedSystemPrompt) && baseline == old(baseline)
      ensures hit.None? ==> prompt == Built(sc, fs, readAt) == cachedSystemPrompt && Remembers(fs, statAt, readAt)
      ensures hit == if old(cachedSystemPrompt) == "" || old(baseline).None? then None
                     else if !SourceChanged(sc, old(baseline).value, fs(first)) then Some(first)
                     else if !SourceChanged(sc, old(baseline).value, fs(second)) then Some(second) else None
    {
      if cachedSystemPrompt != "" {
        var changed := SourceFilesChanged(fs(first));
        if !changed {
          return cachedSystemPrompt, Some(first);
        }
      }
      if cachedSystemPrompt != "" {
        var changed := SourceFilesChanged(fs(second));
        if !changed {
          return cachedSystemPrompt, Some(second);
        }
      }
      var b := BuildCacheBaseline(sc, fs, statAt);
      prompt := Built(sc, fs, readAt);
      cachedSystemPrompt, baseline, hit := prompt, Some(b), None;
    }
  }

  // ----- Time -----

  predicate NewerThanAll(m: nat, w: World) {
    (forall p | p in w.tracked :: w.tracked[p].mtime < m) && forall p | p in w.skills :: w.skills[p].mtime < m
  }

  /** m is later than every mtime there has been up to t, and than the cache's own zero. */
  ghost predicate Newest(m: nat, fs: Timeline, t: nat) {
    m > 1 && forall i: nat | i <= t :: NewerThanAll(m, fs(i))
  }

  predicate Same(a: map<string, File>, b: map<string, File>, p: string) {
    p in a && p in b && a[p] == b[p]
  }

  /** From t to t + 1 the file stays as it is, goes away, or is written with a new latest mtime. */
  ghost predicate PathStep(fs: Timeline, skill: bool, t: nat, p: string) {
    var a, b := Files(fs, skill, t), Files(fs, skill, t + 1);
    p in b ==> Same(a, b, p) || Newest(b[p].mtime, fs, t)
  }

  /** Every write gets an mtime later than all earlier ones. */
  ghost predicate Advancing(fs: Timeline) {
    forall skill: bool, t: nat, p: string :: PathStep(fs, skill, t, p)
  }

  ghost predicate Since(fs: Timeline, skill: bool, p: string, b: nat, c: nat) {
    forall t: nat | b <= t <= c :: Same(Files(fs, skill, t), Files(fs, skill, c), p)
  }

  lemma NewestEarlier(m: nat, fs: Timeline, t: nat, b: nat)
    requires Newest(m, fs, t) && b <= t
    ensures Newest(m, fs, b)
  {
  }

  lemma SinceNext(fs: Timeline, skill: bool, p: string, b: nat, c: nat)
    requires Since(fs, skill, p, b, c) && b <= c && Same(Files(fs, skill, c), Files(fs, skill, c + 1), p)
    ensures Since(fs, skill, p, b, c + 1)
  {
    hide Files;
    forall t: nat | b <= t <= c + 1 ensures Same(Files(fs, skill, t), Files(fs, skill, c + 1), p) {
      if t <= c { assert Same(Files(fs, skill, t), Files(fs, skill, c), p); }
    }
  }

  /** A file that is there at c was there unchanged since b, or was written behind b. */
  lemma {:induction false} WrittenOrSince(fs: Timeline, skill: bool, p: string, b: nat, c: nat)
    requires Advancing(fs) && b <= c && p in Files(fs, skill, c)
    ensures Since(fs, skill, p, b, c) || Newest(Files(fs, skill, c)[p].mtime, fs, b)
    decreases c - b
  {
    hide Newest, Files, Since;
    if b == c {
      SinceSelf(fs, skill, p, b);
    } else {
      assert PathStep(fs, skill, c - 1, p);
      if Same(Files(fs, skill, c - 1), Files(fs, skill, c - 1 + 1), p) {
        WrittenOrSince(fs, skill, p, b, c - 1);
        if Since(fs, skill, p, b, c - 1) { SinceNext(fs, skill, p, b, c - 1); }
      } else {
        NewestEarlier(Files(fs, skill, c)[p].mtime, fs, c - 1, b);
      }
    }
  }

  lemma SinceSelf(fs: Timeline, skill: bool, p: string, b: nat)
    requires p in Files(fs, skill, b)
    ensures Since(fs, skill, p, b, b)
  {
    hide Files;
  }

  /** The stats of a build lie before its reads, and those before the check. */
  ghost predicate Ordered(sc: Scope, statAt: string -> nat, readAt: string -> nat, built: nat, check: nat) {
    forall p :: statAt(p) <= built <= readAt(p) <= check
  }

  /** A path absent at its stat and again at the check was not there for the read in between. */
  ghost predicate NoFlicker(sc: Scope, fs: Timeline, statAt: string -> nat, readAt: string -> nat, check: nat) {
    forall skill: bool, p :: p in Paths(sc, skill) ==> Steady(fs, skill, statAt(p), readAt(p), check, p)
  }

  predicate Steady(fs: Timeline, skill: bool, statted: nat, read: nat, check: nat, p: string) {
    p !in Files(fs, skill, statted) && p !in Files(fs, skill, check) ==> p !in Files(fs, skill, read)
  }

  lemma FileNewer(m: nat, fs: Timeline, skill: bool, t: nat, b: nat, p: string)
    requires Newest(m, fs, b) && t <= b
    ensures p in Files(fs, skill, t) ==> Files(fs, skill, t)[p].mtime < m
  {
    assert NewerThanAll(m, fs(t));
  }

  lemma {:induction false} LatestBelow(paths: seq<string>, fs: Timeline, skill: bool, statAt: string -> nat, n: nat, start: nat, m: nat, b: nat)
    requires n <= |paths| && start < m && Newest(m, fs, b) && forall p :: statAt(p) <= b
    ensures Latest(paths, fs, skill, statAt, n, start) < m
  {
    hide Newest, Files;
    if n > 0 {
      LatestBelow(paths, fs, skill, statAt, n - 1, start, m, b);
      FileNewer(m, fs, skill, statAt(paths[n - 1]), b, paths[n - 1]);
    }
  }

  lemma NewestPositive(m: nat, fs: Timeline, t: nat)
    requires Newest(m, fs, t)
    ensures m > 1
  {
  }

  /** An mtime later than all up to the end of the stats is later than the remembered one. */
  lemma BaselineBelow(sc: Scope, fs: Timeline, statAt: string -> nat, m: nat, b: nat)
    requires Newest(m, fs, b) && forall p :: statAt(p) <= b
    ensures BaselineOf(sc, fs, statAt).maxMtime < m
  {
    hide Newest, Latest, Files;
    NewestPositive(m, fs, b);
    LatestBelow(sc.paths, fs, false, statAt, |sc.paths|, 0, m, b);
    LatestBelow(sc.skillPaths, fs, true, statAt, |sc.skillPaths|, Latest(sc.paths, fs, false, statAt, |sc.paths|, 0), m, b);
  }

  lemma BaselineKnows(sc: Scope, fs: Timeline, statAt: string -> nat, p: string)
    ensures var b := BaselineOf(sc, fs, statAt);
            (p in sc.paths ==> p in b.existed && b.existed[p] == (p in Files(fs, false, statAt(p))))
            && (p in b.skillFiles <==> p in sc.skillPaths && p in Files(fs, true, statAt(p)))
            && (p in b.skillFiles ==> b.skillFiles[p] == Files(fs, true, statAt(p))[p].mtime)
  {
    hide Latest, Files;
  }

  /** Some file was at least this new when it was looked at for the baseline. */
  ghost predicate AsNew(sc: Scope, fs: Timeline, statAt: string -> nat, m: nat) {
    exists skill: bool, p :: p in Paths(sc, skill) && StatNewer(fs, skill, statAt(p), p, m)
  }

  predicate StatNewer(fs: Timeline, skill: bool, t: nat, p: string, m: nat) {
    p in Files(fs, skill, t) && Files(fs, skill, t)[p].mtime >= m
  }

  lemma {:induction false} LatestReaches(paths: seq<string>, fs: Timeline, skill: bool, statAt: string -> nat, n: nat, start: nat, m: nat)
    requires n <= |paths|
    ensures Latest(paths, fs, skill, statAt, n, start) >= m
            <==> start >= m || exists k :: 0 <= k < n && StatNewer(fs, skill, statAt(paths[k]), paths[k], m)
    decreases n
  {
    hide Files;
    if n > 0 { LatestReaches(paths, fs, skill, statAt, n - 1, start, m); }
  }

  lemma MaxReaches(sc: Scope, fs: Timeline, statAt: string -> nat, m: nat)
    ensures BaselineOf(sc, fs, statAt).maxMtime >= 1
    ensures BaselineOf(sc, fs, statAt).maxMtime >= m <==> m <= 1 || AsNew(sc, fs, statAt, m)
  {
    hide Latest, StatNewer, Existed, SkillTimes;
    var tracked := Latest(sc.paths, fs, false, statAt, |sc.paths|, 0);
    LatestReaches(sc.paths, fs, false, statAt, |sc.paths|, 0, m);
    LatestReaches(sc.skillPaths, fs, true, statAt, |sc.skillPaths|, tracked, m);
    assert forall k | 0 <= k < |sc.paths| :: sc.paths[k] in Paths(sc, false);
    assert forall k | 0 <= k < |sc.skillPaths| :: sc.skillPaths[k] in Paths(sc, true);
  }

  /** When a check passes: exactly if every tracked path is there or gone as it was when it was looked at, no
      file is newer than all that were seen then, and the skill files and their times are the same. */
  lemma CheckExactly(sc: Scope, fs: Timeline, statAt: string -> nat, w: World)
    ensures !SourceChanged(sc, BaselineOf(sc, fs, statAt), w) <==>
              (forall p | p in sc.paths :: p in w.tracked <==> p in fs(statAt(p)).tracked)
              && (forall p | p in sc.paths && p in w.tracked ::
                    w.tracked[p].mtime <= 1 || AsNew(sc, fs, statAt, w.tracked[p].mtime))
              && (forall p :: p in w.skills <==> p in sc.skillPaths && p in fs(statAt(p)).skills)
              && forall p | p in w.skills && p in fs(statAt(p)).skills :: w.skills[p].mtime == fs(statAt(p)).skills[p].mtime
  {
    hide BaselineOf, AsNew;
    var b := BaselineOf(sc, fs, statAt);
    MaxReaches(sc, fs, statAt, 0);
    forall p ensures (p in sc.paths ==> p in b.existed && b.existed[p] == (p in fs(statAt(p)).tracked))
                     && (p in b.skillFiles <==> p in sc.skillPaths && p in fs(statAt(p)).skills)
                     && (p in b.skillFiles ==> b.skillFiles[p] == fs(statAt(p)).skills[p].mtime)
    {
      BaselineKnows(sc, fs, statAt, p);
    }
    forall p | p in w.tracked
      ensures b.maxMtime >= w.tracked[p].mtime <==> w.tracked[p].mtime <= 1 || AsNew(sc, fs, statAt, w.tracked[p].mtime)
    {
      MaxReaches(sc, fs, statAt, w.tracked[p].mtime);
    }
  }

  /** The read of p and the file at the check say the same. */
  predicate SameText(fs: Timeline, skill: bool, read: nat, check: nat, p: string) {
    var a, b := Files(fs, skill, read), Files(fs, skill, check);
    (p in a <==> p in b) && (p in a && p in b ==> a[p].data == b[p].data)
  }

  lemma SinceText(fs: Timeline, skill: bool, p: string, b: nat, read: nat, c: nat)
    requires Since(fs, skill, p, b, c) && b <= read <= c
    ensures SameText(fs, skill, read, c, p)
  {
    hide Files;
    assert Same(Files(fs, skill, read), Files(fs, skill, c), p);
  }

  lemma TrackedSame(sc: Scope, fs: Timeline, statAt: string -> nat, readAt: string -> nat, built: nat, check: nat, p: string)
    requires Advancing(fs) && Ordered(sc, statAt, readAt, built, check) && NoFlicker(sc, fs, statAt, readAt, check)
    requires p in sc.paths && !FileChanged(BaselineOf(sc, fs, statAt), fs(check), p)
    ensures SameText(fs, false, readAt(p), check, p)
  {
    hide Advancing, Newest, BaselineOf, Since;
    BaselineKnows(sc, fs, statAt, p);
    if p in Files(fs, false, check) {
      WrittenOrSince(fs, false, p, built, check);
      if Newest(Files(fs, false, check)[p].mtime, fs, built) {
        BaselineBelow(sc, fs, statAt, Files(fs, false, check)[p].mtime, built);
      } else {
        SinceText(fs, false, p, built, readAt(p), check);
      }
    } else {
      assert p in Paths(sc, false);
      assert Steady(fs, false, statAt(p), readAt(p), check, p);
    }
  }

  lemma SkillSame(sc: Scope, fs: Timeline, statAt: string -> nat, readAt: string -> nat, built: nat, check: nat, p: string)
    requires Advancing(fs) && Ordered(sc, statAt, readAt, built, check) && NoFlicker(sc, fs, statAt, readAt, check)
    requires p in sc.skillPaths && !SkillsChanged(BaselineOf(sc, fs, statAt), fs(check))
    ensures SameText(fs, true, readAt(p), check, p)
  {
    hide Advancing, Newest, BaselineOf, Since;
    BaselineKnows(sc, fs, statAt, p);
    if p in Files(fs, true, check) {
      WrittenOrSince(fs, true, p, built, check);
      if Newest(Files(fs, true, check)[p].mtime, fs, built) {
        FileNewer(Files(fs, true, check)[p].mtime, fs, true, statAt(p), built, p);
      } else {
        SinceText(fs, true, p, built, readAt(p), check);
      }
    } else {
      assert p in Paths(sc, true);
      assert Steady(fs, true, statAt(p), readAt(p), check, p);
    }
  }

  lemma SameTexts(sc: Scope, fs: Timeline, skill: bool, readAt: string -> nat, check: nat)
    requires forall p | p in Paths(sc, skill) :: SameText(fs, skill, readAt(p), check, p)
    ensures Texts(sc, fs, skill, readAt) == Texts(sc, fs, skill, Always(check))
  {
    hide Files;
  }

  /** If the check passes, what was read is what is there at the check, exactly if no path flickered. */
  lemma HitExactly(sc: Scope, fs: Timeline, statAt: string -> nat, readAt: string -> nat, built: nat, check: nat)
    requires Advancing(fs) && Ordered(sc, statAt, readAt, built, check)
    requires !SourceChanged(sc, BaselineOf(sc, fs, statAt), fs(check))
    ensures (forall skill: bool :: Texts(sc, fs, skill, readAt) == Texts(sc, fs, skill, Always(check)))
            <==> NoFlicker(sc, fs, statAt, readAt, check)
  {
    hide Advancing, Ordered, BaselineOf, FileChanged, SkillsChanged, SameText, Texts, Steady, Paths;
    if NoFlicker(sc, fs, statAt, readAt, check) {
      SteadyTexts(sc, fs, statAt, readAt, built, check);
    }
    forall skill: bool, p | p in Paths(sc, skill) && !Steady(fs, skill, statAt(p), readAt(p), check, p)
      ensures Texts(sc, fs, skill, readAt) != Texts(sc, fs, skill, Always(check))
    {
      FlickerIsStale(sc, fs, skill, p, statAt, readAt, check);
    }
  }

  lemma SteadyTexts(sc: Scope, fs: Timeline, statAt: string -> nat, readAt: string -> nat, built: nat, check: nat)
    requires Advancing(fs) && Ordered(sc, statAt, readAt, built, check) && NoFlicker(sc, fs, statAt, readAt, check)
    requires !SourceChanged(sc, BaselineOf(sc, fs, statAt), fs(check))
    ensures forall skill: bool :: Texts(sc, fs, skill, readAt) == Texts(sc, fs, skill, Always(check))
  {
    hide Advancing, Ordered, NoFlicker, BaselineOf, FileChanged, SkillsChanged, SameText, Texts;
    forall p | p in Paths(sc, false) ensures SameText(fs, false, readAt(p), check, p) {
      TrackedSame(sc, fs, statAt, readAt, built, check, p);
    }
    forall p | p in Paths(sc, true) ensures SameText(fs, true, readAt(p), check, p) {
      SkillSame(sc, fs, statAt, readAt, built, check, p);
    }
    SameTexts(sc, fs, false, readAt, check);
    SameTexts(sc, fs, true, readAt, check);
  }

  /** A file that was there only for its read, gone at its stat and at the check: the check sees no change
      of that path, although its text is no longer there. */
  lemma FlickerIsStale(sc: Scope, fs: Timeline, skill: bool, p: string, statAt: string -> nat, readAt: string -> nat, check: nat)
    requires p in Paths(sc, skill) && !Steady(fs, skill, statAt(p), readAt(p), check, p)
    ensures p in Texts(sc, fs, skill, readAt) && p !in Texts(sc, fs, skill, Always(check))
    ensures !skill ==> !FileChanged(BaselineOf(sc, fs, statAt), fs(check), p)
    ensures skill ==> p !in BaselineOf(sc, fs, statAt).skillFiles && p !in fs(check).skills
  {
    hide BaselineOf;
    BaselineKnows(sc, fs, statAt, p);
  }

  /** A prompt the check lets pass is what a build at the moment of the check would give, even if files
      changed while it was built -- if every write gets a later mtime and no path was there for a read
      that was gone at its stat and is gone at the check. */
  lemma HitIsFresh(sc: Scope, fs: Timeline, statAt: string -> nat, readAt: string -> nat, built: nat, check: nat)
    requires Advancing(fs) && Ordered(sc, statAt, readAt, built, check) && NoFlicker(sc, fs, statAt, readAt, check)
    requires !SourceChanged(sc, BaselineOf(sc, fs, statAt), fs(check))
    ensures Built(sc, fs, readAt) == FreshAt(sc, fs, check)
  {
    hide Advancing, Ordered, NoFlicker, BaselineOf, SourceChanged, Texts;
    SteadyTexts(sc, fs, statAt, readAt, built, check);
  }

  // ----- A run of calls -----

  /** The moments of one call: its two checks, and the stats and reads of its build if it comes to one. */
  datatype Moments = Moments(first: nat, second: nat, built: nat, statAt: string -> nat, readAt: string -> nat)

  datatype Event = Ask(m: Moments) | Invalidate

  /** The build of m lies before this check, and no path flickers between. */
  ghost predicate Before(sc: Scope, fs: Timeline, m: Moments, check: nat) {
    Ordered(sc, m.statAt, m.readAt, m.built, check) && NoFlicker(sc, fs, m.statAt, m.readAt, check)
  }

  ghost predicate BeforeEvent(sc: Scope, fs: Timeline, e: Event, e': Event) {
    e.Ask? && e'.Ask? ==> Before(sc, fs, e.m, e'.m.first) && Before(sc, fs, e.m, e'.m.second)
  }

  /** A fresh build at one of the two checks of the call, or the build of the call itself. */
  predicate Current(sc: Scope, fs: Timeline, m: Moments, prompt: string) {
    prompt == FreshAt(sc, fs, m.first) || prompt == FreshAt(sc, fs, m.second) || prompt == Built(sc, fs, m.readAt)
  }

  /** One call on a cache that remembers an earlier build. */
  method AskOnce(builder: ContextBuilder, fs: Timeline, m: Moments, ghost before: Moments) returns (prompt: string, ghost now: Moments)
    requires Advancing(fs) && builder.Remembers(fs, before.statAt, before.readAt)
    requires builder.cachedSystemPrompt != "" ==>
               Before(builder.sc, fs, before, m.first) && Before(builder.sc, fs, before, m.second)
    modifies builder
    ensures Current(builder.sc, fs, m, prompt)
    ensures builder.Remembers(fs, now.statAt, now.readAt) && (now == m || (now == before && old(builder.cachedSystemPrompt) != ""))
  {
    hide Advancing, Ordered, NoFlicker, BaselineOf, SourceChanged, Built, FreshAt;
    var hit;
    prompt, hit := builder.BuildSystemPromptWithCache(fs, m.first, m.second, m.statAt, m.readAt);
    now := m;
    if hit.Some? {
      HitIsFresh(builder.sc, fs, before.statAt, before.readAt, before.built, hit.value);
      now := before;
    }
  }

  /** Main result: over any run of calls and invalidations, each call returns what a fresh build would
      give at one of its checks, or builds afresh itself. */
  method Run(builder: ContextBuilder, fs: Timeline, events: seq<Event>) returns (prompts: seq<string>)
    requires Advancing(fs) && builder.cachedSystemPrompt == ""
    requires forall i, j | 0 <= i < j < |events| :: BeforeEvent(builder.sc, fs, events[i], events[j])
    modifies builder
    ensures |prompts| == |events|
    ensures forall i | 0 <= i < |events| && events[i].Ask? :: Current(builder.sc, fs, events[i].m, prompts[i])
  {
    hide Advancing, Before, Current, BaselineOf, Built;
    prompts := [];
    ghost var last := Moments(0, 0, 0, Always(0), Always(0));
    ghost var at := 0;
    for i := 0 to |events|
      invariant |prompts| == i
      invariant forall k | 0 <= k < i && events[k].Ask? :: Current(builder.sc, fs, events[k].m, prompts[k])
      invariant builder.Remembers(fs, last.statAt, last.readAt)
      invariant builder.cachedSystemPrompt != "" ==> 0 <= at < i && events[at] == Ask(last)
    {
      match events[i] {
        case Ask(m) =>
          assert builder.cachedSystemPrompt != "" ==> BeforeEvent(builder.sc, fs, events[at], events[i]);
          ghost var now;
          ghost var cached := builder.cachedSystemPrompt != "";
          var prompt;
          prompt, now := AskOnce(builder, fs, m, last);
          if !(cached && now == last) { at := i; }
          last := now;
          prompts := prompts + [prompt];
        case Invalidate =>
          builder.InvalidateCache();
          prompts := prompts + [""];
      }
    }
  }
}
