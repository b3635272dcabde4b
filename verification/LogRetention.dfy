/** The four-stage retention pipeline over rotated logs and capture files, compression off. */
module LogRetention {
  import opened Common
  import StringOrder

  datatype Path = Path(dir: string, name: string)

  datatype FileInfo = FileInfo(size: nat, mtime: int, isFile: bool)

  type Files = map<Path, FileInfo>

  /** Where the active logs and the capture directory are. */
  datatype Layout = Layout(trace: Path, debug: Path, capture: string)

  // ---------------------------------------------------------------------------
  // Which files are prunable
  // ---------------------------------------------------------------------------

  /** Rotated copies: the base name continued. `<=` on strings is "is a prefix of". */
  predicate Rotated(base: Path, p: Path) {
    p.dir == base.dir && base.name <= p.name && p.name != base.name
  }

  predicate CaptureIndex(l: Layout, p: Path) {
    p.dir == l.capture && "index.jsonl." <= p.name
  }

  function BodiesDir(l: Layout): string {
    l.capture + "/bodies"
  }

  function RotatedFiles(fs: Files, base: Path): (r: set<Path>)
    ensures r <= fs.Keys
  {
    set p | p in fs && Rotated(base, p)
  }

  function BodyFiles(fs: Files, l: Layout): (r: set<Path>)
    ensures r <= fs.Keys
  {
    set p | p in fs && p.dir == BodiesDir(l) && fs[p].isFile
  }

  function CaptureFiles(fs: Files, l: Layout): (r: set<Path>)
    ensures r <= fs.Keys
  {
    (set p | p in fs && CaptureIndex(l, p)) + BodyFiles(fs, l)
  }

  function Prunable(fs: Files, l: Layout): (r: set<Path>)
    ensures r <= fs.Keys
  {
    RotatedFiles(fs, l.trace) + RotatedFiles(fs, l.debug) + CaptureFiles(fs, l)
  }

  /** Files being written: the two logs and the capture index. */
  function Active(l: Layout): set<Path> {
    {l.trace, l.debug, Path(l.capture, "index.jsonl")}
  }

  /** No active file looks like a rotated copy, a capture index or a body. */
  predicate ActiveApart(l: Layout) {
    forall p :: p in Active(l) ==>
      && !Rotated(l.trace, p) && !Rotated(l.debug, p)
      && !CaptureIndex(l, p) && p.dir != BodiesDir(l)
  }

  /** Logs outside the capture tree, neither name a prefix of the other, are apart. */
  lemma SeparateLogsAreApart(l: Layout)
    requires l.trace.dir != l.capture && l.debug.dir != l.capture
    requires l.trace.dir != BodiesDir(l) && l.debug.dir != BodiesDir(l)
    requires l.trace.dir == l.debug.dir ==> !(l.trace.name <= l.debug.name) && !(l.debug.name <= l.trace.name)
    ensures ActiveApart(l)
    ensures forall fs :: RotatedFiles(fs, l.trace) !! RotatedFiles(fs, l.debug)
  {
    assert |BodiesDir(l)| != |l.capture|;
    forall p | Rotated(l.trace, p) ensures !Rotated(l.debug, p) {
      if l.debug.name <= p.name {
        PrefixesNest(l.trace.name, l.debug.name, p.name);
      }
    }
  }

  lemma PrefixesNest(a: string, b: string, s: string)
    requires a <= s && b <= s
    ensures a <= b || b <= a
  {
    if |a| <= |b| {
      assert a == s[..|a|] == b[..|a|];
    } else {
      assert b == s[..|b|] == a[..|b|];
    }
  }

  // ---------------------------------------------------------------------------
  // Sizes
  // ---------------------------------------------------------------------------

  ghost function Total(fs: Files, s: set<Path>): nat
    requires s <= fs.Keys
  {
    if s == {} then 0
    else
      var p :| p in s;
      fs[p].size + Total(fs, s - {p})
  }

  lemma {:induction false} TotalWithout(fs: Files, s: set<Path>, p: Path)
    requires s <= fs.Keys && p in s
    ensures Total(fs, s) == fs[p].size + Total(fs, s - {p})
    decreases s
  {
    var q :| q in s && Total(fs, s) == fs[q].size + Total(fs, s - {q});
    if q != p {
      TotalWithout(fs, s - {q}, p);
      TotalWithout(fs, s - {p}, q);
      assert s - {q} - {p} == s - {p} - {q};
    }
  }

  lemma {:induction false} TotalSame(fs: Files, fs': Files, s: set<Path>)
    requires s <= fs.Keys && s <= fs'.Keys && forall p :: p in s ==> fs'[p] == fs[p]
    ensures Total(fs', s) == Total(fs, s)
    decreases s
  {
    if s != {} {
      var p :| p in s;
      TotalWithout(fs, s, p);
      TotalWithout(fs', s, p);
      TotalSame(fs, fs', s - {p});
    }
  }

  lemma {:induction false} TotalSplit(fs: Files, s: set<Path>, t: set<Path>)
    requires s <= fs.Keys && t <= fs.Keys && s !! t
    ensures Total(fs, s + t) == Total(fs, s) + Total(fs, t)
    decreases s
  {
    if s == {} {
      assert s + t == t;
    } else {
      var p :| p in s;
      TotalWithout(fs, s, p);
      TotalWithout(fs, s + t, p);
      TotalSplit(fs, s - {p}, t);
      assert s + t - {p} == (s - {p}) + t;
    }
  }

  ghost function Sizes(fs: Files, ps: seq<Path>): nat
    requires forall p :: p in ps ==> p in fs
  {
    if ps == [] then 0
    else
      assert ps[|ps| - 1] in ps;
      Sizes(fs, ps[..|ps| - 1]) + fs[ps[|ps| - 1]].size
  }

  lemma {:induction false} OldestExists(fs: Files, s: set<Path>)
    requires s != {} && s <= fs.Keys
    ensures exists p :: p in s && forall q :: q in s ==> fs[p].mtime <= fs[q].mtime
    decreases s
  {
    var x :| x in s;
    if s == {x} {
      assert forall q :: q in s ==> fs[x].mtime <= fs[q].mtime;
    } else {
      OldestExists(fs, s - {x});
      var p :| p in s - {x} && forall q :: q in s - {x} ==> fs[p].mtime <= fs[q].mtime;
      var best := if fs[x].mtime <= fs[p].mtime then x else p;
      assert best in s && forall q :: q in s ==> fs[best].mtime <= fs[q].mtime;
    }
  }

  /** `a` sorts no later than `b` among files of one directory. */
  predicate NameFirst(a: Path, b: Path) {
    a.name == b.name || StringOrder.Less(a.name, b.name)
  }

  lemma {:induction false} FirstNameExists(s: set<Path>)
    requires s != {}
    ensures exists p :: p in s && forall q :: q in s ==> NameFirst(p, q)
    decreases s
  {
    var x :| x in s;
    if s == {x} {
      assert forall q :: q in s ==> NameFirst(x, q);
    } else {
      FirstNameExists(s - {x});
      var p :| p in s - {x} && forall q :: q in s - {x} ==> NameFirst(p, q);
      FirstOfTwo(s, x, p);
    }
  }

  lemma FirstOfTwo(s: set<Path>, x: Path, p: Path)
    requires x in s && p in s - {x} && forall q :: q in s - {x} ==> NameFirst(p, q)
    ensures exists best :: best in s && forall q :: q in s ==> NameFirst(best, q)
  {
    StringOrder.Total(x.name, p.name);
    if NameFirst(x, p) {
      forall q | q in s ensures NameFirst(x, q) {
        if q != x { NameFirstTransitive(x, p, q); }
      }
    } else {
      assert forall q :: q in s ==> NameFirst(p, q);
    }
  }

  lemma NameFirstTransitive(a: Path, b: Path, c: Path)
    requires NameFirst(a, b) && NameFirst(b, c)
    ensures NameFirst(a, c)
  {
    if a.name != b.name && b.name != c.name {
      StringOrder.Transitive(a.name, b.name, c.name);
    }
  }

  // ---------------------------------------------------------------------------
  // Keeping the last names
  // ---------------------------------------------------------------------------

  ghost predicate OneDir(group: set<Path>) {
    forall p, q :: p in group && q in group ==> p.dir == q.dir
  }

  /** The files of `group` whose names come after that of `p`. */
  function Later(group: set<Path>, p: Path): set<Path> {
    set q | q in group && q != p && NameFirst(p, q)
  }

  /** All but the files of `group` with `max` or more later names. */
  function KeepLast(fs: Files, group: set<Path>, max: nat): Files {
    map p | p in fs && !(p in group && |Later(group, p)| >= max) :: fs[p]
  }

  /** `kept` are as many of `group` as the limit allows, and what is gone comes before all of them. */
  ghost predicate KeepsLast(group: set<Path>, kept: set<Path>, max: nat) {
    && kept <= group && |kept| <= max && (kept != group ==> |kept| == max)
    && forall p, q :: p in group && p !in kept && q in kept ==> NameFirst(p, q)
  }

  lemma {:induction false} LastNames(group: set<Path>, max: nat) returns (kept: set<Path>)
    ensures KeepsLast(group, kept, max)
    decreases group
  {
    if |group| <= max {
      kept := group;
    } else {
      FirstNameExists(group);
      var p :| p in group && forall q :: q in group ==> NameFirst(p, q);
      kept := LastNames(group - {p}, max);
      assert kept == group - {p} ==> |kept| == |group| - 1;
    }
  }

  /** First names of `group` are gone, none of them needlessly. */
  ghost predicate LastLeft(group: set<Path>, left: set<Path>, max: nat) {
    && left <= group && (left != group ==> |left| >= max)
    && (forall p, q :: p in group && p !in left && q in left ==> NameFirst(p, q))
    && (forall p :: p in group && p !in left ==> |Later(group, p)| >= max)
  }

  lemma LastLeftStep(group: set<Path>, left: set<Path>, max: nat, p: Path)
    requires LastLeft(group, left, max) && |left| > max
    requires p in left && forall q :: q in left ==> NameFirst(p, q)
    ensures LastLeft(group, left - {p}, max)
  {
    assert left - {p} <= Later(group, p);
    Smaller(left - {p}, Later(group, p));
  }

  lemma NamesDiffer(p: Path, q: Path)
    requires p.dir == q.dir && NameFirst(p, q) && NameFirst(q, p)
    ensures p == q
  {
    if p.name != q.name {
      StringOrder.Transitive(p.name, q.name, p.name);
      StringOrder.Irreflexive(p.name);
    }
  }

  lemma GoneHasLater(group: set<Path>, kept: set<Path>, max: nat, p: Path)
    requires KeepsLast(group, kept, max) && p in group && p !in kept
    ensures |Later(group, p)| >= max
  {
    assert kept <= Later(group, p);
    Smaller(kept, Later(group, p));
  }

  lemma KeptHasFewLater(group: set<Path>, kept: set<Path>, max: nat, p: Path)
    requires OneDir(group) && KeepsLast(group, kept, max) && p in kept
    ensures |Later(group, p)| < max
  {
    forall q | q in Later(group, p) ensures q in kept - {p} {
      if q !in kept { NamesDiffer(p, q); }
    }
    Smaller(Later(group, p), kept - {p});
  }

  /** What goes has the smaller names. */
  lemma SmallerNamesGo(group: set<Path>, kept: set<Path>, max: nat, p: Path, q: Path)
    requires OneDir(group) && KeepsLast(group, kept, max) && p in group && p !in kept && q in kept
    ensures StringOrder.Less(p.name, q.name)
  {
    assert p == Path(p.dir, p.name) && q == Path(q.dir, q.name);
  }

  /** Counting later names is keeping the last ones, as many as the limit allows. */
  lemma KeepLastExactly(fs: Files, group: set<Path>, max: nat, kept: set<Path>)
    requires OneDir(group) && group <= fs.Keys && kept <= group
    ensures KeepsLast(group, kept, max) <==> kept == group * KeepLast(fs, group, max).Keys
  {
    var last := LastNames(group, max);
    forall p | p in group ensures p in last <==> |Later(group, p)| < max {
      if p in last { KeptHasFewLater(group, last, max, p); } else { GoneHasLater(group, last, max, p); }
    }
    assert last == group * KeepLast(fs, group, max).Keys;
    if KeepsLast(group, kept, max) {
      forall p | p in group ensures p in kept <==> |Later(group, p)| < max {
        if p in kept { KeptHasFewLater(group, kept, max, p); } else { GoneHasLater(group, kept, max, p); }
      }
    }
  }

  // ---------------------------------------------------------------------------
  // The pipeline
  // ---------------------------------------------------------------------------

  /** 0 switches a limit off; no cutoff switches age off. */
  datatype Policy = Policy(cutoff: Option<int>, maxTraceFiles: nat, maxBytes: nat, maxBodies: nat)

  /** What was removed: `gone` from `fs0`, each once, and accounted for byte by byte. */
  ghost predicate Accounted(fs0: Files, fs: Files, deleted: seq<Path>, freed: nat) {
    && (forall p :: p in deleted ==> p in fs0)
    && (forall i, j :: 0 <= i < j < |deleted| ==> deleted[i] != deleted[j])
    && fs == fs0 - (set p | p in deleted)
    && freed == Sizes(fs0, deleted)
  }

  /** `fs` is `before` short of some files of `group`. */
  ghost predicate Lost(before: Files, fs: Files, group: set<Path>) {
    && (forall p :: p in fs ==> p in before && fs[p] == before[p])
    && (forall p :: p in before && p !in fs ==> p in group)
  }

  lemma OneLess(group: set<Path>, fs: Files, p: Path)
    ensures group * (fs - {p}).Keys == group * fs.Keys - {p}
  {
  }

  lemma GoneCrowded(before: Files, fs: Files, group: set<Path>, left: set<Path>, max: nat)
    requires Lost(before, fs, group) && LastLeft(group, left, max) && left <= fs.Keys
    ensures forall p :: p in before && p !in fs ==> |Later(group, p)| >= max
  {
  }

  lemma PruneDone(before: Files, fs: Files, group: set<Path>, left: set<Path>, max: nat)
    requires OneDir(group) && group <= before.Keys && Lost(before, fs, group)
    requires LastLeft(group, left, max) && group * fs.Keys == left && |left| <= max
    ensures KeepsLast(group, group * fs.Keys, max) && fs == KeepLast(before, group, max)
  {
    KeepLastExactly(before, group, max, left);
    var kept := KeepLast(before, group, max);
    assert forall p :: p in before ==> (p in kept <==> p !in group || p in left);
    assert fs.Keys == kept.Keys;
  }

  class RetentionRun {
    ghost const fs0: Files
    const refuses: nat -> bool  // whether the file system refuses the k-th removal
    var attempts: nat
    var fs: Files
    var deleted: seq<Path>
    var freed: nat
    ghost var failures: nat

    ghost predicate Valid()
      reads this
    {
      Accounted(fs0, fs, deleted, freed) && (Willing() ==> failures == 0)
    }

    /** The file system refuses nothing. */
    ghost predicate Willing() {
      forall k :: !refuses(k)
    }

    constructor (files: Files, refusals: nat -> bool)
      ensures Valid() && fs0 == fs == files && failures == 0 && refuses == refusals
    {
      fs0, refuses, attempts, fs, deleted, freed, failures := files, refusals, 0, files, [], 0, 0;
      new;
      assert files - {} == files;
    }

    /** Remove one file, unless the file system refuses. */
    method Remove(p: Path) returns (ok: bool)
      requires Valid() && p in fs
      modifies this
      ensures Valid() && attempts == old(attempts) + 1 && (ok <==> !refuses(old(attempts)))
      ensures ok ==> fs == old(fs) - {p} && freed == old(freed) + old(fs)[p].size && failures == old(failures)
      ensures !ok ==> fs == old(fs) && freed == old(freed) && failures == old(failures) + 1
    {
      ok, attempts := !refuses(attempts), attempts + 1;
      if !ok {
        failures := failures + 1;
        return;
      }
      var size := fs[p].size;
      fs := fs - {p};
      deleted := deleted + [p];
      freed := freed + size;
    }

    /** Stage 1: every file of `group` that is not newer than the cutoff. */
    method DeleteOld(group: set<Path>, cutoff: int)
      requires Valid() && group <= fs.Keys
      modifies this
      ensures Valid() && failures >= old(failures)
      ensures Lost(old(fs), fs, group)
      ensures forall p :: p in old(fs) && p !in fs ==> old(fs)[p].mtime <= cutoff
      ensures failures == old(failures) ==> forall p :: p in group && p in fs ==> fs[p].mtime > cutoff
    {
      ghost var before := fs;
      var pending := group;
      while pending != {}
        invariant Valid() && failures >= old(failures)
        invariant pending <= fs.Keys && pending <= group
        invariant Lost(before, fs, group)
        invariant forall p :: p in before && p !in fs ==> before[p].mtime <= cutoff
        invariant failures == old(failures) ==>
                    forall p :: p in group && p in fs && p !in pending ==> fs[p].mtime > cutoff
      {
        var p :| p in pending;
        pending := pending - {p};
        if fs[p].mtime <= cutoff {
          var ok := Remove(p);
        }
      }
    }

    method FirstName(group: set<Path>) returns (p: Path)
      requires group != {}
      ensures p in group && forall q :: q in group ==> NameFirst(p, q)
    {
      FirstNameExists(group);
      p :| p in group && forall q :: q in group ==> NameFirst(p, q);
    }

    /** Stages 2 and 4: keep at most `max` files of `group`, removing the first names. */
    method PruneByCount(group: set<Path>, max: nat)
      requires Valid() && group <= fs.Keys && OneDir(group)
      modifies this
      ensures Valid() && failures >= old(failures)
      ensures Lost(old(fs), fs, group)
      ensures forall p :: p in old(fs) && p !in fs ==> |Later(group, p)| >= max
      ensures failures == old(failures) ==> KeepsLast(group, group * fs.Keys, max) && fs == KeepLast(old(fs), group, max)
    {
      ghost var before := fs;
      var rotated := group;
      assert group * fs.Keys == group;
      while |rotated| > max
        invariant Valid() && failures >= old(failures)
        invariant rotated <= fs.Keys && LastLeft(group, rotated, max)
        invariant Lost(before, fs, group)
        invariant failures == old(failures) ==> group * fs.Keys == rotated
      {
        var oldest := FirstName(rotated);
        LastLeftStep(group, rotated, max, oldest);
        rotated := rotated - {oldest};
        OneLess(group, fs, oldest);
        var ok := Remove(oldest);
      }
      GoneCrowded(before, fs, group, rotated, max);
      if failures == old(failures) {
        PruneDone(before, fs, group, rotated, max);
      }
    }

    method Oldest(group: set<Path>) returns (p: Path)
      requires group != {} && group <= fs.Keys
      ensures p in group && forall q :: q in group ==> fs[p].mtime <= fs[q].mtime
    {
      OldestExists(fs, group);
      p :| p in group && forall q :: q in group ==> fs[p].mtime <= fs[q].mtime;
    }

    /** Stage 3: remove the oldest prunable files until at most `max` bytes are left. */
    method PruneByDiskUsage(group: set<Path>, max: nat)
      requires Valid() && group <= fs.Keys
      modifies this
      ensures Valid() && failures >= old(failures)
      ensures Lost(old(fs), fs, group)
      ensures fs != old(fs) ==> Total(old(fs), group) > max
      ensures failures == old(failures) ==> ShortestOldestFirst(old(fs), group, fs.Keys, max)
    {
      ghost var before := fs;
      var remaining: nat := SumSizes(group);
      var pending := group;
      assert group * fs.Keys == group && group - fs.Keys == {};
      while remaining > max && pending != {}
        invariant Valid() && failures >= old(failures)
        invariant pending <= fs.Keys && pending <= group
        invariant Lost(before, fs, group)
        invariant remaining <= Total(before, group) && (pending != group ==> Total(before, group) > max)
        invariant failures == old(failures) ==> group * fs.Keys == pending
        invariant OldestGone(before, group, pending)
        invariant failures == old(failures) ==> DiskProgress(before, group, pending, remaining, max)
      {
        var p := Oldest(pending);
        DiskStep(before, group, pending, p, remaining, max);
        pending := pending - {p};
        var size := fs[p].size;
        OneLess(group, fs, p);
        var ok := Remove(p);
        if ok {
          remaining := SatSub(remaining, size);
        }
      }
      if failures == old(failures) {
        DiskDone(before, group, fs.Keys, pending, remaining, max);
      }
    }

    method SumSizes(group: set<Path>) returns (n: nat)
      requires group <= fs.Keys
      ensures n == Total(fs, group)
    {
      n := 0;
      var pending := group;
      while pending != {}
        invariant pending <= group && n + Total(fs, pending) == Total(fs, group)
      {
        var p :| p in pending;
        TotalWithout(fs, pending, p);
        n, pending := n + fs[p].size, pending - {p};
      }
    }

    method AgeStage(l: Layout, cutoff: int)
      requires Valid()
      modifies this
      ensures Valid() && failures >= old(failures) && Shrunk(old(fs), fs, l)
      ensures forall p :: p in old(fs) && p !in fs ==> old(fs)[p].mtime <= cutoff
      ensures failures == old(failures) ==> fs == WithoutOld(old(fs), l, cutoff)
    {
      ghost var f0 := fs;
      DeleteOld(RotatedFiles(fs, l.trace), cutoff);
      ghost var f1 := fs;
      DeleteOld(RotatedFiles(fs, l.debug), cutoff);
      ghost var f2 := fs;
      DeleteOld(CaptureFiles(fs, l), cutoff);
      ShrunkTransitive(f0, f1, f2, l);
      ShrunkTransitive(f0, f2, fs, l);
      if failures == old(failures) {
        AgedOut(f0, f1, f2, fs, l, cutoff);
        AgeExact(f0, fs, l, cutoff);
      }
    }

    /** Keep at most `max` rotated copies of one log. */
    method PruneRotated(l: Layout, base: Path, max: nat)
      requires Valid() && (base == l.trace || base == l.debug)
      modifies this
      ensures Valid() && failures >= old(failures) && Shrunk(old(fs), fs, l)
      ensures forall p :: p in old(fs) && p !in fs ==> Crowded(old(fs), base, max, p)
      ensures failures == old(failures) ==> fs == KeepLast(old(fs), RotatedFiles(old(fs), base), max)
    {
      ghost var f0 := fs;
      PruneByCount(RotatedFiles(fs, base), max);
      RotatedLost(f0, fs, base, l);
    }

    method CountStage(l: Layout, max: nat)
      requires Valid()
      modifies this
      ensures Valid() && failures >= old(failures) && Shrunk(old(fs), fs, l)
      ensures forall p :: p in old(fs) && p !in fs ==>
                Crowded(old(fs), l.trace, max, p) || Crowded(old(fs), l.debug, max, p)
      ensures failures == old(failures) ==> fs == KeepLastRotated(old(fs), l, max)
    {
      ghost var f0 := fs;
      PruneRotated(l, l.trace, max);
      ghost var f1 := fs;
      PruneRotated(l, l.debug, max);
      ShrunkTransitive(f0, f1, fs, l);
      forall p | p in f1 && Crowded(f1, l.debug, max, p) ensures Crowded(f0, l.debug, max, p) {
        CrowdedBefore(f0, f1, l.debug, max, p);
      }
    }

    method DiskStage(l: Layout, max: nat)
      requires Valid()
      modifies this
      ensures Valid() && failures >= old(failures) && Shrunk(old(fs), fs, l)
      ensures fs != old(fs) ==> Total(old(fs), Prunable(old(fs), l)) > max
      ensures failures == old(failures) ==> ShortestOldestFirst(old(fs), Prunable(old(fs), l), fs.Keys, max)
    {
      PruneByDiskUsage(Prunable(fs, l), max);
    }

    method BodyStage(l: Layout, max: nat)
      requires Valid()
      modifies this
      ensures Valid() && failures >= old(failures) && Shrunk(old(fs), fs, l)
      ensures forall p :: p in old(fs) && p !in fs ==> CrowdedBody(old(fs), l, max, p)
      ensures failures == old(failures) ==> fs == KeepLast(old(fs), BodyFiles(old(fs), l), max)
    {
      PruneByCount(BodyFiles(fs, l), max);
    }

    /**
     * The whole pipeline. Whatever fails, only prunable files go, each for a reason; without failures what is left
     * is what the four stages leave, and every enabled limit holds.
     */
    method EnforceRetention(l: Layout, policy: Policy)
      requires Valid()
      modifies this
      ensures Valid() && failures >= old(failures) && Shrunk(old(fs), fs, l)
      ensures forall p :: p in old(fs) && p !in fs ==> Excess(old(fs), l, policy, p)
      ensures failures == old(failures) ==> Enforced(old(fs), fs, l, policy) && LimitsMet(fs, l, policy)
    {
      ghost var f0 := fs;
      if policy.cutoff.Some? {
        AgeStage(l, policy.cutoff.value);
      }
      ghost var f1 := fs;
      if policy.maxTraceFiles > 0 {
        CountStage(l, policy.maxTraceFiles);
      }
      ghost var f2 := fs;
      ExcessStep(f0, f1, f2, l, policy);
      if policy.maxBytes > 0 {
        DiskStage(l, policy.maxBytes);
      }
      ghost var f3 := fs;
      ExcessStep(f0, f2, f3, l, policy);
      if policy.maxBodies > 0 {
        BodyStage(l, policy.maxBodies);
      }
      ExcessStep(f0, f3, fs, l, policy);
      if failures == old(failures) {
        assert AfterCount(f0, l, policy) == f2;
        assert DiskLeaves(f2, f3, l, policy);
        EnforcedMeetsLimits(f0, fs, l, policy);
      }
    }
  }

  /** Each of the three classes was cleared in turn, and later removals brought nothing back. */
  lemma AgedOut(f0: Files, f1: Files, f2: Files, fs: Files, l: Layout, cutoff: int)
    requires Shrunk(f0, f1, l) && Shrunk(f1, f2, l) && Shrunk(f2, fs, l)
    requires forall p :: p in RotatedFiles(f0, l.trace) && p in f1 ==> f1[p].mtime > cutoff
    requires forall p :: p in RotatedFiles(f1, l.debug) && p in f2 ==> f2[p].mtime > cutoff
    requires forall p :: p in CaptureFiles(f2, l) && p in fs ==> fs[p].mtime > cutoff
    ensures NoneOlder(fs, l, cutoff)
  {
    ClassesShrink(f2, fs, l);
    ClassesShrink(f1, f2, l);
    ClassesShrink(f0, f1, l);
    forall p | p in Prunable(fs, l) ensures fs[p].mtime > cutoff {
      assert p in f2 && p in f1 && p in f0;
    }
  }

  lemma AgeExact(f0: Files, fs: Files, l: Layout, cutoff: int)
    requires Shrunk(f0, fs, l) && NoneOlder(fs, l, cutoff)
    requires forall p :: p in f0 && p !in fs ==> f0[p].mtime <= cutoff
    ensures fs == WithoutOld(f0, l, cutoff)
  {
    ClassesShrink(f0, fs, l);
  }

  // ---------------------------------------------------------------------------
  // What a run leaves
  // ---------------------------------------------------------------------------

  function WithoutOld(fs: Files, l: Layout, cutoff: int): Files {
    map p | p in fs && !(p in Prunable(fs, l) && fs[p].mtime <= cutoff) :: fs[p]
  }

  function KeepLastRotated(fs: Files, l: Layout, max: nat): Files {
    var f1 := KeepLast(fs, RotatedFiles(fs, l.trace), max);
    KeepLast(f1, RotatedFiles(f1, l.debug), max)
  }

  function AfterAge(fs: Files, l: Layout, policy: Policy): Files {
    if policy.cutoff.Some? then WithoutOld(fs, l, policy.cutoff.value) else fs
  }

  function AfterCount(fs: Files, l: Layout, policy: Policy): Files {
    var f1 := AfterAge(fs, l, policy);
    if policy.maxTraceFiles > 0 then KeepLastRotated(f1, l, policy.maxTraceFiles) else f1
  }

  /** The disk stage may choose among files of one age. */
  ghost predicate DiskLeaves(fs: Files, fs': Files, l: Layout, policy: Policy) {
    && Shrunk(fs, fs', l)
    && if policy.maxBytes > 0 then ShortestOldestFirst(fs, Prunable(fs, l), fs'.Keys, policy.maxBytes) else fs' == fs
  }

  function AfterBodies(fs: Files, l: Layout, policy: Policy): Files {
    if policy.maxBodies > 0 then KeepLast(fs, BodyFiles(fs, l), policy.maxBodies) else fs
  }

  /** What a run without failures leaves of `before`. */
  ghost predicate Enforced(before: Files, fs: Files, l: Layout, policy: Policy) {
    exists f3 :: DiskLeaves(AfterCount(before, l, policy), f3, l, policy) && fs == AfterBodies(f3, l, policy)
  }

  /** A rotated copy with `max` or more copies of later name. */
  ghost predicate Crowded(fs: Files, base: Path, max: nat, p: Path) {
    Rotated(base, p) && |Later(RotatedFiles(fs, base), p)| >= max
  }

  ghost predicate CrowdedBody(fs: Files, l: Layout, max: nat, p: Path) {
    p in BodyFiles(fs, l) && |Later(BodyFiles(fs, l), p)| >= max
  }

  /** Why a file may go: too old, crowded out, or part of a total over the limit. */
  ghost predicate Excess(fs: Files, l: Layout, policy: Policy, p: Path)
    requires p in fs
  {
    || (policy.cutoff.Some? && fs[p].mtime <= policy.cutoff.value)
    || (policy.maxTraceFiles > 0 &&
        (Crowded(fs, l.trace, policy.maxTraceFiles, p) || Crowded(fs, l.debug, policy.maxTraceFiles, p)))
    || (policy.maxBytes > 0 && Total(fs, Prunable(fs, l)) > policy.maxBytes)
    || (policy.maxBodies > 0 && CrowdedBody(fs, l, policy.maxBodies, p))
  }

  lemma CrowdedBefore(f0: Files, f1: Files, base: Path, max: nat, p: Path)
    requires f1.Keys <= f0.Keys && Crowded(f1, base, max, p)
    ensures Crowded(f0, base, max, p)
  {
    Smaller(Later(RotatedFiles(f1, base), p), Later(RotatedFiles(f0, base), p));
  }

  lemma CrowdedBodyBefore(f0: Files, f1: Files, l: Layout, max: nat, p: Path)
    requires f1.Keys <= f0.Keys && (forall q :: q in f1 ==> f1[q] == f0[q]) && CrowdedBody(f1, l, max, p)
    ensures CrowdedBody(f0, l, max, p)
  {
    Smaller(Later(BodyFiles(f1, l), p), Later(BodyFiles(f0, l), p));
  }

  lemma ExcessBefore(f0: Files, f1: Files, l: Layout, policy: Policy, p: Path)
    requires Shrunk(f0, f1, l) && p in f1 && Excess(f1, l, policy, p)
    ensures Excess(f0, l, policy, p)
  {
    BytesSurvive(f0, f1, l);
    if Crowded(f1, l.trace, policy.maxTraceFiles, p) { CrowdedBefore(f0, f1, l.trace, policy.maxTraceFiles, p); }
    if Crowded(f1, l.debug, policy.maxTraceFiles, p) { CrowdedBefore(f0, f1, l.debug, policy.maxTraceFiles, p); }
    if CrowdedBody(f1, l, policy.maxBodies, p) { CrowdedBodyBefore(f0, f1, l, policy.maxBodies, p); }
  }

  /** A stage that removes excess files only keeps that true of the run so far. */
  lemma ExcessStep(f0: Files, f1: Files, f2: Files, l: Layout, policy: Policy)
    requires Shrunk(f0, f1, l) && (forall p :: p in f0 && p !in f1 ==> Excess(f0, l, policy, p))
    requires Shrunk(f1, f2, l) && (forall p :: p in f1 && p !in f2 ==> Excess(f1, l, policy, p))
    ensures Shrunk(f0, f2, l) && (forall p :: p in f0 && p !in f2 ==> Excess(f0, l, policy, p))
  {
    ShrunkTransitive(f0, f1, f2, l);
    forall p | p in f0 && p !in f2 ensures Excess(f0, l, policy, p) {
      if p in f1 { ExcessBefore(f0, f1, l, policy, p); }
    }
  }

  lemma KeepLastShrinks(fs: Files, group: set<Path>, max: nat, l: Layout)
    requires group <= Prunable(fs, l) && OneDir(group)
    ensures Shrunk(fs, KeepLast(fs, group, max), l) && |group * KeepLast(fs, group, max).Keys| <= max
  {
    KeepLastExactly(fs, group, max, group * KeepLast(fs, group, max).Keys);
  }

  lemma CountMeets(fs: Files, l: Layout, max: nat)
    ensures Shrunk(fs, KeepLastRotated(fs, l, max), l) && CountsMet(KeepLastRotated(fs, l, max), l, max)
  {
    var f1 := KeepLast(fs, RotatedFiles(fs, l.trace), max);
    var f2 := KeepLastRotated(fs, l, max);
    KeepLastShrinks(fs, RotatedFiles(fs, l.trace), max, l);
    KeepLastShrinks(f1, RotatedFiles(f1, l.debug), max, l);
    ShrunkTransitive(fs, f1, f2, l);
    ClassesShrink(fs, f1, l);
    ClassesShrink(f1, f2, l);
    RotatedShrink(f1, f2, l.trace);
  }

  lemma AgeMeets(fs: Files, l: Layout, cutoff: int)
    ensures Shrunk(fs, WithoutOld(fs, l, cutoff), l) && NoneOlder(WithoutOld(fs, l, cutoff), l, cutoff)
  {
    ClassesShrink(fs, WithoutOld(fs, l, cutoff), l);
  }

  /** A run without failures loses only prunable files and ends with every enabled limit met. */
  lemma EnforcedMeetsLimits(f0: Files, fs: Files, l: Layout, policy: Policy)
    requires Enforced(f0, fs, l, policy)
    ensures Shrunk(f0, fs, l) && LimitsMet(fs, l, policy)
  {
    var f1, f2 := AfterAge(f0, l, policy), AfterCount(f0, l, policy);
    var f3 :| DiskLeaves(f2, f3, l, policy) && fs == AfterBodies(f3, l, policy);
    if policy.cutoff.Some? { AgeMeets(f0, l, policy.cutoff.value); }
    if policy.maxTraceFiles > 0 { CountMeets(f1, l, policy.maxTraceFiles); }
    if policy.maxBodies > 0 { BodiesMeet(f3, l, policy.maxBodies); }
    ShrunkTransitive(f2, f3, fs, l);
    ShrunkTransitive(f1, f2, fs, l);
    ShrunkTransitive(f0, f1, fs, l);
    if policy.cutoff.Some? { AgeSurvives(f1, fs, l, policy.cutoff.value); }
    if policy.maxTraceFiles > 0 { CountsSurvive(f2, fs, l, policy.maxTraceFiles); }
    if policy.maxBytes > 0 { DiskMeets(f2, f3, l, policy.maxBytes); }
    BytesSurvive(f3, fs, l);
  }

  lemma BodiesMeet(fs: Files, l: Layout, max: nat)
    ensures var left := KeepLast(fs, BodyFiles(fs, l), max);
            Shrunk(fs, left, l) && |BodyFiles(left, l)| <= max
  {
    KeepLastShrinks(fs, BodyFiles(fs, l), max, l);
    ClassesShrink(fs, KeepLast(fs, BodyFiles(fs, l), max), l);
  }

  lemma DiskMeets(f2: Files, f3: Files, l: Layout, max: nat)
    requires Shrunk(f2, f3, l) && ShortestOldestFirst(f2, Prunable(f2, l), f3.Keys, max)
    ensures Total(f3, Prunable(f3, l)) <= max
  {
    ClassesShrink(f2, f3, l);
    assert Prunable(f2, l) * f3.Keys == Prunable(f3, l);
    TotalSame(f2, f3, Prunable(f3, l));
  }

  /** Within every limit no file is in excess. */
  lemma NoExcessWithinLimits(fs: Files, l: Layout, policy: Policy, p: Path)
    requires LimitsMet(fs, l, policy) && p in Prunable(fs, l)
    ensures !Excess(fs, l, policy, p)
  {
    if Rotated(l.trace, p) { FewerLater(RotatedFiles(fs, l.trace), p); }
    if Rotated(l.debug, p) { FewerLater(RotatedFiles(fs, l.debug), p); }
    if p in BodyFiles(fs, l) { FewerLater(BodyFiles(fs, l), p); }
  }

  lemma FewerLater(group: set<Path>, p: Path)
    requires p in group
    ensures |Later(group, p)| < |group|
  {
    Smaller(Later(group, p), group - {p});
  }

  lemma CountTakesExcess(fs: Files, l: Layout, max: nat)
    ensures forall p :: p in fs && p !in KeepLastRotated(fs, l, max) ==>
              Crowded(fs, l.trace, max, p) || Crowded(fs, l.debug, max, p)
  {
    var f1 := KeepLast(fs, RotatedFiles(fs, l.trace), max);
    forall p | p in f1 && Crowded(f1, l.debug, max, p) ensures Crowded(fs, l.debug, max, p) {
      CrowdedBefore(fs, f1, l.debug, max, p);
    }
  }

  lemma DiskTakesExcess(fs: Files, fs': Files, l: Layout, max: nat)
    requires Shrunk(fs, fs', l) && ShortestOldestFirst(fs, Prunable(fs, l), fs'.Keys, max) && fs' != fs
    ensures Total(fs, Prunable(fs, l)) > max
  {
    var group := Prunable(fs, l);
    var kept := group * fs'.Keys;
    var p :| p in fs && p !in fs';
    assert p in group && p !in kept;
    var last :| LastNeeded(fs, group, kept, max, last);
    TotalSplit(fs, kept, {last});
    TotalWithout(fs, {last}, last);
    TotalShrinks(fs, fs, kept + {last}, group);
  }

  /** A run without failures takes excess files only. */
  lemma EnforcedTakesExcess(f0: Files, fs: Files, l: Layout, policy: Policy)
    requires Enforced(f0, fs, l, policy)
    ensures forall p :: p in f0 && p !in fs ==> Excess(f0, l, policy, p)
  {
    var f1, f2 := AfterAge(f0, l, policy), AfterCount(f0, l, policy);
    var f3 :| DiskLeaves(f2, f3, l, policy) && fs == AfterBodies(f3, l, policy);
    if policy.cutoff.Some? { AgeMeets(f0, l, policy.cutoff.value); }
    if policy.maxTraceFiles > 0 {
      CountMeets(f1, l, policy.maxTraceFiles);
      CountTakesExcess(f1, l, policy.maxTraceFiles);
    }
    ExcessStep(f0, f1, f2, l, policy);
    if policy.maxBytes > 0 && f3 != f2 { DiskTakesExcess(f2, f3, l, policy.maxBytes); }
    ExcessStep(f0, f2, f3, l, policy);
    if policy.maxBodies > 0 { BodiesMeet(f3, l, policy.maxBodies); }
    ExcessStep(f0, f3, fs, l, policy);
  }

  /** A run without failures changes nothing exactly when every limit was met before it; so the next one is idle. */
  lemma IdleExactly(before: Files, fs: Files, l: Layout, policy: Policy)
    requires Enforced(before, fs, l, policy)
    ensures fs == before <==> LimitsMet(before, l, policy)
    ensures forall fs' :: Enforced(fs, fs', l, policy) ==> fs' == fs
  {
    WithinLimitsStays(before, fs, l, policy);
    forall fs' | Enforced(fs, fs', l, policy) ensures fs' == fs {
      WithinLimitsStays(fs, fs', l, policy);
    }
  }

  lemma WithinLimitsStays(before: Files, fs: Files, l: Layout, policy: Policy)
    requires Enforced(before, fs, l, policy)
    ensures LimitsMet(before, l, policy) ==> fs == before
    ensures LimitsMet(fs, l, policy)
  {
    EnforcedMeetsLimits(before, fs, l, policy);
    EnforcedTakesExcess(before, fs, l, policy);
    if LimitsMet(before, l, policy) {
      NothingInExcess(before, fs, l, policy);
    }
  }

  lemma NothingInExcess(before: Files, fs: Files, l: Layout, policy: Policy)
    requires Shrunk(before, fs, l) && LimitsMet(before, l, policy)
    requires forall p :: p in before && p !in fs ==> Excess(before, l, policy, p)
    ensures fs == before
  {
    forall p | p in Prunable(before, l) ensures !Excess(before, l, policy, p) {
      NoExcessWithinLimits(before, l, policy, p);
    }
    assert forall p :: p in before ==> p in fs;
    assert fs.Keys == before.Keys;
  }

  ghost predicate NoneOlder(fs: Files, l: Layout, cutoff: int) {
    forall p :: p in Prunable(fs, l) ==> fs[p].mtime > cutoff
  }

  ghost predicate CountsMet(fs: Files, l: Layout, max: nat) {
    |RotatedFiles(fs, l.trace)| <= max && |RotatedFiles(fs, l.debug)| <= max
  }

  /** `fs` lost only prunable files of `before`. */
  ghost predicate Shrunk(before: Files, fs: Files, l: Layout) {
    && fs.Keys <= before.Keys && before.Keys - fs.Keys <= Prunable(before, l)
    && forall p :: p in fs ==> fs[p] == before[p]
  }

  ghost predicate LastNeeded(fs: Files, group: set<Path>, kept: set<Path>, max: nat, last: Path)
    requires group <= fs.Keys && kept <= group
  {
    && last in group && last !in kept
    && (forall p :: p in group && p !in kept ==> fs[p].mtime <= fs[last].mtime)
    && Total(fs, kept) + fs[last].size > max
  }

  /** Some file removed last, no older than the others removed, had to go. */
  ghost predicate LastWasNeeded(fs: Files, group: set<Path>, kept: set<Path>, max: nat)
    requires group <= fs.Keys && kept <= group
  {
    exists last :: LastNeeded(fs, group, kept, max, last)
  }

  ghost predicate OldestGone(fs: Files, group: set<Path>, kept: set<Path>)
    requires group <= fs.Keys && kept <= group
  {
    forall p, q :: p in group && p !in kept && q in kept ==> fs[p].mtime <= fs[q].mtime
  }

  ghost predicate DiskProgress(fs: Files, group: set<Path>, pending: set<Path>, remaining: nat, max: nat)
    requires group <= fs.Keys && pending <= group
  {
    remaining == Total(fs, pending) && (pending != group ==> LastWasNeeded(fs, group, pending, max))
  }

  lemma DiskStep(fs: Files, group: set<Path>, pending: set<Path>, p: Path, remaining: nat, max: nat)
    requires group <= fs.Keys && pending <= group && OldestGone(fs, group, pending)
    requires p in pending && forall q :: q in pending ==> fs[p].mtime <= fs[q].mtime
    ensures OldestGone(fs, group, pending - {p})
    ensures DiskProgress(fs, group, pending, remaining, max) && remaining > max ==>
              DiskProgress(fs, group, pending - {p}, SatSub(remaining, fs[p].size), max)
  {
    TotalWithout(fs, pending, p);
    if Total(fs, pending) > max {
      assert LastNeeded(fs, group, pending - {p}, max, p);
    }
  }

  lemma DiskDone(fs: Files, group: set<Path>, left: set<Path>, pending: set<Path>, remaining: nat, max: nat)
    requires group <= fs.Keys && group * left == pending && OldestGone(fs, group, pending)
    requires DiskProgress(fs, group, pending, remaining, max) && (remaining <= max || pending == {})
    ensures ShortestOldestFirst(fs, group, left, max)
  {
    assert Total(fs, {}) == 0;
  }

  /** The files of `group` that are gone are the shortest run of oldest files that suffices. */
  ghost predicate ShortestOldestFirst(fs: Files, group: set<Path>, left: set<Path>, max: nat)
    requires group <= fs.Keys
  {
    var kept := group * left;
    && Total(fs, kept) <= max
    && OldestGone(fs, group, kept)
    && (kept != group ==> LastWasNeeded(fs, group, kept, max))
  }

  /** Every enabled limit, at once. */
  ghost predicate LimitsMet(fs: Files, l: Layout, policy: Policy) {
    && (policy.cutoff.Some? ==> NoneOlder(fs, l, policy.cutoff.value))
    && (policy.maxTraceFiles > 0 ==> CountsMet(fs, l, policy.maxTraceFiles))
    && (policy.maxBytes > 0 ==> Total(fs, Prunable(fs, l)) <= policy.maxBytes)
    && (policy.maxBodies > 0 ==> |BodyFiles(fs, l)| <= policy.maxBodies)
  }

  lemma Smaller<T>(a: set<T>, b: set<T>)
    requires a <= b
    ensures |a| <= |b|
  {
    assert b == a + (b - a);
  }

  lemma ClassesShrink(before: Files, fs: Files, l: Layout)
    requires fs.Keys <= before.Keys && forall p :: p in fs ==> fs[p] == before[p]
    ensures RotatedFiles(fs, l.trace) == RotatedFiles(before, l.trace) * fs.Keys
    ensures RotatedFiles(fs, l.debug) == RotatedFiles(before, l.debug) * fs.Keys
    ensures CaptureFiles(fs, l) == CaptureFiles(before, l) * fs.Keys
    ensures BodyFiles(fs, l) == BodyFiles(before, l) * fs.Keys
  {
  }

  lemma ShrunkTransitive(f0: Files, f1: Files, f2: Files, l: Layout)
    requires Shrunk(f0, f1, l) && Shrunk(f1, f2, l)
    ensures Shrunk(f0, f2, l)
  {
    ClassesShrink(f0, f1, l);
    forall p | p in f0.Keys - f2.Keys ensures p in Prunable(f0, l) {
      assert p in f1 ==> p in Prunable(f1, l);
    }
  }

  lemma RotatedLost(before: Files, fs: Files, base: Path, l: Layout)
    requires Lost(before, fs, RotatedFiles(before, base)) && (base == l.trace || base == l.debug)
    ensures RotatedFiles(fs, base) == RotatedFiles(before, base) * fs.Keys && Shrunk(before, fs, l)
  {
  }

  lemma RotatedShrink(before: Files, fs: Files, base: Path)
    requires fs.Keys <= before.Keys && forall p :: p in fs ==> fs[p] == before[p]
    ensures |RotatedFiles(fs, base)| <= |RotatedFiles(before, base)|
  {
    Smaller(RotatedFiles(fs, base), RotatedFiles(before, base));
  }

  lemma TotalShrinks(before: Files, fs: Files, s: set<Path>, t: set<Path>)
    requires t <= before.Keys && s <= t && s <= fs.Keys && forall p :: p in s ==> fs[p] == before[p]
    ensures Total(fs, s) <= Total(before, t)
  {
    TotalSplit(before, s, t - s);
    assert s + (t - s) == t;
    TotalSame(before, fs, s);
  }

  lemma AgeSurvives(before: Files, fs: Files, l: Layout, cutoff: int)
    requires Shrunk(before, fs, l) && NoneOlder(before, l, cutoff)
    ensures NoneOlder(fs, l, cutoff)
  {
    ClassesShrink(before, fs, l);
    forall p | p in Prunable(fs, l) ensures fs[p].mtime > cutoff {
      assert p in Prunable(before, l);
    }
  }

  lemma CountsSurvive(before: Files, fs: Files, l: Layout, max: nat)
    requires Shrunk(before, fs, l) && CountsMet(before, l, max)
    ensures CountsMet(fs, l, max)
  {
    RotatedShrink(before, fs, l.trace);
    RotatedShrink(before, fs, l.debug);
  }

  lemma BytesSurvive(before: Files, fs: Files, l: Layout)
    requires Shrunk(before, fs, l)
    ensures Total(fs, Prunable(fs, l)) <= Total(before, Prunable(before, l))
  {
    ClassesShrink(before, fs, l);
    assert Prunable(fs, l) <= Prunable(before, l);
    TotalShrinks(before, fs, Prunable(fs, l), Prunable(before, l));
  }

  /** Bytes reported freed are the drop of the total, whatever was removed and whatever failed. */
  lemma {:induction false} FreedIsDrop(fs0: Files, fs: Files, deleted: seq<Path>, freed: nat)
    requires Accounted(fs0, fs, deleted, freed)
    ensures fs.Keys <= fs0.Keys && Total(fs0, fs0.Keys) == Total(fs, fs.Keys) + freed
    decreases |deleted|
  {
    if deleted == [] {
      assert (set p | p in deleted) == {};
      assert fs == fs0;
    } else {
      var n := |deleted| - 1;
      var p, front := deleted[n], deleted[..n];
      var mid := fs0 - (set q | q in front);
      assert p in deleted && p !in front;
      assert (set q | q in deleted) == (set q | q in front) + {p};
      FreedIsDrop(fs0, mid, front, freed - fs0[p].size);
      TotalWithout(mid, mid.Keys, p);
      assert fs.Keys == mid.Keys - {p};
      TotalSame(mid, fs, fs.Keys);
    }
  }

  /** A run removes only prunable files, so with active files apart none of them is touched. */
  lemma ActiveNeverDeleted(before: Files, fs: Files, l: Layout)
    requires Shrunk(before, fs, l) && ActiveApart(l)
    ensures forall p :: p in Active(l) && p in before ==> p in fs
  {
    forall p | p in Active(l) ensures p !in Prunable(before, l) {
    }
  }

  ghost predicate SpareActive(before: Files, fs: Files, l: Layout) {
    forall p :: p in Active(l) && p in before ==> p in fs
  }

  /** One of the four name rules takes the path for a file to prune. */
  predicate Caught(l: Layout, p: Path) {
    Rotated(l.trace, p) || Rotated(l.debug, p) || CaptureIndex(l, p) || p.dir == BodiesDir(l)
  }

  /** Every clean run with an age limit deletes an active file that is caught and no newer than the cutoff. */
  lemma CaughtIsDeleted(before: Files, fs: Files, l: Layout, policy: Policy, p: Path)
    requires Enforced(before, fs, l, policy) && policy.cutoff.Some?
    requires p in before && before[p].isFile && Caught(l, p) && before[p].mtime <= policy.cutoff.value
    ensures p !in fs
  {
    EnforcedMeetsLimits(before, fs, l, policy);
    assert p in fs ==> fs[p] == before[p] && p in Prunable(fs, l);
  }

  lemma LoneFile(l: Layout, p: Path)
    requires Caught(l, p)
    ensures var policy, before: Files := Policy(Some(0), 0, 0, 0), map[p := FileInfo(0, 0, true)];
            Enforced(before, map[], l, policy)
  {
    var policy, before: Files, none: Files := Policy(Some(0), 0, 0, 0), map[p := FileInfo(0, 0, true)], map[];
    assert p in Prunable(before, l);
    assert WithoutOld(before, l, 0) == none;
    assert AfterCount(before, l, policy) == none && DiskLeaves(none, none, l, policy);
    assert AfterBodies(none, l, policy) == none;
  }

  /** A layout is safe, for every file system, policy and clean run, if and only if its active files are apart. */
  lemma SafeExactlyWhenApart(l: Layout)
    ensures ActiveApart(l) <==>
            forall before, fs, policy :: Enforced(before, fs, l, policy) ==> SpareActive(before, fs, l)
  {
    if ActiveApart(l) {
      forall before, fs, policy | Enforced(before, fs, l, policy) ensures SpareActive(before, fs, l) {
        EnforcedMeetsLimits(before, fs, l, policy);
        ActiveNeverDeleted(before, fs, l);
      }
    } else {
      var p :| p in Active(l) && Caught(l, p);
      LoneFile(l, p);
      var policy, before: Files, left: Files := Policy(Some(0), 0, 0, 0), map[p := FileInfo(0, 0, true)], map[];
      assert Enforced(before, left, l, policy);
      assert p in before && p !in left;
      assert !SpareActive(before, left, l);
    }
  }

  /** Where the logs are unless configured otherwise. */
  function DefaultLayout(): Layout {
    Layout(Path("/app/logs", "trace.jsonl"), Path("/var/log/crabcache", "trace-debug.jsonl"),
           "/var/log/crabcache/raw_capture")
  }

  lemma DefaultLayoutIsApart()
    ensures ActiveApart(DefaultLayout())
  {
    var l := DefaultLayout();
    assert |l.trace.dir| < |l.debug.dir| < |l.capture| < |BodiesDir(l)|;
    SeparateLogsAreApart(l);
  }

  /** A debug log whose name extends the trace log's is caught, so age retention deletes it while it is written. */
  lemma ExtendedNameIsDeleted(l: Layout, before: Files, fs: Files, policy: Policy)
    requires l.debug.dir == l.trace.dir && l.trace.name <= l.debug.name && l.trace.name != l.debug.name
    requires l.debug in before && before[l.debug].isFile
    requires policy.cutoff.Some? && before[l.debug].mtime <= policy.cutoff.value && Enforced(before, fs, l, policy)
    ensures l.debug in Active(l) && l.debug !in fs && !ActiveApart(l)
  {
    CaughtIsDeleted(before, fs, l, policy, l.debug);
    assert l.debug in Active(l) && Rotated(l.trace, l.debug);
  }
}
