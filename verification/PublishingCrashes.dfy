/** What a crash can leave of a destination that durable and cache writers share: it is whole exactly where every
    replacement that may come back is a durable writer's. */
module PublishingCrashes {
  import opened Wrappers
  import opened TempNames
  import opened Publishing
  import opened PublishingOutcome
  import opened PublishingClashes

  // --- A cache writer's bytes are never synchronized

  ghost predicate UnsyncedWriter(z: Setup, s: State, w: nat)
    requires Fits(z, s) && w < |z.writers|
  {
    s.pcs[w].Open? && z.writers[w].mode.Cache? ==> !s.disk.files[s.pcs[w].inode].stable
  }

  ghost predicate UnsyncedEntry(z: Setup, s: State, entry: Entry) {
    entry.writer < |z.writers| && z.writers[entry.writer].mode.Cache? ==>
      entry.inode in s.disk.files && !s.disk.files[entry.inode].stable
  }

  ghost predicate Unsynced(z: Setup, s: State)
    requires Fits(z, s)
  {
    && (forall w: nat :: w < |z.writers| ==> UnsyncedWriter(z, s, w))
    && (forall p, entry :: Logged(s, p, entry) ==> UnsyncedEntry(z, s, entry))
  }

  /** A step makes no file stable but a durable holder's own. */
  lemma StableIsDurable(z: Setup, s: State, step: Step, n: nat)
    requires Enabled(z, s, step) && FilesValid(z, s) && n in s.disk.files && !s.disk.files[n].stable
    ensures var s' := Apply(z, s, step);
      n in s'.disk.files
      && (s'.disk.files[n].stable ==>
            Holding(s.pcs[step.w]) && z.writers[step.w].mode.Durable? && s.pcs[step.w].inode == n)
  {
  }

  lemma UnsyncedOthers(z: Setup, s: State, step: Step, w: nat)
    requires Inv(z, s) && Unsynced(z, s) && Enabled(z, s, step) && Fits(z, Apply(z, s, step))
    requires w < |z.writers| && w != step.w
    ensures UnsyncedWriter(z, Apply(z, s, step), w)
  {
    assert UnsyncedWriter(z, s, w) && WriterValid(z, s, w);
    assert Differ(s.pcs[w], s.pcs[step.w], z.writers[w].process == z.writers[step.w].process);
    if s.pcs[w].Open? && z.writers[w].mode.Cache? {
      StableIsDurable(z, s, step, s.pcs[w].inode);
    }
  }

  lemma UnsyncedSelf(z: Setup, s: State, step: Step)
    requires Inv(z, s) && Unsynced(z, s) && Enabled(z, s, step) && Fits(z, Apply(z, s, step))
    ensures UnsyncedWriter(z, Apply(z, s, step), step.w)
  {
    assert UnsyncedWriter(z, s, step.w);
    if s.pcs[step.w].Open? && z.writers[step.w].mode.Cache? {
      StableIsDurable(z, s, step, s.pcs[step.w].inode);
    }
  }

  lemma UnsyncedLog(z: Setup, s: State, step: Step, p: Path, entry: Entry)
    requires Inv(z, s) && Unsynced(z, s) && Enabled(z, s, step) && Fits(z, Apply(z, s, step))
    requires Logged(s, p, entry)
    ensures UnsyncedEntry(z, Apply(z, s, step), entry)
  {
    assert UnsyncedEntry(z, s, entry) && EntryValid(z, s, p, entry);
    if z.writers[entry.writer].mode.Cache? {
      StableIsDurable(z, s, step, entry.inode);
    }
  }

  /** A new entry is its writer's file, as it was. */
  lemma NewEntry(z: Setup, s: State, step: Step, p: Path, entry: Entry)
    requires Inv(z, s) && Enabled(z, s, step) && Logged(Apply(z, s, step), p, entry) && !Logged(s, p, entry)
    ensures entry == Entry(step.w, s.pcs[step.w].inode) && s.pcs[step.w].Open?
    ensures entry.inode in s.disk.files && Apply(z, s, step).disk.files == s.disk.files
  {
    assert WriterValid(z, s, step.w);
  }

  lemma UnsyncedStep(z: Setup, s: State, step: Step)
    requires Inv(z, s) && Unsynced(z, s) && z.NamesSafe() && Enabled(z, s, step)
    ensures Inv(z, Apply(z, s, step)) && Unsynced(z, Apply(z, s, step))
  {
    var s' := Apply(z, s, step);
    StepKeeps(z, s, step);
    forall w: nat | w < |z.writers| ensures UnsyncedWriter(z, s', w) {
      if w == step.w {
        UnsyncedSelf(z, s, step);
      } else {
        UnsyncedOthers(z, s, step, w);
      }
    }
    forall p, entry | Logged(s', p, entry) ensures UnsyncedEntry(z, s', entry) {
      if Logged(s, p, entry) {
        UnsyncedLog(z, s, step, p, entry);
      } else {
        NewEntry(z, s, step, p, entry);
        assert UnsyncedWriter(z, s, step.w);
      }
    }
  }

  lemma {:induction false} UnsyncedRun(z: Setup, s: State, run: seq<Step>)
    requires Inv(z, s) && Unsynced(z, s) && z.NamesSafe() && Legal(z, s, run)
    ensures Inv(z, After(z, s, run)) && Unsynced(z, After(z, s, run))
    decreases |run|
  {
    if run != [] {
      UnsyncedStep(z, s, run[0]);
      UnsyncedRun(z, Apply(z, s, run[0]), run[1..]);
    }
  }

  lemma UnsyncedFromStart(z: Setup, run: seq<Step>)
    requires z.Valid() && z.NamesSafe() && Legal(z, Init(z), run)
    ensures Inv(z, After(z, Init(z), run)) && Unsynced(z, After(z, Init(z), run))
  {
    InitValid(z);
    assert forall p, entry :: !Logged(Init(z), p, entry);
    UnsyncedRun(z, Init(z), run);
  }

  // --- Which crashes leave a destination whole

  /** After every crash `p` holds a whole version, no older than the oldest that may come back. */
  ghost predicate CrashSafe(z: Setup, s: State, p: Path) {
    forall after :: s.disk.CrashesTo(after) ==> HoldsVersion(z, s, p, after, |s.Log(p)| + 1 - |s.disk.Survivors(p)|)
  }

  /** The disk of a crash that brings entry `n` back at `p`, with these bytes. */
  function Crashed(disk: Disk, p: Path, n: nat, bytes: Bytes): Disk {
    disk.(live := disk.live[p := n], files := disk.files[n := File(bytes, false)])
  }

  lemma AnyBytesCanCome(disk: Disk, p: Path, n: nat, bytes: Bytes)
    requires Some(n) in disk.Survivors(p) && n in disk.files && !disk.files[n].stable
    ensures disk.CrashesTo(Crashed(disk, p, n, bytes)) && Crashed(disk, p, n, bytes).Read(p) == Some(bytes)
  {
    var after := Crashed(disk, p, n, bytes);
    forall q ensures after.Live(q) in disk.Survivors(q) {
      assert q != p ==> after.Live(q) == disk.Live(q);
      assert disk.Survivors(q)[|disk.Survivors(q)| - 1] == disk.Live(q);
    }
  }

  /** Where a cache writer's replacement may come back, a crash can leave any bytes. */
  lemma CacheSurvivorTears(z: Setup, s: State, p: Path, bytes: Bytes) returns (after: Disk)
    requires Inv(z, s) && Unsynced(z, s) && !z.IsTemp(p) && !DurableSurvivors(z, s, p)
    ensures s.disk.CrashesTo(after) && after.Read(p) == Some(bytes)
  {
    var log, kept := s.Log(p), s.disk.Survivors(p);
    var k :| |log| - |kept| <= k < |log| && 0 <= k
             && !(log[k].writer < |z.writers| && z.writers[log[k].writer].mode.Durable?);
    var entry := log[k];
    assert Logged(s, p, entry) && EntryValid(z, s, p, entry) && UnsyncedEntry(z, s, entry);
    assert PathValid(z, s, p);
    var all := History(z.start.Live(p), log);
    assert kept[k + 1 - (|all| - |kept|)] == all[k + 1] == Some(entry.inode);
    AnyBytesCanCome(s.disk, p, entry.inode, bytes);
    after := Crashed(s.disk, p, entry.inode, bytes);
  }

  /** Bytes that are no version of `p`. */
  lemma NoVersionsBytes(z: Setup, s: State, p: Path) returns (bytes: Bytes)
    ensures forall k: nat :: k <= |s.Log(p)| ==> Version(z, s, p, k) != Some(bytes)
  {
    bytes := NobodysBytes(z.writers);
    if z.start.Read(p).Some? && |bytes| <= |z.start.Read(p).value| {
      bytes := z.start.Read(p).value + [0];
    }
  }

  /** After any run no crash tears a destination exactly if every replacement that may come back is a durable
      writer's. */
  lemma CrashSafeExactlyWhenDurable(z: Setup, run: seq<Step>, p: Path)
    requires z.Valid() && z.NamesSafe() && Legal(z, Init(z), run) && !z.IsTemp(p)
    ensures var s := After(z, Init(z), run); CrashSafe(z, s, p) <==> DurableSurvivors(z, s, p)
  {
    var s := After(z, Init(z), run);
    UnsyncedFromStart(z, run);
    if DurableSurvivors(z, s, p) {
      forall after | s.disk.CrashesTo(after)
        ensures HoldsVersion(z, s, p, after, |s.Log(p)| + 1 - |s.disk.Survivors(p)|)
      {
        CrashLeavesAVersion(z, s, p, after);
      }
    } else {
      var bytes := NoVersionsBytes(z, s, p);
      var after := CacheSurvivorTears(z, s, p, bytes);
      assert !HoldsVersion(z, s, p, after, |s.Log(p)| + 1 - |s.disk.Survivors(p)|);
    }
  }

  // --- A cache writer after a durable one

  /** After `run`, writer `w` is at `stage` with a new file that holds its payload, and all else is as in `b`. */
  ghost predicate At(z: Setup, b: State, run: seq<Step>, w: nat, stage: Stage) {
    && Legal(z, Init(z), run) && Fits(z, b) && w < |z.writers|
    && var s, sequence := After(z, Init(z), run), b.counters[z.writers[w].process];
       var temp := z.Temp(w, sequence);
       && temp !in b.disk.live && temp != z.writers[w].dest
       && Fits(z, s) && s.pcs == b.pcs[w := Open(stage, sequence, b.disk.next)] && s.log == b.log
       && s.disk.live == b.disk.live[temp := b.disk.next]
       && b.disk.next in s.disk.files && s.disk.files[b.disk.next].bytes == z.writers[w].payload
       && (forall p :: p != temp ==> s.disk.Stale(p) == b.disk.Stale(p))
  }

  lemma Opens(z: Setup, run: seq<Step>, w: nat) returns (run': seq<Step>)
    requires Legal(z, Init(z), run) && Fits(z, After(z, Init(z), run)) && w < |z.writers|
    requires var b := After(z, Init(z), run);
      b.pcs[w].Start? && z.writers[w].dest.file != "" && z.Temp(w, b.counters[z.writers[w].process]) !in b.disk.live
    ensures Legal(z, Init(z), run')
    ensures var b := After(z, Init(z), run); var process := z.writers[w].process; var sequence := b.counters[process];
      After(z, Init(z), run') == b.(disk := b.disk.CreateNew(z.Temp(w, sequence)),
                                    counters := b.counters[process := sequence + 1],
                                    pcs := b.pcs[w := Open(Writing, sequence, b.disk.next)])
  {
    LegalAppend(z, Init(z), run, Step(w, Draw));
    run' := run + [Step(w, Draw)];
    LegalAppend(z, Init(z), run', Step(w, Create(true)));
    run' := run' + [Step(w, Create(true))];
  }

  lemma Begins(z: Setup, run: seq<Step>, w: nat) returns (run': seq<Step>)
    requires Legal(z, Init(z), run) && Fits(z, After(z, Init(z), run)) && w < |z.writers|
    requires var b := After(z, Init(z), run); var temp := z.Temp(w, b.counters[z.writers[w].process]);
      b.pcs[w].Start? && z.writers[w].dest.file != "" && temp !in b.disk.live && temp != z.writers[w].dest
    ensures At(z, After(z, Init(z), run), run', w, Writing)
  {
    run' := Opens(z, run, w);
    LegalAppend(z, Init(z), run', Step(w, Write(z.writers[w].payload)));
    run' := run' + [Step(w, Write(z.writers[w].payload))];
  }

  lemma MovesTo(z: Setup, b: State, run: seq<Step>, w: nat, stage: Stage, act: Act, next: Stage)
    returns (run': seq<Step>)
    requires At(z, b, run, w, stage)
    requires (stage, act, next) in {
      (Writing, EndWrite(true), Written), (Written, Flush(true), Flushed), (Flushed, Prepare(true), Prepared),
      (Prepared, Sync(true), Sealed) }
    requires act == Sync(true) ==> z.writers[w].mode.Durable?
    ensures At(z, b, run', w, next)
  {
    LegalAppend(z, Init(z), run, Step(w, act));
    run' := run + [Step(w, act)];
  }

  /** Writer `w` succeeded, and its file is the destination's; a durable one's alone can come back. */
  ghost predicate Published(z: Setup, b: State, run: seq<Step>, w: nat) {
    && Legal(z, Init(z), run) && Fits(z, b) && w < |z.writers|
    && var s, dest := After(z, Init(z), run), z.writers[w].dest;
       && Fits(z, s) && s.pcs == b.pcs[w := Succeeded]
       && s.log == b.log[dest := b.Log(dest) + [Entry(w, b.disk.next)]]
       && s.disk.live == b.disk.live[dest := b.disk.next]
       && s.disk.Stale(dest) == if z.writers[w].mode.Durable? then [] else b.disk.Survivors(dest)
  }

  /** As far as the rename. */
  lemma GoesToRename(z: Setup, b: State, run: seq<Step>, w: nat) returns (run': seq<Step>)
    requires At(z, b, run, w, Writing)
    ensures At(z, b, run', w, LastStage(z, w))
  {
    run' := MovesTo(z, b, run, w, Writing, EndWrite(true), Written);
    run' := MovesTo(z, b, run', w, Written, Flush(true), Flushed);
    run' := MovesTo(z, b, run', w, Flushed, Prepare(true), Prepared);
    if z.writers[w].mode.Durable? {
      run' := MovesTo(z, b, run', w, Prepared, Sync(true), Sealed);
    }
  }

  lemma CacheRenames(z: Setup, b: State, run: seq<Step>, w: nat) returns (run': seq<Step>)
    requires At(z, b, run, w, Prepared) && z.writers[w].mode.Cache?
    ensures Published(z, b, run', w)
  {
    var temp := z.Temp(w, b.counters[z.writers[w].process]);
    LegalAppend(z, Init(z), run, Step(w, Replace(true)));
    run' := run + [Step(w, Replace(true))];
    assert b.disk.live[temp := b.disk.next] - {temp} == b.disk.live;
  }

  lemma DurableRenames(z: Setup, b: State, run: seq<Step>, w: nat) returns (run': seq<Step>)
    requires At(z, b, run, w, Sealed) && z.writers[w].mode.Durable?
    ensures Published(z, b, run', w)
  {
    var temp := z.Temp(w, b.counters[z.writers[w].process]);
    LegalAppend(z, Init(z), run, Step(w, Replace(true)));
    run' := run + [Step(w, Replace(true))];
    assert b.disk.live[temp := b.disk.next] - {temp} == b.disk.live;
    LegalAppend(z, Init(z), run', Step(w, SyncParent(true)));
    run' := run' + [Step(w, SyncParent(true))];
  }

  lemma Publishes(z: Setup, run: seq<Step>, w: nat) returns (run': seq<Step>)
    requires Legal(z, Init(z), run) && Fits(z, After(z, Init(z), run)) && w < |z.writers|
    requires var b := After(z, Init(z), run); var temp := z.Temp(w, b.counters[z.writers[w].process]);
      b.pcs[w].Start? && z.writers[w].dest.file != "" && temp !in b.disk.live && temp != z.writers[w].dest
    ensures Published(z, After(z, Init(z), run), run', w)
  {
    var b := After(z, Init(z), run);
    run' := Begins(z, run, w);
    run' := GoesToRename(z, b, run', w);
    if z.writers[w].mode.Durable? {
      run' := DurableRenames(z, b, run', w);
    } else {
      run' := CacheRenames(z, b, run', w);
    }
  }

  lemma BothPublish(z: Setup, v: nat, w: nat) returns (run: seq<Step>)
    requires z.Valid() && z.start == Disk(map[], map[], map[], 0)
    requires v < |z.writers| && w < |z.writers| && z.writers[v].mode.Durable? && z.writers[w].mode.Cache?
    requires z.writers[v].dest == z.writers[w].dest && z.writers[v].dest.file != ""
    ensures Legal(z, Init(z), run) && |After(z, Init(z), run).pcs| == |z.writers|
    ensures var s, dest := After(z, Init(z), run), z.writers[v].dest;
      && s.pcs[v].Succeeded? && s.pcs[w].Succeeded?
      && |s.Log(dest)| == 2 && s.Log(dest)[1].writer == w && |s.disk.Survivors(dest)| == 2
  {
    assert forall sequence: nat :: z.IsTemp(z.Temp(v, sequence)) && z.IsTemp(z.Temp(w, sequence));
    assert !z.IsTemp(z.writers[v].dest);
    assert Legal(z, Init(z), []) && After(z, Init(z), []) == Init(z);
    run := Publishes(z, [], v);
    var first := After(z, Init(z), run);
    assert first.disk.live == map[z.writers[v].dest := 0];
    run := Publishes(z, run, w);
    assert After(z, Init(z), run).Log(z.writers[v].dest)[1] == Entry(w, first.disk.next);
  }

  /** After a durable writer returned `Ok`, a cache writer's `Ok` lets a crash leave any bytes in their place. */
  lemma CacheAfterDurableTears(z: Setup, v: nat, w: nat, bytes: Bytes) returns (run: seq<Step>, after: Disk)
    requires z.Valid() && z.NamesSafe() && z.start == Disk(map[], map[], map[], 0)
    requires v < |z.writers| && w < |z.writers| && z.writers[v].mode.Durable? && z.writers[w].mode.Cache?
    requires z.writers[v].dest == z.writers[w].dest && z.writers[v].dest.file != ""
    ensures Legal(z, Init(z), run) && |After(z, Init(z), run).pcs| == |z.writers|
    ensures After(z, Init(z), run).pcs[v].Succeeded? && After(z, Init(z), run).pcs[w].Succeeded?
    ensures After(z, Init(z), run).disk.CrashesTo(after) && after.Read(z.writers[v].dest) == Some(bytes)
  {
    run := BothPublish(z, v, w);
    var s, dest := After(z, Init(z), run), z.writers[v].dest;
    UnsyncedFromStart(z, run);
    assert s.Log(dest)[1].writer == w && !z.IsTemp(dest);
    after := CacheSurvivorTears(z, s, dest, bytes);
  }
}
