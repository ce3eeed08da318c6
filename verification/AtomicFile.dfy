/** `publish` as the code one writer runs, while the others run theirs: every call it makes is a step of the
    writers' machine, and any number of the others' steps come between two of its own. So what holds over that
    machine's runs holds of it. */
module AtomicFile {
  import opened Wrappers
  import opened TempNames
  import opened Publishing
  import Outcome = PublishingOutcome
  import Calls = PublishingCalls

  datatype Created = Made(inode: nat) | AlreadyExists | Refused

  /** The disk and the processes' name counters, and the calls a writer makes on them. A call fails
      whenever it likes. */
  class FileSystem {
    const z: Setup
    var disk: Disk
    var counters: seq<nat>
    /** Where the writers are in their machine, and how they came there. */
    var s: State
    ghost var run: seq<Step>

    ghost predicate Valid()
      reads this
    {
      && z.Valid() && z.NamesSafe()
      && Legal(z, Init(z), run) && After(z, Init(z), run) == s
      && s.disk == disk && s.counters == counters
    }

    constructor (z: Setup)
      requires z.Valid() && z.NamesSafe()
      ensures Valid() && this.z == z && s == Init(z)
    {
      this.z := z;
      disk, counters := z.start, z.drawn;
      s, run := Init(z), [];
    }

    /** The machine's step for what a call just did to the disk. */
    method Take(step: Step)
      requires z.Valid() && z.NamesSafe() && Legal(z, Init(z), run) && After(z, Init(z), run) == s
      requires Enabled(z, s, step)
      requires Apply(z, s, step).disk == disk && Apply(z, s, step).counters == counters
      modifies this`s, this`run
      ensures Valid() && s == Apply(z, old(s), step) && run == old(run) + [step]
    {
      Outcome.LegalAppend(z, Init(z), run, step);
      run := run + [step];
      s := Apply(z, s, step);
    }

    /** Whatever the other writers do meanwhile. */
    method Others(w: nat)
      requires Valid() && w < |z.writers|
      modifies this
      ensures Valid() && OthersMoved(z, old(s), s, w) && old(run) <= run
    {
      InitValid(z);
      RunKeeps(z, Init(z), run);
      var n: nat :| 0 <= n;
      for i := 0 to n
        invariant Valid() && Inv(z, s) && OthersMoved(z, old(s), s, w) && old(run) <= run
      {
        var step: Step := *;
        if step.w != w && Enabled(z, s, step) {
          ghost var before := s;
          StepKeeps(z, s, step);
          disk, counters := Apply(z, s, step).disk, Apply(z, s, step).counters;
          Take(step);
          OthersStep(z, before, step, w);
        }
      }
    }

    /** The name of a new temporary beside the destination; a path with no file name has none. */
    method TemporaryPath(w: nat) returns (temp: Option<Path>)
      requires Valid() && Enabled(z, s, Step(w, Draw))
      modifies this
      ensures Valid() && run == old(run) + [Step(w, Draw)]
      ensures s == Apply(z, old(s), Step(w, Draw))
      ensures temp == if s.pcs[w].Drawn? then Some(z.Temp(w, s.pcs[w].sequence)) else None
    {
      var writer := z.writers[w];
      if writer.dest.file == "" {
        temp := None;
      } else {
        var sequence := counters[writer.process];
        counters := counters[writer.process := sequence + 1];
        temp := Some(z.name(writer.dest, z.pids[writer.process], sequence));
      }
      Take(Step(w, Draw));
    }

    method CreateNew(w: nat, temp: Path) returns (created: Created)
      requires Valid() && Enabled(z, s, Step(w, Create(true))) && temp == z.Temp(w, s.pcs[w].sequence)
      modifies this
      ensures Valid() && run == old(run) + [Step(w, Create(!created.Refused?))] && counters == old(counters)
      ensures s == Apply(z, old(s), Step(w, Create(!created.Refused?)))
      ensures created.AlreadyExists? <==> temp in old(disk).live
      ensures created.AlreadyExists? ==> disk == old(disk)
      ensures created.Made? ==> s.pcs[w] == Open(Writing, old(s).pcs[w].sequence, created.inode)
    {
      var ok: bool := *;
      if temp in disk.live {
        created := AlreadyExists;
        ok := true;
      } else if ok {
        created := Made(disk.next);
        disk := disk.CreateNew(temp);
      } else {
        created := Refused;
      }
      Take(Step(w, Create(ok)));
    }

    /** The caller's `write`: all of the payload, or some other bytes and an error. */
    method WriteAll(w: nat, inode: nat) returns (ok: bool)
      requires Valid() && Fits(z, s) && w < |z.writers|
      requires s.pcs[w].Open? && s.pcs[w].stage.Writing? && s.pcs[w].inode == inode
      modifies this
      ensures Valid() && Fits(z, s) && old(run) <= run && run != [] && run[|run| - 1] == Step(w, EndWrite(ok))
      ensures s.pcs[w] == old(s).pcs[w].(stage := if ok then Written else Failed(false))
    {
      ok := *;
      var some: Bytes := *;
      var bytes := if ok then z.writers[w].payload else some;
      disk := disk.Write(inode, bytes);
      Take(Step(w, Write(bytes)));
      Others(w);
      Take(Step(w, EndWrite(ok)));
    }

    method Flush(w: nat) returns (ok: bool)
      requires Valid() && Enabled(z, s, Step(w, Act.Flush(true)))
      modifies this
      ensures Valid() && run == old(run) + [Step(w, Act.Flush(ok))]
      ensures s == Apply(z, old(s), Step(w, Act.Flush(ok)))
    {
      ok := *;
      Take(Step(w, Act.Flush(ok)));
    }

    /** Whether an existing destination can be written and its permissions taken over. */
    method PrepareDestination(w: nat) returns (ok: bool)
      requires Valid() && Enabled(z, s, Step(w, Prepare(true)))
      modifies this
      ensures Valid() && run == old(run) + [Step(w, Prepare(ok))]
      ensures s == Apply(z, old(s), Step(w, Prepare(ok)))
    {
      ok := *;
      Take(Step(w, Prepare(ok)));
    }

    method SyncAll(w: nat, inode: nat) returns (ok: bool)
      requires Valid() && Enabled(z, s, Step(w, Sync(true))) && inode == s.pcs[w].inode
      modifies this
      ensures Valid() && run == old(run) + [Step(w, Sync(ok))]
      ensures s == Apply(z, old(s), Step(w, Sync(ok)))
    {
      ok := *;
      if ok {
        disk := disk.Sync(inode);
      }
      Take(Step(w, Sync(ok)));
    }

    method Rename(w: nat, temp: Path) returns (ok: bool)
      requires Valid() && Enabled(z, s, Step(w, Replace(true))) && temp == z.Temp(w, s.pcs[w].sequence)
      modifies this
      ensures Valid() && run == old(run) + [Step(w, Replace(ok))]
      ensures s == Apply(z, old(s), Step(w, Replace(ok)))
      ensures ok ==> temp in old(disk).live
    {
      ok := *;
      ok := ok && temp in disk.live;
      if ok {
        disk := disk.Rename(temp, z.writers[w].dest);
      }
      Take(Step(w, Replace(ok)));
    }

    method SyncParent(w: nat) returns (ok: bool)
      requires Valid() && Enabled(z, s, Step(w, Act.SyncParent(true)))
      modifies this
      ensures Valid() && run == old(run) + [Step(w, Act.SyncParent(ok))]
      ensures s == Apply(z, old(s), Step(w, Act.SyncParent(ok)))
    {
      ok := *;
      if ok {
        disk := disk.SyncDirectory(z.writers[w].dest.dir);
      }
      Take(Step(w, Act.SyncParent(ok)));
    }

    method RemoveFile(w: nat, temp: Path)
      requires Valid() && Enabled(z, s, Step(w, Drop(true))) && temp == z.Temp(w, s.pcs[w].sequence)
      modifies this
      ensures Valid() && (run == old(run) + [Step(w, Drop(true))] || run == old(run) + [Step(w, Drop(false))])
      ensures s == Apply(z, old(s), run[|run| - 1])
    {
      var ok: bool := *;
      if ok && temp in disk.live {
        disk := disk.Unlink(temp);
      }
      Take(Step(w, Drop(ok)));
    }
  }

  // --- What other writers leave alone

  /** The temporaries of writer `w` that draws from `from` on could name, of those on the disk. */
  ghost function Ahead(z: Setup, disk: Disk, w: nat, from: nat): set<Path>
    requires w < |z.writers| && z.writers[w].process < |z.pids|
  {
    set p | p in disk.live && exists n: nat :: n >= from && p == z.Temp(w, n)
  }

  /** The writers that have yet to create a temporary. */
  ghost function Waiting(s: State): set<nat> {
    set v: nat | v < |s.pcs| && (s.pcs[v].Start? || s.pcs[v].Drawn?)
  }

  /** How many names `w` may still find taken: those there are, and those yet to be made. */
  ghost function Obstacles(z: Setup, s: State, w: nat, from: nat): nat
    requires w < |z.writers| && z.writers[w].process < |z.pids|
  {
    |Ahead(z, s.disk, w, from)| + |Waiting(s)|
  }

  /** From `s` to `s'` only writers other than `w` stepped. */
  ghost predicate OthersMoved(z: Setup, s: State, s': State, w: nat) {
    && Fits(z, s) && Fits(z, s') && w < |z.writers|
    && s'.pcs[w] == s.pcs[w]
    && (Holding(s.pcs[w]) ==> s'.disk.files[s.pcs[w].inode] == s.disk.files[s.pcs[w].inode])
    && s.counters[z.writers[w].process] <= s'.counters[z.writers[w].process]
    && forall from: nat :: Obstacles(z, s', w, from) <= Obstacles(z, s, w, from)
  }

  lemma SmallerIsFewer<T>(a: set<T>, b: set<T>)
    requires a <= b
    ensures |a| <= |b| && (a != b ==> |a| < |b|)
  {
    assert b == a + (b - a);
  }

  /** A step makes at most one new name that is a temporary's, its own writer's, which then no longer waits. */
  lemma StepWaits(z: Setup, s: State, step: Step)
    requires z.Valid() && Enabled(z, s, step)
    ensures Waiting(Apply(z, s, step)) <= Waiting(s)
    ensures forall p :: z.IsTemp(p) && p in Apply(z, s, step).disk.live && p !in s.disk.live ==>
      Named(s.pcs[step.w]) && p == z.Temp(step.w, s.pcs[step.w].sequence)
      && step.w in Waiting(s) && step.w !in Waiting(Apply(z, s, step))
  {
    assert !z.IsTemp(z.writers[step.w].dest);
  }

  lemma ObstaclesStep(z: Setup, s: State, step: Step, w: nat, from: nat)
    requires z.Valid() && Enabled(z, s, step) && w < |z.writers|
    ensures Obstacles(z, Apply(z, s, step), w, from) <= Obstacles(z, s, w, from)
  {
    var s' := Apply(z, s, step);
    StepWaits(z, s, step);
    SmallerIsFewer(Waiting(s'), Waiting(s));
    var after, before := Ahead(z, s'.disk, w, from), Ahead(z, s.disk, w, from);
    forall p | p in after ensures z.IsTemp(p) {
      var n: nat :| n >= from && p == z.Temp(w, n);
    }
    if after <= before {
      SmallerIsFewer(after, before);
    } else {
      var p :| p in after && p !in before;
      assert after <= before + {p};
      SmallerIsFewer(after, before + {p});
    }
  }

  lemma FileStands(z: Setup, s: State, step: Step, w: nat)
    requires Inv(z, s) && Enabled(z, s, step) && w < |z.writers| && step.w != w && Holding(s.pcs[w])
    ensures Apply(z, s, step).disk.files[s.pcs[w].inode] == s.disk.files[s.pcs[w].inode]
  {
    assert Differ(s.pcs[w], s.pcs[step.w], z.writers[w].process == z.writers[step.w].process);
  }

  lemma OthersStep(z: Setup, s: State, step: Step, w: nat)
    requires Inv(z, s) && Enabled(z, s, step) && w < |z.writers| && step.w != w
    ensures OthersMoved(z, s, Apply(z, s, step), w)
  {
    Outcome.StepFits(z, s, step);
    if Holding(s.pcs[w]) {
      FileStands(z, s, step, w);
    }
    forall from: nat ensures Obstacles(z, Apply(z, s, step), w, from) <= Obstacles(z, s, w, from) {
      ObstaclesStep(z, s, step, w, from);
    }
  }

  /** A name that is taken is behind the next draw. */
  lemma TakenNameIsBehind(z: Setup, s: State, w: nat, drawn: nat, from: nat)
    requires z.NamesPin() && w < |z.writers| && z.writers[w].process < |z.pids|
    requires z.Temp(w, drawn) in s.disk.live && drawn < from
    ensures Obstacles(z, s, w, from) < Obstacles(z, s, w, drawn)
  {
    assert z.Temp(w, drawn) in Ahead(z, s.disk, w, drawn);
    assert z.Temp(w, drawn) !in Ahead(z, s.disk, w, from);
    SmallerIsFewer(Ahead(z, s.disk, w, from), Ahead(z, s.disk, w, drawn));
  }

  /** A file on its way to a destination: while it names a temporary, dropping it removes that. */
  class Publication {
    const w: nat
    var temporary: Option<Path>

    constructor (w: nat, temp: Path)
      ensures this.w == w && temporary == Some(temp)
    {
      this.w := w;
      temporary := Some(temp);
    }

    ghost predicate Names(fs: FileSystem)
      reads this, fs
    {
      && fs.Valid() && Fits(fs.z, fs.s) && w < |fs.z.writers| && fs.s.pcs[w].Open?
      && temporary == Some(fs.z.Temp(w, fs.s.pcs[w].sequence))
    }

    /** Flush, and take over the destination's permissions. */
    method Prepare(fs: FileSystem) returns (ok: bool)
      requires Names(fs) && fs.s.pcs[w].stage.Written?
      modifies fs
      ensures Names(fs) && fs.s.pcs[w].inode == old(fs.s).pcs[w].inode && old(fs.run) <= fs.run
      ensures fs.s.pcs[w].stage == if ok then Prepared else Failed(false)
      ensures !ok ==> Calls.FailedCall(fs.run, w)
    {
      ok := fs.Flush(w);
      if ok {
        fs.Others(w);
        ok := fs.PrepareDestination(w);
      }
    }

    /** The file made ready, and, where durable, synchronized. */
    method Seal(fs: FileSystem, inode: nat) returns (ok: bool)
      requires Names(fs) && fs.s.pcs[w].stage.Written? && fs.s.pcs[w].inode == inode
      modifies fs
      ensures Names(fs) && fs.s.pcs[w].inode == inode && old(fs.run) <= fs.run
      ensures fs.s.pcs[w].stage ==
              if !ok then Failed(false) else if fs.z.writers[w].mode.Durable? then Sealed else Prepared
      ensures if ok then Calls.SealingCalls(fs.run, w, fs.z.writers[w].mode) && !Calls.FailedCall(fs.run, w)
              else Calls.FailedCall(fs.run, w)
    {
      ok := Prepare(fs);
      if ok && fs.z.writers[w].mode.Durable? {
        fs.Others(w);
        ok := fs.SyncAll(w, inode);
      }
      Calls.ReadyByCalls(fs.z, fs.run, w);
    }

    /** The rename, and the synchronization of the directory it changed. */
    method Replace(fs: FileSystem) returns (ok: bool)
      requires Names(fs) && fs.s.pcs[w].stage == if fs.z.writers[w].mode.Durable? then Sealed else Prepared
      modifies fs
      ensures fs.Valid() && Fits(fs.z, fs.s) && old(fs.run) <= fs.run
      ensures ok ==> fs.s.pcs[w].Succeeded?
      ensures !ok ==> Names(fs) && fs.s.pcs[w].stage.Failed?
    {
      ok := fs.Rename(w, temporary.value);
      if ok && fs.z.writers[w].mode.Durable? {
        fs.Others(w);
        ok := fs.SyncParent(w);
      }
    }

    method Commit(fs: FileSystem, inode: nat) returns (ok: bool)
      requires Names(fs) && fs.s.pcs[w].stage.Written? && fs.s.pcs[w].inode == inode
      modifies this, fs
      ensures fs.Valid() && Fits(fs.z, fs.s) && old(fs.run) <= fs.run
      ensures ok ==> temporary == None && fs.s.pcs[w].Succeeded?
      ensures ok ==> Calls.ReplacedByCalls(fs.run, w, fs.z.writers[w].mode)
      ensures !ok ==> Names(fs) && fs.s.pcs[w].stage.Failed?
    {
      ok := Seal(fs, inode);
      if ok {
        fs.Others(w);
        ok := Replace(fs);
      }
      if ok {
        temporary := None;
        Calls.CallsDecide(fs.z, fs.run, w);
      }
    }

    /** What happens to a publication that goes out of scope. */
    method Drop(fs: FileSystem)
      requires fs.Valid() && Fits(fs.z, fs.s) && w < |fs.z.writers|
      requires temporary.Some? ==> Names(fs) && fs.s.pcs[w].stage.Failed?
      modifies fs
      ensures fs.Valid() && Fits(fs.z, fs.s) && fs.s.log == old(fs.s).log && old(fs.run) <= fs.run
      ensures temporary.None? ==> fs.s == old(fs.s)
      ensures temporary.Some? ==> fs.s.pcs[w].Returned? && fs.s.pcs[w].replaced == old(fs.s).pcs[w].stage.replaced
    {
      if temporary.Some? {
        fs.RemoveFile(w, temporary.value);
      }
    }
  }

  /** One try of `New`: a name is drawn and created, if it is free. */
  method TryNew(fs: FileSystem, w: nat) returns (created: Created, temp: Option<Path>)
    requires fs.Valid() && Fits(fs.z, fs.s) && w < |fs.z.writers| && fs.s.pcs[w].Start?
    modifies fs
    ensures fs.Valid() && Fits(fs.z, fs.s) && old(fs.run) <= fs.run
    ensures created.Refused? ==> fs.s.pcs[w] == Returned(false, None)
    ensures created.Made? ==>
      && fs.s.pcs[w].Open? && fs.s.pcs[w].stage.Writing? && fs.s.pcs[w].inode == created.inode
      && temp == Some(fs.z.Temp(w, fs.s.pcs[w].sequence))
    ensures created.AlreadyExists? ==>
      && fs.s.pcs[w].Start?
      && Obstacles(fs.z, fs.s, w, fs.counters[fs.z.writers[w].process])
         < Obstacles(fs.z, old(fs.s), w, old(fs.counters)[fs.z.writers[w].process])
  {
    ghost var z, drawn := fs.z, fs.counters[fs.z.writers[w].process];
    temp := fs.TemporaryPath(w);
    if temp.None? {
      created := Refused;
    } else {
      ObstaclesStep(z, old(fs.s), Step(w, Draw), w, drawn);
      fs.Others(w);
      ghost var before := fs.s;
      created := fs.CreateNew(w, temp.value);
      if created.AlreadyExists? {
        ObstaclesStep(z, before, Step(w, Create(true)), w, drawn);
        TakenNameIsBehind(z, fs.s, w, drawn, fs.counters[z.writers[w].process]);
      }
    }
  }

  /** The writer's first temporary whose name nobody has, however many are taken meanwhile. */
  method New(fs: FileSystem, w: nat) returns (pending: Option<(Publication, nat)>)
    requires fs.Valid() && Fits(fs.z, fs.s) && w < |fs.z.writers| && fs.s.pcs[w].Start?
    modifies fs
    ensures fs.Valid() && Fits(fs.z, fs.s) && old(fs.run) <= fs.run
    ensures pending.None? ==> fs.s.pcs[w] == Returned(false, None)
    ensures pending.Some? ==>
      && fresh(pending.value.0) && pending.value.0.w == w && pending.value.0.Names(fs)
      && fs.s.pcs[w].stage.Writing? && fs.s.pcs[w].inode == pending.value.1
  {
    while true
      invariant fs.Valid() && Fits(fs.z, fs.s) && fs.s.pcs[w].Start? && old(fs.run) <= fs.run
      decreases Obstacles(fs.z, fs.s, w, fs.counters[fs.z.writers[w].process])
    {
      var created, temp := TryNew(fs, w);
      match created {
        case Made(inode) =>
          var publication := new Publication(w, temp.value);
          return Some((publication, inode));
        case Refused =>
          return None;
        case AlreadyExists =>
      }
    }
  }

  /** What a reader sees at `p` after the steps from `before` to `s`: what it saw, or, where writers replaced
      it since, the whole payload of the last of them. */
  ghost predicate ReadsFollow(z: Setup, before: State, s: State, p: Path) {
    && before.Log(p) <= s.Log(p)
    && if s.Log(p) == before.Log(p) then s.disk.Read(p) == before.disk.Read(p)
       else
         var last := s.Log(p)[|s.Log(p)| - 1].writer;
         last < |z.writers| && z.writers[last].dest == p && s.disk.Read(p) == Some(z.writers[last].payload)
  }

  /** Writer `w` replaced its destination between `before` and `s`. */
  ghost predicate ReplacedSince(z: Setup, before: State, s: State, w: nat)
    requires w < |z.writers|
  {
    var dest := z.writers[w].dest;
    exists k :: |before.Log(dest)| <= k < |s.Log(dest)| && s.Log(dest)[k].writer == w
  }

  /** A file published through a temporary of the writer's own, from any state and whatever the others do
      between its calls: `Ok` means the writer replaced its destination, once; an error means it replaced
      nothing, or that it did, durably, and only its directory's synchronization failed; and what readers see
      of every destination is whole at the end. */
  method Publish(fs: FileSystem, w: nat) returns (ok: bool)
    requires fs.Valid() && Fits(fs.z, fs.s) && w < |fs.z.writers| && fs.s.pcs[w].Start?
    modifies fs
    ensures fs.Valid() && w < |fs.s.pcs| && old(fs.run) <= fs.run
    ensures if ok then fs.s.pcs[w].Succeeded? else fs.s.pcs[w].Returned?
    ensures Outcome.Tells(fs.z, fs.s, w)
    ensures ok || fs.s.pcs[w].replaced <==> ReplacedSince(fs.z, old(fs.s), fs.s, w)
    ensures ok ==>
      Calls.ReplacedByCalls(fs.run, w, fs.z.writers[w].mode) && !Calls.Took(fs.run, w, Act.SyncParent(false))
    ensures Calls.FailedCall(fs.run, w) ==> !ok && !fs.s.pcs[w].replaced
    ensures forall p :: !fs.z.IsTemp(p) ==> ReadsFollow(fs.z, old(fs.s), fs.s, p)
  {
    ghost var run := fs.run;
    var pending := New(fs, w);
    if pending.None? {
      ok := false;
    } else {
      var (publication, inode) := pending.value;
      fs.Others(w);
      ok := fs.WriteAll(w, inode);
      if ok {
        fs.Others(w);
        ok := publication.Commit(fs, inode);
      }
      fs.Others(w);
      publication.Drop(fs);
    }
    Tell(fs, run, w);
  }

  /** What a run tells of a writer that had not begun when it was as short as `run`. */
  lemma Tell(fs: FileSystem, run: seq<Step>, w: nat)
    requires fs.Valid() && run <= fs.run && Legal(fs.z, Init(fs.z), run) && w < |fs.z.writers|
    requires w < |After(fs.z, Init(fs.z), run).pcs| && After(fs.z, Init(fs.z), run).pcs[w].Start?
    ensures Outcome.Tells(fs.z, fs.s, w)
    ensures fs.s.pcs[w].Succeeded? ==>
      Calls.ReplacedByCalls(fs.run, w, fs.z.writers[w].mode) && !Calls.Took(fs.run, w, Act.SyncParent(false))
    ensures Calls.FailedCall(fs.run, w) ==>
      !fs.s.pcs[w].Succeeded? && (fs.s.pcs[w].Returned? ==> !fs.s.pcs[w].replaced)
    ensures Outcome.Wrote(fs.s.Log(fs.z.writers[w].dest), w)
            <==> ReplacedSince(fs.z, After(fs.z, Init(fs.z), run), fs.s, w)
    ensures forall p :: !fs.z.IsTemp(p) ==> ReadsFollow(fs.z, After(fs.z, Init(fs.z), run), fs.s, p)
  {
    Outcome.OutcomeTellsWhatHappened(fs.z, fs.run, w);
    Calls.CallsDecide(fs.z, fs.run, w);
    NewlyReplaced(fs.z, run, fs.run, w);
    forall p | !fs.z.IsTemp(p) ensures ReadsFollow(fs.z, After(fs.z, Init(fs.z), run), fs.s, p) {
      RunsFollow(fs.z, run, fs.run, p);
    }
  }

  lemma {:induction false} LogsGrow(z: Setup, s: State, run: seq<Step>, p: Path)
    requires Legal(z, s, run)
    ensures s.Log(p) <= After(z, s, run).Log(p)
    decreases |run|
  {
    if run != [] {
      LogsGrow(z, Apply(z, s, run[0]), run[1..], p);
    }
  }

  lemma {:induction false} RunSplits(z: Setup, s: State, run: seq<Step>, more: seq<Step>)
    requires Legal(z, s, run + more)
    ensures Legal(z, s, run) && Legal(z, After(z, s, run), more)
    ensures After(z, s, run + more) == After(z, After(z, s, run), more)
    decreases |run|
  {
    if run == [] {
      assert run + more == more;
    } else {
      assert (run + more)[1..] == run[1..] + more;
      RunSplits(z, Apply(z, s, run[0]), run[1..], more);
    }
  }

  lemma NewlyReplaced(z: Setup, run: seq<Step>, longer: seq<Step>, w: nat)
    requires z.Sized() && Legal(z, Init(z), run) && Legal(z, Init(z), longer) && run <= longer && w < |z.writers|
    requires w < |After(z, Init(z), run).pcs| && After(z, Init(z), run).pcs[w].Start?
    ensures Outcome.Wrote(After(z, Init(z), longer).Log(z.writers[w].dest), w) <==>
            ReplacedSince(z, After(z, Init(z), run), After(z, Init(z), longer), w)
  {
    var before, s, dest := After(z, Init(z), run), After(z, Init(z), longer), z.writers[w].dest;
    assert longer == run + longer[|run|..];
    RunSplits(z, Init(z), run, longer[|run|..]);
    LogsGrow(z, before, longer[|run|..], dest);
    Outcome.StartedNothing(z, run, w);
    assert forall k :: 0 <= k < |before.Log(dest)| ==> before.Log(dest)[k] == s.Log(dest)[k];
  }

  lemma RunsFollow(z: Setup, run: seq<Step>, longer: seq<Step>, p: Path)
    requires z.Valid() && z.NamesSafe() && Legal(z, Init(z), run) && Legal(z, Init(z), longer) && run <= longer
    requires !z.IsTemp(p)
    ensures ReadsFollow(z, After(z, Init(z), run), After(z, Init(z), longer), p)
  {
    var before, s := After(z, Init(z), run), After(z, Init(z), longer);
    assert longer == run + longer[|run|..];
    RunSplits(z, Init(z), run, longer[|run|..]);
    LogsGrow(z, before, longer[|run|..], p);
    DestinationIsWhole(z, run, p);
    DestinationIsWhole(z, longer, p);
    Outcome.LogsTell(z, longer, p);
  }
}
