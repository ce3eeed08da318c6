/** What writers do to one another whose processes share an id, as those of two hosts can: exactly when a drop
    can remove another writer's file, and exactly when a reader can see a torn destination. */
module PublishingClashes {
  import opened Wrappers
  import opened TempNames
  import opened Publishing
  import opened PublishingOutcome

  // --- While no two processes share names, nobody touches another's temporary

  /** A holder's temporary is there, and a temporary renamed away left no other of its name. */
  ghost predicate Owned(z: Setup, s: State)
    requires Fits(z, s)
  {
    forall w :: 0 <= w < |z.writers| && s.pcs[w].Open? ==> OwnedAt(z, s, w)
  }

  ghost predicate OwnedAt(z: Setup, s: State, w: nat)
    requires Fits(z, s) && w < |z.writers| && s.pcs[w].Open?
  {
    s.disk.Live(z.Temp(w, s.pcs[w].sequence)) == if Holding(s.pcs[w]) then Some(s.pcs[w].inode) else None
  }

  lemma DistinctIsSafe(z: Setup)
    requires z.Sized() && z.NamesPin() && z.NamesDistinct()
    ensures z.NamesSafe()
  {
  }

  /** Two writers with a name at once have different ones. */
  lemma NamesApart(z: Setup, s: State, v: nat, w: nat)
    requires Inv(z, s) && z.NamesPin() && z.NamesDistinct() && v < |z.writers| && w < |z.writers| && v != w
    requires Named(s.pcs[v]) && Named(s.pcs[w]) && (z.writers[v].mode.Durable? || z.writers[w].mode.Durable?)
    ensures z.Temp(v, s.pcs[v].sequence) != z.Temp(w, s.pcs[w].sequence)
  {
    assert WriterValid(z, s, v) && WriterValid(z, s, w);
    assert Differ(s.pcs[v], s.pcs[w], z.writers[v].process == z.writers[w].process);
    assert z.writers[v].mode.Durable? ==> !z.Share(v, w);
    assert z.writers[w].mode.Durable? ==> !z.Share(w, v);
  }

  /** The names whose entries a step of `w` changes are its own temporary's and, renaming, its destination's. */
  lemma EntriesChanged(z: Setup, s: State, step: Step, p: Path)
    requires Enabled(z, s, step) && Named(s.pcs[step.w]) && p != z.Temp(step.w, s.pcs[step.w].sequence)
    requires !step.act.Replace? || p != z.writers[step.w].dest
    ensures Apply(z, s, step).disk.Live(p) == s.disk.Live(p)
  {
  }

  lemma OwnedOthers(z: Setup, s: State, step: Step, v: nat)
    requires Inv(z, s) && z.NamesPin() && z.NamesDistinct() && Owned(z, s) && Enabled(z, s, step)
    requires Fits(z, Apply(z, s, step)) && v < |z.writers| && v != step.w && s.pcs[v].Open?
    ensures OwnedAt(z, Apply(z, s, step), v)
  {
    var w, s', temp := step.w, Apply(z, s, step), z.Temp(v, s.pcs[v].sequence);
    var pc := s.pcs[w];
    assert OwnedAt(z, s, v) && WriterValid(z, s, v) && WriterValid(z, s, w);
    assert Differ(s.pcs[v], s.pcs[w], z.writers[v].process == z.writers[w].process);
    assert z.IsTemp(temp) && !z.IsTemp(z.writers[w].dest);
    assert pc.Open? ==> OwnedAt(z, s, w);
    if Named(pc) {
      if temp != z.Temp(w, pc.sequence) {
        EntriesChanged(z, s, step, temp);
      } else if !Holding(s.pcs[v]) || (pc.Open? && !Holding(pc)) {
        NamesApart(z, s, v, w);
      }
    }
  }

  lemma OwnedSelf(z: Setup, s: State, step: Step)
    requires Inv(z, s) && Owned(z, s) && Enabled(z, s, step) && Fits(z, Apply(z, s, step))
    requires Apply(z, s, step).pcs[step.w].Open?
    ensures OwnedAt(z, Apply(z, s, step), step.w)
  {
    var w := step.w;
    assert WriterValid(z, s, w);
    assert s.pcs[w].Open? ==> OwnedAt(z, s, w);
    assert s.pcs[w].Open? ==> z.IsTemp(z.Temp(w, s.pcs[w].sequence));
    assert !z.IsTemp(z.writers[w].dest);
  }

  lemma OwnedStep(z: Setup, s: State, step: Step)
    requires Inv(z, s) && z.NamesPin() && z.NamesDistinct() && Owned(z, s) && Enabled(z, s, step)
    ensures Inv(z, Apply(z, s, step)) && Owned(z, Apply(z, s, step))
  {
    var s' := Apply(z, s, step);
    DistinctIsSafe(z);
    StepKeeps(z, s, step);
    forall v: nat | v < |z.writers| && s'.pcs[v].Open? ensures OwnedAt(z, s', v) {
      if v == step.w {
        OwnedSelf(z, s, step);
      } else {
        OwnedOthers(z, s, step, v);
      }
    }
  }

  lemma {:induction false} OwnedRun(z: Setup, s: State, run: seq<Step>)
    requires Inv(z, s) && z.NamesPin() && z.NamesDistinct() && Owned(z, s) && Legal(z, s, run)
    ensures Inv(z, After(z, s, run)) && Owned(z, After(z, s, run))
    decreases |run|
  {
    if run != [] {
      OwnedStep(z, s, run[0]);
      OwnedRun(z, Apply(z, s, run[0]), run[1..]);
    }
  }

  // --- Whose file a drop removes

  /** `step` is a drop that removes a file its writer did not create. */
  ghost predicate RemovesForeign(z: Setup, s: State, step: Step) {
    && Enabled(z, s, step) && step.act == Drop(true)
    && var pc := s.pcs[step.w];
       s.disk.Live(z.Temp(step.w, pc.sequence)).Some? && s.disk.live[z.Temp(step.w, pc.sequence)] != pc.inode
  }

  ghost predicate RunsDropOwn(z: Setup) {
    forall run, step :: Legal(z, Init(z), run) ==> !RemovesForeign(z, After(z, Init(z), run), step)
  }

  /** These writers, under these process ids, never remove one another's files, wherever they start. */
  ghost predicate DropsOwn(z: Setup) {
    forall start, drawn ::
      z.(start := start, drawn := drawn).Valid() ==> RunsDropOwn(z.(start := start, drawn := drawn))
  }

  lemma DistinctNamesDropOwn(z: Setup)
    requires z.Valid() && z.NamesPin() && z.NamesDistinct()
    ensures RunsDropOwn(z)
  {
    InitValid(z);
    forall run, step | Legal(z, Init(z), run) ensures !RemovesForeign(z, After(z, Init(z), run), step) {
      OwnedRun(z, Init(z), run);
      if Enabled(z, After(z, Init(z), run), step) && step.act.Drop? {
        assert OwnedAt(z, After(z, Init(z), run), step.w);
      }
    }
  }

  // --- Runs of writers that share names

  /** Writers to one destination, the first durable, each in a process of its own that shares one id, with
      nothing on the disk and no name drawn yet. */
  ghost predicate Cast(z: Setup, cast: seq<nat>) {
    && z.Valid() && z.start == Disk(map[], map[], map[], 0) && z.drawn == seq(|z.pids|, _ => 0)
    && |cast| >= 2 && (forall i :: 0 <= i < |cast| ==> cast[i] < |z.writers|)
    && z.writers[cast[0]].mode.Durable?
    && forall i, j :: 0 <= i < j < |cast| ==> z.Share(cast[i], cast[j])
  }

  /** Where each of them is, what the one temporary's name holds, and the files there are. */
  datatype Scene = Scene(pcs: seq<Pc>, at: Option<nat>, contents: seq<Bytes>)

  ghost predicate Shows(z: Setup, s: State, cast: seq<nat>, scene: Scene) {
    && Cast(z, cast) && Fits(z, s) && |scene.pcs| == |cast|
    && (forall i :: 0 <= i < |cast| ==> s.pcs[cast[i]] == scene.pcs[i])
    && (forall i :: 0 <= i < |cast| && scene.pcs[i].Start? ==> s.counters[z.writers[cast[i]].process] == 0)
    && s.disk.Live(z.Temp(cast[0], 0)) == scene.at
    && s.disk.next == |scene.contents|
    && forall n: nat :: n < |scene.contents| ==> n in s.disk.files && s.disk.files[n].bytes == scene.contents[n]
  }

  ghost predicate Reaches(z: Setup, run: seq<Step>, cast: seq<nat>, scene: Scene) {
    Legal(z, Init(z), run) && Shows(z, After(z, Init(z), run), cast, scene)
  }

  lemma OneName(z: Setup, cast: seq<nat>, i: nat)
    requires Cast(z, cast) && i < |cast|
    ensures z.Temp(cast[i], 0) == z.Temp(cast[0], 0)
    ensures z.writers[cast[i]].dest == z.writers[cast[0]].dest && z.writers[cast[i]].dest.file != ""
    ensures z.Temp(cast[0], 0) != z.writers[cast[0]].dest
    ensures forall j :: 0 <= j < |cast| && j != i ==>
      cast[j] != cast[i] && z.writers[cast[j]].process != z.writers[cast[i]].process
  {
    assert i > 0 ==> z.Share(cast[0], cast[i]);
    assert z.Share(cast[0], cast[1]);
    assert z.IsTemp(z.Temp(cast[0], 0)) && !z.IsTemp(z.writers[cast[0]].dest);
    forall j | 0 <= j < |cast| && j != i
      ensures cast[j] != cast[i] && z.writers[cast[j]].process != z.writers[cast[i]].process
    {
      assert if i < j then z.Share(cast[i], cast[j]) else z.Share(cast[j], cast[i]);
    }
  }

  lemma Draws(z: Setup, run: seq<Step>, cast: seq<nat>, scene: Scene, i: nat) returns (run': seq<Step>)
    requires Reaches(z, run, cast, scene) && i < |cast| && scene.pcs[i].Start?
    ensures Reaches(z, run', cast, scene.(pcs := scene.pcs[i := Drawn(0)]))
  {
    OneName(z, cast, i);
    LegalAppend(z, Init(z), run, Step(cast[i], Draw));
    run' := run + [Step(cast[i], Draw)];
  }

  /** The scene with a new file under the name, the writer's own. */
  function Created(scene: Scene, i: nat): Scene
    requires i < |scene.pcs|
  {
    var n := |scene.contents|;
    Scene(scene.pcs[i := Open(Writing, 0, n)], Some(n), scene.contents + [[]])
  }

  lemma CreatedShows(z: Setup, s: State, cast: seq<nat>, scene: Scene, i: nat)
    requires Shows(z, s, cast, scene) && i < |cast| && scene.pcs[i] == Drawn(0) && scene.at == None
    ensures Enabled(z, s, Step(cast[i], Create(true)))
    ensures Shows(z, Apply(z, s, Step(cast[i], Create(true))), cast, Created(scene, i))
  {
    OneName(z, cast, i);
  }

  lemma CreatesDrawn(z: Setup, run: seq<Step>, cast: seq<nat>, scene: Scene, i: nat) returns (run': seq<Step>)
    requires Reaches(z, run, cast, scene) && i < |cast| && scene.pcs[i] == Drawn(0) && scene.at == None
    ensures Reaches(z, run', cast, Created(scene, i))
  {
    CreatedShows(z, After(z, Init(z), run), cast, scene, i);
    LegalAppend(z, Init(z), run, Step(cast[i], Create(true)));
    run' := run + [Step(cast[i], Create(true))];
  }

  /** A writer draws the name and creates it. */
  lemma Creates(z: Setup, run: seq<Step>, cast: seq<nat>, scene: Scene, i: nat) returns (run': seq<Step>)
    requires Reaches(z, run, cast, scene) && i < |cast| && scene.pcs[i].Start? && scene.at == None
    ensures Reaches(z, run', cast, Created(scene, i))
  {
    run' := Draws(z, run, cast, scene, i);
    var drawn := scene.(pcs := scene.pcs[i := Drawn(0)]);
    run' := CreatesDrawn(z, run', cast, drawn, i);
    assert Created(drawn, i) == Created(scene, i);
  }

  /** A writer writes to its file. */
  lemma Writes(z: Setup, run: seq<Step>, cast: seq<nat>, scene: Scene, i: nat, bytes: Bytes) returns (run': seq<Step>)
    requires Reaches(z, run, cast, scene) && i < |cast|
    requires scene.pcs[i].Open? && scene.pcs[i].stage.Writing? && scene.pcs[i].inode < |scene.contents|
    ensures Reaches(z, run', cast, scene.(contents := scene.contents[scene.pcs[i].inode := bytes]))
  {
    LegalAppend(z, Init(z), run, Step(cast[i], Write(bytes)));
    run' := run + [Step(cast[i], Write(bytes))];
  }

  /** The scene with writer `i` at `stage`. */
  function MovedTo(scene: Scene, i: nat, stage: Stage): Scene
    requires i < |scene.pcs| && scene.pcs[i].Open?
  {
    scene.(pcs := scene.pcs[i := scene.pcs[i].(stage := stage)])
  }

  /** A writer moves on, the disk's entries and bytes as they are. */
  lemma Advances(z: Setup, run: seq<Step>, cast: seq<nat>, scene: Scene, i: nat, act: Act, stage: Stage)
    returns (run': seq<Step>)
    requires Reaches(z, run, cast, scene) && i < |cast| && scene.pcs[i].Open?
    requires (scene.pcs[i].stage, act, stage) in {
      (Writing, EndWrite(true), Written), (Written, Flush(true), Flushed), (Flushed, Prepare(true), Prepared),
      (Prepared, Sync(true), Sealed), (Replaced, SyncParent(false), Failed(true)) }
    requires act == EndWrite(true) ==>
      scene.pcs[i].inode < |scene.contents| && scene.contents[scene.pcs[i].inode] == z.writers[cast[i]].payload
    requires act == Sync(true) ==> z.writers[cast[i]].mode.Durable?
    ensures Reaches(z, run', cast, MovedTo(scene, i, stage))
  {
    OneName(z, cast, i);
    LegalAppend(z, Init(z), run, Step(cast[i], act));
    run' := run + [Step(cast[i], act)];
  }

  /** Where a writer that wrote its payload renames its temporary. */
  function LastStage(z: Setup, w: nat): Stage
    requires w < |z.writers|
  {
    if z.writers[w].mode.Durable? then Sealed else Prepared
  }

  lemma Prepares(z: Setup, run: seq<Step>, cast: seq<nat>, scene: Scene, i: nat) returns (run': seq<Step>)
    requires Reaches(z, run, cast, scene) && i < |cast| && scene.pcs[i].Open? && scene.pcs[i].stage.Writing?
    requires scene.pcs[i].inode < |scene.contents| && scene.contents[scene.pcs[i].inode] == z.writers[cast[i]].payload
    ensures Reaches(z, run', cast, MovedTo(scene, i, Prepared))
  {
    run' := Advances(z, run, cast, scene, i, EndWrite(true), Written);
    run' := Advances(z, run', cast, MovedTo(scene, i, Written), i, Flush(true), Flushed);
    run' := Advances(z, run', cast, MovedTo(scene, i, Flushed), i, Prepare(true), Prepared);
    assert MovedTo(MovedTo(scene, i, Written), i, Flushed) == MovedTo(scene, i, Flushed);
    assert MovedTo(MovedTo(scene, i, Flushed), i, Prepared) == MovedTo(scene, i, Prepared);
  }

  /** A writer that wrote its payload gets as far as the rename. */
  lemma Seals(z: Setup, run: seq<Step>, cast: seq<nat>, scene: Scene, i: nat) returns (run': seq<Step>)
    requires Reaches(z, run, cast, scene) && i < |cast| && scene.pcs[i].Open? && scene.pcs[i].stage.Writing?
    requires scene.pcs[i].inode < |scene.contents| && scene.contents[scene.pcs[i].inode] == z.writers[cast[i]].payload
    ensures Reaches(z, run', cast, MovedTo(scene, i, LastStage(z, cast[i])))
  {
    run' := Prepares(z, run, cast, scene, i);
    if z.writers[cast[i]].mode.Durable? {
      run' := Advances(z, run', cast, MovedTo(scene, i, Prepared), i, Sync(true), Sealed);
      assert MovedTo(MovedTo(scene, i, Prepared), i, Sealed) == MovedTo(scene, i, Sealed);
    }
  }

  /** A writer renames whatever the name holds. */
  lemma Renames(z: Setup, run: seq<Step>, cast: seq<nat>, scene: Scene, i: nat) returns (run': seq<Step>)
    requires Reaches(z, run, cast, scene) && i < |cast| && scene.pcs[i].Open? && scene.pcs[i].sequence == 0
    requires scene.pcs[i].stage == LastStage(z, cast[i]) && scene.at.Some? && scene.at.value < |scene.contents|
    ensures z.writers[cast[i]].mode.Durable? ==> Reaches(z, run', cast, MovedTo(scene, i, Replaced).(at := None))
    ensures Legal(z, Init(z), run') && cast[i] < |After(z, Init(z), run').pcs|
    ensures z.writers[cast[i]].mode.Cache? ==> After(z, Init(z), run').pcs[cast[i]].Succeeded?
    ensures After(z, Init(z), run').disk.Read(z.writers[cast[0]].dest) == Some(scene.contents[scene.at.value])
  {
    OneName(z, cast, i);
    LegalAppend(z, Init(z), run, Step(cast[i], Replace(true)));
    run' := run + [Step(cast[i], Replace(true))];
  }

  /** The drop of a writer removes whatever the name holds. */
  lemma Drops(z: Setup, run: seq<Step>, cast: seq<nat>, scene: Scene, i: nat) returns (run': seq<Step>)
    requires Reaches(z, run, cast, scene) && i < |cast| && scene.at.Some?
    requires scene.pcs[i].Open? && scene.pcs[i].stage == Failed(true) && scene.pcs[i].sequence == 0
    ensures Reaches(z, run', cast, scene.(pcs := scene.pcs[i := Returned(true, None)], at := None))
  {
    OneName(z, cast, i);
    LegalAppend(z, Init(z), run, Step(cast[i], Drop(true)));
    run' := run + [Step(cast[i], Drop(true))];
  }

  lemma Opening(z: Setup, cast: seq<nat>)
    requires Cast(z, cast)
    ensures Reaches(z, [], cast, Scene(seq(|cast|, _ => Start), None, []))
  {
  }

  function Starts(cast: seq<nat>): seq<Pc> { seq(|cast|, _ => Start) }

  /** The first writer is at `stage` and the others have not begun. */
  function FirstAt(z: Setup, cast: seq<nat>, stage: Stage, at: Option<nat>): Scene
    requires Cast(z, cast)
  {
    Scene(Starts(cast)[0 := Open(stage, 0, 0)], at, [z.writers[cast[0]].payload])
  }

  lemma FirstSeals(z: Setup, cast: seq<nat>) returns (run: seq<Step>)
    requires Cast(z, cast)
    ensures Reaches(z, run, cast, FirstAt(z, cast, Sealed, Some(0)))
  {
    var scene := Scene(Starts(cast), None, []);
    Opening(z, cast);
    run := Creates(z, [], cast, scene, 0);
    run := Writes(z, run, cast, Created(scene, 0), 0, z.writers[cast[0]].payload);
    scene := FirstAt(z, cast, Writing, Some(0));
    assert Created(Scene(Starts(cast), None, []), 0).(contents := scene.contents) == scene;
    run := Seals(z, run, cast, scene, 0);
    assert MovedTo(scene, 0, Sealed) == FirstAt(z, cast, Sealed, Some(0));
  }

  /** The first writer replaces the destination, fails to synchronize the directory, and is about to drop. */
  lemma FirstFails(z: Setup, cast: seq<nat>) returns (run: seq<Step>)
    requires Cast(z, cast)
    ensures Reaches(z, run, cast, FirstAt(z, cast, Failed(true), None))
  {
    run := FirstSeals(z, cast);
    run := Renames(z, run, cast, FirstAt(z, cast, Sealed, Some(0)), 0);
    assert MovedTo(FirstAt(z, cast, Sealed, Some(0)), 0, Replaced).(at := None) == FirstAt(z, cast, Replaced, None);
    run := Advances(z, run, cast, FirstAt(z, cast, Replaced, None), 0, SyncParent(false), Failed(true));
    assert MovedTo(FirstAt(z, cast, Replaced, None), 0, Failed(true)) == FirstAt(z, cast, Failed(true), None);
  }

  /** The second writer takes the name the first one renamed away. */
  lemma SecondCreates(z: Setup, cast: seq<nat>) returns (run: seq<Step>)
    requires Cast(z, cast)
    ensures Reaches(z, run, cast, Created(FirstAt(z, cast, Failed(true), None), 1))
  {
    run := FirstFails(z, cast);
    run := Creates(z, run, cast, FirstAt(z, cast, Failed(true), None), 1);
  }

  lemma CastDropsForeign(z: Setup, cast: seq<nat>)
    requires Cast(z, cast)
    ensures !RunsDropOwn(z)
  {
    var run := SecondCreates(z, cast);
    assert RemovesForeign(z, After(z, Init(z), run), Step(cast[0], Drop(true)));
  }

  // --- A torn destination

  /** A reader sees at `p` neither what was there first nor any writer's payload. */
  ghost predicate Torn(z: Setup, s: State, p: Path) {
    && s.disk.Read(p) != z.start.Read(p)
    && forall w :: 0 <= w < |z.writers| && z.writers[w].dest == p ==> s.disk.Read(p) != Some(z.writers[w].payload)
  }

  /** No run shows a torn destination, wherever the writers start. */
  ghost predicate NeverTears(z: Setup) {
    forall start, drawn, run, p ::
      var z' := z.(start := start, drawn := drawn);
      z'.Valid() && Legal(z', Init(z'), run) && !z'.IsTemp(p) ==> !Torn(z', After(z', Init(z'), run), p)
  }

  /** Bytes that are no writer's payload. */
  lemma {:induction false} NobodysBytes(writers: seq<Writer>) returns (bytes: Bytes)
    ensures forall w :: 0 <= w < |writers| ==> |writers[w].payload| < |bytes|
  {
    bytes := [0];
    if writers != [] {
      var n := |writers| - 1;
      bytes := NobodysBytes(writers[..n]);
      if |bytes| <= |writers[n].payload| {
        bytes := writers[n].payload + [0];
      }
      forall w | 0 <= w < |writers| ensures |writers[w].payload| < |bytes| {
        assert w < n ==> writers[..n][w] == writers[w];
      }
    }
  }

  /** The first writer's drop removes the second's temporary, which is about to be renamed. */
  lemma SecondIsRobbed(z: Setup, cast: seq<nat>) returns (run: seq<Step>, scene: Scene)
    requires Cast(z, cast)
    ensures Reaches(z, run, cast, scene)
    ensures scene.pcs == Starts(cast)[0 := Returned(true, None)][1 := Open(LastStage(z, cast[1]), 0, 1)]
    ensures scene.at == None && |scene.contents| == 2
  {
    run := SecondCreates(z, cast);
    scene := Created(FirstAt(z, cast, Failed(true), None), 1);
    run := Writes(z, run, cast, scene, 1, z.writers[cast[1]].payload);
    scene := scene.(contents := scene.contents[1 := z.writers[cast[1]].payload]);
    run := Seals(z, run, cast, scene, 1);
    scene := MovedTo(scene, 1, LastStage(z, cast[1]));
    run := Drops(z, run, cast, scene, 0);
    scene := scene.(pcs := scene.pcs[0 := Returned(true, None)], at := None);
  }

  /** The third writer takes the name, and the second renames what the third is still writing over the
      destination; without a directory to synchronize it has then succeeded. */
  lemma ThreeTear(z: Setup, cast: seq<nat>, bytes: Bytes) returns (run: seq<Step>)
    requires Cast(z, cast) && |cast| == 3
    ensures Legal(z, Init(z), run) && cast[1] < |After(z, Init(z), run).pcs|
    ensures z.writers[cast[1]].mode.Cache? ==> After(z, Init(z), run).pcs[cast[1]].Succeeded?
    ensures After(z, Init(z), run).disk.Read(z.writers[cast[0]].dest) == Some(bytes)
  {
    var scene;
    run, scene := SecondIsRobbed(z, cast);
    run := Creates(z, run, cast, scene, 2);
    scene := Created(scene, 2);
    run := Writes(z, run, cast, scene, 2, bytes);
    scene := scene.(contents := scene.contents[2 := bytes]);
    run := Renames(z, run, cast, scene, 1);
  }

  // --- Exactly when

  /** The same writers on an empty disk, no name drawn. */
  function Fresh(z: Setup): Setup { z.(start := Disk(map[], map[], map[], 0), drawn := seq(|z.pids|, _ => 0)) }

  lemma FreshIsValid(z: Setup)
    requires z.Valid()
    ensures Fresh(z).Valid()
  {
    var z' := Fresh(z);
    forall p | z'.IsTemp(p) ensures z.IsTemp(p) {
      var u: nat, sequence: nat :| u < |z.writers| && p == z'.Temp(u, sequence);
      assert p == z.Temp(u, sequence);
    }
  }

  /** A drop removes only its own writer's file, in every run from every start, exactly when no two
      processes that share an id publish to one destination, one of them durably. Two hosts that share a
      directory can: process ids are each host's own. */
  lemma DropsOwnExactlyWhenNamesDistinct(z: Setup)
    requires z.Valid() && z.NamesPin()
    ensures DropsOwn(z) <==> z.NamesDistinct()
  {
    if z.NamesDistinct() {
      forall start, drawn | z.(start := start, drawn := drawn).Valid()
        ensures RunsDropOwn(z.(start := start, drawn := drawn))
      {
        DistinctStays(z, start, drawn);
        DistinctNamesDropOwn(z.(start := start, drawn := drawn));
      }
    } else {
      var v: nat, w: nat :| v < |z.writers| && w < |z.writers| && z.writers[v].mode.Durable? && z.Share(v, w);
      FreshIsValid(z);
      assert Fresh(z).Share(v, w);
      CastDropsForeign(Fresh(z), [v, w]);
    }
  }

  lemma DistinctStays(z: Setup, start: Disk, drawn: seq<nat>)
    requires z.Sized() && z.(start := start, drawn := drawn).Sized()
    ensures z.NamesDistinct() ==> z.(start := start, drawn := drawn).NamesDistinct()
    ensures z.NoThreeShare() ==> z.(start := start, drawn := drawn).NoThreeShare()
  {
    var z' := z.(start := start, drawn := drawn);
    assert forall v: nat, w: nat :: v < |z.writers| && w < |z.writers| ==> z'.Share(v, w) == z.Share(v, w);
  }

  /** No reader ever sees a torn destination, in any run from any start, exactly when no three processes that
      share an id publish to one destination, one of them durably. */
  lemma NeverTearsExactlyWhenNoThreeShare(z: Setup)
    requires z.Valid() && z.NamesPin()
    ensures NeverTears(z) <==> z.NoThreeShare()
  {
    if z.NoThreeShare() {
      forall start, drawn, run, p |
        var z' := z.(start := start, drawn := drawn);
        z'.Valid() && Legal(z', Init(z'), run) && !z'.IsTemp(p)
        ensures var z' := z.(start := start, drawn := drawn); !Torn(z', After(z', Init(z'), run), p)
      {
        DistinctStays(z, start, drawn);
        WholeIsNotTorn(z.(start := start, drawn := drawn), run, p);
      }
    } else {
      var u: nat, v: nat, w: nat :| u < |z.writers| && v < |z.writers| && w < |z.writers| && z.writers[u].mode.Durable?
        && z.Share(u, v) && z.Share(u, w) && z.Share(v, w);
      ThreeShareTear(z, u, v, w);
    }
  }

  lemma WholeIsNotTorn(z: Setup, run: seq<Step>, p: Path)
    requires z.Valid() && z.NamesSafe() && Legal(z, Init(z), run) && !z.IsTemp(p)
    ensures !Torn(z, After(z, Init(z), run), p)
  {
    DestinationIsWhole(z, run, p);
    LogsTell(z, run, p);
  }

  lemma ThreeShareTear(z: Setup, u: nat, v: nat, w: nat)
    requires z.Valid() && u < |z.writers| && v < |z.writers| && w < |z.writers| && z.writers[u].mode.Durable?
    requires z.Share(u, v) && z.Share(u, w) && z.Share(v, w)
    ensures !NeverTears(z)
  {
    var z', cast := Fresh(z), [u, v, w];
    FreshIsValid(z);
    assert z'.Share(u, v) && z'.Share(u, w) && z'.Share(v, w);
    assert forall i, j :: 0 <= i < j < |cast| ==> z'.Share(cast[i], cast[j]);
    var bytes := NobodysBytes(z.writers);
    var run := ThreeTear(z', cast, bytes);
    assert Torn(z', After(z', Init(z'), run), z.writers[u].dest);
  }
}
