/** What a publication's outcome tells: who replaced what, and what is left on the disk once every writer
    returned. It tells so whatever names the writers share. */
module PublishingOutcome {
  import opened Wrappers
  import opened TempNames
  import opened Publishing

  // --- The log is faithful to the writers' outcomes

  /** The writer renamed its temporary over its destination. */
  predicate DidReplace(pc: Pc) {
    match pc
    case Open(stage, _, _) => stage.Replaced? || stage == Failed(true)
    case Succeeded => true
    case Returned(replaced, _) => replaced
    case _ => false
  }

  ghost predicate Wrote(log: seq<Entry>, w: nat) {
    exists k :: 0 <= k < |log| && log[k].writer == w
  }

  ghost predicate OnceEach(log: seq<Entry>) {
    forall j, k :: 0 <= j < k < |log| ==> log[j].writer != log[k].writer
  }

  /** Each entry of the log is by a writer to that path that did replace it, once. */
  ghost predicate LogTells(z: Setup, s: State, p: Path)
    requires Fits(z, s)
  {
    && OnceEach(s.Log(p))
    && forall w: nat :: Wrote(s.Log(p), w) ==> w < |z.writers| && z.writers[w].dest == p && DidReplace(s.pcs[w])
  }

  /** A writer that replaced its destination is in the log, and one that did and failed is durable. */
  ghost predicate WriterTells(z: Setup, s: State, w: nat)
    requires Fits(z, s) && w < |z.writers|
  {
    DidReplace(s.pcs[w]) ==> Wrote(s.Log(z.writers[w].dest), w) && (s.pcs[w].Succeeded? || z.writers[w].mode.Durable?)
  }

  ghost predicate Faithful(z: Setup, s: State)
    requires Fits(z, s)
  {
    (forall p :: LogTells(z, s, p)) && (forall w: nat :: w < |z.writers| ==> WriterTells(z, s, w))
  }

  lemma StepFits(z: Setup, s: State, step: Step)
    requires Enabled(z, s, step)
    ensures Fits(z, Apply(z, s, step))
  {
  }

  /** A step that renames nothing changes nobody's answer. */
  lemma QuietTells(z: Setup, s: State, step: Step)
    requires Enabled(z, s, step) && Fits(z, Apply(z, s, step)) && Apply(z, s, step).log == s.log
    requires WriterTells(z, s, step.w)
    ensures var w, s' := step.w, Apply(z, s, step);
      && DidReplace(s'.pcs[w]) == DidReplace(s.pcs[w]) && s'.pcs == s.pcs[w := s'.pcs[w]] && WriterTells(z, s', w)
  {
    assert |Apply(z, s, step).Log(z.writers[step.w].dest)| == |s.Log(z.writers[step.w].dest)|;
  }

  lemma FaithfulStep(z: Setup, s: State, step: Step)
    requires Enabled(z, s, step) && Faithful(z, s)
    ensures Fits(z, Apply(z, s, step)) && Faithful(z, Apply(z, s, step))
  {
    StepFits(z, s, step);
    var s', w := Apply(z, s, step), step.w;
    assert WriterTells(z, s, w);
    if s'.log == s.log {
      QuietTells(z, s, step);
      forall p ensures LogTells(z, s', p) {
        assert LogTells(z, s, p) && s'.Log(p) == s.Log(p);
      }
      forall v: nat | v < |z.writers| ensures WriterTells(z, s', v) {
        assert WriterTells(z, s, v) && s'.Log(z.writers[v].dest) == s.Log(z.writers[v].dest);
      }
    } else {
      ReplaceIsLogged(z, s, step);
    }
  }

  lemma WroteGrows(log: seq<Entry>, entry: Entry, v: nat)
    ensures Wrote(log + [entry], v) <==> Wrote(log, v) || v == entry.writer
  {
    var log' := log + [entry];
    assert log'[|log|] == entry;
    if k :| 0 <= k < |log| && log[k].writer == v {
      assert log'[k].writer == v;
    }
  }

  lemma OnceGrows(log: seq<Entry>, entry: Entry)
    requires OnceEach(log) && !Wrote(log, entry.writer)
    ensures OnceEach(log + [entry])
  {
  }

  lemma ReplaceLogs(z: Setup, s: State, step: Step)
    requires Enabled(z, s, step) && Apply(z, s, step).log != s.log
    ensures var s', w, dest := Apply(z, s, step), step.w, z.writers[step.w].dest;
      && (forall p :: p != dest ==> s'.Log(p) == s.Log(p))
      && |s'.Log(dest)| == |s.Log(dest)| + 1 && s'.Log(dest) == s.Log(dest) + [s'.Log(dest)[|s.Log(dest)|]]
      && s'.Log(dest)[|s.Log(dest)|].writer == w
      && !DidReplace(s.pcs[w]) && DidReplace(s'.pcs[w]) && s'.pcs == s.pcs[w := s'.pcs[w]]
      && (s'.pcs[w].Succeeded? || z.writers[w].mode.Durable?)
  {
  }

  lemma ReplaceIsLogged(z: Setup, s: State, step: Step)
    requires Enabled(z, s, step) && Faithful(z, s) && Fits(z, Apply(z, s, step))
    requires Apply(z, s, step).log != s.log
    ensures Faithful(z, Apply(z, s, step))
  {
    var s', w, dest := Apply(z, s, step), step.w, z.writers[step.w].dest;
    ReplaceLogs(z, s, step);
    var log, entry := s.Log(dest), s'.Log(dest)[|s.Log(dest)|];
    assert LogTells(z, s, dest);
    OnceGrows(log, entry);
    forall v: nat ensures Wrote(s'.Log(dest), v) <==> Wrote(log, v) || v == w {
      WroteGrows(log, entry, v);
    }
    forall p ensures LogTells(z, s', p) {
      assert LogTells(z, s, p);
    }
    forall v: nat | v < |z.writers| ensures WriterTells(z, s', v) {
      assert WriterTells(z, s, v);
    }
  }

  lemma {:induction false} FaithfulRun(z: Setup, s: State, run: seq<Step>)
    requires Fits(z, s) && Faithful(z, s) && Legal(z, s, run)
    ensures Fits(z, After(z, s, run)) && Faithful(z, After(z, s, run))
    decreases |run|
  {
    if run != [] {
      FaithfulStep(z, s, run[0]);
      FaithfulRun(z, Apply(z, s, run[0]), run[1..]);
    }
  }

  /** What `publish` returns is what it did: `Ok` means it replaced its destination, once; an error
      means it never did, or that it did, durably, and only its directory's synchronization failed. */
  ghost predicate Tells(z: Setup, s: State, w: nat) {
    && w < |s.pcs| == |z.writers|
    && (s.pcs[w].Succeeded? ==> Wrote(s.Log(z.writers[w].dest), w))
    && (s.pcs[w].Returned? && !s.pcs[w].replaced ==> forall p :: !Wrote(s.Log(p), w))
    && (s.pcs[w].Returned? && s.pcs[w].replaced ==> z.writers[w].mode.Durable? && Wrote(s.Log(z.writers[w].dest), w))
    && OnceEach(s.Log(z.writers[w].dest))
  }

  lemma FaithfulTells(z: Setup, s: State, w: nat)
    requires Fits(z, s) && Faithful(z, s) && w < |z.writers|
    ensures Tells(z, s, w)
  {
    assert WriterTells(z, s, w) && LogTells(z, s, z.writers[w].dest);
    forall p | Wrote(s.Log(p), w) ensures DidReplace(s.pcs[w]) {
      assert LogTells(z, s, p);
    }
  }

  lemma OutcomeTellsWhatHappened(z: Setup, run: seq<Step>, w: nat)
    requires z.Sized() && Legal(z, Init(z), run) && w < |z.writers|
    ensures Tells(z, After(z, Init(z), run), w)
  {
    InitFaithful(z);
    FaithfulRun(z, Init(z), run);
    FaithfulTells(z, After(z, Init(z), run), w);
  }

  /** A writer that has not begun replaced nothing. */
  lemma StartedNothing(z: Setup, run: seq<Step>, w: nat)
    requires z.Sized() && Legal(z, Init(z), run) && w < |z.writers|
    ensures var s := After(z, Init(z), run);
      w < |s.pcs| && (s.pcs[w].Start? ==> !Wrote(s.Log(z.writers[w].dest), w))
  {
    InitFaithful(z);
    FaithfulRun(z, Init(z), run);
    assert LogTells(z, After(z, Init(z), run), z.writers[w].dest);
  }

  /** The last to replace a path published to it. */
  lemma LogsTell(z: Setup, run: seq<Step>, p: Path)
    requires z.Sized() && Legal(z, Init(z), run)
    ensures var log := After(z, Init(z), run).Log(p);
      log != [] ==> log[|log| - 1].writer < |z.writers| && z.writers[log[|log| - 1].writer].dest == p
  {
    var s := After(z, Init(z), run);
    InitFaithful(z);
    FaithfulRun(z, Init(z), run);
    if s.Log(p) != [] {
      assert LogTells(z, s, p) && Wrote(s.Log(p), s.Log(p)[|s.Log(p)| - 1].writer);
    }
  }

  lemma InitFaithful(z: Setup)
    requires z.Sized()
    ensures Fits(z, Init(z)) && Faithful(z, Init(z))
  {
    assert forall p :: LogTells(z, Init(z), p);
  }

  lemma LogGrowsByReplacing(z: Setup, s: State, step: Step, p: Path)
    requires Enabled(z, s, step) && Apply(z, s, step).Log(p) != s.Log(p)
    ensures step.act == Replace(true) && z.writers[step.w].dest == p
    ensures |Apply(z, s, step).Log(p)| == |s.Log(p)| + 1 && Apply(z, s, step).Log(p)[|s.Log(p)|].writer == step.w
  {
  }

  /** Only a rename that succeeds changes what a reader sees of a destination, and it shows the whole
      payload of the writer that made it. */
  lemma OnlyReplaceShows(z: Setup, s: State, step: Step, p: Path)
    requires Inv(z, s) && z.NamesSafe() && Enabled(z, s, step) && !z.IsTemp(p)
    ensures var s' := Apply(z, s, step);
      s'.disk.Read(p) == s.disk.Read(p)
      || (step.act == Replace(true) && z.writers[step.w].dest == p
          && s'.disk.Read(p) == Some(z.writers[step.w].payload))
  {
    var s' := Apply(z, s, step);
    StepKeeps(z, s, step);
    ReadsLastVersion(z, s, p);
    ReadsLastVersion(z, s', p);
    if s'.Log(p) != s.Log(p) {
      LogGrowsByReplacing(z, s, step, p);
    } else {
      SameLogSameVersion(z, s, s', p);
    }
  }

  lemma SameLogSameVersion(z: Setup, s: State, s': State, p: Path)
    requires s.Log(p) == s'.Log(p)
    ensures Version(z, s, p, |s.Log(p)|) == Version(z, s', p, |s.Log(p)|)
  {
  }

  // --- What is left on the disk

  /** `p` is a temporary writer `w` still holds, or failed to remove. */
  ghost predicate LeftAt(z: Setup, s: State, w: nat, p: Path)
    requires Fits(z, s) && w < |z.writers|
  {
    (Holding(s.pcs[w]) && z.Temp(w, s.pcs[w].sequence) == p) || (s.pcs[w].Returned? && s.pcs[w].left == Some(p))
  }

  ghost predicate StartKept(z: Setup, s: State) {
    forall p :: p in z.start.live ==> p in s.disk.live && (s.Log(p) == [] ==> s.disk.live[p] == z.start.live[p])
  }

  ghost predicate TempsNew(z: Setup, s: State)
    requires Fits(z, s)
  {
    forall w :: 0 <= w < |z.writers| && s.pcs[w].Open? ==> z.Temp(w, s.pcs[w].sequence) !in z.start.live
  }

  ghost predicate Accounted(z: Setup, s: State)
    requires Fits(z, s)
  {
    && (forall p :: s.Log(p) != [] ==> p in s.disk.live)
    && (forall p :: p in s.disk.live && p !in z.start.live && s.Log(p) == [] ==>
          exists w :: 0 <= w < |z.writers| && LeftAt(z, s, w, p))
  }

  ghost predicate Tidy(z: Setup, s: State)
    requires Fits(z, s)
  {
    StartKept(z, s) && TempsNew(z, s) && Accounted(z, s)
  }

  lemma TidyStep(z: Setup, s: State, step: Step)
    requires z.Valid() && Enabled(z, s, step) && Faithful(z, s) && Tidy(z, s)
    ensures Fits(z, Apply(z, s, step)) && Tidy(z, Apply(z, s, step))
  {
    StepFits(z, s, step);
    if Quiet(z, s, step) || step.act.Write? || step.act.Sync? || step.act.SyncParent? {
      TidySameEntries(z, s, step);
    } else if step.act.Create? {
      TidyCreate(z, s, step);
    } else if step.act.Drop? {
      TidyDrop(z, s, step);
    } else {
      TidyReplace(z, s, step);
    }
  }

  /** The steps that leave every entry alone: a holder still holds its temporary, or failed to remove it, or
      found it gone. */
  lemma EntriesStay(z: Setup, s: State, step: Step)
    requires Enabled(z, s, step)
    requires Quiet(z, s, step) || step.act.Write? || step.act.Sync? || step.act.SyncParent?
    ensures var w, s' := step.w, Apply(z, s, step);
      var pc, pc' := s.pcs[w], s'.pcs[w];
      && s'.disk.live == s.disk.live && s'.log == s.log && s'.pcs == s.pcs[w := pc']
      && (pc'.Open? ==> pc.Open? && pc'.sequence == pc.sequence)
      && (Holding(pc) ==> Holding(pc') || z.Temp(w, pc.sequence) !in s.disk.live
                          || (pc'.Returned? && pc'.left == Some(z.Temp(w, pc.sequence))))
      && (Holding(pc) && Holding(pc') ==> pc'.sequence == pc.sequence)
      && !pc.Returned?
  {
  }

  lemma TidySameEntries(z: Setup, s: State, step: Step)
    requires Enabled(z, s, step) && Tidy(z, s)
    requires Quiet(z, s, step) || step.act.Write? || step.act.Sync? || step.act.SyncParent?
    requires Fits(z, Apply(z, s, step))
    ensures Tidy(z, Apply(z, s, step))
  {
    var s' := Apply(z, s, step);
    EntriesStay(z, s, step);
    assert forall p :: s'.Log(p) == s.Log(p);
    forall p | p in s'.disk.live && p !in z.start.live && s'.Log(p) == []
      ensures exists v :: 0 <= v < |z.writers| && LeftAt(z, s', v, p)
    {
      var v :| 0 <= v < |z.writers| && LeftAt(z, s, v, p);
      assert LeftAt(z, s', v, p);
    }
  }

  lemma TidyCreate(z: Setup, s: State, step: Step)
    requires Enabled(z, s, step) && Tidy(z, s) && step.act == Create(true)
    requires z.Temp(step.w, s.pcs[step.w].sequence) !in s.disk.live
    requires Fits(z, Apply(z, s, step))
    ensures Tidy(z, Apply(z, s, step))
  {
    var w, s' := step.w, Apply(z, s, step);
    var temp := z.Temp(w, s.pcs[w].sequence);
    forall p | p in s'.disk.live && p !in z.start.live && s'.Log(p) == []
      ensures exists v :: 0 <= v < |z.writers| && LeftAt(z, s', v, p)
    {
      if p == temp {
        assert LeftAt(z, s', w, p);
      } else {
        var v :| 0 <= v < |z.writers| && LeftAt(z, s, v, p);
        assert LeftAt(z, s', v, p);
      }
    }
  }

  lemma TidyDrop(z: Setup, s: State, step: Step)
    requires z.Valid() && Enabled(z, s, step) && Faithful(z, s) && Tidy(z, s) && step.act == Drop(true)
    requires z.Temp(step.w, s.pcs[step.w].sequence) in s.disk.live
    requires Fits(z, Apply(z, s, step))
    ensures Tidy(z, Apply(z, s, step))
  {
    var w, s' := step.w, Apply(z, s, step);
    var temp := z.Temp(w, s.pcs[w].sequence);
    TempIsNeverLogged(z, s, w, s.pcs[w].sequence);
    forall p | p in s'.disk.live && p !in z.start.live && s'.Log(p) == []
      ensures exists v :: 0 <= v < |z.writers| && LeftAt(z, s', v, p)
    {
      var v :| 0 <= v < |z.writers| && LeftAt(z, s, v, p);
      assert LeftAt(z, s', v, p);
    }
  }

  lemma LoggedIsNoTemp(z: Setup, s: State, p: Path)
    requires z.Valid() && Fits(z, s) && Faithful(z, s)
    ensures s.Log(p) != [] ==> !z.IsTemp(p)
  {
    if s.Log(p) != [] {
      var v := s.Log(p)[0].writer;
      assert LogTells(z, s, p) && Wrote(s.Log(p), v);
      assert z.writers[v].dest == p;
    }
  }

  lemma TempIsNeverLogged(z: Setup, s: State, w: nat, sequence: nat)
    requires z.Valid() && Fits(z, s) && Faithful(z, s) && w < |z.writers|
    ensures s.Log(z.Temp(w, sequence)) == []
  {
    assert z.IsTemp(z.Temp(w, sequence));
    LoggedIsNoTemp(z, s, z.Temp(w, sequence));
  }

  lemma TidyReplace(z: Setup, s: State, step: Step)
    requires z.Valid() && Enabled(z, s, step) && Faithful(z, s) && Tidy(z, s) && step.act == Replace(true)
    requires z.Temp(step.w, s.pcs[step.w].sequence) in s.disk.live && Fits(z, Apply(z, s, step))
    ensures Tidy(z, Apply(z, s, step))
  {
    var w, s' := step.w, Apply(z, s, step);
    var temp, dest := z.Temp(w, s.pcs[w].sequence), z.writers[w].dest;
    assert z.IsTemp(temp);
    TempIsNeverLogged(z, s, w, s.pcs[w].sequence);
    assert forall p :: p != dest ==> s'.Log(p) == s.Log(p);
    forall p | p in s'.disk.live && p !in z.start.live && s'.Log(p) == []
      ensures exists v :: 0 <= v < |z.writers| && LeftAt(z, s', v, p)
    {
      var v :| 0 <= v < |z.writers| && LeftAt(z, s, v, p);
      assert LeftAt(z, s', v, p);
    }
  }

  lemma {:induction false} TidyRun(z: Setup, s: State, run: seq<Step>)
    requires z.Valid() && Fits(z, s) && Faithful(z, s) && Tidy(z, s) && Legal(z, s, run)
    ensures Fits(z, After(z, s, run)) && Tidy(z, After(z, s, run))
    decreases |run|
  {
    if run != [] {
      FaithfulStep(z, s, run[0]);
      TidyStep(z, s, run[0]);
      TidyRun(z, Apply(z, s, run[0]), run[1..]);
    }
  }

  /** Once every writer returned and every removal a drop tried succeeded, the disk holds the entries it
      started with and the destinations replaced, and no temporary; entries not replaced are untouched. */
  lemma NothingIsLeft(z: Setup, run: seq<Step>)
    requires z.Valid() && Legal(z, Init(z), run)
    requires forall w :: 0 <= w < |After(z, Init(z), run).pcs| ==>
      var pc := After(z, Init(z), run).pcs[w];
      pc.Succeeded? || (pc.Returned? && pc.left.None?)
    ensures var s := After(z, Init(z), run);
      && (forall p :: p in s.disk.live <==> p in z.start.live || s.Log(p) != [])
      && (forall p :: p in z.start.live && s.Log(p) == [] ==> s.disk.live[p] == z.start.live[p])
  {
    InitFaithful(z);
    TidyRun(z, Init(z), run);
  }

  lemma {:induction false} LegalAppend(z: Setup, s: State, run: seq<Step>, step: Step)
    requires Legal(z, s, run) && Enabled(z, After(z, s, run), step)
    ensures Legal(z, s, run + [step])
    ensures After(z, s, run + [step]) == Apply(z, After(z, s, run), step)
    decreases |run|
  {
    if run == [] {
      assert run + [step] == [step];
    } else {
      assert (run + [step])[1..] == run[1..] + [step];
      LegalAppend(z, Apply(z, s, run[0]), run[1..], step);
    }
  }

  /** The names the source gives pin what they are made of. */
  lemma TempNamesPin(z: Setup)
    requires forall dest, pid, n :: z.name(dest, pid, n) == TempName(dest, pid, n)
    ensures z.NamesPin()
  {
    forall d, pid, n, d', pid', n' | z.name(d, pid, n) == z.name(d', pid', n')
      ensures d == d' && pid == pid' && n == n'
    {
      SameNameSameDraw(z, d, pid, n, d', pid', n');
    }
  }

  lemma SameNameSameDraw(z: Setup, d: Path, pid: nat, n: nat, d': Path, pid': nat, n': nat)
    requires z.name(d, pid, n) == z.name(d', pid', n')
    requires z.name(d, pid, n) == TempName(d, pid, n) && z.name(d', pid', n') == TempName(d', pid', n')
    ensures d == d' && pid == pid' && n == n'
  {
    TempNameIsInjective(d, pid, n, d', pid', n');
  }
}
