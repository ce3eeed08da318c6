/** What a writer's calls decide: it succeeds only by every call its mode asks for, each of which succeeded, and
    a call that failed is the last that could have changed its destination. */
module PublishingCalls {
  import opened Wrappers
  import opened TempNames
  import opened Publishing
  import opened PublishingOutcome

  ghost predicate Took(run: seq<Step>, w: nat, act: Act) { Step(w, act) in run }

  /** A call before the destination is replaced, or the replacement itself, failed. */
  ghost predicate FailedCall(run: seq<Step>, w: nat) {
    || Took(run, w, EndWrite(false)) || Took(run, w, Flush(false)) || Took(run, w, Prepare(false))
    || Took(run, w, Sync(false)) || Took(run, w, Replace(false))
  }

  /** The calls that make a file ready to replace its destination, all of them successful. */
  ghost predicate SealingCalls(run: seq<Step>, w: nat, mode: Mode) {
    && Took(run, w, EndWrite(true)) && Took(run, w, Flush(true)) && Took(run, w, Prepare(true))
    && (mode.Durable? ==> Took(run, w, Sync(true)))
  }

  /** A writer replaced its destination by its calls. */
  ghost predicate ReplacedByCalls(run: seq<Step>, w: nat, mode: Mode) {
    SealingCalls(run, w, mode) && Took(run, w, Replace(true)) && !FailedCall(run, w)
  }

  /** What calls led a writer to where it is. */
  ghost predicate LedTo(run: seq<Step>, w: nat, writer: Writer, pc: Pc) {
    match pc
    case Start => Untroubled(run, w)
    case Drawn(_) => Untroubled(run, w)
    case Open(stage, _, _) => LedToStage(run, w, writer.mode, stage)
    case Succeeded =>
      && ReplacedByCalls(run, w, writer.mode) && !Took(run, w, SyncParent(false))
      && (writer.mode.Durable? ==> Took(run, w, SyncParent(true)))
    case Returned(true, _) => LedToStage(run, w, writer.mode, Failed(true))
    case Returned(false, _) =>
      && !Took(run, w, SyncParent(false))
      && (writer.dest.file == "" || Took(run, w, Create(false)) || FailedCall(run, w) || Took(run, w, Replace(true)))
  }

  ghost predicate Untroubled(run: seq<Step>, w: nat) { !FailedCall(run, w) && !Took(run, w, SyncParent(false)) }

  ghost predicate LedToStage(run: seq<Step>, w: nat, mode: Mode, stage: Stage) {
    match stage
    case Writing => Untroubled(run, w)
    case Written => Untroubled(run, w) && Took(run, w, EndWrite(true))
    case Flushed => Untroubled(run, w) && Took(run, w, EndWrite(true)) && Took(run, w, Flush(true))
    case Prepared => Untroubled(run, w) && SealingCalls(run, w, Cache)
    case Sealed => Untroubled(run, w) && SealingCalls(run, w, Durable)
    case Replaced => ReplacedByCalls(run, w, mode) && !Took(run, w, SyncParent(false)) && mode.Durable?
    case Failed(true) => ReplacedByCalls(run, w, mode) && Took(run, w, SyncParent(false)) && mode.Durable?
    case Failed(false) =>
      !Took(run, w, SyncParent(false)) && (FailedCall(run, w) || Took(run, w, Replace(true)))
  }

  lemma OneMoreStep(run: seq<Step>, step: Step, w: nat, act: Act)
    ensures Took(run + [step], w, act) <==> Took(run, w, act) || step == Step(w, act)
  {
  }

  /** Another writer's step leads this one nowhere. */
  lemma OthersLeadNowhere(run: seq<Step>, step: Step, w: nat, writer: Writer, pc: Pc)
    requires LedTo(run, w, writer, pc) && step.w != w
    ensures LedTo(run + [step], w, writer, pc)
  {
    forall act ensures Took(run + [step], w, act) <==> Took(run, w, act) {
      OneMoreStep(run, step, w, act);
    }
  }

  /** A writer's own step leads it on: one that names, creates or drops its temporary. */
  lemma NamingLeads(z: Setup, s: State, run: seq<Step>, run': seq<Step>, step: Step)
    requires Enabled(z, s, step) && LedTo(run, step.w, z.writers[step.w], s.pcs[step.w])
    requires step.act.Draw? || step.act.Create? || step.act.Drop?
    requires forall act :: Took(run', step.w, act) <==> Took(run, step.w, act) || act == step.act
    ensures LedTo(run', step.w, z.writers[step.w], Apply(z, s, step).pcs[step.w])
  {
  }

  /** One that fills it, flushes it or readies its destination. */
  lemma FillingLeads(z: Setup, s: State, run: seq<Step>, run': seq<Step>, step: Step)
    requires Enabled(z, s, step) && LedTo(run, step.w, z.writers[step.w], s.pcs[step.w])
    requires step.act.Write? || step.act.EndWrite? || step.act.Flush? || step.act.Prepare?
    requires forall act :: Took(run', step.w, act) <==> Took(run, step.w, act) || act == step.act
    ensures LedTo(run', step.w, z.writers[step.w], Apply(z, s, step).pcs[step.w])
  {
  }

  /** One that makes it durable or renames it. */
  lemma ReplacingLeads(z: Setup, s: State, run: seq<Step>, run': seq<Step>, step: Step)
    requires Enabled(z, s, step) && LedTo(run, step.w, z.writers[step.w], s.pcs[step.w])
    requires step.act.Sync? || step.act.Replace? || step.act.SyncParent?
    requires forall act :: Took(run', step.w, act) <==> Took(run, step.w, act) || act == step.act
    ensures LedTo(run', step.w, z.writers[step.w], Apply(z, s, step).pcs[step.w])
  {
  }

  lemma OwnStepLeads(z: Setup, s: State, run: seq<Step>, step: Step)
    requires Enabled(z, s, step) && LedTo(run, step.w, z.writers[step.w], s.pcs[step.w])
    ensures |Apply(z, s, step).pcs| == |s.pcs|
    ensures LedTo(run + [step], step.w, z.writers[step.w], Apply(z, s, step).pcs[step.w])
  {
    forall act ensures Took(run + [step], step.w, act) <==> Took(run, step.w, act) || act == step.act {
      OneMoreStep(run, step, step.w, act);
    }
    if step.act.Draw? || step.act.Create? || step.act.Drop? {
      NamingLeads(z, s, run, run + [step], step);
    } else if step.act.Sync? || step.act.Replace? || step.act.SyncParent? {
      ReplacingLeads(z, s, run, run + [step], step);
    } else {
      FillingLeads(z, s, run, run + [step], step);
    }
  }

  ghost predicate AllLed(z: Setup, s: State, run: seq<Step>)
    requires Fits(z, s)
  {
    forall w: nat :: w < |z.writers| ==> LedTo(run, w, z.writers[w], s.pcs[w])
  }

  lemma OthersStay(z: Setup, s: State, step: Step, w: nat)
    requires Enabled(z, s, step) && w < |z.writers| && w != step.w
    ensures |Apply(z, s, step).pcs| == |s.pcs| && Apply(z, s, step).pcs[w] == s.pcs[w]
  {
  }

  lemma StepLeads(z: Setup, s: State, run: seq<Step>, step: Step)
    requires Enabled(z, s, step) && AllLed(z, s, run)
    ensures Fits(z, Apply(z, s, step)) && AllLed(z, Apply(z, s, step), run + [step])
  {
    StepFits(z, s, step);
    OwnStepLeads(z, s, run, step);
    forall w: nat | w < |z.writers| && w != step.w
      ensures LedTo(run + [step], w, z.writers[w], Apply(z, s, step).pcs[w])
    {
      OthersStay(z, s, step, w);
      OthersLeadNowhere(run, step, w, z.writers[w], s.pcs[w]);
    }
  }

  lemma {:induction false} RunLeads(z: Setup, s: State, past: seq<Step>, run: seq<Step>)
    requires Fits(z, s) && AllLed(z, s, past) && Legal(z, s, run)
    ensures Fits(z, After(z, s, run)) && AllLed(z, After(z, s, run), past + run)
    decreases |run|
  {
    if run == [] {
      assert past + run == past;
    } else {
      StepLeads(z, s, past, run[0]);
      RunLeads(z, Apply(z, s, run[0]), past + [run[0]], run[1..]);
      assert past + [run[0]] + run[1..] == past + run;
    }
  }

  lemma RunIsLed(z: Setup, run: seq<Step>)
    requires z.Sized() && Legal(z, Init(z), run)
    ensures Fits(z, After(z, Init(z), run)) && AllLed(z, After(z, Init(z), run), run)
  {
    assert AllLed(z, Init(z), []);
    RunLeads(z, Init(z), [], run);
    assert [] + run == run;
  }

  /** A file is ready to replace its destination by its writer's calls, none of which failed. */
  lemma ReadyByCalls(z: Setup, run: seq<Step>, w: nat)
    requires z.Sized() && Legal(z, Init(z), run) && w < |After(z, Init(z), run).pcs| && w < |z.writers|
    ensures var pc := After(z, Init(z), run).pcs[w];
      pc.Open? && pc.stage == (if z.writers[w].mode.Durable? then Sealed else Prepared) ==>
        SealingCalls(run, w, z.writers[w].mode) && !FailedCall(run, w)
  {
    RunIsLed(z, run);
    assert LedTo(run, w, z.writers[w], After(z, Init(z), run).pcs[w]);
  }

  /** Over every run, whatever names the writers share, a writer's calls decide what becomes of it. It succeeds
      only by all the calls its mode asks for; one that failed before its destination was replaced, or replacing
      it, is in no log; one in a log made its file ready first; and one that returned an error had a call that
      failed, a destination with no name, or a temporary that was gone. */
  lemma CallsDecide(z: Setup, run: seq<Step>, w: nat)
    requires z.Sized() && Legal(z, Init(z), run) && w < |z.writers|
    ensures var s, mode := After(z, Init(z), run), z.writers[w].mode;
      && w < |s.pcs|
      && (s.pcs[w].Succeeded? ==>
            && ReplacedByCalls(run, w, mode) && !Took(run, w, SyncParent(false))
            && (mode.Durable? ==> Took(run, w, SyncParent(true))))
      && (FailedCall(run, w) ==> !s.pcs[w].Succeeded? && forall p :: !Wrote(s.Log(p), w))
      && (forall p :: Wrote(s.Log(p), w) ==> ReplacedByCalls(run, w, mode))
      && (s.pcs[w].Returned? ==>
            if s.pcs[w].replaced then Took(run, w, SyncParent(false))
            else z.writers[w].dest.file == "" || Took(run, w, Create(false)) || FailedCall(run, w)
                 || Took(run, w, Replace(true)))
  {
    var s := After(z, Init(z), run);
    RunIsLed(z, run);
    InitFaithful(z);
    FaithfulRun(z, Init(z), run);
    assert LedTo(run, w, z.writers[w], s.pcs[w]);
    forall p | Wrote(s.Log(p), w) ensures DidReplace(s.pcs[w]) {
      assert LogTells(z, s, p);
    }
  }

  /** The draws of names by the writers of a process. */
  ghost function Draws(z: Setup, run: seq<Step>, process: nat): nat {
    if run == [] then 0
    else
      var step := run[0];
      Draws(z, run[1..], process)
      + if step.act.Draw? && step.w < |z.writers| && z.writers[step.w].process == process
           && z.writers[step.w].dest.file != "" then 1 else 0
  }

  /** A process numbers its draws one after the other, and draws for no destination without a name. */
  lemma {:induction false} DrawsAreCounted(z: Setup, s: State, run: seq<Step>, process: nat)
    requires Fits(z, s) && Legal(z, s, run) && process < |s.counters|
    ensures |After(z, s, run).counters| == |s.counters|
    ensures After(z, s, run).counters[process] == s.counters[process] + Draws(z, run, process)
    decreases |run|
  {
    if run != [] {
      StepFits(z, s, run[0]);
      DrawsAreCounted(z, Apply(z, s, run[0]), run[1..], process);
    }
  }
}
