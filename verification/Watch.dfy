/** A watched directory: pulses of its changes wake an event that waits for quiet, and the node that owns the
    watch replaces, retunes or clears it. */
module Watch {
  import opened Wrappers

  // --- The changes of a directory, in time

  ghost predicate Sorted(pulses: seq<nat>) {
    forall i, j :: 0 <= i < j < |pulses| ==> pulses[i] <= pulses[j]
  }

  function Max(a: nat, b: nat): nat { if a < b then b else a }

  /** One fire of the event: armed at a time, it absorbed pulses `from` to `to`, the last at its wake `woke`. */
  datatype Fire = Fire(armed: nat, debounce: nat, from: nat, to: nat, woke: nat, at: nat)

  /** A wake comes when a pulse does or, for pulses that came before the event was armed, at once; it is late by
      at most `lag`. */
  ghost predicate Woken(pulses: seq<nat>, lag: nat, armed: nat, from: nat, to: nat, woke: nat) {
    && from < to <= |pulses| && armed <= woke
    && (forall i :: 0 <= i < to ==> pulses[i] <= woke)
    && (woke == armed || woke <= pulses[to - 1] + lag)
  }

  /** Pulses absorbed by one fire are close together, those from before it was armed aside. */
  ghost predicate Close(pulses: seq<nat>, gap: nat, armed: nat, from: nat, to: nat) {
    to <= |pulses| && forall i :: from < i < to ==> pulses[i] <= Max(armed, pulses[i - 1]) + gap
  }

  /** A fire after a debounce of quiet, or at once without one. */
  ghost predicate Fires(pulses: seq<nat>, lag: nat, f: Fire) {
    && Woken(pulses, lag, f.armed, f.from, f.to, f.woke) && Close(pulses, f.debounce + 2 * lag, f.armed, f.from, f.to)
    && (f.debounce == 0 ==> f.at == f.woke)
    && (f.debounce != 0 ==> f.woke + f.debounce <= f.at <= f.woke + f.debounce + lag)
    && (f.debounce != 0 ==> forall i :: f.to <= i < |pulses| ==> f.at <= pulses[i])
  }

  // --- The signal

  /** A tokio Notify pulsed at the times of `pulses`: it keeps one permit while nobody waits. A waiter is polled
      up to `lag` after what woke it. */
  class Signal {
    const pulses: seq<nat>
    const lag: nat
    var now: nat
    /** The first pulse not yet sent. */
    var next: nat
    var permit: bool
    /** The first pulse no wake has absorbed. */
    ghost var taken: nat

    ghost predicate Valid()
      reads this
    {
      && Sorted(pulses) && taken <= next <= |pulses| && permit == (taken < next)
      && (forall i :: 0 <= i < next ==> pulses[i] <= now)
      && (forall i :: next <= i < |pulses| ==> now <= pulses[i])
    }

    constructor (pulses: seq<nat>, lag: nat)
      requires Sorted(pulses)
      ensures Valid() && this.pulses == pulses && this.lag == lag && now == taken == 0
    {
      this.pulses, this.lag := pulses, lag;
      now, next, permit, taken := 0, 0, false, 0;
    }

    /** Time passes with nobody waiting: each pulse leaves its permit, one at most. A pulse at the very end may
        come before it or after. */
    method Pass(to: nat)
      requires Valid() && now <= to
      modifies this
      ensures Valid() && now == to && taken == old(taken) && next >= old(next)
    {
      while next < |pulses| && pulses[next] <= to
        invariant Valid() && now <= to && taken == old(taken) && next >= old(next)
        decreases |pulses| - next
      {
        var after: bool := *;
        if pulses[next] == to && after {
          break;
        }
        now, permit, next := pulses[next], true, next + 1;
      }
      now := to;
    }

    /** The waiter takes the next pulse, and is polled late. */
    method Wake(poll: nat)
      requires Valid() && !permit && next < |pulses| && pulses[next] <= poll
      modifies this
      ensures Valid() && now == poll && taken == old(next) + 1
    {
      now, next, taken := pulses[next], next + 1, next + 1;
      Pass(poll);
    }

    /** Takes the permit there is. */
    method TakePermit()
      requires Valid() && permit
      modifies this
      ensures Valid() && now == old(now) && next == old(next) && taken == next && !permit
    {
      permit, taken := false, next;
    }

    method Late(time: nat) returns (poll: nat)
      ensures time <= poll <= time + lag
    {
      poll :| time <= poll <= time + lag;
    }

    /** Waits for a pulse, for ever if none comes. */
    method Notified() returns (woken: bool)
      requires Valid()
      modifies this
      ensures Valid() && (woken <==> old(taken) < |pulses|)
      ensures woken ==>
        Woken(pulses, lag, old(now), old(taken), taken, now) && Close(pulses, 0, old(now), old(taken), taken)
      ensures !woken ==> taken == |pulses| && now == old(now)
    {
      if permit {
        TakePermit();
        return true;
      }
      if next == |pulses| {
        return false;
      }
      var poll := Late(pulses[next]);
      Wake(poll);
      woken := true;
    }

    /** Waits for a pulse for no longer than `debounce`. */
    method Timeout(debounce: nat) returns (ok: bool)
      requires Valid()
      modifies this
      ensures Valid()
      ensures ok ==> Woken(pulses, lag, old(now), old(taken), taken, now) && now <= old(now) + debounce + lag
      ensures !ok ==> taken == old(taken) == next && old(now) + debounce <= now <= old(now) + debounce + lag
    {
      if permit {
        TakePermit();
        return true;
      }
      var deadline, tie: bool := now + debounce, *;
      if next < |pulses| && (pulses[next] < deadline || (pulses[next] == deadline && tie)) {
        var poll := Late(pulses[next]);
        Wake(poll);
        return true;
      }
      var poll := Late(deadline);
      if next < |pulses| && (pulses[next] < poll || (pulses[next] == poll && tie)) {
        Wake(poll);
        return true;
      }
      now := poll;
      ok := false;
    }
  }

  /** Pulses absorbed by one more wake are close to those before. */
  lemma CloseOn(pulses: seq<nat>, lag: nat, debounce: nat, armed: nat, from: nat, mid: nat, to: nat, woke: nat,
                now: nat)
    requires Sorted(pulses) && Woken(pulses, lag, armed, from, mid, woke) && Woken(pulses, lag, woke, mid, to, now)
    requires now <= woke + debounce + lag && Close(pulses, debounce + 2 * lag, armed, from, mid)
    ensures Woken(pulses, lag, armed, from, to, now) && Close(pulses, debounce + 2 * lag, armed, from, to)
  {
    assert pulses[mid - 1] <= pulses[to - 1];
    forall i | mid <= i < to ensures pulses[i] <= Max(armed, pulses[i - 1]) + debounce + 2 * lag {
      assert pulses[mid - 1] <= pulses[i - 1];
    }
  }

  /** The event: it wakes at a change, then waits until none comes for `debounce`. */
  method Changed(signal: Signal, debounce: nat) returns (fired: bool, ghost fire: Fire)
    requires signal.Valid()
    modifies signal
    ensures signal.Valid() && (fired <==> old(signal.taken) < |signal.pulses|)
    ensures fired ==> Fires(signal.pulses, signal.lag, fire)
    ensures fired ==> fire.armed == old(signal.now) && fire.debounce == debounce && fire.from == old(signal.taken)
    ensures fired ==> fire.to == signal.taken && fire.at == signal.now
    ensures !fired ==> signal.taken == |signal.pulses|
  {
    ghost var armed, from := signal.now, signal.taken;
    fired := signal.Notified();
    fire := Fire(armed, debounce, from, signal.taken, signal.now, signal.now);
    if !fired {
      return;
    }
    ghost var woke := signal.now;
    while debounce != 0
      invariant signal.Valid() && woke == signal.now
      invariant Woken(signal.pulses, signal.lag, armed, from, signal.taken, woke)
      invariant Close(signal.pulses, debounce + 2 * signal.lag, armed, from, signal.taken)
      invariant debounce == 0 ==> fire == Fire(armed, debounce, from, signal.taken, woke, woke)
      decreases |signal.pulses| - signal.taken
    {
      ghost var mid := signal.taken;
      var ok := signal.Timeout(debounce);
      if !ok {
        fire := Fire(armed, debounce, from, signal.taken, woke, signal.now);
        return;
      }
      CloseOn(signal.pulses, signal.lag, debounce, armed, from, mid, signal.taken, woke, signal.now);
      woke := signal.now;
    }
  }

  // --- Every change of a run

  /** When the event is armed again after its last fire, and with which debounce. */
  datatype Arm = Arm(delay: nat, debounce: nat)

  /** Each fire absorbs what the one before left: pulses `0` to `to`, in order. */
  ghost predicate Consecutive(fires: seq<Fire>, to: nat) {
    if fires == [] then to == 0
    else
      var last := fires[|fires| - 1];
      last.from < last.to == to && Consecutive(fires[..|fires| - 1], last.from)
  }

  /** Each fire answers its arm. */
  ghost predicate Answers(fires: seq<Fire>, arms: seq<Arm>) {
    |fires| <= |arms| && forall k :: 0 <= k < |fires| ==> AnswersAt(fires[k], arms[k], Last(fires[..k]))
  }

  ghost predicate AnswersAt(fire: Fire, arm: Arm, last: nat) {
    fire.debounce == arm.debounce && fire.armed == last + arm.delay
  }

  /** When the last fire came. */
  ghost function Last(fires: seq<Fire>): nat { if fires == [] then 0 else fires[|fires| - 1].at }

  ghost predicate AllFire(pulses: seq<nat>, lag: nat, fires: seq<Fire>) {
    forall k :: 0 <= k < |fires| ==> Fires(pulses, lag, fires[k])
  }

  lemma OneMoreFire(pulses: seq<nat>, lag: nat, arms: seq<Arm>, fires: seq<Fire>, to: nat, fire: Fire)
    requires Answers(fires, arms) && Consecutive(fires, to) && AllFire(pulses, lag, fires)
    requires Fires(pulses, lag, fire) && fire.from == to && |fires| < |arms|
    requires fire.debounce == arms[|fires|].debounce && fire.armed == Last(fires) + arms[|fires|].delay
    ensures Answers(fires + [fire], arms) && Consecutive(fires + [fire], fire.to)
    ensures AllFire(pulses, lag, fires + [fire])
  {
    var more := fires + [fire];
    assert fires[..|fires|] == fires == more[..|fires|];
    forall k | 0 <= k < |more| ensures AnswersAt(more[k], arms[k], Last(more[..k])) {
      assert more[..k] == fires[..k];
      assert k < |fires| ==> more[k] == fires[k] && AnswersAt(fires[k], arms[k], Last(fires[..k]));
    }
  }

  lemma {:induction false} FiresAreFew(fires: seq<Fire>, to: nat)
    requires Consecutive(fires, to)
    ensures |fires| <= to
  {
    if fires != [] {
      FiresAreFew(fires[..|fires| - 1], fires[|fires| - 1].from);
    }
  }

  /** The event armed again and again: what it absorbs is every pulse, in consecutive blocks, until it waits for
      a change that does not come. */
  method Run(pulses: seq<nat>, lag: nat, arms: seq<Arm>) returns (ghost fires: seq<Fire>, ghost to: nat, waits: bool)
    requires Sorted(pulses)
    ensures Answers(fires, arms) && AllFire(pulses, lag, fires)
    ensures Consecutive(fires, to) && (waits ==> to == |pulses|)
    ensures if waits then |fires| < |arms| else |fires| == |arms|
    ensures |arms| > |pulses| ==> waits
  {
    var signal := new Signal(pulses, lag);
    fires, to, waits := [], 0, false;
    for k := 0 to |arms|
      invariant signal.Valid() && signal.pulses == pulses && signal.lag == lag && to == signal.taken
      invariant |fires| == k && signal.now == Last(fires) && Answers(fires, arms) && AllFire(pulses, lag, fires)
      invariant Consecutive(fires, to)
    {
      signal.Pass(signal.now + arms[k].delay);
      var fired;
      ghost var fire;
      fired, fire := Changed(signal, arms[k].debounce);
      if !fired {
        waits := true;
        return;
      }
      OneMoreFire(pulses, lag, arms, fires, to, fire);
      fires, to := fires + [fire], signal.taken;
    }
    FiresAreFew(fires, to);
  }

  /** The fires' blocks follow one another. */
  lemma {:induction false} BlocksInOrder(fires: seq<Fire>, to: nat)
    requires Consecutive(fires, to)
    ensures forall k :: 0 <= k < |fires| ==> fires[k].to <= to
    ensures forall j, k :: 0 <= j < k < |fires| ==> fires[j].to <= fires[k].from
  {
    if fires != [] {
      var n := |fires| - 1;
      var before := fires[..n];
      BlocksInOrder(before, fires[n].from);
      assert forall k :: 0 <= k < n ==> before[k] == fires[k];
    }
  }

  lemma {:induction false} BlocksCover(fires: seq<Fire>, to: nat, i: nat) returns (k: nat)
    requires Consecutive(fires, to) && i < to
    ensures k < |fires| && fires[k].from <= i < fires[k].to
  {
    k := |fires| - 1;
    if i < fires[k].from {
      k := BlocksCover(fires[..k], fires[k].from, i);
    }
  }

  /** No change is lost: each pulse is in one fire, which comes after it, and in one alone. */
  lemma EveryPulseFires(pulses: seq<nat>, lag: nat, fires: seq<Fire>, to: nat, i: nat) returns (k: nat)
    requires Consecutive(fires, to) && i < to && AllFire(pulses, lag, fires)
    ensures k < |fires| && i < |pulses| && pulses[i] <= fires[k].at
    ensures forall j :: 0 <= j < |fires| ==> (fires[j].from <= i < fires[j].to <==> j == k)
  {
    BlocksInOrder(fires, to);
    k := BlocksCover(fires, to, i);
    assert Fires(pulses, lag, fires[k]);
  }

  /** A debounced fire comes after a whole debounce without a change, and, polled without lag, exactly that long
      after its last change or its arming, whichever is later. */
  lemma FireFollowsQuiet(pulses: seq<nat>, lag: nat, f: Fire)
    requires Fires(pulses, lag, f) && f.debounce != 0
    ensures forall i :: 0 <= i < |pulses| ==> pulses[i] + f.debounce <= f.at || f.at <= pulses[i]
    ensures lag == 0 ==> f.at == Max(f.armed, pulses[f.to - 1]) + f.debounce
  {
  }

  /** Changes each less than a debounce after the one before cause one fire. */
  lemma {:induction false} BurstFiresOnce(pulses: seq<nat>, lag: nat, f: Fire, i: nat, j: nat)
    requires Sorted(pulses) && Fires(pulses, lag, f) && f.from <= i < f.to && i <= j < |pulses|
    requires forall k :: i <= k < j ==> pulses[k + 1] < pulses[k] + f.debounce
    ensures f.from <= j < f.to
  {
    if i < j {
      BurstFiresOnce(pulses, lag, f, i, j - 1);
      assert pulses[j - 1 + 1] < pulses[j - 1] + f.debounce;
    }
  }

  /** A change that comes after more than a debounce of quiet, and what a late poll adds, is not in the fire of
      the one before. */
  lemma QuietSplits(pulses: seq<nat>, lag: nat, f: Fire, i: nat)
    requires Fires(pulses, lag, f) && f.from <= i < f.to && i + 1 < |pulses|
    requires pulses[i + 1] > Max(f.armed, pulses[i]) + f.debounce + 2 * lag
    ensures f.to == i + 1
  {
    assert !(f.from < i + 1 < f.to);
  }

  // --- The node that owns the watch

  datatype Mode = Recursive | NonRecursive

  /** What the node holds for its event: the signal is the OS watch's own. */
  datatype Held = Held(path: string, mode: Mode, debounce: int, signal: nat)

  /** What building a watch gives. */
  datatype Built = Built(signal: nat) | Refused | Shutdown

  datatype InvokeError = External | Cancelled

  /** A call of the node, and what building a watch would give it. */
  datatype Call = Call(path: string, recursive: bool, debounce: int, built: Built) {
    function Mode(): Mode { if recursive then Recursive else NonRecursive }

    /** A negative debounce is none. */
    function Debounce(): nat { if debounce < 0 then 0 else debounce }

    predicate SameWatch(held: Option<Held>) { held.Some? && held.value.path == path && held.value.mode == Mode() }
  }

  /** The watch the node holds, and its event waits on. */
  class Node {
    var held: Option<Held>

    constructor ()
      ensures held == None
    {
      held := None;
    }

    /** Builds, retunes or tears down the watch. */
    method Invoke(call: Call) returns (result: Result<string, InvokeError>)
      modifies this
      ensures held == After(old(held), call)
      ensures result.Failure? <==> call.path != "" && !Watches(old(held), call) && !call.built.Built?
      ensures result.Failure? ==> result.error == if call.built.Shutdown? then Cancelled else External
      ensures result.Success? ==> result.value == call.path
    {
      if call.path == "" {
        held := None;
      } else {
        var rebuild := !call.SameWatch(held);
        if !rebuild {
          held := Some(held.value.(debounce := call.Debounce()));
        } else {
          if call.built.Shutdown? {
            return Failure(Cancelled);
          }
          held := None;
          if call.built.Refused? {
            return Failure(External);
          }
          held := Some(Held(call.path, call.Mode(), call.Debounce(), call.built.signal));
        }
      }
      result := Success(call.path);
    }
  }

  /** The watch after a call. */
  function After(held: Option<Held>, call: Call): Option<Held> {
    if call.path == "" then None
    else if call.SameWatch(held) then Some(held.value.(debounce := call.Debounce()))
    else match call.built
      case Shutdown => held
      case Refused => None
      case Built(signal) => Some(Held(call.path, call.Mode(), call.Debounce(), signal))
  }

  function AfterAll(calls: seq<Call>): Option<Held> {
    if calls == [] then None else After(AfterAll(calls[..|calls| - 1]), calls[|calls| - 1])
  }

  /** The last call that was not cut short by a shutdown. */
  ghost predicate Cut(calls: seq<Call>, i: nat)
    requires i < |calls|
  {
    calls[i].path != "" && !Watches(AfterAll(calls[..i]), calls[i]) && calls[i].built.Shutdown?
  }

  /** A watch is over the directory a call asks for, and over its subdirectories exactly if it asks for those. */
  ghost predicate Watches(held: Option<Held>, call: Call) {
    held.Some? && held.value.path == call.path && (held.value.mode == Recursive <==> call.recursive)
  }

  /** A call asked for the watch the node holds, with the debounce it has, or none for a negative one. */
  ghost predicate Asked(call: Call, held: Held) {
    && call.path != "" && Watches(Some(held), call)
    && held.debounce >= 0 && (held.debounce == call.debounce || (call.debounce < 0 && held.debounce == 0))
  }

  /** The watch is never one an earlier call asked for: it is what the last call not cut short asked for, or
      none, where that call cleared the path or could not build it. Its signal, and the permit pending in it,
      is the one built since the directory or the mode last changed. */
  lemma {:induction false} WatchIsTheLastAsked(calls: seq<Call>, i: nat)
    requires i < |calls| && !Cut(calls, i) && forall j :: i < j < |calls| ==> Cut(calls, j)
    ensures AfterAll(calls) == AfterAll(calls[..i + 1])
    ensures AfterAll(calls).Some? ==> Asked(calls[i], AfterAll(calls).value)
    ensures AfterAll(calls).None?
            <==> calls[i].path == "" || (!Watches(AfterAll(calls[..i]), calls[i]) && calls[i].built.Refused?)
    ensures AfterAll(calls).Some? ==>
      if Watches(AfterAll(calls[..i]), calls[i]) then AfterAll(calls).value.signal == AfterAll(calls[..i]).value.signal
      else calls[i].built == Built(AfterAll(calls).value.signal)
    decreases |calls|
  {
    var n := |calls| - 1;
    if i == n {
      assert calls[..i + 1] == calls;
    } else {
      var before := calls[..n];
      forall j | 0 <= j < n ensures before[..j] == calls[..j] {
      }
      assert before[..i + 1] == calls[..i + 1];
      forall j | i < j < n ensures Cut(before, j) {
        assert Cut(calls, j);
      }
      WatchIsTheLastAsked(before, i);
      assert Cut(calls, n);
    }
  }
}
