/** The bounded parallel map: slots claim indices from one counter, stop on a hint that holds the
    lowest failure seen, and their outcomes are merged back into index order.

    Every interleaving of the slots is a schedule, a sequence of atomic steps. A load of the hint may
    return any value it ever held, so a slot may read it as late as it likes. */
module Slots {
  import opened Wrappers

  /** `usize::MAX`, the hint before any failure. */
  const NO_FAILURE: nat := 0xFFFF_FFFF_FFFF_FFFF

  type usize = n: nat | n <= NO_FAILURE

  datatype Indexed<+T> = Indexed(idx: nat, value: T)

  /** What one slot finished with. */
  datatype Outcome<+R, +E> = Outcome(values: seq<Indexed<R>>, failure: Option<Indexed<E>>)

  /** Where a slot's thread is: not spawned, about to claim, holding an index it has not checked
      yet, running its job, or out of the loop, the index it left at kept. */
  datatype Pc = Unspawned | Looping | Claimed(idx: nat) | Running(idx: nat) | Stopped(idx: nat)

  datatype Slot<+R, +E> = Slot(pc: Pc, outcome: Outcome<R, E>)

  /** The map asked for: the index count, the slot count, and the job's outcome at each index. */
  datatype Request<!R, !E> = Request(len: usize, slots: nat, job: nat -> Result<R, E>) {
    /** The slots that get a thread. */
    function Busy(): nat { if slots < len then slots else len }

    ghost predicate Fails(idx: nat) { idx < len && job(idx).Failure? }
  }

  /** `hints` is every value the hint cell has held, oldest first. `owners` records the slot that
      claimed each index, and `begun` the indices whose jobs began, in order. */
  datatype State<+R, +E> = State(
    next: nat, hints: seq<nat>, slots: seq<Slot<R, E>>, owners: seq<nat>, begun: seq<nat>)

  /** `Check(slot, seen)` reads the hint's value number `seen`. */
  datatype Step = Claim(slot: nat) | Check(slot: nat, seen: nat) | Finish(slot: nat)

  function Init<R, E>(q: Request<R, E>): State<R, E> {
    State(0, [NO_FAILURE],
          seq(q.slots, t => Slot(if t < q.Busy() then Looping else Unspawned, Outcome([], None))),
          [], [])
  }

  predicate Enabled<R, E>(s: State<R, E>, step: Step) {
    && step.slot < |s.slots|
    && match step
       case Claim(t) => s.slots[t].pc.Looping?
       case Check(t, seen) => s.slots[t].pc.Claimed? && seen < |s.hints|
       case Finish(t) => s.slots[t].pc.Running?
  }

  function Min(a: nat, b: nat): nat { if a < b then a else b }

  function Apply<R, E>(q: Request<R, E>, s: State<R, E>, step: Step): State<R, E>
    requires Enabled(s, step) && s.hints != []
  {
    var t := step.slot;
    var slot := s.slots[t];
    match step
    case Claim(_) =>
      s.(next := s.next + 1, owners := s.owners + [t], slots := s.slots[t := slot.(pc := Claimed(s.next))])
    case Check(_, seen) =>
      var idx := slot.pc.idx;
      if idx >= q.len || idx > s.hints[seen] then
        s.(slots := s.slots[t := slot.(pc := Stopped(idx))])
      else
        s.(slots := s.slots[t := slot.(pc := Running(idx))], begun := s.begun + [idx])
    case Finish(_) =>
      var idx := slot.pc.idx;
      match q.job(idx)
      case Success(value) =>
        var outcome := slot.outcome.(values := slot.outcome.values + [Indexed(idx, value)]);
        s.(slots := s.slots[t := Slot(Looping, outcome)])
      case Failure(error) =>
        var outcome := slot.outcome.(failure := Some(Indexed(idx, error)));
        s.(hints := s.hints + [Min(s.hints[|s.hints| - 1], idx)],
           slots := s.slots[t := Slot(Stopped(idx), outcome)])
  }

  /** `schedule` from `s` takes only steps its slots can take. */
  ghost predicate Legal<R, E>(q: Request<R, E>, s: State<R, E>, schedule: seq<Step>)
    decreases |schedule|
  {
    schedule == [] || (s.hints != [] && Enabled(s, schedule[0]) && Legal(q, Apply(q, s, schedule[0]), schedule[1..]))
  }

  ghost function After<R, E>(q: Request<R, E>, s: State<R, E>, schedule: seq<Step>): State<R, E>
    requires Legal(q, s, schedule)
    decreases |schedule|
  {
    if schedule == [] then s else After(q, Apply(q, s, schedule[0]), schedule[1..])
  }

  /** Every thread left its loop, as the scope's join waits for. */
  predicate Joined<R, E>(s: State<R, E>) {
    forall t :: 0 <= t < |s.slots| ==> s.slots[t].pc.Unspawned? || s.slots[t].pc.Stopped?
  }

  // --- What the map should give

  /** The sequential map: jobs in index order, the first failure returned. */
  function Sequential<R, E>(q: Request<R, E>, from: nat): Result<seq<R>, E>
    requires from <= q.len
    decreases q.len - from
  {
    if from == q.len then Success([])
    else
      match q.job(from)
      case Failure(error) => Failure(error)
      case Success(value) =>
        match Sequential(q, from + 1)
        case Failure(error) => Failure(error)
        case Success(rest) => Success([value] + rest)
  }

  lemma {:induction false} SequentialFails<R, E>(q: Request<R, E>, from: nat, first: nat)
    requires from <= first < q.len && q.Fails(first)
    requires forall i :: from <= i < first ==> !q.Fails(i)
    ensures Sequential(q, from) == Failure(q.job(first).error)
    decreases first - from
  {
    if from < first {
      assert !q.Fails(from);
      SequentialFails(q, from + 1, first);
    }
  }

  lemma {:induction false} SequentialSucceeds<R, E>(q: Request<R, E>, from: nat, all: seq<R>)
    requires from <= q.len && |all| == q.len - from
    requires forall i :: from <= i < q.len ==> q.job(i) == Success(all[i - from])
    ensures Sequential(q, from) == Success(all)
    decreases q.len - from
  {
    if from < q.len {
      forall i | from + 1 <= i < q.len ensures q.job(i) == Success(all[1..][i - (from + 1)]) {
        assert q.job(i) == Success(all[i - from]);
      }
      SequentialSucceeds(q, from + 1, all[1..]);
      assert all == [all[0]] + all[1..];
    }
  }

  // --- What every step keeps

  ghost function Indices<T>(entries: seq<Indexed<T>>): set<nat> {
    set entry | entry in entries :: entry.idx
  }

  lemma IndicesAppend<T>(entries: seq<Indexed<T>>, entry: Indexed<T>)
    ensures Indices(entries + [entry]) == Indices(entries) + {entry.idx}
  {
    var all := entries + [entry];
    assert all[|entries|] == entry;
    assert forall e :: e in entries ==> e in all;
  }

  /** The indices whose jobs `slot` began. */
  ghost function Jobs<R, E>(slot: Slot<R, E>): set<nat> {
    Indices(slot.outcome.values)
    + (if slot.pc.Running? then {slot.pc.idx} else {})
    + (if slot.outcome.failure.Some? then {slot.outcome.failure.value.idx} else {})
  }

  /** The indices `slot` answers for: those it began, and the one it has still to check. */
  ghost function Held<R, E>(slot: Slot<R, E>): set<nat> {
    Jobs(slot) + if slot.pc.Claimed? then {slot.pc.idx} else {}
  }

  /** An index no job has to run for: past the end, or past a failure. */
  ghost predicate Droppable<R, E>(q: Request<R, E>, idx: nat) {
    idx >= q.len || exists f :: 0 <= f < idx && q.Fails(f)
  }

  /** A slot's values are its jobs' own, in the order it claimed them. */
  ghost predicate ValuesValid<R, E>(q: Request<R, E>, values: seq<Indexed<R>>) {
    && (forall k :: 0 <= k < |values| ==> values[k].idx < q.len && q.job(values[k].idx) == Success(values[k].value))
    && (forall j, k :: 0 <= j < k < |values| ==> values[j].idx < values[k].idx)
  }

  ghost predicate PcValid<R, E>(q: Request<R, E>, slot: Slot<R, E>) {
    match slot.pc
    case Unspawned => slot.outcome == Outcome([], None)
    case Looping => slot.outcome.failure.None?
    case Claimed(idx) => slot.outcome.failure.None? && forall i :: i in Indices(slot.outcome.values) ==> i < idx
    case Running(idx) =>
      slot.outcome.failure.None? && idx < q.len && forall i :: i in Indices(slot.outcome.values) ==> i < idx
    case Stopped(idx) =>
      if slot.outcome.failure.None? then Droppable(q, idx)
      else
        && slot.outcome.failure.value.idx == idx < q.len
        && q.job(idx) == Failure(slot.outcome.failure.value.value)
  }

  /** Everything slot number `t` promises, the owners of the claimed indices given. */
  ghost predicate SlotValid<R, E>(q: Request<R, E>, slot: Slot<R, E>, t: nat, owners: seq<nat>) {
    && (slot.pc.Unspawned? <==> t >= q.Busy())
    && ValuesValid(q, slot.outcome.values)
    && PcValid(q, slot)
    && (forall i :: i in Held(slot) ==> i < |owners| && owners[i] == t)
    && (slot.pc.Stopped? ==> slot.pc.idx < |owners|)
  }

  /** Index `i`, owned by `slot`: held there, unless it was dropped with reason. */
  ghost predicate IndexValid<R, E>(q: Request<R, E>, slot: Slot<R, E>, i: nat) {
    && (i in Held(slot) || Droppable(q, i))
    && (i >= q.len ==> slot.pc == Claimed(i) || slot.pc == Stopped(i))
  }

  /** The hint only ever names failures. */
  ghost predicate HintsValid<R, E>(q: Request<R, E>, hints: seq<nat>) {
    hints != [] && forall k :: 0 <= k < |hints| ==> hints[k] == NO_FAILURE || q.Fails(hints[k])
  }

  ghost predicate SlotsValid<R, E>(q: Request<R, E>, s: State<R, E>) {
    |s.slots| == q.slots && forall t :: 0 <= t < q.slots ==> SlotValid(q, s.slots[t], t, s.owners)
  }

  ghost predicate IndicesValid<R, E>(q: Request<R, E>, s: State<R, E>) {
    && |s.owners| == s.next
    && forall i :: 0 <= i < s.next ==>
         s.owners[i] < Min(q.Busy(), |s.slots|) && IndexValid(q, s.slots[s.owners[i]], i)
  }

  /** No job began twice, and each job begun is its index's owner's. */
  ghost predicate BegunValid<R, E>(s: State<R, E>) {
    && (forall j, k :: 0 <= j < k < |s.begun| ==> s.begun[j] != s.begun[k])
    && (forall i :: i in s.begun ==>
          i < |s.owners| && s.owners[i] < |s.slots| && i in Jobs(s.slots[s.owners[i]]))
    && (forall t, i: nat :: 0 <= t < |s.slots| && i in Jobs(s.slots[t]) ==> i in s.begun)
  }

  /** The hint only falls, and holds the lowest failure recorded so far. */
  ghost predicate HintLowest<R, E>(s: State<R, E>) {
    && s.hints != []
    && (forall j, k :: 0 <= j < k < |s.hints| ==> s.hints[j] >= s.hints[k])
    && (forall t :: 0 <= t < |s.slots| && s.slots[t].outcome.failure.Some? ==>
          s.hints[|s.hints| - 1] <= s.slots[t].outcome.failure.value.idx)
    && (s.hints[|s.hints| - 1] == NO_FAILURE
        || exists t :: 0 <= t < |s.slots| && FailedAt(s.slots[t], s.hints[|s.hints| - 1]))
  }

  ghost predicate FailedAt<R, E>(slot: Slot<R, E>, idx: nat) {
    slot.outcome.failure.Some? && slot.outcome.failure.value.idx == idx
  }

  ghost predicate ClaimsValid<R, E>(q: Request<R, E>, s: State<R, E>) {
    HintsValid(q, s.hints) && SlotsValid(q, s) && IndicesValid(q, s) && BegunValid(s)
  }

  ghost predicate Inv<R, E>(q: Request<R, E>, s: State<R, E>) {
    ClaimsValid(q, s) && HintLowest(s)
  }

  lemma InitValid<R, E>(q: Request<R, E>)
    ensures Inv(q, Init(q))
  {
  }

  /** A step keeps every failure recorded, and adds one with its hint. */
  lemma HintStaysLowest<R, E>(q: Request<R, E>, s: State<R, E>, step: Step)
    requires Inv(q, s) && Enabled(s, step)
    ensures HintLowest(Apply(q, s, step))
  {
    var s' := Apply(q, s, step);
    var t := step.slot;
    assert SlotValid(q, s.slots[t], t, s.owners);
    var last := s'.hints[|s'.hints| - 1];
    if s'.hints == s.hints {
      if u :| 0 <= u < |s.slots| && FailedAt(s.slots[u], last) {
        assert FailedAt(s'.slots[u], last);
      }
    } else if last == s.slots[t].pc.idx {
      assert FailedAt(s'.slots[t], last);
    } else if u :| 0 <= u < |s.slots| && FailedAt(s.slots[u], last) {
      assert FailedAt(s'.slots[u], last);
    }
  }

  lemma ClaimKeeps<R, E>(q: Request<R, E>, s: State<R, E>, t: nat)
    requires ClaimsValid(q, s) && Enabled(s, Claim(t))
    ensures ClaimsValid(q, Apply(q, s, Claim(t)))
  {
    var s' := Apply(q, s, Claim(t));
    assert Jobs(s'.slots[t]) == Jobs(s.slots[t]) == Held(s.slots[t]);
    assert Held(s'.slots[t]) == Jobs(s.slots[t]) + {s.next};
    assert SlotValid(q, s.slots[t], t, s.owners);
    assert SlotValid(q, s'.slots[t], t, s'.owners);
    forall i | 0 <= i < s.next ensures IndexValid(q, s'.slots[s.owners[i]], i) {
      assert IndexValid(q, s.slots[s.owners[i]], i);
    }
  }

  lemma CheckKeeps<R, E>(q: Request<R, E>, s: State<R, E>, t: nat, seen: nat)
    requires ClaimsValid(q, s) && Enabled(s, Check(t, seen))
    ensures ClaimsValid(q, Apply(q, s, Check(t, seen)))
  {
    var s' := Apply(q, s, Check(t, seen));
    var idx := s.slots[t].pc.idx;
    assert SlotValid(q, s.slots[t], t, s.owners);
    assert idx in Held(s.slots[t]) && idx !in Jobs(s.slots[t]);
    if s'.slots[t].pc.Stopped? {
      assert idx < q.len ==> q.Fails(s.hints[seen]);
      assert Held(s'.slots[t]) == Jobs(s'.slots[t]) == Jobs(s.slots[t]);
    } else {
      assert Held(s'.slots[t]) == Jobs(s'.slots[t]) == Jobs(s.slots[t]) + {idx};
    }
    assert SlotValid(q, s'.slots[t], t, s'.owners);
    forall i | 0 <= i < s.next ensures IndexValid(q, s'.slots[s.owners[i]], i) {
      assert IndexValid(q, s.slots[s.owners[i]], i);
    }
  }

  lemma FinishKeeps<R, E>(q: Request<R, E>, s: State<R, E>, t: nat)
    requires ClaimsValid(q, s) && Enabled(s, Finish(t))
    ensures ClaimsValid(q, Apply(q, s, Finish(t)))
  {
    var s' := Apply(q, s, Finish(t));
    var idx := s.slots[t].pc.idx;
    var values := s.slots[t].outcome.values;
    assert SlotValid(q, s.slots[t], t, s.owners);
    assert idx in Held(s.slots[t]);
    if q.job(idx).Success? {
      IndicesAppend(values, Indexed(idx, q.job(idx).value));
      FinishedValues(q, s.slots[t], t, s.owners);
    }
    assert Held(s'.slots[t]) == Jobs(s'.slots[t]) == Jobs(s.slots[t]);
    assert SlotValid(q, s'.slots[t], t, s'.owners);
    forall i | 0 <= i < s.next ensures IndexValid(q, s'.slots[s.owners[i]], i) {
      assert IndexValid(q, s.slots[s.owners[i]], i);
    }
  }

  /** The value a job gives goes after the ones its slot has. */
  lemma FinishedValues<R, E>(q: Request<R, E>, slot: Slot<R, E>, t: nat, owners: seq<nat>)
    requires SlotValid(q, slot, t, owners) && slot.pc.Running? && q.job(slot.pc.idx).Success?
    ensures ValuesValid(q, slot.outcome.values + [Indexed(slot.pc.idx, q.job(slot.pc.idx).value)])
  {
    var values := slot.outcome.values;
    assert forall k :: 0 <= k < |values| ==> values[k] in values && values[k].idx in Indices(values);
  }

  lemma StepKeeps<R, E>(q: Request<R, E>, s: State<R, E>, step: Step)
    requires Inv(q, s) && Enabled(s, step)
    ensures Inv(q, Apply(q, s, step))
  {
    HintStaysLowest(q, s, step);
    match step
    case Claim(t) => ClaimKeeps(q, s, t);
    case Check(t, seen) => CheckKeeps(q, s, t, seen);
    case Finish(t) => FinishKeeps(q, s, t);
  }

  lemma {:induction false} RunKeeps<R, E>(q: Request<R, E>, s: State<R, E>, schedule: seq<Step>)
    requires Inv(q, s) && Legal(q, s, schedule)
    ensures Inv(q, After(q, s, schedule))
    decreases |schedule|
  {
    if schedule != [] {
      StepKeeps(q, s, schedule[0]);
      RunKeeps(q, Apply(q, s, schedule[0]), schedule[1..]);
    }
  }

  // --- What a finished run holds

  /** The outcomes a merge can trust: every value and failure a job's own, and every index up to the
      first failing one answered by some slot. */
  ghost predicate Complete<R, E>(q: Request<R, E>, outcomes: seq<Outcome<R, E>>) {
    && (forall t :: 0 <= t < |outcomes| ==> ValuesValid(q, outcomes[t].values) && FailureValid(q, outcomes[t].failure))
    && (forall i: nat :: i < q.len && !Droppable(q, i) ==> exists t :: 0 <= t < |outcomes| && Answers(outcomes[t], i))
  }

  ghost predicate FailureValid<R, E>(q: Request<R, E>, failure: Option<Indexed<E>>) {
    failure.Some? ==> failure.value.idx < q.len && q.job(failure.value.idx) == Failure(failure.value.value)
  }

  ghost predicate Answers<R, E>(outcome: Outcome<R, E>, i: nat) {
    i in Indices(outcome.values) || (outcome.failure.Some? && outcome.failure.value.idx == i)
  }

  function Outcomes<R, E>(s: State<R, E>): seq<Outcome<R, E>> {
    seq(|s.slots|, t requires 0 <= t < |s.slots| => s.slots[t].outcome)
  }

  /** Every index a job must run for is claimed: the counter is past it once the threads are out of
      their loops, as each left at an index it could drop or fail at. */
  lemma NeededIsClaimed<R, E>(q: Request<R, E>, s: State<R, E>, i: nat)
    requires q.slots >= 1 && Inv(q, s) && Joined(s) && i < q.len && !Droppable(q, i)
    ensures i < s.next
  {
    var slot := s.slots[0];
    assert SlotValid(q, slot, 0, s.owners);
    assert slot.pc.Stopped?;
    if slot.outcome.failure.Some? {
      assert q.Fails(slot.pc.idx);
    }
  }

  lemma JoinedIsComplete<R, E>(q: Request<R, E>, s: State<R, E>)
    requires q.slots >= 1 && Inv(q, s) && Joined(s)
    ensures Complete(q, Outcomes(s))
  {
    var outcomes := Outcomes(s);
    forall t | 0 <= t < |outcomes|
      ensures ValuesValid(q, outcomes[t].values) && FailureValid(q, outcomes[t].failure)
    {
      assert SlotValid(q, s.slots[t], t, s.owners);
    }
    forall i: nat | i < q.len && !Droppable(q, i) ensures exists t :: 0 <= t < |outcomes| && Answers(outcomes[t], i) {
      NeededIsClaimed(q, s, i);
      assert IndexValid(q, s.slots[s.owners[i]], i);
      assert Answers(outcomes[s.owners[i]], i);
    }
  }

  // --- Bounds on a run

  function Rank<R, E>(q: Request<R, E>, slot: Slot<R, E>): nat {
    match slot.pc
    case Unspawned => 0
    case Looping => 2
    case Claimed(idx) => if idx < q.len then 4 else 1
    case Running(_) => 3
    case Stopped(_) => 0
  }

  function Ranks<R, E>(q: Request<R, E>, slots: seq<Slot<R, E>>): nat {
    if slots == [] then 0 else Rank(q, slots[0]) + Ranks(q, slots[1..])
  }

  /** The steps still to come, at most. */
  function Fuel<R, E>(q: Request<R, E>, s: State<R, E>): nat {
    3 * (q.len - Min(s.next, q.len)) + Ranks(q, s.slots)
  }

  lemma {:induction false} RanksUpdate<R, E>(q: Request<R, E>, slots: seq<Slot<R, E>>, t: nat, slot: Slot<R, E>)
    requires t < |slots|
    ensures Ranks(q, slots[t := slot]) == Ranks(q, slots) - Rank(q, slots[t]) + Rank(q, slot)
  {
    if t > 0 {
      RanksUpdate(q, slots[1..], t - 1, slot);
      assert slots[t := slot][1..] == slots[1..][t - 1 := slot];
    } else {
      assert slots[t := slot][1..] == slots[1..];
    }
  }

  lemma StepBurnsFuel<R, E>(q: Request<R, E>, s: State<R, E>, step: Step)
    requires s.hints != [] && Enabled(s, step)
    ensures Fuel(q, Apply(q, s, step)) < Fuel(q, s)
  {
    var s' := Apply(q, s, step);
    RanksUpdate(q, s.slots, step.slot, s'.slots[step.slot]);
  }

  lemma {:induction false} RunIsWithinFuel<R, E>(q: Request<R, E>, s: State<R, E>, schedule: seq<Step>)
    requires Legal(q, s, schedule)
    ensures |schedule| + Fuel(q, After(q, s, schedule)) <= Fuel(q, s)
    decreases |schedule|
  {
    if schedule != [] {
      StepBurnsFuel(q, s, schedule[0]);
      RunIsWithinFuel(q, Apply(q, s, schedule[0]), schedule[1..]);
    }
  }

  lemma {:induction false} InitRanks<R, E>(q: Request<R, E>, slots: seq<Slot<R, E>>, busy: nat)
    requires busy <= |slots|
    requires forall t :: 0 <= t < |slots| ==> slots[t].pc == if t < busy then Looping else Unspawned
    ensures Ranks(q, slots) == 2 * busy
  {
    if slots != [] {
      InitRanks(q, slots[1..], if busy == 0 then 0 else busy - 1);
    }
  }

  /** Distinct numbers below `bound` are at most `bound` many. */
  lemma {:induction false} Pigeonhole(numbers: seq<nat>, bound: nat)
    requires forall k :: 0 <= k < |numbers| ==> numbers[k] < bound
    requires forall j, k :: 0 <= j < k < |numbers| ==> numbers[j] != numbers[k]
    ensures |numbers| <= bound
  {
    if |numbers| > 0 {
      if k :| 0 <= k < |numbers| && numbers[k] == bound - 1 {
        var rest := numbers[..k] + numbers[k + 1..];
        assert forall j :: 0 <= j < |rest| ==> rest[j] == numbers[if j < k then j else j + 1];
        Pigeonhole(rest, bound - 1);
      } else {
        assert numbers[0] < bound;
        Pigeonhole(numbers, bound - 1);
      }
    }
  }

  /** At most `len` plus the busy slots' claims: each slot claims at most one index past the end. */
  lemma ClaimsAreBounded<R, E>(q: Request<R, E>, s: State<R, E>)
    requires IndicesValid(q, s)
    ensures s.next <= q.len + q.Busy()
  {
    if s.next > q.len {
      var past := s.owners[q.len..];
      forall j, k | 0 <= j < k < |past| ensures past[j] != past[k] {
        assert IndexValid(q, s.slots[s.owners[q.len + j]], q.len + j);
        assert IndexValid(q, s.slots[s.owners[q.len + k]], q.len + k);
      }
      Pigeonhole(past, q.Busy());
    }
  }

  // --- The theorems over every schedule

  /** Whatever a schedule has done so far: it took a bounded number of steps and claims, began no job
      twice, left the slots past the busy ones untouched, and, once every thread is out, its outcomes
      are complete. */
  lemma EverySchedule<R, E>(q: Request<R, E>, schedule: seq<Step>)
    requires q.slots >= 1 && Legal(q, Init(q), schedule)
    ensures |schedule| <= 5 * q.len && |schedule| <= 3 * q.len + 2 * q.slots
    ensures var s := After(q, Init(q), schedule);
      && s.next <= 2 * q.len && s.next <= q.len + q.slots
      && (forall j, k :: 0 <= j < k < |s.begun| ==> s.begun[j] != s.begun[k])
      && |s.slots| == q.slots
      && (forall t :: 0 <= t < q.slots ==> (s.slots[t].pc.Unspawned? <==> t >= q.len))
      && (forall t :: q.len <= t < q.slots ==> s.slots[t].outcome == Outcome([], None))
      && (Joined(s) ==> Complete(q, Outcomes(s)))
  {
    var s := After(q, Init(q), schedule);
    InitValid(q);
    RunKeeps(q, Init(q), schedule);
    ClaimsAreBounded(q, s);
    InitRanks(q, Init(q).slots, q.Busy());
    RunIsWithinFuel(q, Init(q), schedule);
    forall t | 0 <= t < q.slots
      ensures s.slots[t].pc.Unspawned? <==> t >= q.len
      ensures t >= q.len ==> s.slots[t].outcome == Outcome([], None)
    {
      assert SlotValid(q, s.slots[t], t, s.owners);
    }
    if Joined(s) {
      JoinedIsComplete(q, s);
    }
  }

  /** With no failing job, a joined run began each index's job, and by `EverySchedule` once. */
  lemma EveryJobRuns<R, E>(q: Request<R, E>, schedule: seq<Step>, i: nat)
    requires q.slots >= 1 && Legal(q, Init(q), schedule) && Joined(After(q, Init(q), schedule))
    requires i < q.len && forall f: nat :: !q.Fails(f)
    ensures i in After(q, Init(q), schedule).begun
  {
    var s := After(q, Init(q), schedule);
    InitValid(q);
    RunKeeps(q, Init(q), schedule);
    NeededIsClaimed(q, s, i);
    assert IndexValid(q, s.slots[s.owners[i]], i);
  }

  /** Where a slot begins an index on the hint's latest value, every failure recorded lies past it. */
  lemma BegunBelowFailures<R, E>(q: Request<R, E>, s: State<R, E>, t: nat, u: nat)
    requires Inv(q, s) && Enabled(s, Check(t, |s.hints| - 1)) && u < |s.slots| && s.slots[u].outcome.failure.Some?
    requires s.slots[t].pc.idx <= s.hints[|s.hints| - 1] && s.slots[t].pc.idx < q.len
    ensures s.slots[t].pc.idx < s.slots[u].outcome.failure.value.idx
  {
    assert SlotValid(q, s.slots[t], t, s.owners) && SlotValid(q, s.slots[u], u, s.owners);
    assert s.slots[t].pc.idx in Held(s.slots[t]) && s.slots[u].outcome.failure.value.idx in Held(s.slots[u]);
  }

  /** A failure stops the slots that see it: a check of the hint's latest value, at any point of any
      schedule, begins no index past a failure recorded by then. */
  lemma FreshCheckStopsPastFailures<R, E>(q: Request<R, E>, schedule: seq<Step>, t: nat, u: nat)
    requires Legal(q, Init(q), schedule)
    requires var s := After(q, Init(q), schedule);
      && s.hints != [] && Enabled(s, Check(t, |s.hints| - 1))
      && u < |s.slots| && s.slots[u].outcome.failure.Some?
      && Apply(q, s, Check(t, |s.hints| - 1)).slots[t].pc.Running?
    ensures var s := After(q, Init(q), schedule);
      s.slots[t].pc.idx < s.slots[u].outcome.failure.value.idx
  {
    InitValid(q);
    RunKeeps(q, Init(q), schedule);
    BegunBelowFailures(q, After(q, Init(q), schedule), t, u);
  }

  /** The cells the owned map takes its items from, after the jobs of `begun` took theirs. */
  function Cells<T>(items: seq<T>, begun: seq<nat>): seq<Option<T>> {
    seq(|items|, i requires 0 <= i < |items| => if i in begun then None else Some(items[i]))
  }

  /** The job that begins finds the item of its index still there, and takes that one alone. */
  lemma TakeFindsTheItem<T, R, E>(q: Request<R, E>, items: seq<T>, schedule: seq<Step>, t: nat, seen: nat)
    requires q.len == |items| && Legal(q, Init(q), schedule)
    requires Enabled(After(q, Init(q), schedule), Check(t, seen))
    requires After(q, Init(q), schedule).hints != []
    requires Apply(q, After(q, Init(q), schedule), Check(t, seen)).slots[t].pc.Running?
    ensures var s := After(q, Init(q), schedule);
      var idx := s.slots[t].pc.idx;
      && idx < |items|
      && Cells(items, s.begun)[idx] == Some(items[idx])
      && Cells(items, Apply(q, s, Check(t, seen)).begun) == Cells(items, s.begun)[idx := None]
  {
    var s := After(q, Init(q), schedule);
    InitValid(q);
    RunKeeps(q, Init(q), schedule);
    var idx := s.slots[t].pc.idx;
    assert SlotValid(q, s.slots[t], t, s.owners);
    assert idx in Held(s.slots[t]) && idx !in Jobs(s.slots[t]);
  }

  // --- The map itself

  ghost function LeastFailing<R, E>(q: Request<R, E>, f: nat): (least: nat)
    requires q.Fails(f)
    ensures least <= f && q.Fails(least) && !Droppable(q, least)
  {
    if g :| 0 <= g < f && q.Fails(g) then LeastFailing(q, g) else f
  }

  /** The least failing index is some slot's failure. */
  lemma LeastFailureIsRecorded<R, E>(q: Request<R, E>, outcomes: seq<Outcome<R, E>>, f: nat)
    requires Complete(q, outcomes) && q.Fails(f)
    ensures exists t :: 0 <= t < |outcomes| && outcomes[t].failure.Some?
                        && outcomes[t].failure.value.idx == LeastFailing(q, f)
  {
    var least := LeastFailing(q, f);
    var t :| 0 <= t < |outcomes| && Answers(outcomes[t], least);
    assert ValuesValid(q, outcomes[t].values);
  }

  ghost predicate Placed<R>(ordered: seq<Option<R>>, values: seq<Indexed<R>>) {
    forall k :: 0 <= k < |values| ==> values[k].idx < |ordered| && ordered[values[k].idx].Some?
  }

  /** Every value placed is its index's. */
  ghost predicate Placings<R, E>(q: Request<R, E>, ordered: seq<Option<R>>) {
    forall i: nat :: i < |ordered| && ordered[i].Some? ==> q.job(i) == Success(ordered[i].value)
  }

  /** One slot's values, each at its index. */
  method Splice<R, E>(ghost q: Request<R, E>, ordered: array<Option<R>>, values: seq<Indexed<R>>)
    requires ordered.Length == q.len && ValuesValid(q, values) && Placings(q, ordered[..])
    modifies ordered
    ensures Placings(q, ordered[..]) && Placed(ordered[..], values)
    ensures forall i :: 0 <= i < ordered.Length && old(ordered[i]).Some? ==> ordered[i].Some?
  {
    for k := 0 to |values|
      invariant Placings(q, ordered[..])
      invariant forall j :: 0 <= j < k ==> ordered[values[j].idx].Some?
      invariant forall i :: 0 <= i < ordered.Length && old(ordered[i]).Some? ==> ordered[i].Some?
    {
      ordered[values[k].idx] := Some(values[k].value);
    }
  }

  /** The values of all slots at their indices, and the failure at the lowest one. */
  method Gather<R, E>(ghost q: Request<R, E>, len: nat, outcomes: seq<Outcome<R, E>>)
    returns (ordered: array<Option<R>>, first: Option<Indexed<E>>)
    requires len == q.len && Complete(q, outcomes)
    ensures fresh(ordered) && ordered.Length == len && Placings(q, ordered[..]) && FailureValid(q, first)
    ensures forall t :: 0 <= t < |outcomes| ==> Placed(ordered[..], outcomes[t].values)
    ensures forall t :: 0 <= t < |outcomes| && outcomes[t].failure.Some? ==>
      first.Some? && first.value.idx <= outcomes[t].failure.value.idx
  {
    ordered, first := new Option<R>[len](_ => None), None;
    for t := 0 to |outcomes|
      invariant Placings(q, ordered[..]) && FailureValid(q, first)
      invariant forall u :: 0 <= u < t ==> Placed(ordered[..], outcomes[u].values)
      invariant forall u :: 0 <= u < t && outcomes[u].failure.Some? ==>
        first.Some? && first.value.idx <= outcomes[u].failure.value.idx
    {
      var failure := outcomes[t].failure;
      assert ValuesValid(q, outcomes[t].values) && FailureValid(q, failure);
      Splice(q, ordered, outcomes[t].values);
      if failure.Some? && (first.None? || failure.value.idx < first.value.idx) {
        first := failure;
      }
    }
  }

  /** Without a failure every index has its value. */
  lemma EveryIndexIsPlaced<R, E>(q: Request<R, E>, outcomes: seq<Outcome<R, E>>, ordered: seq<Option<R>>, i: nat)
    requires Complete(q, outcomes) && |ordered| == q.len && i < q.len
    requires forall t :: 0 <= t < |outcomes| ==> outcomes[t].failure.None? && Placed(ordered, outcomes[t].values)
    ensures ordered[i].Some?
  {
    forall f: nat ensures !q.Fails(f) {
      if q.Fails(f) {
        LeastFailureIsRecorded(q, outcomes, f);
      }
    }
    assert !Droppable(q, i);
    var t :| 0 <= t < |outcomes| && Answers(outcomes[t], i);
  }

  /** The outcomes spliced back into index order: the failure at the lowest index, else every value. */
  method Merge<R, E>(ghost q: Request<R, E>, len: nat, outcomes: seq<Outcome<R, E>>)
    returns (result: Result<seq<R>, E>)
    requires len == q.len && Complete(q, outcomes)
    ensures result == Sequential(q, 0)
  {
    var ordered, first := Gather(q, len, outcomes);
    if first.Some? {
      LeastFailureIsRecorded(q, outcomes, first.value.idx);
      SequentialFails(q, 0, first.value.idx);
      return Failure(first.value.value);
    }
    forall i: nat | i < len ensures ordered[i].Some? {
      EveryIndexIsPlaced(q, outcomes, ordered[..], i);
    }
    var all: seq<R> := [];
    for i := 0 to len
      invariant |all| == i
      invariant forall j :: 0 <= j < i ==> ordered[j] == Some(all[j])
    {
      all := all + [ordered[i].value];
    }
    SequentialSucceeds(q, 0, all);
    return Success(all);
  }

  /** The two shared cells and the slots' own outcomes, and the steps the slots' threads take on them. */
  class Pool<!R, !E> {
    const q: Request<R, E>
    var next: nat
    var hints: seq<nat>
    var slots: seq<Slot<R, E>>
    ghost var owners: seq<nat>
    ghost var begun: seq<nat>

    ghost function Shared(): State<R, E>
      reads this
    {
      State(next, hints, slots, owners, begun)
    }

    constructor (q: Request<R, E>)
      ensures this.q == q && Shared() == Init(q)
    {
      this.q := q;
      next, hints := 0, [NO_FAILURE];
      slots := seq(q.slots, t => Slot(if t < q.Busy() then Looping else Unspawned, Outcome([], None)));
      owners, begun := [], [];
    }

    method FetchIndex(t: nat)
      requires Enabled(Shared(), Claim(t)) && hints != []
      modifies this
      ensures Shared() == Apply(q, old(Shared()), Claim(t))
    {
      var idx := next;
      next := next + 1;
      owners := owners + [t];
      slots := slots[t := slots[t].(pc := Claimed(idx))];
    }

    method CheckIndex(t: nat, seen: nat)
      requires Enabled(Shared(), Check(t, seen))
      modifies this
      ensures Shared() == Apply(q, old(Shared()), Check(t, seen))
    {
      var idx := slots[t].pc.idx;
      if idx >= q.len || idx > hints[seen] {
        slots := slots[t := slots[t].(pc := Stopped(idx))];
      } else {
        begun := begun + [idx];
        slots := slots[t := slots[t].(pc := Running(idx))];
      }
    }

    method FinishJob(t: nat)
      requires Enabled(Shared(), Finish(t)) && hints != []
      modifies this
      ensures Shared() == Apply(q, old(Shared()), Finish(t))
    {
      var idx, outcome := slots[t].pc.idx, slots[t].outcome;
      match q.job(idx)
      case Success(value) =>
        slots := slots[t := Slot(Looping, outcome.(values := outcome.values + [Indexed(idx, value)]))];
      case Failure(error) =>
        hints := hints + [Min(hints[|hints| - 1], idx)];
        slots := slots[t := Slot(Stopped(idx), outcome.(failure := Some(Indexed(idx, error))))];
    }
  }

  /** The next step of a slot's thread, with a value of the hint's cell it may see. */
  method Advance<R, E>(pool: Pool<R, E>, t: nat) returns (ghost step: Step)
    requires Inv(pool.q, pool.Shared()) && t < |pool.slots|
    requires !pool.slots[t].pc.Unspawned? && !pool.slots[t].pc.Stopped?
    modifies pool
    ensures Enabled(old(pool.Shared()), step) && old(pool.hints) != []
    ensures pool.Shared() == Apply(pool.q, old(pool.Shared()), step)
  {
    match pool.slots[t].pc {
      case Looping =>
        step := Step.Claim(t);
        pool.FetchIndex(t);
      case Claimed(_) =>
        var seen :| 0 <= seen < |pool.hints|;
        step := Check(t, seen);
        pool.CheckIndex(t, seen);
      case Running(_) =>
        step := Finish(t);
        pool.FinishJob(t);
    }
  }

  lemma {:induction false} LegalAppend<R, E>(q: Request<R, E>, s: State<R, E>, schedule: seq<Step>, step: Step)
    requires Legal(q, s, schedule)
    requires After(q, s, schedule).hints != [] && Enabled(After(q, s, schedule), step)
    ensures Legal(q, s, schedule + [step])
    ensures After(q, s, schedule + [step]) == Apply(q, After(q, s, schedule), step)
    decreases |schedule|
  {
    if schedule == [] {
      assert schedule + [step] == [step];
    } else {
      assert (schedule + [step])[1..] == schedule[1..] + [step];
      LegalAppend(q, Apply(q, s, schedule[0]), schedule[1..], step);
    }
  }

  /** The map, its slots scheduled in any order and each load of the hint as stale as it can be. */
  method Map<R, E>(q: Request<R, E>) returns (result: Result<seq<R>, E>, ghost schedule: seq<Step>)
    requires q.slots >= 1
    ensures result == Sequential(q, 0)
    ensures Legal(q, Init(q), schedule) && Joined(After(q, Init(q), schedule))
  {
    schedule := [];
    var pool := new Pool(q);
    InitValid(q);
    while !(forall t :: 0 <= t < |pool.slots| ==> pool.slots[t].pc.Unspawned? || pool.slots[t].pc.Stopped?)
      invariant pool.q == q && Legal(q, Init(q), schedule) && After(q, Init(q), schedule) == pool.Shared()
      invariant Inv(q, pool.Shared())
      decreases Fuel(q, pool.Shared())
    {
      var t :| 0 <= t < |pool.slots| && !pool.slots[t].pc.Unspawned? && !pool.slots[t].pc.Stopped?;
      ghost var before := pool.Shared();
      ghost var step := Advance(pool, t);
      LegalAppend(q, Init(q), schedule, step);
      StepKeeps(q, before, step);
      StepBurnsFuel(q, before, step);
      schedule := schedule + [step];
    }
    JoinedIsComplete(q, pool.Shared());
    var outcomes := seq(|pool.slots|, t requires 0 <= t < |pool.slots| reads pool => pool.slots[t].outcome);
    assert outcomes == Outcomes(pool.Shared());
    result := Merge(q, q.len, outcomes);
  }
}
