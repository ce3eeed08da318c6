/** Atomic publication of files: each writer fills a temporary beside its destination and renames it
    over the destination, and any number of writers do so at once.

    The disk keeps what a running process sees and what a crash may leave: a rename or a removal is
    seen at once, but until its directory is synchronized a crash may bring back any entry the path
    held since the last synchronization; the bytes of a file not synchronized since its last write may
    come back as anything. */
module Publishing {
  import opened Wrappers
  import opened TempNames

  newtype byte = n: int | 0 <= n < 256

  type Bytes = seq<byte>

  /** A file's bytes, and whether a crash keeps them. */
  datatype File = File(bytes: Bytes, stable: bool)

  /** `live` is the directory entries as seen, `stale` the earlier entries of a path that a crash may
      bring back, oldest first, and `next` the next file's number. */
  datatype Disk = Disk(live: map<Path, nat>, files: map<nat, File>, stale: map<Path, seq<Option<nat>>>, next: nat) {
    function Live(p: Path): Option<nat> { if p in live then Some(live[p]) else None }

    function Stale(p: Path): seq<Option<nat>> { if p in stale then stale[p] else [] }

    /** The entries `p` may have after a crash. */
    function Survivors(p: Path): seq<Option<nat>> { Stale(p) + [Live(p)] }

    function Read(p: Path): Option<Bytes> {
      if p in live && live[p] in files then Some(files[live[p]].bytes) else None
    }

    function Link(p: Path, n: nat): Disk {
      this.(live := live[p := n], stale := stale[p := Survivors(p)])
    }

    function Unlink(p: Path): Disk {
      this.(live := live - {p}, stale := stale[p := Survivors(p)])
    }

    function CreateNew(p: Path): Disk {
      Link(p, next).(files := files[next := File([], false)], next := next + 1)
    }

    function Write(n: nat, bytes: Bytes): Disk {
      this.(files := files[n := File(bytes, false)])
    }

    function Sync(n: nat): Disk
      requires n in files
    {
      this.(files := files[n := files[n].(stable := true)])
    }

    function Rename(from: Path, to: Path): Disk
      requires from in live
    {
      Unlink(from).Link(to, live[from])
    }

    function SyncDirectory(dir: string): Disk {
      this.(stale := map p | p in stale && p.dir != dir :: stale[p])
    }

    /** `after` is a disk a crash of this one may leave. */
    ghost predicate CrashesTo(after: Disk) {
      && (forall p :: after.Live(p) in Survivors(p))
      && (forall n :: n in files && files[n].stable ==> n in after.files && after.files[n].bytes == files[n].bytes)
    }
  }

  datatype Mode = Durable | Cache

  /** What one writer publishes: `payload` is what its `write` leaves in the file when it succeeds. */
  datatype Writer = Writer(dest: Path, mode: Mode, process: nat, payload: Bytes)

  /** The writers, the process ids they run under, the disk and the processes' counters at the start,
      and the name of a destination's temporary by process id and draw. */
  datatype Setup = Setup(
    writers: seq<Writer>, pids: seq<nat>, start: Disk, drawn: seq<nat>, name: (Path, nat, nat) -> Path)
  {
    function Temp(w: nat, sequence: nat): Path
      requires w < |writers| && writers[w].process < |pids|
    {
      name(writers[w].dest, pids[writers[w].process], sequence)
    }

    /** A name pins its destination, process id and draw, as `TempName` does. */
    ghost predicate NamesPin() {
      forall d, pid, n, d', pid', n' :: name(d, pid, n) == name(d', pid', n') ==> d == d' && pid == pid' && n == n'
    }

    ghost predicate IsTemp(p: Path)
      requires Sized()
    {
      exists w, sequence: nat :: 0 <= w < |writers| && p == Temp(w, sequence)
    }

    predicate Sized() {
      && |drawn| == |pids|
      && forall w :: 0 <= w < |writers| ==> writers[w].process < |pids|
    }

    /** The disk starts whole and synchronized, and no destination is itself a temporary's name. */
    ghost predicate Valid() {
      && Sized()
      && start.stale == map[]
      && (forall p :: p in start.live ==> start.live[p] in start.files)
      && (forall n :: n in start.files ==> n < start.next && start.files[n].stable)
      && (forall w :: 0 <= w < |writers| ==> !IsTemp(writers[w].dest))
    }

    /** What keeps a writer from renaming another's file. */
    ghost predicate NamesSafe()
      requires Sized()
    {
      NamesPin() && NoThreeShare()
    }

    /** Two writers, each in a process of its own, draw the same names. */
    predicate Share(v: nat, w: nat)
      requires Sized() && v < |writers| && w < |writers|
    {
      && writers[v].dest == writers[w].dest && writers[v].dest.file != ""
      && pids[writers[v].process] == pids[writers[w].process] && writers[v].process != writers[w].process
    }

    /** No two processes with one id publish to one destination, one of them durably. */
    ghost predicate NamesDistinct()
      requires Sized()
    {
      forall v: nat, w: nat :: v < |writers| && w < |writers| && writers[v].mode.Durable? ==> !Share(v, w)
    }

    /** No three processes with one id publish to one destination, one of them durably. */
    ghost predicate NoThreeShare()
      requires Sized()
    {
      forall u: nat, v: nat, w: nat :: u < |writers| && v < |writers| && w < |writers| && writers[u].mode.Durable? ==>
        !(Share(u, v) && Share(u, w) && Share(v, w))
    }
  }

  /** How far a writer with an open temporary is; `Failed` says whether it replaced the destination
      before it failed, and its publication is about to drop. */
  datatype Stage = Writing | Written | Flushed | Prepared | Sealed | Replaced | Failed(replaced: bool)

  /** `left` is the temporary a drop failed to remove. */
  datatype Pc =
    | Start
    | Drawn(sequence: nat)
    | Open(stage: Stage, sequence: nat, inode: nat)
    | Succeeded
    | Returned(replaced: bool, left: Option<Path>)

  datatype Entry = Entry(writer: nat, inode: nat)

  /** `log` records who replaced each path, with which file, in order. */
  datatype State = State(disk: Disk, counters: seq<nat>, pcs: seq<Pc>, log: map<Path, seq<Entry>>) {
    function Log(p: Path): seq<Entry> { if p in log then log[p] else [] }
  }

  /** A call a writer makes, and whether it succeeds. */
  datatype Act =
    | Draw
    | Create(ok: bool)
    | Write(bytes: Bytes)
    | EndWrite(ok: bool)
    | Flush(ok: bool)
    | Prepare(ok: bool)
    | Sync(ok: bool)
    | Replace(ok: bool)
    | SyncParent(ok: bool)
    | Drop(ok: bool)

  datatype Step = Step(w: nat, act: Act)

  function Init(z: Setup): State {
    State(z.start, z.drawn, seq(|z.writers|, _ => Start), map[])
  }

  predicate Fits(z: Setup, s: State) {
    && z.Sized()
    && |s.pcs| == |z.writers| && |s.counters| == |z.pids|
    && (forall w :: 0 <= w < |s.pcs| && s.pcs[w].Open? ==> s.pcs[w].inode in s.disk.files)
  }

  predicate Enabled(z: Setup, s: State, step: Step) {
    && Fits(z, s)
    && step.w < |z.writers|
    && var pc, writer := s.pcs[step.w], z.writers[step.w];
       match step.act
       case Draw => pc.Start?
       case Create(_) => pc.Drawn?
       case Write(_) => pc.Open? && pc.stage.Writing?
       case EndWrite(ok) =>
         pc.Open? && pc.stage.Writing? && (ok ==> s.disk.files[pc.inode].bytes == writer.payload)
       case Flush(_) => pc.Open? && pc.stage.Written?
       case Prepare(_) => pc.Open? && pc.stage.Flushed?
       case Sync(_) => pc.Open? && pc.stage.Prepared? && writer.mode.Durable?
       case Replace(_) => pc.Open? && if writer.mode.Durable? then pc.stage.Sealed? else pc.stage.Prepared?
       case SyncParent(_) => pc.Open? && pc.stage.Replaced?
       case Drop(_) => pc.Open? && pc.stage.Failed?
  }

  function Goto(s: State, w: nat, pc: Pc): State
    requires w < |s.pcs|
  {
    s.(pcs := s.pcs[w := pc])
  }

  /** The call of an open writer that only moves it on, or fails it. */
  function Advance(s: State, w: nat, ok: bool, stage: Stage): State
    requires w < |s.pcs| && s.pcs[w].Open?
  {
    Goto(s, w, s.pcs[w].(stage := if ok then stage else Failed(false)))
  }

  function Apply(z: Setup, s: State, step: Step): State
    requires Enabled(z, s, step)
  {
    var w, writer, pc := step.w, z.writers[step.w], s.pcs[step.w];
    match step.act
    case Draw =>
      if writer.dest.file == "" then Goto(s, w, Returned(false, None))
      else
        var sequence := s.counters[writer.process];
        Goto(s, w, Drawn(sequence)).(counters := s.counters[writer.process := sequence + 1])
    case Create(ok) =>
      var temp := z.Temp(w, pc.sequence);
      if temp in s.disk.live then Goto(s, w, Start)
      else if !ok then Goto(s, w, Returned(false, None))
      else Goto(s, w, Open(Writing, pc.sequence, s.disk.next)).(disk := s.disk.CreateNew(temp))
    case Write(bytes) => s.(disk := s.disk.Write(pc.inode, bytes))
    case EndWrite(ok) => Advance(s, w, ok, Written)
    case Flush(ok) => Advance(s, w, ok, Flushed)
    case Prepare(ok) => Advance(s, w, ok, Prepared)
    case Sync(ok) =>
      Advance(s, w, ok, Sealed).(disk := if ok then s.disk.Sync(pc.inode) else s.disk)
    case Replace(ok) =>
      var temp := z.Temp(w, pc.sequence);
      if !ok || temp !in s.disk.live then Goto(s, w, pc.(stage := Failed(false)))
      else
        var entry := Entry(w, s.disk.live[temp]);
        Goto(s, w, if writer.mode.Durable? then pc.(stage := Replaced) else Succeeded)
          .(disk := s.disk.Rename(temp, writer.dest),
            log := s.log[writer.dest := s.Log(writer.dest) + [entry]])
    case SyncParent(ok) =>
      if !ok then Goto(s, w, pc.(stage := Failed(true)))
      else Goto(s, w, Succeeded).(disk := s.disk.SyncDirectory(writer.dest.dir))
    case Drop(ok) =>
      var temp := z.Temp(w, pc.sequence);
      if temp !in s.disk.live then Goto(s, w, Returned(pc.stage.replaced, None))
      else if !ok then Goto(s, w, Returned(pc.stage.replaced, Some(temp)))
      else Goto(s, w, Returned(pc.stage.replaced, None)).(disk := s.disk.Unlink(temp))
  }

  ghost predicate Legal(z: Setup, s: State, run: seq<Step>)
    decreases |run|
  {
    run == [] || (Enabled(z, s, run[0]) && Legal(z, Apply(z, s, run[0]), run[1..]))
  }

  ghost function After(z: Setup, s: State, run: seq<Step>): State
    requires Legal(z, s, run)
    decreases |run|
  {
    if run == [] then s else After(z, Apply(z, s, run[0]), run[1..])
  }

  // --- What every step keeps

  /** `pc` answers for a temporary that is still its own. */
  predicate Holding(pc: Pc) {
    pc.Open? && !pc.stage.Replaced? && pc.stage != Failed(true)
  }

  predicate Named(pc: Pc) { pc.Drawn? || pc.Open? }

  /** The process of `u` is past the draw of `w`'s name: none of its writers has it, or will. */
  ghost predicate PastDraw(z: Setup, s: State, w: nat, u: nat)
    requires Fits(z, s) && w < |z.writers| && u < |z.writers| && s.pcs[w].Open?
  {
    && s.pcs[w].sequence < s.counters[z.writers[u].process]
    && forall v :: 0 <= v < |z.writers| && z.writers[v].process == z.writers[u].process && Named(s.pcs[v]) ==>
         s.pcs[v].sequence != s.pcs[w].sequence
  }

  /** The temporary of `w` was removed by the drop of a durable writer that had renamed its own, of the same
      name, in a process that shares its id; nobody makes that name again. */
  ghost predicate Robbed(z: Setup, s: State, w: nat)
    requires Fits(z, s) && w < |z.writers| && s.pcs[w].Open?
  {
    && z.Temp(w, s.pcs[w].sequence) !in s.disk.live
    && exists u: nat :: u < |z.writers| && z.writers[u].mode.Durable? && z.Share(u, w) && PastDraw(z, s, w, u)
  }

  ghost predicate Logged(s: State, p: Path, entry: Entry) { entry in s.Log(p) }

  /** What writer `w` can count on. */
  ghost predicate WriterValid(z: Setup, s: State, w: nat)
    requires Fits(z, s) && w < |z.writers|
  {
    var pc, writer := s.pcs[w], z.writers[w];
    && (Named(pc) ==> pc.sequence < s.counters[writer.process] && writer.dest.file != "")
    && (pc.Open? ==>
          && z.start.next <= pc.inode
          && (Holding(pc) ==> s.disk.Live(z.Temp(w, pc.sequence)) == Some(pc.inode) || Robbed(z, s, w))
          && (!Holding(pc) ==> writer.mode.Durable? && Logged(s, writer.dest, Entry(w, pc.inode)))
          && (pc.stage in {Written, Flushed, Prepared, Sealed} ==> s.disk.files[pc.inode].bytes == writer.payload)
          && (pc.stage.Sealed? ==> s.disk.files[pc.inode].stable))
  }

  /** A file that replaced a destination is its writer's whole payload, and stays so. */
  ghost predicate EntryValid(z: Setup, s: State, p: Path, entry: Entry) {
    && entry.writer < |z.writers|
    && var writer := z.writers[entry.writer];
       && writer.dest == p
       && z.start.next <= entry.inode
       && entry.inode in s.disk.files
       && s.disk.files[entry.inode].bytes == writer.payload
       && (writer.mode.Durable? ==> s.disk.files[entry.inode].stable)
       && (forall w :: 0 <= w < |s.pcs| && Holding(s.pcs[w]) ==> s.pcs[w].inode != entry.inode)
  }

  /** The entries `p` had, from the start on. */
  function History(first: Option<nat>, log: seq<Entry>): (all: seq<Option<nat>>)
    ensures |all| == |log| + 1 && all[0] == first
    ensures forall k :: 0 <= k < |log| ==> all[k + 1] == Some(log[k].inode)
  {
    if log == [] then [first] else History(first, log[..|log| - 1]) + [Some(log[|log| - 1].inode)]
  }

  ghost predicate Suffix<T>(part: seq<T>, all: seq<T>) {
    |part| <= |all| && forall i :: 0 <= i < |part| ==> part[i] == all[|all| - |part| + i]
  }

  /** What a crash may leave at `p` is the last of its entries, from some entry on. */
  ghost predicate PathValid(z: Setup, s: State, p: Path) {
    Suffix(s.disk.Survivors(p), History(z.start.Live(p), s.Log(p)))
  }

  /** Writer `w` replaced a path with this log, and no entry before its own is among the last
      `survivors` entries. */
  ghost predicate Kept(log: seq<Entry>, survivors: nat, w: nat) {
    exists k :: 0 <= k < |log| && log[k].writer == w && survivors <= |log| - k
  }

  ghost predicate KeptAt(s: State, p: Path, w: nat) {
    Kept(s.Log(p), |s.disk.Survivors(p)|, w)
  }

  ghost predicate FilesValid(z: Setup, s: State) {
    && z.start.next <= s.disk.next
    && (forall n :: n in s.disk.files ==> n < s.disk.next)
    && (forall n :: n in z.start.files ==> n in s.disk.files && s.disk.files[n] == z.start.files[n])
  }

  /** No two open writers hold one file, and no two draws of a process are one. */
  ghost predicate Differ(v: Pc, w: Pc, sameProcess: bool) {
    && (Holding(v) && Holding(w) ==> v.inode != w.inode)
    && (Named(v) && Named(w) && sameProcess ==> v.sequence != w.sequence)
  }

  ghost predicate WritersDiffer(z: Setup, s: State)
    requires Fits(z, s)
  {
    forall v, w :: 0 <= v < |z.writers| && 0 <= w < |z.writers| && v != w ==>
      Differ(s.pcs[v], s.pcs[w], z.writers[v].process == z.writers[w].process)
  }

  ghost predicate Base(z: Setup, s: State) {
    z.Valid() && Fits(z, s) && FilesValid(z, s) && WritersDiffer(z, s)
  }

  ghost predicate Writers(z: Setup, s: State)
    requires Fits(z, s)
  {
    forall w :: 0 <= w < |z.writers| ==> WriterValid(z, s, w)
  }

  ghost predicate Entries(z: Setup, s: State) {
    forall p, entry :: Logged(s, p, entry) ==> EntryValid(z, s, p, entry)
  }

  ghost predicate Paths(z: Setup, s: State)
    requires z.Sized()
  {
    forall p :: !z.IsTemp(p) ==> PathValid(z, s, p)
  }

  ghost predicate Publications(z: Setup, s: State)
    requires Fits(z, s)
  {
    forall w :: 0 <= w < |z.writers| && s.pcs[w].Succeeded? && z.writers[w].mode.Durable? ==>
      KeptAt(s, z.writers[w].dest, w)
  }

  ghost predicate Inv(z: Setup, s: State) {
    Base(z, s) && Writers(z, s) && Entries(z, s) && Paths(z, s) && Publications(z, s)
  }

  lemma InitValid(z: Setup)
    requires z.Valid()
    ensures Inv(z, Init(z))
  {
  }

  // Most steps touch one writer, its temporary's entry and its own file. Everything else stands, and
  // each part of the invariant with it.

  ghost predicate TouchesOnly(z: Setup, s: State, s': State, w: nat, temp: Path, own: nat) {
    && Fits(z, s) && Fits(z, s') && w < |z.writers|
    && s'.log == s.log
    && s'.pcs == s.pcs[w := s'.pcs[w]]
    && (forall k :: 0 <= k < |s.counters| ==> s.counters[k] <= s'.counters[k])
    && (forall p :: p != temp ==> s'.disk.Live(p) == s.disk.Live(p) && s'.disk.Stale(p) == s.disk.Stale(p))
    && (forall n :: n in s.disk.files && n != own ==> n in s'.disk.files && s'.disk.files[n] == s.disk.files[n])
  }

  /** No other holder has this file, nor a temporary of this name, unless its entry stands. */
  ghost predicate Alone(z: Setup, s: State, s': State, w: nat, temp: Path, own: nat)
    requires Fits(z, s)
  {
    forall v :: 0 <= v < |z.writers| && v != w && Holding(s.pcs[v]) ==>
      && s.pcs[v].inode != own
      && (z.Temp(v, s.pcs[v].sequence) == temp ==> s'.disk.Live(temp) == s.disk.Live(temp))
  }

  /** The writer's own new place: still the file and the draw it had, or new ones. */
  ghost predicate Moves(z: Setup, s: State, pc: Pc, w: nat)
    requires Fits(z, s) && w < |z.writers|
  {
    && (Holding(pc) ==> (Holding(s.pcs[w]) && pc.inode == s.pcs[w].inode) || pc.inode == s.disk.next)
    && (Named(pc) ==>
          || pc.sequence == s.counters[z.writers[w].process]
          || (Named(s.pcs[w]) && pc.sequence == s.pcs[w].sequence))
  }

  /** A temporary that was removed stays so for its writer, as long as no entry of its name appears. */
  lemma RobbedStands(z: Setup, s: State, s': State, w: nat, v: nat)
    requires Fits(z, s) && Fits(z, s') && w < |z.writers| && v < |z.writers|
    requires s'.pcs == s.pcs[w := s'.pcs[w]] && Moves(z, s, s'.pcs[w], w)
    requires forall k :: 0 <= k < |s.counters| ==> s.counters[k] <= s'.counters[k]
    requires s.pcs[v].Open? && s'.pcs[v].Open? && s'.pcs[v].sequence == s.pcs[v].sequence
    requires Robbed(z, s, v) && z.Temp(v, s.pcs[v].sequence) !in s'.disk.live
    ensures Robbed(z, s', v)
  {
    var u: nat :| u < |z.writers| && z.writers[u].mode.Durable? && z.Share(u, v) && PastDraw(z, s, v, u);
    assert PastDraw(z, s', v, u);
  }

  lemma WritersStand(z: Setup, s: State, s': State, w: nat, temp: Path, own: nat)
    requires TouchesOnly(z, s, s', w, temp, own) && Alone(z, s, s', w, temp, own)
    requires Moves(z, s, s'.pcs[w], w) && Writers(z, s) && WriterValid(z, s', w)
    ensures Writers(z, s')
  {
    forall v: nat | v < |z.writers| ensures WriterValid(z, s', v) {
      assert WriterValid(z, s, v);
      if v != w && Holding(s.pcs[v]) {
        assert s'.disk.Live(z.Temp(v, s.pcs[v].sequence)) == s.disk.Live(z.Temp(v, s.pcs[v].sequence));
        if Robbed(z, s, v) {
          RobbedStands(z, s, s', w, v);
        }
      }
    }
  }

  lemma StillDiffer(z: Setup, s: State, s': State, w: nat)
    requires Fits(z, s) && Fits(z, s') && w < |z.writers| && WritersDiffer(z, s) && Writers(z, s)
    requires s'.pcs == s.pcs[w := s'.pcs[w]] && Moves(z, s, s'.pcs[w], w) && FilesValid(z, s)
    ensures WritersDiffer(z, s')
  {
    forall v, u | 0 <= v < |z.writers| && 0 <= u < |z.writers| && v != u
      ensures Differ(s'.pcs[v], s'.pcs[u], z.writers[v].process == z.writers[u].process)
    {
      assert Differ(s.pcs[v], s.pcs[u], z.writers[v].process == z.writers[u].process);
      assert WriterValid(z, s, v) && WriterValid(z, s, u);
    }
  }

  /** An entry of the log stands: its file is no holder's, before and after. */
  lemma EntryStands(z: Setup, s: State, s': State, w: nat, temp: Path, own: nat, p: Path, entry: Entry)
    requires TouchesOnly(z, s, s', w, temp, own) && Moves(z, s, s'.pcs[w], w) && FilesValid(z, s)
    requires (Holding(s.pcs[w]) && s.pcs[w].inode == own) || own == s.disk.next
    requires EntryValid(z, s, p, entry)
    ensures EntryValid(z, s', p, entry)
  {
  }

  lemma EntriesStand(z: Setup, s: State, s': State, w: nat, temp: Path, own: nat)
    requires TouchesOnly(z, s, s', w, temp, own) && Moves(z, s, s'.pcs[w], w) && FilesValid(z, s)
    requires (Holding(s.pcs[w]) && s.pcs[w].inode == own) || own == s.disk.next
    requires Entries(z, s)
    ensures Entries(z, s')
  {
    forall p, entry | Logged(s', p, entry) ensures EntryValid(z, s', p, entry) {
      assert Logged(s, p, entry);
      EntryStands(z, s, s', w, temp, own, p, entry);
    }
  }

  lemma PathsStand(z: Setup, s: State, s': State, w: nat, temp: Path, own: nat)
    requires TouchesOnly(z, s, s', w, temp, own) && z.IsTemp(temp) && Paths(z, s)
    ensures Paths(z, s')
  {
    forall p | !z.IsTemp(p) ensures PathValid(z, s', p) {
      assert PathValid(z, s, p);
    }
  }

  lemma PublicationsStand(z: Setup, s: State, s': State, w: nat, temp: Path, own: nat)
    requires TouchesOnly(z, s, s', w, temp, own) && z.Valid() && z.IsTemp(temp) && !s'.pcs[w].Succeeded?
    requires Publications(z, s)
    ensures Publications(z, s')
  {
    forall v | 0 <= v < |z.writers| && s'.pcs[v].Succeeded? && z.writers[v].mode.Durable?
      ensures KeptAt(s', z.writers[v].dest, v)
    {
      assert KeptAt(s, z.writers[v].dest, v);
      assert !z.IsTemp(z.writers[v].dest);
    }
  }

  lemma TouchKeeps(z: Setup, s: State, s': State, w: nat, temp: Path, own: nat)
    requires Inv(z, s) && TouchesOnly(z, s, s', w, temp, own)
    requires z.IsTemp(temp) && Moves(z, s, s'.pcs[w], w) && Writers(z, s') && FilesValid(z, s')
    requires (Holding(s.pcs[w]) && s.pcs[w].inode == own) || own == s.disk.next
    requires !s'.pcs[w].Succeeded?
    ensures Inv(z, s')
  {
    StillDiffer(z, s, s', w);
    EntriesStand(z, s, s', w, temp, own);
    PathsStand(z, s, s', w, temp, own);
    PublicationsStand(z, s, s', w, temp, own);
  }

  /** A writer whose temporary is there is alone with it. */
  lemma HolderIsAlone(z: Setup, s: State, s': State, w: nat)
    requires Fits(z, s) && Writers(z, s) && WritersDiffer(z, s) && w < |s.pcs| && Holding(s.pcs[w])
    requires s.disk.Live(z.Temp(w, s.pcs[w].sequence)) == Some(s.pcs[w].inode)
    ensures Alone(z, s, s', w, z.Temp(w, s.pcs[w].sequence), s.pcs[w].inode)
  {
    forall v | 0 <= v < |z.writers| && v != w && Holding(s.pcs[v])
      ensures s.pcs[v].inode != s.pcs[w].inode && z.Temp(v, s.pcs[v].sequence) != z.Temp(w, s.pcs[w].sequence)
    {
      assert WriterValid(z, s, v);
      assert Differ(s.pcs[v], s.pcs[w], z.writers[v].process == z.writers[w].process);
    }
  }

  /** The name of a removed temporary is no other writer's to create. */
  lemma RobbedNameIsSpent(z: Setup, s: State, v: nat, w: nat)
    requires Fits(z, s) && WritersDiffer(z, s) && z.NamesSafe() && v < |z.writers| && w < |z.writers|
    requires s.pcs[v].Open? && Robbed(z, s, v) && s.pcs[w].Drawn?
    ensures z.Temp(w, s.pcs[w].sequence) != z.Temp(v, s.pcs[v].sequence)
  {
    var u: nat :| u < |z.writers| && z.writers[u].mode.Durable? && z.Share(u, v) && PastDraw(z, s, v, u);
    assert Differ(s.pcs[v], s.pcs[w], z.writers[v].process == z.writers[w].process);
    assert !(z.Share(u, v) && z.Share(u, w) && z.Share(v, w));
  }

  /** No holder has the name of a new temporary: it would be there, or spent. */
  lemma NewTempIsAlone(z: Setup, s: State, s': State, w: nat)
    requires Fits(z, s) && Writers(z, s) && WritersDiffer(z, s) && FilesValid(z, s)
    requires z.NamesSafe() && w < |z.writers| && s.pcs[w].Drawn?
    requires z.Temp(w, s.pcs[w].sequence) !in s.disk.live
    ensures Alone(z, s, s', w, z.Temp(w, s.pcs[w].sequence), s.disk.next)
  {
    forall v: nat | v < |z.writers| && v != w && Holding(s.pcs[v])
      ensures s.pcs[v].inode != s.disk.next && z.Temp(v, s.pcs[v].sequence) != z.Temp(w, s.pcs[w].sequence)
    {
      assert WriterValid(z, s, v);
      if Robbed(z, s, v) {
        RobbedNameIsSpent(z, s, v, w);
      }
    }
  }

  lemma CreateTouches(z: Setup, s: State, w: nat, s': State)
    requires z.Sized() && FilesValid(z, s) && Enabled(z, s, Step(w, Create(true))) && WriterValid(z, s, w)
    requires z.Temp(w, s.pcs[w].sequence) !in s.disk.live && s' == Apply(z, s, Step(w, Create(true)))
    ensures Fits(z, s') && TouchesOnly(z, s, s', w, z.Temp(w, s.pcs[w].sequence), s.disk.next)
    ensures Moves(z, s, s'.pcs[w], w) && WriterValid(z, s', w) && FilesValid(z, s')
  {
  }

  lemma CreateKeeps(z: Setup, s: State, w: nat)
    requires Inv(z, s) && z.NamesSafe() && Enabled(z, s, Step(w, Create(true)))
    requires z.Temp(w, s.pcs[w].sequence) !in s.disk.live
    ensures Inv(z, Apply(z, s, Step(w, Create(true))))
  {
    var temp, s' := z.Temp(w, s.pcs[w].sequence), Apply(z, s, Step(w, Create(true)));
    CreateTouches(z, s, w, s');
    NewTempIsAlone(z, s, s', w);
    WritersStand(z, s, s', w, temp, s.disk.next);
    TouchKeeps(z, s, s', w, temp, s.disk.next);
  }

  lemma RemoveTouches(z: Setup, s: State, w: nat, s': State)
    requires z.Sized() && FilesValid(z, s) && Enabled(z, s, Step(w, Drop(true))) && WriterValid(z, s, w)
    requires z.Temp(w, s.pcs[w].sequence) in s.disk.live && s' == Apply(z, s, Step(w, Drop(true)))
    ensures Fits(z, s') && TouchesOnly(z, s, s', w, z.Temp(w, s.pcs[w].sequence), s.disk.next)
    ensures Moves(z, s, s'.pcs[w], w) && WriterValid(z, s', w) && FilesValid(z, s')
  {
  }

  /** A writer that renamed its temporary removes another's, of the same name. */
  lemma RemovingRobs(z: Setup, s: State, w: nat, v: nat, s': State)
    requires Base(z, s) && z.NamesPin() && Enabled(z, s, Step(w, Drop(true))) && WriterValid(z, s, w)
    requires !Holding(s.pcs[w])
    requires s' == Apply(z, s, Step(w, Drop(true))) && Fits(z, s') && v < |z.writers| && v != w && Holding(s.pcs[v])
    requires z.Temp(v, s.pcs[v].sequence) == z.Temp(w, s.pcs[w].sequence)
    requires z.Temp(w, s.pcs[w].sequence) in s.disk.live
    ensures Robbed(z, s', v)
  {
    assert Differ(s.pcs[w], s.pcs[v], z.writers[w].process == z.writers[v].process);
    assert z.Share(w, v);
    forall x | 0 <= x < |z.writers| && z.writers[x].process == z.writers[w].process && Named(s'.pcs[x])
      ensures s'.pcs[x].sequence != s'.pcs[v].sequence
    {
      assert Differ(s.pcs[w], s.pcs[x], true);
    }
    assert PastDraw(z, s', v, w);
  }

  lemma RemoveKeepsWriters(z: Setup, s: State, w: nat, s': State)
    requires Base(z, s) && Writers(z, s) && z.NamesPin() && Enabled(z, s, Step(w, Drop(true)))
    requires z.Temp(w, s.pcs[w].sequence) in s.disk.live && s' == Apply(z, s, Step(w, Drop(true)))
    requires TouchesOnly(z, s, s', w, z.Temp(w, s.pcs[w].sequence), s.disk.next) && Moves(z, s, s'.pcs[w], w)
    requires WriterValid(z, s', w)
    ensures Writers(z, s')
  {
    var temp := z.Temp(w, s.pcs[w].sequence);
    assert WriterValid(z, s, w);
    if Holding(s.pcs[w]) {
      HolderIsAlone(z, s, s', w);
    }
    forall v: nat | v < |z.writers| ensures WriterValid(z, s', v) {
      assert WriterValid(z, s, v);
      if v != w && Holding(s.pcs[v]) {
        if z.Temp(v, s.pcs[v].sequence) == temp {
          RemovingRobs(z, s, w, v, s');
        } else if Robbed(z, s, v) {
          RobbedStands(z, s, s', w, v);
        }
      }
    }
  }

  /** A drop removes the writer's own file, or leaves another writer without its temporary for good. */
  lemma RemoveKeeps(z: Setup, s: State, w: nat)
    requires Inv(z, s) && z.NamesPin() && Enabled(z, s, Step(w, Drop(true)))
    requires z.Temp(w, s.pcs[w].sequence) in s.disk.live
    ensures Inv(z, Apply(z, s, Step(w, Drop(true))))
  {
    var temp, s' := z.Temp(w, s.pcs[w].sequence), Apply(z, s, Step(w, Drop(true)));
    RemoveTouches(z, s, w, s');
    RemoveKeepsWriters(z, s, w, s');
    TouchKeeps(z, s, s', w, temp, s.disk.next);
  }

  /** A call that leaves the disk alone: the writer moves on, fails, or goes back for another name. */
  ghost predicate MovesOn(z: Setup, s: State, w: nat, s': State) {
    && Fits(z, s) && Fits(z, s') && w < |z.writers|
    && s'.disk == s.disk && s'.log == s.log && s'.pcs == s.pcs[w := s'.pcs[w]]
    && (forall k :: 0 <= k < |s.counters| ==> s.counters[k] <= s'.counters[k])
    && Moves(z, s, s'.pcs[w], w) && WriterValid(z, s', w)
    && (Holding(s'.pcs[w]) ==> Holding(s.pcs[w]) && s'.pcs[w].inode == s.pcs[w].inode)
    && !s'.pcs[w].Succeeded?
  }

  lemma MoveKeeps(z: Setup, s: State, w: nat, s': State)
    requires Inv(z, s) && MovesOn(z, s, w, s')
    ensures Inv(z, s')
  {
    StillDiffer(z, s, s', w);
    MoveKeepsWriters(z, s, w, s');
    MoveKeepsPaths(z, s, w, s');
  }

  lemma MoveKeepsWriters(z: Setup, s: State, w: nat, s': State)
    requires MovesOn(z, s, w, s') && Writers(z, s) && Entries(z, s)
    ensures Writers(z, s') && Entries(z, s')
  {
    forall v: nat | v < |z.writers| ensures WriterValid(z, s', v) {
      assert WriterValid(z, s, v);
      if v != w && s.pcs[v].Open? && Robbed(z, s, v) {
        RobbedStands(z, s, s', w, v);
      }
    }
    forall p, entry | Logged(s', p, entry) ensures EntryValid(z, s', p, entry) {
      assert Logged(s, p, entry) && EntryValid(z, s, p, entry);
    }
  }

  lemma MoveKeepsPaths(z: Setup, s: State, w: nat, s': State)
    requires MovesOn(z, s, w, s') && Paths(z, s) && Publications(z, s)
    ensures Paths(z, s') && Publications(z, s')
  {
    assert forall p :: PathValid(z, s', p) == PathValid(z, s, p);
    forall v | 0 <= v < |z.writers| && s'.pcs[v].Succeeded? && z.writers[v].mode.Durable?
      ensures KeptAt(s', z.writers[v].dest, v)
    {
      assert KeptAt(s, z.writers[v].dest, v);
    }
  }

  /** A call that changes only the writer's own file. */
  lemma FillKeeps(z: Setup, s: State, w: nat, file: File, s': State)
    requires Inv(z, s) && w < |z.writers| && Holding(s.pcs[w]) && Fits(z, s')
    requires s'.log == s.log && s'.counters == s.counters && s'.pcs == s.pcs[w := s'.pcs[w]]
    requires s'.disk == s.disk.(files := s.disk.files[s.pcs[w].inode := file])
    requires Holding(s'.pcs[w]) && s'.pcs[w].inode == s.pcs[w].inode && s'.pcs[w].sequence == s.pcs[w].sequence
    requires WriterValid(z, s', w)
    ensures Inv(z, s')
  {
    var temp, own := z.Temp(w, s.pcs[w].sequence), s.pcs[w].inode;
    assert WriterValid(z, s, w);
    forall v | 0 <= v < |z.writers| && v != w && Holding(s.pcs[v]) ensures s.pcs[v].inode != own {
      assert Differ(s.pcs[v], s.pcs[w], z.writers[v].process == z.writers[w].process);
    }
    WritersStand(z, s, s', w, temp, own);
    TouchKeeps(z, s, s', w, temp, own);
  }

  /** The rename of `w`'s temporary over its destination, from a holder whose file is its whole payload. */
  ghost predicate Replaces(z: Setup, s: State, w: nat, s': State) {
    && Fits(z, s) && w < |z.writers| && Holding(s.pcs[w])
    && var pc, dest := s.pcs[w], z.writers[w].dest;
       var temp := z.Temp(w, pc.sequence);
       && temp != dest && s.disk.Live(temp) == Some(pc.inode)
       && s.disk.files[pc.inode].bytes == z.writers[w].payload
       && (z.writers[w].mode.Durable? ==> s.disk.files[pc.inode].stable)
       && s' == s.(disk := s.disk.Rename(temp, dest),
                   pcs := s.pcs[w := if z.writers[w].mode.Durable? then pc.(stage := Replaced) else Succeeded],
                   log := s.log[dest := s.Log(dest) + [Entry(w, pc.inode)]])
  }

  lemma ReplaceReplaces(z: Setup, s: State, w: nat)
    requires z.Valid() && Enabled(z, s, Step(w, Replace(true))) && WriterValid(z, s, w)
    requires z.Temp(w, s.pcs[w].sequence) in s.disk.live
    ensures Replaces(z, s, w, Apply(z, s, Step(w, Replace(true))))
  {
    assert z.IsTemp(z.Temp(w, s.pcs[w].sequence));
  }

  lemma ReplacedWritersStand(z: Setup, s: State, w: nat, s': State)
    requires z.Valid() && Replaces(z, s, w, s') && Fits(z, s') && Writers(z, s)
    requires Alone(z, s, s', w, z.Temp(w, s.pcs[w].sequence), s.pcs[w].inode)
    ensures Writers(z, s')
  {
    var dest := z.writers[w].dest;
    var entry := Entry(w, s.pcs[w].inode);
    assert s'.Log(dest)[|s.Log(dest)|] == entry;
    forall v: nat | v < |z.writers| ensures WriterValid(z, s', v) {
      assert WriterValid(z, s, v);
      if s.pcs[v].Open? {
        assert z.IsTemp(z.Temp(v, s.pcs[v].sequence));
        if v != w && Robbed(z, s, v) {
          RobbedStands(z, s, s', w, v);
        }
      }
      assert forall e :: Logged(s, z.writers[v].dest, e) ==> Logged(s', z.writers[v].dest, e);
    }
  }

  lemma ReplacedEntriesStand(z: Setup, s: State, w: nat, s': State)
    requires Replaces(z, s, w, s') && WriterValid(z, s, w) && Entries(z, s)
    requires Alone(z, s, s', w, z.Temp(w, s.pcs[w].sequence), s.pcs[w].inode)
    ensures Entries(z, s')
  {
    var dest := z.writers[w].dest;
    forall p, entry | Logged(s', p, entry) ensures EntryValid(z, s', p, entry) {
      if p != dest || entry != Entry(w, s.pcs[w].inode) {
        assert Logged(s, p, entry) && EntryValid(z, s, p, entry);
      }
    }
  }

  lemma HistoryGrows(first: Option<nat>, log: seq<Entry>, entry: Entry)
    ensures History(first, log + [entry]) == History(first, log) + [Some(entry.inode)]
  {
    assert (log + [entry])[..|log|] == log;
  }

  lemma SuffixGrows<T>(all: seq<T>, kept: seq<T>, last: T)
    requires Suffix(kept, all)
    ensures Suffix(kept + [last], all + [last])
  {
  }

  lemma ReplacedPathStands(z: Setup, s: State, w: nat, s': State)
    requires Replaces(z, s, w, s') && PathValid(z, s, z.writers[w].dest)
    ensures PathValid(z, s', z.writers[w].dest)
  {
    var p, entry := z.writers[w].dest, Entry(w, s.pcs[w].inode);
    HistoryGrows(z.start.Live(p), s.Log(p), entry);
    SuffixGrows(History(z.start.Live(p), s.Log(p)), s.disk.Survivors(p), Some(entry.inode));
    assert s'.disk.Survivors(p) == s.disk.Survivors(p) + [Some(entry.inode)];
  }

  lemma RenameLeavesOthers(disk: Disk, from: Path, to: Path, p: Path)
    requires from in disk.live && p != from && p != to
    ensures disk.Rename(from, to).Survivors(p) == disk.Survivors(p)
  {
  }

  lemma OtherPathStands(z: Setup, s: State, w: nat, s': State, p: Path)
    requires Replaces(z, s, w, s') && PathValid(z, s, p)
    requires p != z.writers[w].dest && p != z.Temp(w, s.pcs[w].sequence)
    ensures PathValid(z, s', p)
  {
    RenameLeavesOthers(s.disk, z.Temp(w, s.pcs[w].sequence), z.writers[w].dest, p);
    assert s'.Log(p) == s.Log(p);
  }

  lemma ReplacedPathsStand(z: Setup, s: State, w: nat, s': State)
    requires z.Sized() && Replaces(z, s, w, s') && Paths(z, s) && !z.IsTemp(z.writers[w].dest)
    ensures Paths(z, s')
  {
    assert z.IsTemp(z.Temp(w, s.pcs[w].sequence));
    forall p | !z.IsTemp(p) ensures PathValid(z, s', p) {
      assert PathValid(z, s, p);
      if p == z.writers[w].dest {
        ReplacedPathStands(z, s, w, s');
      } else {
        OtherPathStands(z, s, w, s', p);
      }
    }
  }

  lemma ReplacedPublicationsStand(z: Setup, s: State, w: nat, s': State)
    requires z.Valid() && Replaces(z, s, w, s') && Fits(z, s') && Publications(z, s)
    ensures Publications(z, s')
  {
    var dest, temp := z.writers[w].dest, z.Temp(w, s.pcs[w].sequence);
    forall v | 0 <= v < |z.writers| && s'.pcs[v].Succeeded? && z.writers[v].mode.Durable?
      ensures KeptAt(s', z.writers[v].dest, v)
    {
      var p := z.writers[v].dest;
      assert KeptAt(s, p, v);
      assert !z.IsTemp(p) && z.IsTemp(temp);
      var k :| 0 <= k < |s.Log(p)| && s.Log(p)[k].writer == v && |s.disk.Survivors(p)| <= |s.Log(p)| - k;
      assert s'.Log(p)[k].writer == v;
    }
  }

  lemma ReplaceKeeps(z: Setup, s: State, w: nat, s': State)
    requires Inv(z, s) && Replaces(z, s, w, s')
    ensures Inv(z, s')
  {
    assert WriterValid(z, s, w);
    HolderIsAlone(z, s, s', w);
    StillDifferReplaced(z, s, w, s');
    ReplacedWritersStand(z, s, w, s');
    ReplacedEntriesStand(z, s, w, s');
    ReplacedPathsStand(z, s, w, s');
    ReplacedPublicationsStand(z, s, w, s');
  }

  lemma StillDifferReplaced(z: Setup, s: State, w: nat, s': State)
    requires Replaces(z, s, w, s') && FilesValid(z, s) && WritersDiffer(z, s)
    ensures Fits(z, s') && FilesValid(z, s') && WritersDiffer(z, s')
  {
    forall v, u | 0 <= v < |z.writers| && 0 <= u < |z.writers| && v != u
      ensures Differ(s'.pcs[v], s'.pcs[u], z.writers[v].process == z.writers[u].process)
    {
      assert Differ(s.pcs[v], s.pcs[u], z.writers[v].process == z.writers[u].process);
    }
  }

  // The synchronization of a destination's directory.

  lemma SyncedPathsStand(z: Setup, s: State, w: nat, s': State)
    requires z.Sized() && w < |z.writers| && Paths(z, s) && s'.log == s.log
    requires s'.disk == s.disk.SyncDirectory(z.writers[w].dest.dir)
    ensures Paths(z, s')
  {
    forall p | !z.IsTemp(p) ensures PathValid(z, s', p) {
      assert PathValid(z, s, p);
      var all, kept := History(z.start.Live(p), s.Log(p)), s.disk.Survivors(p);
      assert all[|all| - 1] == kept[|kept| - 1] == s.disk.Live(p);
      assert s'.disk.Survivors(p) == kept || s'.disk.Survivors(p) == [s.disk.Live(p)];
    }
  }

  lemma SyncedPublicationsStand(z: Setup, s: State, w: nat, s': State)
    requires Fits(z, s) && Fits(z, s') && w < |z.writers| && Publications(z, s) && WriterValid(z, s, w)
    requires s.pcs[w].Open? && s.pcs[w].stage.Replaced? && s'.log == s.log && s'.pcs == s.pcs[w := Succeeded]
    requires s'.disk == s.disk.SyncDirectory(z.writers[w].dest.dir)
    ensures Publications(z, s')
  {
    var dest := z.writers[w].dest;
    forall v | 0 <= v < |z.writers| && s'.pcs[v].Succeeded? && z.writers[v].mode.Durable?
      ensures KeptAt(s', z.writers[v].dest, v)
    {
      if v == w {
        var entry := Entry(w, s.pcs[w].inode);
        assert Logged(s, dest, entry);
        var k :| 0 <= k < |s.Log(dest)| && s.Log(dest)[k] == entry;
        assert |s'.disk.Survivors(dest)| == 1;
        assert s'.Log(dest)[k].writer == w;
      } else {
        assert KeptAt(s, z.writers[v].dest, v);
        assert |s'.disk.Survivors(z.writers[v].dest)| <= |s.disk.Survivors(z.writers[v].dest)|;
      }
    }
  }

  lemma SyncParentKeeps(z: Setup, s: State, w: nat)
    requires Inv(z, s) && Enabled(z, s, Step(w, SyncParent(true)))
    ensures Inv(z, Apply(z, s, Step(w, SyncParent(true))))
  {
    var s' := Apply(z, s, Step(w, SyncParent(true)));
    assert WriterValid(z, s, w);
    SyncedPathsStand(z, s, w, s');
    SyncedPublicationsStand(z, s, w, s');
    SyncedWritersStand(z, s, w, s');
  }

  lemma SyncedWritersStand(z: Setup, s: State, w: nat, s': State)
    requires Base(z, s) && Writers(z, s) && Entries(z, s) && Fits(z, s') && w < |z.writers|
    requires s' == Goto(s, w, Succeeded).(disk := s.disk.SyncDirectory(z.writers[w].dest.dir))
    ensures Base(z, s') && Writers(z, s') && Entries(z, s')
  {
    StillDiffer(z, s, s', w);
    forall v: nat | v < |z.writers| ensures WriterValid(z, s', v) {
      assert WriterValid(z, s, v);
      if v != w && s.pcs[v].Open? && Robbed(z, s, v) {
        RobbedStands(z, s, s', w, v);
      }
    }
    forall p, entry | Logged(s', p, entry) ensures EntryValid(z, s', p, entry) {
      assert Logged(s, p, entry) && EntryValid(z, s, p, entry);
    }
  }

  /** The steps that leave the disk alone. */
  predicate Quiet(z: Setup, s: State, step: Step)
    requires step.w < |z.writers| && z.writers[step.w].process < |z.pids| && step.w < |s.pcs|
  {
    match step.act
    case Draw => true
    case Write(_) => false
    case EndWrite(_) => true
    case Flush(_) => true
    case Prepare(_) => true
    case Sync(ok) => !ok
    case Replace(ok) => Named(s.pcs[step.w]) && (!ok || z.Temp(step.w, s.pcs[step.w].sequence) !in s.disk.live)
    case SyncParent(ok) => !ok
    case Create(ok) => Named(s.pcs[step.w]) && (!ok || z.Temp(step.w, s.pcs[step.w].sequence) in s.disk.live)
    case Drop(ok) => Named(s.pcs[step.w]) && (!ok || z.Temp(step.w, s.pcs[step.w].sequence) !in s.disk.live)
  }

  lemma QuietMovesOn(z: Setup, s: State, step: Step)
    requires Enabled(z, s, step) && WriterValid(z, s, step.w) && Quiet(z, s, step)
    ensures MovesOn(z, s, step.w, Apply(z, s, step))
  {
    var w, s' := step.w, Apply(z, s, step);
    if s.pcs[w].Open? && s'.pcs[w].Open? && Robbed(z, s, w) {
      RobbedStands(z, s, s', w, w);
    }
  }

  lemma FillingKeeps(z: Setup, s: State, step: Step)
    requires Inv(z, s) && Enabled(z, s, step) && (step.act.Write? || step.act == Sync(true))
    ensures Inv(z, Apply(z, s, step))
  {
    var was := s.disk.files[s.pcs[step.w].inode];
    var file := if step.act.Write? then File(step.act.bytes, false) else was.(stable := true);
    assert WriterValid(z, s, step.w);
    FillKeeps(z, s, step.w, file, Apply(z, s, step));
  }

  /** Every step of every writer keeps the invariant. */
  lemma StepKeeps(z: Setup, s: State, step: Step)
    requires Inv(z, s) && z.NamesSafe() && Enabled(z, s, step)
    ensures Inv(z, Apply(z, s, step))
  {
    assert WriterValid(z, s, step.w);
    if Quiet(z, s, step) {
      QuietMovesOn(z, s, step);
      MoveKeeps(z, s, step.w, Apply(z, s, step));
    } else if step.act.Create? {
      CreateKeeps(z, s, step.w);
    } else if step.act.Replace? {
      ReplaceReplaces(z, s, step.w);
      ReplaceKeeps(z, s, step.w, Apply(z, s, step));
    } else if step.act.SyncParent? {
      SyncParentKeeps(z, s, step.w);
    } else if step.act.Drop? {
      RemoveKeeps(z, s, step.w);
    } else {
      FillingKeeps(z, s, step);
    }
  }

  lemma {:induction false} RunKeeps(z: Setup, s: State, run: seq<Step>)
    requires Inv(z, s) && z.NamesSafe() && Legal(z, s, run)
    ensures Inv(z, After(z, s, run))
    decreases |run|
  {
    if run != [] {
      StepKeeps(z, s, run[0]);
      RunKeeps(z, Apply(z, s, run[0]), run[1..]);
    }
  }

  // --- The theorems over every run of every writer

  /** The whole contents a path has had: at first its own, then each replacer's payload. */
  ghost function Version(z: Setup, s: State, p: Path, k: nat): Option<Bytes>
    requires k <= |s.Log(p)|
  {
    if k == 0 then z.start.Read(p)
    else
      var writer := s.Log(p)[k - 1].writer;
      if writer < |z.writers| then Some(z.writers[writer].payload) else None
  }

  /** What a reader sees of a destination is whole: its first content, or the last replacer's payload. */
  lemma DestinationIsWhole(z: Setup, run: seq<Step>, p: Path)
    requires z.Valid() && z.NamesSafe() && Legal(z, Init(z), run) && !z.IsTemp(p)
    ensures var s := After(z, Init(z), run);
      s.disk.Read(p) == Version(z, s, p, |s.Log(p)|)
  {
    var s := After(z, Init(z), run);
    InitValid(z);
    RunKeeps(z, Init(z), run);
    ReadsLastVersion(z, s, p);
  }

  lemma ReadsLastVersion(z: Setup, s: State, p: Path)
    requires Inv(z, s) && !z.IsTemp(p)
    ensures s.disk.Read(p) == Version(z, s, p, |s.Log(p)|)
  {
    assert PathValid(z, s, p);
    var all, kept := History(z.start.Live(p), s.Log(p)), s.disk.Survivors(p);
    assert kept[|kept| - 1] == all[|all| - 1];
    if s.Log(p) != [] {
      var last := s.Log(p)[|s.Log(p)| - 1];
      assert Logged(s, p, last) && EntryValid(z, s, p, last);
    }
  }

  /** The replacements of `p` that a crash may bring back are durable writers'. */
  ghost predicate DurableSurvivors(z: Setup, s: State, p: Path) {
    forall k :: |s.Log(p)| - |s.disk.Survivors(p)| <= k < |s.Log(p)| && 0 <= k ==>
      s.Log(p)[k].writer < |z.writers| && z.writers[s.Log(p)[k].writer].mode.Durable?
  }

  /** `after` holds some version of `p` from number `from` on. */
  ghost predicate HoldsVersion(z: Setup, s: State, p: Path, after: Disk, from: int) {
    exists k :: from <= k && 0 <= k <= |s.Log(p)| && after.Read(p) == Version(z, s, p, k)
  }

  lemma EntrySurvives(z: Setup, s: State, p: Path, entry: Entry, after: Disk)
    requires EntryValid(z, s, p, entry) && z.writers[entry.writer].mode.Durable?
    requires s.disk.CrashesTo(after) && after.Live(p) == Some(entry.inode)
    ensures after.Read(p) == Some(z.writers[entry.writer].payload)
  {
  }

  lemma StartSurvives(z: Setup, s: State, p: Path, after: Disk)
    requires z.Valid() && FilesValid(z, s) && s.disk.CrashesTo(after) && after.Live(p) == z.start.Live(p)
    ensures after.Read(p) == z.start.Read(p)
  {
  }

  /** An entry a crash leaves is one of the path's last, as many as may survive. */
  lemma SurvivorIsAnEntry(z: Setup, s: State, p: Path, after: Disk) returns (k: nat)
    requires PathValid(z, s, p) && s.disk.CrashesTo(after)
    ensures |s.Log(p)| + 1 - |s.disk.Survivors(p)| <= k <= |s.Log(p)|
    ensures after.Live(p) == if k == 0 then z.start.Live(p) else Some(s.Log(p)[k - 1].inode)
  {
    var all, kept := History(z.start.Live(p), s.Log(p)), s.disk.Survivors(p);
    assert after.Live(p) in kept;
    var i :| 0 <= i < |kept| && kept[i] == after.Live(p);
    k := |all| - |kept| + i;
    assert all[k] == after.Live(p);
  }

  /** After a crash at any point, a destination whose survivors are durable writers' is whole, and no older than
      the oldest entry a crash may bring back. */
  lemma CrashLeavesAVersion(z: Setup, s: State, p: Path, after: Disk)
    requires Inv(z, s) && !z.IsTemp(p) && DurableSurvivors(z, s, p) && s.disk.CrashesTo(after)
    ensures HoldsVersion(z, s, p, after, |s.Log(p)| + 1 - |s.disk.Survivors(p)|)
  {
    assert PathValid(z, s, p);
    var k := SurvivorIsAnEntry(z, s, p, after);
    if k > 0 {
      var entry := s.Log(p)[k - 1];
      assert Logged(s, p, entry);
      EntrySurvives(z, s, p, entry, after);
    } else {
      StartSurvives(z, s, p, after);
    }
    assert after.Read(p) == Version(z, s, p, k);
  }

  /** Durable publication is atomic across a crash at any point of any run, and once it returned `Ok`
      no crash undoes it: the destination holds that payload or a later replacer's. */
  lemma DurablePublicationSurvivesCrashes(z: Setup, run: seq<Step>, p: Path, after: Disk)
    requires z.Valid() && z.NamesSafe() && Legal(z, Init(z), run)
    requires !z.IsTemp(p) && DurableSurvivors(z, After(z, Init(z), run), p)
    requires After(z, Init(z), run).disk.CrashesTo(after)
    ensures var s := After(z, Init(z), run);
      && |s.pcs| == |z.writers|
      && HoldsVersion(z, s, p, after, 0)
      && forall w ::
           0 <= w < |z.writers| && z.writers[w].dest == p && z.writers[w].mode.Durable? && s.pcs[w].Succeeded? ==>
           exists j :: 0 <= j < |s.Log(p)| && s.Log(p)[j].writer == w && HoldsVersion(z, s, p, after, j + 1)
  {
    var s := After(z, Init(z), run);
    InitValid(z);
    RunKeeps(z, Init(z), run);
    CrashLeavesAVersion(z, s, p, after);
    forall w | 0 <= w < |z.writers| && z.writers[w].dest == p && z.writers[w].mode.Durable? && s.pcs[w].Succeeded?
      ensures exists j :: 0 <= j < |s.Log(p)| && s.Log(p)[j].writer == w && HoldsVersion(z, s, p, after, j + 1)
    {
      SuccessIsKept(z, s, p, w, after);
    }
  }

  lemma SuccessIsKept(z: Setup, s: State, p: Path, w: nat, after: Disk)
    requires Fits(z, s) && Publications(z, s) && w < |z.writers| && s.pcs[w].Succeeded?
    requires z.writers[w].mode.Durable? && z.writers[w].dest == p
    requires HoldsVersion(z, s, p, after, |s.Log(p)| + 1 - |s.disk.Survivors(p)|)
    ensures exists j :: 0 <= j < |s.Log(p)| && s.Log(p)[j].writer == w && HoldsVersion(z, s, p, after, j + 1)
  {
    assert KeptAt(s, p, w);
    var j :| 0 <= j < |s.Log(p)| && s.Log(p)[j].writer == w && |s.disk.Survivors(p)| <= |s.Log(p)| - j;
    assert HoldsVersion(z, s, p, after, j + 1);
  }
}
