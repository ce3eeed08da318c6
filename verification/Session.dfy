/** The editor's session: a queue of jobs over one driver, whose first end, a panic's or not, drops the driver,
    tells the server once, and stays the reason for ever. */
module Session {
  import opened Wrappers

  /** Why a session ended. */
  datatype Ended = Panic(message: string) | Quit | Closed

  /** What dropping the driver does; a panic that goes unseen has no message. */
  datatype Drop = Quiet | Panics(seen: Option<string>)

  datatype State = Live(drop: Drop) | Over(why: Ended)

  /** A step of a job: it needs the driver, catches a panic of its own, or ends the session. */
  datatype Act = UseDriver | Recover(message: string) | EndQuit | EndClosed

  /** How a job ends that gets as far. */
  datatype Outcome = Content(text: string) | Fails(error: string) | Unwinds(seen: Option<string>)

  datatype Job = Job(acts: seq<Act>, outcome: Outcome)

  datatype Answer = Done(text: string) | Error(error: string)

  /** What the rest of the process sees. */
  datatype Event = Dropped | Told(why: Ended) | Answered(answer: Answer)

  const UNSEEN := "a panic the hook did not see"

  function Cause(why: Ended): string {
    match why
    case Panic(message) => "the editor panicked: " + message
    case Quit => "an action quit the editor"
    case Closed => "its window closed"
  }

  function Explain(why: Ended): string {
    "the session ended when " + Cause(why) + "; the server is ending"
  }

  function Report(panic: string): string {
    "the editor panicked: " + panic + ". The session is closed and the server ends with it; report the panic."
  }

  /** The record after a panic, of the ones the hook saw. */
  function Recorded(record: Option<string>, seen: Option<string>): Option<string> {
    if seen.Some? then seen else record
  }

  function Taken(record: Option<string>): string { if record.Some? then record.value else UNSEEN }

  // --- One session

  datatype Status = Status(state: State, record: Option<string>, log: seq<Event>)

  /** The session, the panic record of its thread, and what was seen of them. */
  class Session {
    var state: State
    var record: Option<string>
    ghost var log: seq<Event>

    ghost function Now(): Status
      reads this
    {
      Status(state, record, log)
    }

    constructor (drop: Drop)
      ensures Now() == Started(drop)
    {
      state, record, log := Live(drop), None, [];
    }

    /** The panic recorded since the last take. */
    method TakePanic() returns (panic: string)
      modifies this`record
      ensures panic == Taken(old(record)) && record == None
    {
      panic, record := Taken(record), None;
    }

    /** Drops the driver, whose panic is caught. */
    method DropDriver(drop: Drop) returns (panicked: bool)
      modifies this`record, this`log
      ensures panicked == drop.Panics? && log == old(log) + [Dropped]
      ensures record == if panicked then Recorded(old(record), drop.seen) else old(record)
    {
      log, panicked := log + [Dropped], drop.Panics?;
      if panicked {
        record := Recorded(record, drop.seen);
      }
    }

    /** Ends a live session, and tells why once the driver is dropped. */
    method End(why: Ended)
      modifies this
      ensures Now() == AfterEnd(old(Now()), why)
    {
      match state {
        case Over(_) =>
        case Live(drop) =>
          state := Over(why);
          var panicked := DropDriver(drop);
          var told := why;
          if panicked && (why.Quit? || why.Closed?) {
            var panic := TakePanic();
            told := Panic(panic);
          }
          state := Over(told);
          log := log + [Told(told)];
      }
    }

    /** The session's driver, or how it ended. */
    method Driver() returns (error: Option<string>)
      ensures error == if state.Over? then Some(Explain(state.why)) else None
    {
      error := match state case Live(_) => None case Over(why) => Some(Explain(why));
    }

    /** A job, up to its answer, its error or its panic. */
    method Perform(job: Job) returns (outcome: Outcome)
      modifies this
      ensures Now() == AfterActs(old(Now()), job.acts).0
      ensures outcome ==
        match AfterActs(old(Now()), job.acts).1 case None => job.outcome case Some(error) => Fails(error)
    {
      ghost var before := Now();
      for i := 0 to |job.acts|
        invariant AfterActs(before, job.acts) == AfterActs(Now(), job.acts[i..])
      {
        match job.acts[i] {
          case UseDriver =>
            var error := Driver();
            if error.Some? {
              return Fails(error.value);
            }
          case Recover(message) => record := Some(message);
          case EndQuit => End(Quit);
          case EndClosed => End(Closed);
        }
      }
      outcome := job.outcome;
    }
  }

  /** Takes jobs in turn, each inside the panic edge. */
  method Serve(session: Session, jobs: seq<Job>)
    modifies session
    ensures session.Now() == AfterJobs(old(session.Now()), jobs)
  {
    ghost var before := session.Now();
    for i := 0 to |jobs|
      invariant session.Now() == AfterJobs(before, jobs[..i])
    {
      assert jobs[..i + 1][..i] == jobs[..i];
      var outcome := session.Perform(jobs[i]);
      var answer;
      match outcome {
        case Content(text) => answer := Done(text);
        case Fails(error) => answer := Error(error);
        case Unwinds(seen) =>
          session.record := Recorded(session.record, seen);
          var panic := session.TakePanic();
          session.End(Panic(panic));
          answer := Error(Report(panic));
      }
      session.log := session.log + [Answered(answer)];
    }
    assert jobs[..|jobs|] == jobs;
  }

  // --- What each step does

  function Started(drop: Drop): Status { Status(Live(drop), None, []) }

  function AfterEnd(w: Status, why: Ended): Status {
    match w.state
    case Over(_) => w
    case Live(drop) =>
      var record := if drop.Panics? then Recorded(w.record, drop.seen) else w.record;
      var broken := drop.Panics? && !why.Panic?;
      var told := if broken then Panic(Taken(record)) else why;
      Status(Over(told), if broken then None else record, w.log + [Dropped, Told(told)])
  }

  /** The acts of a job, up to one that needs a driver gone. */
  function AfterActs(w: Status, acts: seq<Act>): (Status, Option<string>)
    decreases acts
  {
    if acts == [] then (w, None)
    else match acts[0]
      case UseDriver => if w.state.Over? then (w, Some(Explain(w.state.why))) else AfterActs(w, acts[1..])
      case Recover(message) => AfterActs(w.(record := Some(message)), acts[1..])
      case EndQuit => AfterActs(AfterEnd(w, Quit), acts[1..])
      case EndClosed => AfterActs(AfterEnd(w, Closed), acts[1..])
  }

  /** A job and how it is answered. */
  function Ran(w: Status, job: Job): (Status, Answer) {
    var (after, error) := AfterActs(w, job.acts);
    if error.Some? then (after, Error(error.value))
    else match job.outcome
      case Content(text) => (after, Done(text))
      case Fails(error) => (after, Error(error))
      case Unwinds(seen) =>
        var panic := Taken(Recorded(after.record, seen));
        (AfterEnd(after.(record := None), Panic(panic)), Error(Report(panic)))
  }

  function AfterJob(w: Status, job: Job): Status {
    var (after, answer) := Ran(w, job);
    after.(log := after.log + [Answered(answer)])
  }

  function AfterJobs(w: Status, jobs: seq<Job>): Status {
    if jobs == [] then w else AfterJob(AfterJobs(w, jobs[..|jobs| - 1]), jobs[|jobs| - 1])
  }

  // --- Which end a run comes to

  /** What in a run can end the session, or leave a panic on record. */
  datatype Beat = Mishap(message: string) | Ends(why: Ended) | Crash(seen: Option<string>)

  function ActBeats(acts: seq<Act>): seq<Beat> {
    if acts == [] then []
    else (match acts[0]
      case UseDriver => []
      case Recover(message) => [Mishap(message)]
      case EndQuit => [Ends(Quit)]
      case EndClosed => [Ends(Closed)]) + ActBeats(acts[1..])
  }

  function JobBeats(job: Job): seq<Beat> {
    ActBeats(job.acts) + if job.outcome.Unwinds? then [Crash(job.outcome.seen)] else []
  }

  function Beats(jobs: seq<Job>): seq<Beat> {
    if jobs == [] then [] else Beats(jobs[..|jobs| - 1]) + JobBeats(jobs[|jobs| - 1])
  }

  /** The record a run leaves that does not end the session. */
  function Record(beats: seq<Beat>, record: Option<string>): Option<string> {
    if beats == [] then record
    else Record(beats[1..], if beats[0].Mishap? then Some(beats[0].message) else record)
  }

  /** The reason a session ends for: its first end, or a panic of the drop that this end causes, unless it is a
      panic itself. */
  function Reason(beats: seq<Beat>, record: Option<string>, drop: Drop): Option<Ended>
    decreases beats
  {
    if beats == [] then None
    else match beats[0]
      case Mishap(message) => Reason(beats[1..], Some(message), drop)
      case Ends(why) => Some(if drop.Panics? then Panic(Taken(Recorded(record, drop.seen))) else why)
      case Crash(seen) => Some(Panic(Taken(Recorded(record, seen))))
  }

  lemma {:induction false} ReasonAppends(a: seq<Beat>, b: seq<Beat>, record: Option<string>, drop: Drop)
    ensures Reason(a + b, record, drop) ==
      (if Reason(a, record, drop).Some? then Reason(a, record, drop) else Reason(b, Record(a, record), drop))
    ensures Record(a + b, record) == Record(b, Record(a, record))
    decreases a
  {
    if a == [] {
      assert a + b == b;
    } else {
      assert (a + b)[1..] == a[1..] + b;
      ReasonAppends(a[1..], b, if a[0].Mishap? then Some(a[0].message) else record, drop);
    }
  }

  /** A session that has come to `reason`, with the record of one that has not ended. */
  ghost predicate CameTo(w: Status, drop: Drop, reason: Option<Ended>, record: Option<string>) {
    match reason
    case None => w.state == Live(drop) && w.record == record
    case Some(why) => w.state == Over(why)
  }

  /** What one end adds to what is seen: the driver dropped, then the server told why. */
  ghost function Seen(reason: Option<Ended>): seq<Event> {
    if reason.None? then [] else [Dropped, Told(reason.value)]
  }

  /** An ended session keeps its reason, and nothing more is seen of it. */
  lemma {:induction false} ActsOnEnded(w: Status, acts: seq<Act>)
    requires w.state.Over?
    ensures var after := AfterActs(w, acts).0; after.state == w.state && after.log == w.log
    decreases acts
  {
    if acts != [] {
      match acts[0] {
        case UseDriver =>
        case Recover(message) => ActsOnEnded(w.(record := Some(message)), acts[1..]);
        case EndQuit => ActsOnEnded(w, acts[1..]);
        case EndClosed => ActsOnEnded(w, acts[1..]);
      }
    }
  }

  lemma {:induction false} ActsOnLive(w: Status, acts: seq<Act>, drop: Drop)
    requires w.state == Live(drop)
    ensures var (after, error) := AfterActs(w, acts); var reason := Reason(ActBeats(acts), w.record, drop);
      && CameTo(after, drop, reason, Record(ActBeats(acts), w.record)) && after.log == w.log + Seen(reason)
      && (reason.None? ==> error.None?)
    decreases acts
  {
    if acts != [] {
      match acts[0] {
        case UseDriver =>
          assert ActBeats(acts) == ActBeats(acts[1..]);
          ActsOnLive(w, acts[1..], drop);
        case Recover(message) =>
          assert ActBeats(acts)[1..] == ActBeats(acts[1..]);
          ActsOnLive(w.(record := Some(message)), acts[1..], drop);
        case EndQuit => ActsOnEnded(AfterEnd(w, Quit), acts[1..]);
        case EndClosed => ActsOnEnded(AfterEnd(w, Closed), acts[1..]);
      }
    }
  }

  lemma {:induction false} CrashOnLive(w: Status, panic: string)
    requires w.state.Live?
    ensures var after := AfterEnd(w.(record := None), Panic(panic));
      after.state == Over(Panic(panic)) && after.log == w.log + Seen(Some(Panic(panic)))
  {
  }

  lemma {:induction false} RanOnLive(w: Status, job: Job, drop: Drop)
    requires w.state == Live(drop)
    ensures var after := Ran(w, job).0; var reason := Reason(JobBeats(job), w.record, drop);
      CameTo(after, drop, reason, Record(JobBeats(job), w.record)) && after.log == w.log + Seen(reason)
  {
    ActsOnLive(w, job.acts, drop);
    var after, beats := AfterActs(w, job.acts).0, ActBeats(job.acts);
    if job.outcome.Unwinds? {
      ReasonAppends(beats, [Crash(job.outcome.seen)], w.record, drop);
      if after.state.Live? {
        CrashOnLive(after, Taken(Recorded(after.record, job.outcome.seen)));
      }
    } else {
      assert JobBeats(job) == beats;
    }
  }

  lemma {:induction false} RanOnEnded(w: Status, job: Job)
    requires w.state.Over?
    ensures var after := Ran(w, job).0; after.state == w.state && after.log == w.log
  {
    ActsOnEnded(w, job.acts);
  }

  // --- What is seen of a run

  /** What is seen besides the answers. */
  ghost function Endings(log: seq<Event>): seq<Event> {
    if log == [] then []
    else Endings(log[..|log| - 1]) + if log[|log| - 1].Answered? then [] else [log[|log| - 1]]
  }

  ghost function Answers(log: seq<Event>): seq<Answer> {
    if log == [] then []
    else Answers(log[..|log| - 1]) + if log[|log| - 1].Answered? then [log[|log| - 1].answer] else []
  }

  lemma {:induction false} OneMoreEvent(log: seq<Event>, event: Event)
    ensures Endings(log + [event]) == if event.Answered? then Endings(log) else Endings(log) + [event]
    ensures Answers(log + [event]) == if event.Answered? then Answers(log) + [event.answer] else Answers(log)
  {
    assert (log + [event])[..|log|] == log;
  }

  lemma {:induction false} LogGrows(log: seq<Event>, reason: Option<Ended>, answer: Answer)
    ensures Endings(log + Seen(reason)) == Endings(log) + Seen(reason) && Answers(log + Seen(reason)) == Answers(log)
    ensures Endings(log + Seen(reason) + [Answered(answer)]) == Endings(log) + Seen(reason)
    ensures Answers(log + Seen(reason) + [Answered(answer)]) == Answers(log) + [answer]
  {
    if reason.Some? {
      assert log + Seen(reason) == log + [Dropped] + [Told(reason.value)];
      OneMoreEvent(log, Dropped);
      OneMoreEvent(log + [Dropped], Told(reason.value));
    } else {
      assert log + Seen(reason) == log;
    }
    OneMoreEvent(log + Seen(reason), Answered(answer));
  }

  /** The answers, each job's own where the jobs before it left the session. */
  ghost function AllAnswers(w: Status, jobs: seq<Job>): (answers: seq<Answer>)
    ensures |answers| == |jobs|
  {
    if jobs == [] then []
    else AllAnswers(w, jobs[..|jobs| - 1]) + [Ran(AfterJobs(w, jobs[..|jobs| - 1]), jobs[|jobs| - 1]).1]
  }

  /** One more job of a session that came to `reason`. */
  lemma {:induction false} JobComesTo(w: Status, job: Job, drop: Drop, beats: seq<Beat>)
    requires CameTo(w, drop, Reason(beats, None, drop), Record(beats, None))
    ensures var after := Ran(w, job).0; var all := beats + JobBeats(job); var reason := Reason(all, None, drop);
      && CameTo(after, drop, reason, Record(all, None))
      && after.log == w.log + Seen(if w.state.Live? then reason else None)
  {
    ReasonAppends(beats, JobBeats(job), None, drop);
    if w.state.Live? {
      RanOnLive(w, job, drop);
    } else {
      RanOnEnded(w, job);
    }
  }

  /** Over every run of jobs the end is told at most once, right after the driver is dropped, and for the reason
      the session has: that of the run's first end. Each job is answered once, in order. */
  lemma {:induction false} EndIsToldOnce(drop: Drop, jobs: seq<Job>)
    ensures var w := AfterJobs(Started(drop), jobs); var reason := Reason(Beats(jobs), None, drop);
      && CameTo(w, drop, reason, Record(Beats(jobs), None))
      && Endings(w.log) == Seen(reason)
      && Answers(w.log) == AllAnswers(Started(drop), jobs) && |Answers(w.log)| == |jobs|
  {
    if jobs != [] {
      var n := |jobs| - 1;
      var w, job := AfterJobs(Started(drop), jobs[..n]), jobs[n];
      EndIsToldOnce(drop, jobs[..n]);
      JobComesTo(w, job, drop, Beats(jobs[..n]));
      ReasonAppends(Beats(jobs[..n]), JobBeats(job), None, drop);
      LogGrows(w.log, if w.state.Live? then Reason(Beats(jobs), None, drop) else None, Ran(w, job).1);
    }
  }

  /** The reason once told is the session's for ever after, and a job that then needs the driver is answered
      with it. */
  lemma {:induction false} ReasonStands(drop: Drop, jobs: seq<Job>, i: nat, why: Ended)
    requires i <= |jobs| && AfterJobs(Started(drop), jobs[..i]).state == Over(why)
    ensures AfterJobs(Started(drop), jobs).state == Over(why)
    ensures AfterJobs(Started(drop), jobs[..i]).log <= AfterJobs(Started(drop), jobs).log
    ensures i < |jobs| && jobs[|jobs| - 1].acts != [] && jobs[|jobs| - 1].acts[0] == UseDriver ==>
      AllAnswers(Started(drop), jobs)[|jobs| - 1] == Error(Explain(why))
  {
    EndIsToldOnce(drop, jobs);
    var n := |jobs| - 1;
    if i == |jobs| {
      assert jobs[..i] == jobs;
    } else {
      assert jobs[..n][..i] == jobs[..i];
      ReasonStands(drop, jobs[..n], i, why);
      RanOnEnded(AfterJobs(Started(drop), jobs[..n]), jobs[n]);
      EndIsToldOnce(drop, jobs[..n]);
    }
  }

  /** The server's own job, for a window that closed. */
  const CLOSE_JOB := Job([EndClosed], Content(""))

  /** A session that ends, or had ended, has dropped its driver and told the server why. */
  lemma {:induction false} EndIsLogged(w: Status, why: Ended)
    requires Endings(w.log) == if w.state.Over? then [Dropped, Told(w.state.why)] else []
    ensures var after := AfterEnd(w, why);
      && after.state.Over? && Dropped in after.log && Told(after.state.why) in after.log
      && Answers(after.log) == Answers(w.log)
  {
    var after := AfterEnd(w, why);
    if w.state.Live? {
      assert after.log == w.log + Seen(Some(after.state.why));
      LogGrows(w.log, Some(after.state.why), Done(""));
    } else {
      assert Endings(w.log)[0] == Dropped && Endings(w.log)[1] == Told(w.state.why);
      EndingsAreLogged(w.log);
    }
  }

  /** Closing returns once the driver is gone: whatever ran before, the driver is dropped and the server told
      before the close is answered. */
  lemma {:induction false} CloseOutlastsTheDriver(drop: Drop, jobs: seq<Job>)
    ensures var (after, answer) := Ran(AfterJobs(Started(drop), jobs), CLOSE_JOB);
      && after.state.Over? && Dropped in after.log && Told(after.state.why) in after.log && answer == Done("")
      && AfterJobs(Started(drop), jobs + [CLOSE_JOB]) == after.(log := after.log + [Answered(answer)])
      && |Answers(after.log)| == |jobs|
  {
    var w := AfterJobs(Started(drop), jobs);
    assert (jobs + [CLOSE_JOB])[..|jobs|] == jobs;
    EndIsToldOnce(drop, jobs);
    CloseEnds(w);
    EndIsLogged(w, Closed);
  }

  lemma {:induction false} CloseEnds(w: Status)
    ensures Ran(w, CLOSE_JOB) == (AfterEnd(w, Closed), Done(""))
  {
    assert AfterActs(w, [EndClosed]) == AfterActs(AfterEnd(w, Closed), []);
  }

  lemma {:induction false} EndingsAreLogged(log: seq<Event>)
    ensures forall event :: event in Endings(log) ==> event in log
  {
    if log != [] {
      EndingsAreLogged(log[..|log| - 1]);
    }
  }

  // --- Which panic is named

  /** The message of a panic itself. */
  function Own(seen: Option<string>): string { if seen.Some? then seen.value else UNSEEN }

  /** The panic recorded is this one, or none is. */
  predicate Fresh(record: Option<string>, seen: Option<string>) {
    seen.Some? || record.None? || record == Some(UNSEEN)
  }

  lemma {:induction false} ReportIsOnes(a: string, b: string)
    ensures Report(a) == Report(b) <==> a == b
  {
    var head, tail := "the editor panicked: ", ". The session is closed and the server ends with it; report the panic.";
    assert Report(a)[|head|..|Report(a)| - |tail|] == a;
    assert Report(b)[|head|..|Report(b)| - |tail|] == b;
  }

  predicate Says(text: string, part: string) {
    exists i, j :: 0 <= i <= j <= |text| && text[i..j] == part
  }

  lemma Within(head: string, part: string, tail: string)
    ensures Says(head + part + tail, part)
  {
    assert (head + part + tail)[|head|..|head| + |part|] == part;
  }

  /** What a job without a driver is told names the end it lost it to. */
  lemma {:induction false} EndIsExplained(message: string)
    ensures Says(Explain(Quit), "an action quit the editor") && Says(Explain(Closed), "its window closed")
    ensures Says(Explain(Panic(message)), "the editor panicked: " + message)
  {
    Within("the session ended when ", Cause(Quit), "; the server is ending");
    Within("the session ended when ", Cause(Closed), "; the server is ending");
    Within("the session ended when ", Cause(Panic(message)), "; the server is ending");
  }

  /** A job that panics, after any jobs, is answered with its own panic, and gives it as the reason of a session
      it ends, exactly if the hook saw that panic or no earlier one was on record. */
  lemma {:induction false} PanicIsNamedExactlyWhenFresh(drop: Drop, jobs: seq<Job>, job: Job)
    requires job.outcome.Unwinds? && AfterActs(AfterJobs(Started(drop), jobs), job.acts).1.None?
    ensures var w := AfterJobs(Started(drop), jobs); var before := AfterActs(w, job.acts).0;
      && AllAnswers(Started(drop), jobs + [job])[|jobs|] == Ran(w, job).1
      && (Ran(w, job).1 == Error(Report(Own(job.outcome.seen))) <==> Fresh(before.record, job.outcome.seen))
      && (before.state.Live? ==>
            (AfterJobs(Started(drop), jobs + [job]).state == Over(Panic(Own(job.outcome.seen)))
             <==> Fresh(before.record, job.outcome.seen)))
  {
    var before := AfterActs(AfterJobs(Started(drop), jobs), job.acts).0;
    assert (jobs + [job])[..|jobs|] == jobs;
    ReportIsOnes(Taken(Recorded(before.record, job.outcome.seen)), Own(job.outcome.seen));
  }

  /** While the session lives, what is on record is the last panic a job caught itself, and none if none did. */
  lemma {:induction false} LiveRecord(drop: Drop, jobs: seq<Job>, acts: seq<Act>)
    requires AfterActs(AfterJobs(Started(drop), jobs), acts).0.state.Live?
    ensures var record := AfterActs(AfterJobs(Started(drop), jobs), acts).0.record;
      var beats := Beats(jobs) + ActBeats(acts);
      && record == Record(beats, None)
      && (record.None? <==> forall i :: 0 <= i < |beats| ==> !beats[i].Mishap?)
  {
    var w := AfterJobs(Started(drop), jobs);
    EndIsToldOnce(drop, jobs);
    if w.state.Over? {
      ActsOnEnded(w, acts);
    } else {
      ActsOnLive(w, acts, drop);
      ReasonAppends(Beats(jobs), ActBeats(acts), None, drop);
      RecordIsLast(Beats(jobs) + ActBeats(acts), None);
    }
  }

  lemma {:induction false} RecordIsLast(beats: seq<Beat>, record: Option<string>)
    ensures Record(beats, record).None? <==> record.None? && forall i :: 0 <= i < |beats| ==> !beats[i].Mishap?
    decreases beats
  {
    if beats != [] {
      RecordIsLast(beats[1..], if beats[0].Mishap? then Some(beats[0].message) else record);
      assert forall i :: 1 <= i < |beats| ==> beats[i] == beats[1..][i - 1];
    }
  }

  // --- What is on record

  /** What a run does to the record: a panic noted, or the record taken. */
  datatype Mark = Noted(message: string) | Cleared

  /** The marks of acts of a session that is live or has ended, whether it then is live, and whether the acts went
      on to the last: one that needs a driver gone is the last. */
  datatype Marked = Marked(marks: seq<Mark>, live: bool, whole: bool)

  function Note(seen: Option<string>): seq<Mark> { if seen.Some? then [Noted(seen.value)] else [] }

  /** A driver dropped as an action or a window ends the session: its panic is noted, and taken as the reason. */
  function EndMarks(live: bool, drop: Drop): seq<Mark> {
    if live && drop.Panics? then Note(drop.seen) + [Cleared] else []
  }

  /** A job that panics: that is noted, and taken; a driver dropped for it leaves its own panic on record. */
  function CrashMarks(live: bool, drop: Drop, seen: Option<string>): seq<Mark> {
    Note(seen) + [Cleared] + if live && drop.Panics? then Note(drop.seen) else []
  }

  function Before(marks: seq<Mark>, rest: Marked): Marked { rest.(marks := marks + rest.marks) }

  function ActMarks(acts: seq<Act>, live: bool, drop: Drop): Marked
    decreases acts
  {
    if acts == [] then Marked([], live, true)
    else match acts[0]
      case UseDriver => if live then ActMarks(acts[1..], live, drop) else Marked([], live, false)
      case Recover(message) => Before([Noted(message)], ActMarks(acts[1..], live, drop))
      case EndQuit => Before(EndMarks(live, drop), ActMarks(acts[1..], false, drop))
      case EndClosed => Before(EndMarks(live, drop), ActMarks(acts[1..], false, drop))
  }

  function JobMarks(job: Job, live: bool, drop: Drop): Marked {
    var acts := ActMarks(job.acts, live, drop);
    if acts.whole && job.outcome.Unwinds?
      then Marked(acts.marks + CrashMarks(acts.live, drop, job.outcome.seen), false, true)
      else acts
  }

  function Marks(jobs: seq<Job>, drop: Drop): Marked {
    if jobs == [] then Marked([], true, true)
    else
      var before := Marks(jobs[..|jobs| - 1], drop);
      Before(before.marks, JobMarks(jobs[|jobs| - 1], before.live, drop))
  }

  /** The last panic noted since the last take, with `record` there at first. */
  function LastNoted(marks: seq<Mark>, record: Option<string>): Option<string> {
    if marks == [] then record
    else match marks[|marks| - 1]
      case Noted(message) => Some(message)
      case Cleared => None
  }

  lemma LastNotedAppends(a: seq<Mark>, b: seq<Mark>, record: Option<string>)
    ensures LastNoted(a + b, record) == LastNoted(b, LastNoted(a, record))
  {
    if b == [] {
      assert a + b == a;
    }
  }

  /** A session under `drop` that is as live as its marks say. */
  predicate Under(w: Status, drop: Drop, live: bool) { if live then w.state == Live(drop) else w.state.Over? }

  lemma {:induction false} EndIsMarked(w: Status, why: Ended, drop: Drop, live: bool)
    requires Under(w, drop, live) && !why.Panic?
    ensures AfterEnd(w, why).record == LastNoted(EndMarks(live, drop), w.record)
    ensures AfterEnd(w, why).state.Over?
  {
  }

  lemma {:induction false} ActsAreMarked(w: Status, acts: seq<Act>, drop: Drop, live: bool)
    requires Under(w, drop, live)
    ensures var (after, error) := AfterActs(w, acts); var marked := ActMarks(acts, live, drop);
      && Under(after, drop, marked.live) && (error.None? <==> marked.whole)
      && after.record == LastNoted(marked.marks, w.record)
    decreases acts
  {
    if acts != [] {
      match acts[0] {
        case UseDriver =>
          if live {
            ActsAreMarked(w, acts[1..], drop, live);
          }
        case Recover(message) =>
          ActsAreMarked(w.(record := Some(message)), acts[1..], drop, live);
          LastNotedAppends([Noted(message)], ActMarks(acts[1..], live, drop).marks, w.record);
        case EndQuit =>
          EndIsMarked(w, Quit, drop, live);
          ActsAreMarked(AfterEnd(w, Quit), acts[1..], drop, false);
          LastNotedAppends(EndMarks(live, drop), ActMarks(acts[1..], false, drop).marks, w.record);
        case EndClosed =>
          EndIsMarked(w, Closed, drop, live);
          ActsAreMarked(AfterEnd(w, Closed), acts[1..], drop, false);
          LastNotedAppends(EndMarks(live, drop), ActMarks(acts[1..], false, drop).marks, w.record);
      }
    }
  }

  lemma {:induction false} CrashIsMarked(w: Status, panic: string, seen: Option<string>, drop: Drop, live: bool)
    requires Under(w, drop, live)
    ensures var after := AfterEnd(w.(record := None), Panic(panic));
      after.state.Over? && after.record == LastNoted(CrashMarks(live, drop, seen), w.record)
  {
    LastNotedAppends(Note(seen) + [Cleared], if live && drop.Panics? then Note(drop.seen) else [], w.record);
  }

  lemma {:induction false} JobIsMarked(w: Status, job: Job, drop: Drop, live: bool)
    requires Under(w, drop, live)
    ensures Under(AfterJob(w, job), drop, JobMarks(job, live, drop).live)
    ensures AfterJob(w, job).record == LastNoted(JobMarks(job, live, drop).marks, w.record)
  {
    ActsAreMarked(w, job.acts, drop, live);
    var after, acts := AfterActs(w, job.acts).0, ActMarks(job.acts, live, drop);
    if acts.whole && job.outcome.Unwinds? {
      var seen := job.outcome.seen;
      CrashIsMarked(after, Taken(Recorded(after.record, seen)), seen, drop, acts.live);
      LastNotedAppends(acts.marks, CrashMarks(acts.live, drop, seen), w.record);
    }
  }

  /** Over every run of jobs, and up to any act of one more, what is on record is the last panic noted since the
      last take: one a job caught itself, or one of the drop of a driver that a panic dropped. */
  lemma {:induction false} RecordIsLastNoted(drop: Drop, jobs: seq<Job>, acts: seq<Act>)
    ensures var w, before := AfterJobs(Started(drop), jobs), Marks(jobs, drop);
      && Under(w, drop, before.live)
      && w.record == LastNoted(before.marks, None)
      && AfterActs(w, acts).0.record == LastNoted(before.marks + ActMarks(acts, before.live, drop).marks, None)
    decreases |jobs|
  {
    var w, before := AfterJobs(Started(drop), jobs), Marks(jobs, drop);
    if jobs != [] {
      var n := |jobs| - 1;
      RecordIsLastNoted(drop, jobs[..n], []);
      var earlier := Marks(jobs[..n], drop);
      JobIsMarked(AfterJobs(Started(drop), jobs[..n]), jobs[n], drop, earlier.live);
      LastNotedAppends(earlier.marks, JobMarks(jobs[n], earlier.live, drop).marks, None);
    }
    ActsAreMarked(w, acts, drop, before.live);
    LastNotedAppends(before.marks, ActMarks(acts, before.live, drop).marks, None);
  }

  /** A drop that panics as an action or a window ends the session gives its own panic as the reason, exactly if
      the hook saw that panic or no earlier one was on record. */
  lemma {:induction false} DropIsNamedExactlyWhenFresh(w: Status, why: Ended)
    requires w.state.Live? && w.state.drop.Panics? && !why.Panic?
    ensures AfterEnd(w, why).state == Over(Panic(Own(w.state.drop.seen))) <==> Fresh(w.record, w.state.drop.seen)
  {
  }

  /** A drop that panicked as a panic ended the session stays on record, and a later job that unwinds past the
      hook is answered with it. */
  lemma {:induction false} DropIsReportedLater()
    ensures var jobs := [Job([], Unwinds(Some("first"))), Job([], Unwinds(None))];
      AllAnswers(Started(Panics(Some("old"))), jobs) == [Error(Report("first")), Error(Report("old"))]
  {
    var start, first, second := Started(Panics(Some("old"))), Job([], Unwinds(Some("first"))), Job([], Unwinds(None));
    var jobs := [first, second];
    assert jobs[..1] == [first] && [first][..0] == [];
    assert AllAnswers(start, []) == [] && AllAnswers(start, [first]) == [Error(Report("first"))];
    assert AfterJobs(start, [first]).record == Some("old");
  }

  /** A panic a job caught itself stays on record, and a later job that unwinds past the hook ends the session
      with it. */
  lemma {:induction false} CaughtPanicEndsTheSession()
    ensures var jobs := [Job([Recover("caught")], Content("")), Job([], Unwinds(None))];
      AfterJobs(Started(Quiet), jobs).state == Over(Panic("caught"))
  {
    var start, first, second := Started(Quiet), Job([Recover("caught")], Content("")), Job([], Unwinds(None));
    var jobs := [first, second];
    assert jobs[..1] == [first] && [first][..0] == [];
    assert AfterActs(start, [Recover("caught")]) == AfterActs(start.(record := Some("caught")), []);
    assert AfterJobs(start, [first]).record == Some("caught") && AfterJobs(start, [first]).state == Live(Quiet);
  }

  // --- What each job is answered

  predicate EndsSession(act: Act) { act.EndQuit? || act.EndClosed? }

  /** Acts go on to the last: none needs the driver of a session that has ended, before them or by one of them. */
  ghost predicate ActsGoThrough(acts: seq<Act>, live: bool) {
    forall i :: 0 <= i < |acts| && acts[i].UseDriver? ==> live && forall j :: 0 <= j < i ==> !EndsSession(acts[j])
  }

  lemma FirstGoesThrough(acts: seq<Act>, live: bool)
    requires acts != []
    ensures ActsGoThrough(acts, live) <==>
      (acts[0].UseDriver? ==> live) && ActsGoThrough(acts[1..], live && !EndsSession(acts[0]))
  {
    var rest, then' := acts[1..], live && !EndsSession(acts[0]);
    assert forall i :: 1 <= i < |acts| ==> acts[i] == rest[i - 1];
    if ActsGoThrough(acts, live) {
      forall i | 0 <= i < |rest| && rest[i].UseDriver?
        ensures then' && forall j :: 0 <= j < i ==> !EndsSession(rest[j])
      {
        assert acts[i + 1].UseDriver?;
        forall j | 0 <= j < i ensures !EndsSession(rest[j]) {
          assert rest[j] == acts[j + 1];
        }
      }
    }
    if (acts[0].UseDriver? ==> live) && ActsGoThrough(rest, then') {
      forall i | 0 <= i < |acts| && acts[i].UseDriver?
        ensures live && forall j :: 0 <= j < i ==> !EndsSession(acts[j])
      {
        if i > 0 {
          assert rest[i - 1].UseDriver?;
          forall j | 0 <= j < i ensures !EndsSession(acts[j]) {
            assert j > 0 ==> acts[j] == rest[j - 1];
          }
        }
      }
    }
  }

  /** Acts stop for want of a driver exactly if they do not go through. */
  lemma {:induction false} ActsStop(w: Status, acts: seq<Act>)
    ensures var (after, error) := AfterActs(w, acts);
      && (error.None? <==> ActsGoThrough(acts, w.state.Live?))
      && (error.Some? ==> after.state.Over? && error.value == Explain(after.state.why))
    decreases acts
  {
    if acts != [] {
      FirstGoesThrough(acts, w.state.Live?);
      match acts[0] {
        case UseDriver =>
          if w.state.Live? {
            ActsStop(w, acts[1..]);
          }
        case Recover(message) => ActsStop(w.(record := Some(message)), acts[1..]);
        case EndQuit => ActsStop(AfterEnd(w, Quit), acts[1..]);
        case EndClosed => ActsStop(AfterEnd(w, Closed), acts[1..]);
      }
    }
  }

  /** What a panic is reported as: itself, where the hook saw it, or what was on record. */
  function Reported(seen: Option<string>, record: Option<string>): string {
    if seen.Some? then seen.value else if record.Some? then record.value else UNSEEN
  }

  /** A job after these is answered with its own content or its own error, where its acts go on to the last; where
      they do not, with the reason the session ended for; and where it panics, with the report of its panic or of
      the last noted before it. */
  ghost predicate AnsweredAsDue(drop: Drop, jobs: seq<Job>, job: Job, answer: Answer) {
    var live := Reason(Beats(jobs), None, drop).None?;
    if ActsGoThrough(job.acts, live) then
      match job.outcome
      case Content(text) => answer == Done(text)
      case Fails(error) => answer == Error(error)
      case Unwinds(seen) =>
        var before := Marks(jobs, drop);
        var record := LastNoted(before.marks + ActMarks(job.acts, before.live, drop).marks, None);
        answer == Error(Report(Reported(seen, record)))
    else
      var reason := Reason(Beats(jobs) + ActBeats(job.acts), None, drop);
      reason.Some? && answer == Error(Explain(reason.value))
  }

  /** Acts of a job, after any jobs, that leave the session ended leave it for the reason all of them come to. */
  lemma {:induction false} ActsComeTo(drop: Drop, jobs: seq<Job>, acts: seq<Act>)
    ensures var after := AfterActs(AfterJobs(Started(drop), jobs), acts).0;
      after.state.Over? ==> Reason(Beats(jobs) + ActBeats(acts), None, drop) == Some(after.state.why)
  {
    var w := AfterJobs(Started(drop), jobs);
    EndIsToldOnce(drop, jobs);
    ReasonAppends(Beats(jobs), ActBeats(acts), None, drop);
    if w.state.Live? {
      ActsOnLive(w, acts, drop);
    } else {
      ActsOnEnded(w, acts);
    }
  }

  lemma {:induction false} StoppedAnswer(w: Status, job: Job)
    requires !ActsGoThrough(job.acts, w.state.Live?)
    ensures var after := AfterActs(w, job.acts).0;
      after.state.Over? && Ran(w, job).1 == Error(Explain(after.state.why))
  {
    ActsStop(w, job.acts);
  }

  lemma {:induction false} WholeAnswer(w: Status, job: Job)
    requires ActsGoThrough(job.acts, w.state.Live?)
    ensures Ran(w, job).1 ==
      match job.outcome
      case Content(text) => Done(text)
      case Fails(error) => Error(error)
      case Unwinds(seen) => Error(Report(Reported(seen, AfterActs(w, job.acts).0.record)))
  {
    ActsStop(w, job.acts);
  }

  lemma {:induction false} LivesWithoutReason(drop: Drop, jobs: seq<Job>)
    ensures AfterJobs(Started(drop), jobs).state.Live? <==> Reason(Beats(jobs), None, drop).None?
  {
    EndIsToldOnce(drop, jobs);
  }

  lemma {:induction false} RecordOfActs(drop: Drop, jobs: seq<Job>, acts: seq<Act>)
    ensures AfterActs(AfterJobs(Started(drop), jobs), acts).0.record ==
      LastNoted(Marks(jobs, drop).marks + ActMarks(acts, Marks(jobs, drop).live, drop).marks, None)
  {
    RecordIsLastNoted(drop, jobs, acts);
  }

  lemma {:induction false} AnsweredAfter(drop: Drop, jobs: seq<Job>, job: Job)
    ensures AnsweredAsDue(drop, jobs, job, Ran(AfterJobs(Started(drop), jobs), job).1)
  {
    var w := AfterJobs(Started(drop), jobs);
    LivesWithoutReason(drop, jobs);
    if ActsGoThrough(job.acts, w.state.Live?) {
      WholeAnswer(w, job);
      RecordOfActs(drop, jobs, job.acts);
    } else {
      StoppedAnswer(w, job);
      ActsComeTo(drop, jobs, job.acts);
    }
  }

  /** Over every run each job is answered as is its due, by what the jobs before it and its own acts come to. */
  lemma {:induction false} EachAnswerIsDue(drop: Drop, jobs: seq<Job>, i: nat)
    requires i < |jobs|
    ensures |Answers(AfterJobs(Started(drop), jobs).log)| == |jobs|
    ensures AnsweredAsDue(drop, jobs[..i], jobs[i], Answers(AfterJobs(Started(drop), jobs).log)[i])
  {
    EndIsToldOnce(drop, jobs);
    AnswerStands(drop, jobs, i);
    AnsweredAfter(drop, jobs[..i], jobs[i]);
  }

  lemma {:induction false} AnswerStands(drop: Drop, jobs: seq<Job>, i: nat)
    requires i < |jobs|
    ensures AllAnswers(Started(drop), jobs)[i] == Ran(AfterJobs(Started(drop), jobs[..i]), jobs[i]).1
    decreases |jobs|
  {
    var n := |jobs| - 1;
    if i < n {
      AnswerStands(drop, jobs[..n], i);
      assert jobs[..n][..i] == jobs[..i];
    }
  }
}
