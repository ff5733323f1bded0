/**
 The midnight accrual scheduler (app/core/scheduler.py): every server process runs its own
 loop, and the processes share one lock per UTC date.
 */
module Scheduler {
  import opened Wrappers
  import opened KeyStore

  const DAY_SECONDS := 86400
  const LOCK_SECONDS := 82800

  type Locks = Entries<nat, ()>

  // The UTC date of a moment, counted in days.
  function DayOf(t: nat): nat { t / DAY_SECONDS }

  // One pass of a worker's loop: the clock reads `now`, the store executes the SET at `at`,
  // and the accrual run, if it comes to one, commits or raises.
  datatype Pass = Pass(now: nat, at: nat, commits: bool)

  // An accrual run of a date, started when the lock was taken.
  datatype AccrualRun = AccrualRun(day: nat, at: nat, worker: nat, commits: bool)

  datatype PassResult = PassResult(locks: Locks, last: Option<nat>, run: Option<AccrualRun>)

  // What one pass does to the locks and to the worker's last processed date.
  function DoPass(locks: Locks, last: Option<nat>, worker: nat, p: Pass): PassResult {
    var day := DayOf(p.now);
    if last == Some(day) then PassResult(locks, last, None)
    else if Live(locks, day, p.at) then PassResult(locks, Some(day), None)
    else PassResult(locks[day := Entry((), p.at + LOCK_SECONDS)],
                    if p.commits then Some(day) else last,
                    Some(AccrualRun(day, p.at, worker, p.commits)))
  }

  class Worker {
    const id: nat
    var lastProcessed: Option<nat>

    constructor (id: nat)
      ensures this.id == id && lastProcessed == None
    {
      this.id, lastProcessed := id, None;
    }

    // One pass.  Without Redis every worker takes the lock for granted.
    method Iterate(redis: Redis?<nat, ()>, p: Pass) returns (run: Option<AccrualRun>)
      modifies this, redis
      ensures redis != null ==>
                PassResult(redis.entries, lastProcessed, run) == DoPass(old(redis.entries), old(lastProcessed), id, p)
      ensures redis != null ==>
                var day := p.now / 86400;
                && (run.Some? <==> old(lastProcessed) != Some(day)
                                   && !(day in old(redis.entries) && p.at < old(redis.entries)[day].expires))
                && (run.Some? ==> run.value == AccrualRun(day, p.at, id, p.commits)
                                  && redis.entries == old(redis.entries)[day := Entry((), p.at + 82800)])
                && (run.None? ==> redis.entries == old(redis.entries))
                && lastProcessed == if run.Some? && !p.commits then old(lastProcessed) else Some(day)
      ensures redis == null ==>
                var r := DoPass(map[], old(lastProcessed), id, p);
                lastProcessed == r.last && run == r.run
    {
      run := None;
      var currentDate := DayOf(p.now);
      if lastProcessed != Some(currentDate) {
        var lockAcquired := true;
        if redis != null {
          lockAcquired := redis.SetNx(currentDate, (), LOCK_SECONDS, p.at);
        }
        if lockAcquired {
          run := Some(AccrualRun(currentDate, p.at, id, p.commits));
          if !p.commits {
            return;
          }
        }
        lastProcessed := Some(currentDate);
      }
    }

    // The loop of a worker that runs alone: its passes until it is stopped.
    method RunLoop(redis: Redis<nat, ()>, passes: seq<Pass>) returns (runs: seq<AccrualRun>)
      modifies this, redis
      ensures Trail(redis.entries, lastProcessed, runs) ==
              DoPasses(old(redis.entries), old(lastProcessed), id, passes)
    {
      runs := [];
      var i := 0;
      while i < |passes|
        invariant i <= |passes|
        invariant Trail(redis.entries, lastProcessed, runs) ==
                  DoPasses(old(redis.entries), old(lastProcessed), id, passes[..i])
      {
        assert passes[..i + 1][..i] == passes[..i];
        var run := Iterate(redis, passes[i]);
        runs := runs + if run.Some? then [run.value] else [];
        i := i + 1;
      }
      assert passes[..i] == passes;
    }
  }

  datatype Trail = Trail(locks: Locks, last: Option<nat>, runs: seq<AccrualRun>)

  function DoPasses(locks: Locks, last: Option<nat>, worker: nat, passes: seq<Pass>): Trail {
    if passes == [] then Trail(locks, last, [])
    else
      var t := DoPasses(locks, last, worker, passes[..|passes| - 1]);
      var r := DoPass(t.locks, t.last, worker, passes[|passes| - 1]);
      Trail(r.locks, r.last, t.runs + if r.run.Some? then [r.run.value] else [])
  }

  // --- All workers ------------------------------------------------------------

  // The shared locks, each worker's last processed date, and the accrual runs so far.
  datatype World = World(locks: Locks, last: map<nat, Option<nat>>, runs: seq<AccrualRun>)

  datatype Move = Wakes(worker: nat, pass: Pass) | Restarts(worker: nat)

  function Last(w: World, worker: nat): Option<nat> {
    if worker in w.last then w.last[worker] else None
  }

  // The world of a single worker.
  function Alone(locks: Locks, worker: nat, last: Option<nat>, runs: seq<AccrualRun>): World {
    var lasts: map<nat, Option<nat>> := map[worker := last];
    World(locks, lasts, runs)
  }

  function MoveWorld(w: World, m: Move): World {
    match m
    case Restarts(worker) => w.(last := w.last[worker := None])
    case Wakes(worker, p) =>
      var r := DoPass(w.locks, Last(w, worker), worker, p);
      World(r.locks, w.last[worker := r.last], if r.run.Some? then w.runs + [r.run.value] else w.runs)
  }

  function RunMoves(w: World, moves: seq<Move>): World {
    if moves == [] then w else MoveWorld(RunMoves(w, moves[..|moves| - 1]), moves[|moves| - 1])
  }

  function MovesOf(worker: nat, passes: seq<Pass>): seq<Move> {
    if passes == [] then []
    else MovesOf(worker, passes[..|passes| - 1]) + [Wakes(worker, passes[|passes| - 1])]
  }

  lemma MovesExtend(w: World, moves: seq<Move>, m: Move)
    ensures RunMoves(w, moves + [m]) == MoveWorld(RunMoves(w, moves), m)
  {
    assert (moves + [m])[..|moves|] == moves;
  }

  lemma PassAlone(locks: Locks, worker: nat, last: Option<nat>, runs: seq<AccrualRun>, p: Pass)
    ensures var r := DoPass(locks, last, worker, p);
            MoveWorld(Alone(locks, worker, last, runs), Wakes(worker, p)) ==
            Alone(r.locks, worker, r.last, runs + if r.run.Some? then [r.run.value] else [])
  {
  }

  // The loop of one worker is a run of the world in which only that worker moves.
  lemma {:induction false} LoopIsAWorld(locks: Locks, last: Option<nat>, worker: nat, passes: seq<Pass>)
    ensures var t := DoPasses(locks, last, worker, passes);
            RunMoves(Alone(locks, worker, last, []), MovesOf(worker, passes)) == Alone(t.locks, worker, t.last, t.runs)
  {
    if passes != [] {
      var before, p := passes[..|passes| - 1], passes[|passes| - 1];
      var t := DoPasses(locks, last, worker, before);
      LoopIsAWorld(locks, last, worker, before);
      MovesExtend(Alone(locks, worker, last, []), MovesOf(worker, before), Wakes(worker, p));
      PassAlone(t.locks, worker, t.last, t.runs, p);
    }
  }

  // Nothing has happened yet.
  const START := World(map[], map[], [])

  // Two runs of one date are at least the life of the lock apart.
  ghost predicate Spaced(runs: seq<AccrualRun>) {
    forall i, j :: 0 <= i < j < |runs| && runs[i].day == runs[j].day ==>
      runs[i].at + LOCK_SECONDS <= runs[j].at
  }

  ghost function LastRun(runs: seq<AccrualRun>, day: nat): Option<AccrualRun> {
    if runs == [] then None
    else if runs[|runs| - 1].day == day then Some(runs[|runs| - 1])
    else LastRun(runs[..|runs| - 1], day)
  }

  lemma {:induction false} LastRunIsLast(runs: seq<AccrualRun>, day: nat)
    ensures LastRun(runs, day).None? ==> forall i :: 0 <= i < |runs| ==> runs[i].day != day
    ensures LastRun(runs, day).Some? ==> LastRun(runs, day).value in runs && LastRun(runs, day).value.day == day
    ensures LastRun(runs, day).Some? && Spaced(runs) ==>
              forall i :: 0 <= i < |runs| && runs[i].day == day ==> runs[i].at <= LastRun(runs, day).value.at
  {
    if runs != [] {
      LastRunIsLast(runs[..|runs| - 1], day);
      assert forall i :: 0 <= i < |runs| - 1 ==> runs[i] == runs[..|runs| - 1][i];
    }
  }

  // A date is locked exactly when it has run, until the life of the lock after its last run.
  ghost predicate Locked(w: World) {
    forall day: nat ::
      match LastRun(w.runs, day)
      case None => day !in w.locks
      case Some(r) => day in w.locks && w.locks[day].expires == r.at + LOCK_SECONDS
  }

  lemma LastRunAppend(runs: seq<AccrualRun>, r: AccrualRun, day: nat)
    ensures LastRun(runs + [r], day) == if r.day == day then Some(r) else LastRun(runs, day)
  {
  }

  lemma MoveKeepsLocks(w: World, m: Move)
    requires Locked(w)
    ensures Locked(MoveWorld(w, m))
  {
    var d := MoveWorld(w, m);
    if d.runs != w.runs {
      forall day: nat
        ensures LastRun(d.runs, day) ==
                if d.runs[|w.runs|].day == day then Some(d.runs[|w.runs|]) else LastRun(w.runs, day)
      {
        LastRunAppend(w.runs, d.runs[|w.runs|], day);
      }
    }
  }

  lemma MoveKeepsSpacing(w: World, m: Move)
    requires Spaced(w.runs) && Locked(w)
    ensures Spaced(MoveWorld(w, m).runs)
  {
    var d := MoveWorld(w, m);
    if d.runs != w.runs {
      LastRunIsLast(w.runs, d.runs[|w.runs|].day);
    }
  }

  // Under any interleaving of workers, restarts and failing runs, a date is locked for exactly
  // 23 hours after its last run, so two runs of it are at least 23 hours apart; in particular
  // a run that failed is not repeated by anyone before its lock expires.
  lemma {:induction false} RunsAreSpaced(moves: seq<Move>)
    ensures Spaced(RunMoves(START, moves).runs)
    ensures Locked(RunMoves(START, moves))
  {
    if moves != [] {
      var before := RunMoves(START, moves[..|moves| - 1]);
      RunsAreSpaced(moves[..|moves| - 1]);
      MoveKeepsSpacing(before, moves[|moves| - 1]);
      MoveKeepsLocks(before, moves[|moves| - 1]);
    }
  }

  // --- When a date runs again -------------------------------------------------

  // The last move started a run, and it raised.
  ghost predicate FailedLast(moves: seq<Move>)
    requires moves != []
  {
    var before, after := RunMoves(START, moves[..|moves| - 1]).runs, RunMoves(START, moves).runs;
    |before| < |after| && !after[|before|].commits
  }

  // The worker is done with the date: since it last started, its last pass that did not end in
  // a failed run was a pass of this date, whether that ran the date or found it locked.
  ghost predicate DoneWith(moves: seq<Move>, worker: nat, day: nat) {
    moves != [] &&
    match moves[|moves| - 1]
    case Restarts(v) => v != worker && DoneWith(moves[..|moves| - 1], worker, day)
    case Wakes(v, p) =>
      if v == worker && !FailedLast(moves) then DayOf(p.now) == day
      else DoneWith(moves[..|moves| - 1], worker, day)
  }

  // What a pass does when its worker is, or is not, done with its date.
  lemma PassEffect(w: World, worker: nat, p: Pass)
    ensures var d := MoveWorld(w, Wakes(worker, p));
            var day := DayOf(p.now);
            var runs := Last(w, worker) != Some(day) && !Live(w.locks, day, p.at);
            && d.runs == (if runs then w.runs + [AccrualRun(day, p.at, worker, p.commits)] else w.runs)
            && (Last(d, worker) == if runs && !p.commits then Last(w, worker) else Some(day))
            && forall v :: v != worker ==> Last(d, v) == Last(w, v)
  {
  }

  // The date a worker remembers is the one it is done with.
  lemma {:induction false} MarksAreDone(moves: seq<Move>, worker: nat, day: nat)
    ensures Last(RunMoves(START, moves), worker) == Some(day) <==> DoneWith(moves, worker, day)
  {
    if moves != [] {
      MarksAreDone(moves[..|moves| - 1], worker, day);
      var m := moves[|moves| - 1];
      if m.Wakes? {
        PassEffect(RunMoves(START, moves[..|moves| - 1]), m.worker, m.pass);
      }
    }
  }

  // A pass runs its date exactly when its worker is not done with the date and 82800 s have
  // gone by since the last run of the date, if there was one; so a worker that ran a date or
  // found it locked leaves it alone until it restarts or goes on to another date, and one
  // whose run failed runs it again once the lock has expired.
  lemma PassRule(moves: seq<Move>, worker: nat, p: Pass)
    ensures var runs, day := RunMoves(START, moves).runs, DayOf(p.now);
            RunMoves(START, moves + [Wakes(worker, p)]).runs ==
            if !DoneWith(moves, worker, day)
               && (LastRun(runs, day).Some? ==> LastRun(runs, day).value.at + 82800 <= p.at)
            then runs + [AccrualRun(day, p.at, worker, p.commits)] else runs
  {
    MovesExtend(START, moves, Wakes(worker, p));
    RunsAreSpaced(moves);
    MarksAreDone(moves, worker, DayOf(p.now));
    PassEffect(RunMoves(START, moves), worker, p);
  }

  // The last move runs a date again: its worker is not done with the date, and the lock of the
  // last run of the date has expired.
  ghost predicate Repeats(moves: seq<Move>, m: Move) {
    m.Wakes? &&
    var runs, day := RunMoves(START, moves).runs, DayOf(m.pass.now);
    && !DoneWith(moves, m.worker, day)
    && LastRun(runs, day).Some? && LastRun(runs, day).value.at + 82800 <= m.pass.at
  }

  // The move starts a run of a date that has run before.
  ghost predicate RunsAgain(w: World, m: Move) {
    var runs := MoveWorld(w, m).runs;
    |runs| > |w.runs| && exists i :: 0 <= i < |w.runs| && w.runs[i].day == runs[|w.runs|].day
  }

  lemma RepeatRule(moves: seq<Move>, m: Move)
    ensures RunsAgain(RunMoves(START, moves), m) <==> Repeats(moves, m)
  {
    if m.Wakes? {
      PassRule(moves, m.worker, m.pass);
      MovesExtend(START, moves, m);
      LastRunIsLast(RunMoves(START, moves).runs, DayOf(m.pass.now));
    }
  }

  ghost predicate RanOnce(runs: seq<AccrualRun>) {
    forall i, j :: 0 <= i < j < |runs| ==> runs[i].day != runs[j].day
  }

  lemma OnceMore(w: World, m: Move)
    ensures RanOnce(MoveWorld(w, m).runs) <==> RanOnce(w.runs) && !RunsAgain(w, m)
  {
    var runs := MoveWorld(w, m).runs;
    assert forall i :: 0 <= i < |w.runs| ==> runs[i] == w.runs[i];
  }

  ghost predicate NeverRepeats(moves: seq<Move>) {
    moves != [] ==>
      && NeverRepeats(moves[..|moves| - 1])
      && !Repeats(moves[..|moves| - 1], moves[|moves| - 1])
  }

  // No date runs twice exactly when no pass comes to an expired lock of a date that has run
  // and its worker is not done with.
  lemma {:induction false} EachDateRunsOnce(moves: seq<Move>)
    ensures RanOnce(RunMoves(START, moves).runs) <==> NeverRepeats(moves)
  {
    if moves != [] {
      EachDateRunsOnce(moves[..|moves| - 1]);
      OnceMore(RunMoves(START, moves[..|moves| - 1]), moves[|moves| - 1]);
      RepeatRule(moves[..|moves| - 1], moves[|moves| - 1]);
    }
  }

  // Two workers that never stall run one date twice: the second starts up in its last hour.
  lemma PromptWorkersRunTwice(day: nat)
    ensures var start := day * DAY_SECONDS;
            var runs := MoveWorld(MoveWorld(START,
                          Wakes(0, Pass(start, start, true))),
                          Wakes(1, Pass(start + LOCK_SECONDS, start + LOCK_SECONDS, true))).runs;
            |runs| == 2 && runs[0].day == runs[1].day == day
  {
  }

  // The longest a worker may stall between reading the clock and taking the lock.
  const STALL_LIMIT := 79200

  ghost predicate Prompt(moves: seq<Move>) {
    forall i :: 0 <= i < |moves| && moves[i].Wakes? ==>
      moves[i].pass.now <= moves[i].pass.at <= moves[i].pass.now + STALL_LIMIT
  }

  lemma {:induction false} RunsStartInTime(moves: seq<Move>)
    requires Prompt(moves)
    ensures forall r :: r in RunMoves(START, moves).runs ==>
              r.day * DAY_SECONDS <= r.at < (r.day + 1) * DAY_SECONDS + STALL_LIMIT
  {
    if moves != [] {
      RunsStartInTime(moves[..|moves| - 1]);
      var before := RunMoves(START, moves[..|moves| - 1]);
      var m := moves[|moves| - 1];
      if m.Wakes? {
        var day := DayOf(m.pass.now);
        assert day * DAY_SECONDS <= m.pass.now < (day + 1) * DAY_SECONDS;
      }
    }
  }

  // So at most two runs serve one UTC date, as long as no worker stalls longer.
  lemma AtMostTwoRunsPerDate(moves: seq<Move>, i: nat, j: nat, k: nat)
    requires Prompt(moves) && i < j < k < |RunMoves(START, moves).runs|
    ensures var runs := RunMoves(START, moves).runs;
            !(runs[i].day == runs[j].day == runs[k].day)
  {
    RunsAreSpaced(moves);
    RunsStartInTime(moves);
    var runs := RunMoves(START, moves).runs;
    assert runs[i] in runs && runs[k] in runs;
  }

  // The limit is exact: two runs happen when a worker wakes after the lock has expired, and a
  // third when another read the clock before midnight and stalled one second too long.
  lemma ThreeRunsNeedAStall(day: nat)
    ensures var start := day * DAY_SECONDS;
            var runs := MoveWorld(MoveWorld(MoveWorld(START,
                          Wakes(0, Pass(start, start, true))),
                          Wakes(1, Pass(start + LOCK_SECONDS, start + LOCK_SECONDS, true))),
                          Wakes(2, Pass(start + DAY_SECONDS - 1, start + DAY_SECONDS + STALL_LIMIT, true))).runs;
            |runs| == 3 && runs[0].day == runs[1].day == runs[2].day == day
  {
  }
}
