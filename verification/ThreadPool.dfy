/** importent-code/PthreadPool/threadpool.hpp and 10-16/ThreadPool/threadPool.hpp: workers take tasks from
    an unbounded queue. In the first, push signals only after it has released the mutex; in the second,
    `early`, it still holds it. */
module ThreadPoolModel {
  import opened Text
  import opened Threads

  datatype Pc =
    // Routine: before LockQ, at the isEmpty test, in Wait, woken, before pop, before unLockQ, in Run
    | WEnter | WTest | WBlocked | WWoken | WReady | WUnlock | WRun
    // push: before LockQ, before the push, before unLockQ, before Wakeup
    | SEnter | SPush | SUnlock | SWakeup
    // early push: before the signal, before the unlock
    | SSignal | SRelease

  const HELD := {WTest, WReady, WUnlock, SPush, SUnlock, SSignal, SRelease}
  const WORKER := {WEnter, WTest, WBlocked, WWoken, WReady, WUnlock, WRun}
  // Those who will take a task, or wake a worker that will, without any further push.
  const DUE := {WWoken, WTest, WReady, SUnlock, SWakeup, SSignal}

  datatype State<T> = State(
    early: bool, tq: seq<T>, mtx: Option<Tid>, pc: map<Tid, Pc>, task: map<Tid, T>,
    // History: every task pushed, and every task taken with its worker, in order.
    pushed: seq<T>, taken: seq<(Tid, T)>)

  datatype Move<T> =
    | Go(thread: Tid, item: T, choice: set<Tid>)
    | Spurious(thread: Tid)

  predicate CanStep<T>(s: State<T>, t: Tid) {
    t in s.pc &&
    match s.pc[t]
    case WEnter | WWoken | SEnter => s.mtx.None?
    case WBlocked => false
    case _ => true
  }

  predicate InRange<T>(s: State<T>, t: Tid) { t in s.pc && s.pc[t] == WReady ==> |s.tq| > 0 }

  function WorkerStep<T>(s: State<T>, t: Tid): State<T>
    requires CanStep(s, t) && s.pc[t] in WORKER && InRange(s, t)
  {
    match s.pc[t]
    case WEnter => s.(mtx := Some(t), pc := s.pc[t := WTest])
    case WWoken => s.(mtx := Some(t), pc := s.pc[t := WTest])
    case WTest =>
      if |s.tq| == 0 then s.(mtx := None, pc := s.pc[t := WBlocked]) else s.(pc := s.pc[t := WReady])
    case WReady => s.(tq := s.tq[1..], task := s.task[t := s.tq[0]],
                      taken := s.taken + [(t, s.tq[0])], pc := s.pc[t := WUnlock])
    case WUnlock => s.(mtx := None, pc := s.pc[t := WRun])
    case WRun => s.(pc := s.pc[t := WEnter])
  }

  function PushStep<T>(s: State<T>, t: Tid, item: T, choice: set<Tid>): State<T>
    requires CanStep(s, t) && s.pc[t] !in WORKER
  {
    match s.pc[t]
    case SEnter => s.(mtx := Some(t), pc := s.pc[t := SPush])
    case SPush => s.(tq := s.tq + [item], pushed := s.pushed + [item],
                     pc := s.pc[t := if s.early then SSignal else SUnlock])
    case SUnlock => s.(mtx := None, pc := s.pc[t := SWakeup])
    case SWakeup => s.(pc := MoveAll(s.pc, Woken(At(s.pc, {WBlocked}), choice), WWoken)[t := SEnter])
    case SSignal => s.(pc := MoveAll(s.pc, Woken(At(s.pc, {WBlocked}), choice), WWoken)[t := SRelease])
    case SRelease => s.(mtx := None, pc := s.pc[t := SEnter])
  }

  function Step<T>(s: State<T>, m: Move<T>): State<T>
    requires InRange(s, m.thread)
  {
    match m
    case Spurious(t) => if t in s.pc && s.pc[t] == WBlocked then s.(pc := s.pc[t := WWoken]) else s
    case Go(t, item, choice) =>
      if !CanStep(s, t) then s
      else if s.pc[t] in WORKER then WorkerStep(s, t)
      else PushStep(s, t, item, choice)
  }

  // ---------------------------------------------------------------- the invariant

  function Tasks<T>(taken: seq<(Tid, T)>): (r: seq<T>)
    ensures |r| == |taken|
  {
    seq(|taken|, i requires 0 <= i < |taken| => taken[i].1)
  }

  ghost predicate Fifo<T>(s: State<T>) {
    && s.pushed == Tasks(s.taken) + s.tq
    && (forall t :: t in s.pc && s.pc[t] == WReady ==> |s.tq| > 0)
  }

  /** What a worker runs is the task it took last. */
  ghost predicate RunsOwnTask<T>(s: State<T>) {
    forall t :: t in s.pc && s.pc[t] in {WUnlock, WRun} ==>
      t in s.task && exists i :: 0 <= i < |s.taken| && s.taken[i] == (t, s.task[t]) && TookLast(s.taken, i, t)
  }

  ghost predicate TookLast<T>(taken: seq<(Tid, T)>, i: nat, t: Tid) {
    forall j :: i < j < |taken| ==> taken[j].0 != t
  }

  /** While a worker waits, every queued task is somebody's business, the signal still to come included. */
  ghost predicate TasksCovered<T>(s: State<T>) {
    Count(s.pc, {WBlocked}) > 0 ==> |s.tq| <= Count(s.pc, DUE)
  }

  ghost predicate Inv<T>(s: State<T>) {
    Holds(s.mtx, s.pc, HELD) && Fifo(s) && RunsOwnTask(s) && TasksCovered(s)
  }

  ghost predicate Initial<T>(s: State<T>) {
    && s.tq == s.pushed == [] && s.taken == [] && s.mtx.None?
    && forall t :: t in s.pc ==> s.pc[t] in {WEnter, SEnter}
  }

  lemma InitialInv<T>(s: State<T>)
    requires Initial(s)
    ensures Inv(s)
  {
  }

  lemma WorkerKeepsFifo<T>(s: State<T>, t: Tid)
    requires Inv(s) && CanStep(s, t) && s.pc[t] in WORKER
    ensures Fifo(WorkerStep(s, t))
  {
  }

  lemma WorkerKeepsOwnTask<T>(s: State<T>, t: Tid)
    requires Inv(s) && CanStep(s, t) && s.pc[t] in WORKER
    ensures RunsOwnTask(WorkerStep(s, t))
  {
    var s' := WorkerStep(s, t);
    forall u | u in s'.pc && s'.pc[u] in {WUnlock, WRun}
      ensures u in s'.task
      ensures exists i :: 0 <= i < |s'.taken| && s'.taken[i] == (u, s'.task[u]) && TookLast(s'.taken, i, u)
    {
      if u == t && s.pc[t] == WReady {
        assert s'.taken[|s.taken|] == (u, s'.task[u]) && TookLast(s'.taken, |s.taken|, u);
      } else {
        var i :| 0 <= i < |s.taken| && s.taken[i] == (u, s.task[u]) && TookLast(s.taken, i, u);
        assert s'.taken[i] == s.taken[i] && TookLast(s'.taken, i, u);
      }
    }
  }

  lemma PushKeepsFifo<T>(s: State<T>, t: Tid, item: T, choice: set<Tid>)
    requires Inv(s) && CanStep(s, t) && s.pc[t] !in WORKER
    ensures Fifo(PushStep(s, t, item, choice))
  {
    hide RunsOwnTask;
  }

  lemma PushKeepsOwnTask<T>(s: State<T>, t: Tid, item: T, choice: set<Tid>)
    requires RunsOwnTask(s) && CanStep(s, t) && s.pc[t] !in WORKER
    ensures RunsOwnTask(PushStep(s, t, item, choice))
  {
  }

  lemma WorkerKeepsLock<T>(s: State<T>, t: Tid)
    requires Inv(s) && CanStep(s, t) && s.pc[t] in WORKER
    ensures Holds(WorkerStep(s, t).mtx, WorkerStep(s, t).pc, HELD)
  {
    HoldsKept(s.mtx, s.pc, HELD, t, WorkerStep(s, t).pc[t]);
  }

  lemma PushKeepsLock<T>(s: State<T>, t: Tid, item: T, choice: set<Tid>)
    requires Inv(s) && CanStep(s, t) && s.pc[t] !in WORKER
    ensures var s' := PushStep(s, t, item, choice); Holds(s'.mtx, s'.pc, HELD)
  {
    hide Fifo, RunsOwnTask, TasksCovered;
    if s.pc[t] in {SWakeup, SSignal} {
      SignalKeepsLock(s, t, item, choice);
    } else {
      hide Holds;
      HoldsKept(s.mtx, s.pc, HELD, t, PushStep(s, t, item, choice).pc[t]);
    }
  }

  lemma SignalKeepsLock<T>(s: State<T>, t: Tid, item: T, choice: set<Tid>)
    requires Holds(s.mtx, s.pc, HELD) && CanStep(s, t) && s.pc[t] in {SWakeup, SSignal}
    ensures var s' := PushStep(s, t, item, choice); Holds(s'.mtx, s'.pc, HELD)
  {
    hide Holds;
    var w := Woken(At(s.pc, {WBlocked}), choice);
    HoldsAfterWake(s.mtx, s.pc, HELD, w, WWoken);
    HoldsKept(s.mtx, MoveAll(s.pc, w, WWoken), HELD, t, PushStep(s, t, item, choice).pc[t]);
  }

  lemma WorkerKeepsCovered<T>(s: State<T>, t: Tid)
    requires Inv(s) && CanStep(s, t) && s.pc[t] in WORKER
    ensures TasksCovered(WorkerStep(s, t))
  {
    var to := WorkerStep(s, t).pc[t];
    CountMove(s.pc, t, to, {WBlocked});
    CountMove(s.pc, t, to, DUE);
  }

  lemma PushKeepsCovered<T>(s: State<T>, t: Tid, item: T, choice: set<Tid>)
    requires Inv(s) && CanStep(s, t) && s.pc[t] !in WORKER
    ensures TasksCovered(PushStep(s, t, item, choice))
  {
    var to := PushStep(s, t, item, choice).pc[t];
    if s.pc[t] in {SWakeup, SSignal} {
      var w := Woken(At(s.pc, {WBlocked}), choice);
      var pc := MoveAll(s.pc, w, WWoken);
      CountMoveAll(s.pc, w, WBlocked, WWoken, {WBlocked});
      CountMoveAll(s.pc, w, WBlocked, WWoken, DUE);
      CountMove(pc, t, to, {WBlocked});
      CountMove(pc, t, to, DUE);
    } else {
      CountMove(s.pc, t, to, {WBlocked});
      CountMove(s.pc, t, to, DUE);
    }
  }

  lemma StepKeepsInv<T>(s: State<T>, m: Move<T>)
    requires Inv(s)
    ensures InRange(s, m.thread) && Inv(Step(s, m))
  {
    match m
    case Spurious(t) =>
      if t in s.pc && s.pc[t] == WBlocked {
        HoldsKept(s.mtx, s.pc, HELD, t, WWoken);
        CountMove(s.pc, t, WWoken, {WBlocked});
        CountMove(s.pc, t, WWoken, DUE);
      }
    case Go(t, item, choice) =>
      if CanStep(s, t) {
        if s.pc[t] in WORKER {
          WorkerKeepsFifo(s, t);
          WorkerKeepsOwnTask(s, t);
          WorkerKeepsLock(s, t);
          WorkerKeepsCovered(s, t);
        } else {
          PushKeepsFifo(s, t, item, choice);
          PushKeepsOwnTask(s, t, item, choice);
          PushKeepsLock(s, t, item, choice);
          PushKeepsCovered(s, t, item, choice);
        }
      }
  }

  ghost function Run<T>(s: State<T>, moves: seq<Move<T>>): (r: State<T>)
    requires Inv(s)
    ensures Inv(r)
    decreases |moves|
  {
    if moves == [] then s
    else
      StepKeepsInv(s, moves[0]);
      Run(Step(s, moves[0]), moves[1..])
  }

  // ------------------------------------------------------------------ the results

  /** Whenever the mutex is free and a worker waits, every queued task has a woken worker or a push
      that has yet to signal. */
  lemma NoLostWakeup<T>(s: State<T>)
    requires Inv(s) && s.mtx.None? && Count(s.pc, {WBlocked}) > 0
    ensures |s.tq| <= Count(s.pc, {WWoken, SWakeup})
  {
    assert At(s.pc, DUE) == At(s.pc, {WWoken, SWakeup});
  }

  /** The thread moves, and is not just about to begin another push. */
  predicate Progress<T>(s: State<T>, t: Tid) { CanStep(s, t) && s.pc[t] != SEnter }

  /** A queued task is never stranded: some thread can step that is not just about to push, even
      if no spurious wakeup ever happens. */
  lemma TaskNotStranded<T>(s: State<T>, w: Tid)
    requires Inv(s) && s.tq != [] && w in s.pc && s.pc[w] in WORKER
    ensures exists t :: Progress(s, t)
  {
    if s.mtx.Some? {
      assert Progress(s, s.mtx.value);
    } else if t :| t in s.pc && s.pc[t] !in {WBlocked, SEnter} {
      assert Progress(s, t);
    } else {
      CountPositive(s.pc, w, {WBlocked});
      CountZero(s.pc, {WWoken, SWakeup});
      NoLostWakeup(s);
      assert false;
    }
  }

  /** Every run from the constructor on: each pushed task is taken at most once, in the order of the
      pushes; pushed is taken plus still queued; and no queued task is stranded. */
  lemma EveryRun<T>(s: State<T>, moves: seq<Move<T>>)
    requires Initial(s)
    ensures Inv(s) && var r := Run(s, moves);
            && r.pushed == Tasks(r.taken) + r.tq
            && (r.mtx.None? && Count(r.pc, {WBlocked}) > 0 ==> |r.tq| <= Count(r.pc, {WWoken, SWakeup}))
            && (r.tq != [] && (exists w :: w in r.pc && r.pc[w] in WORKER) ==>
                  exists t :: Progress(r, t))
  {
    InitialInv(s);
    var r := Run(s, moves);
    if r.mtx.None? && Count(r.pc, {WBlocked}) > 0 {
      NoLostWakeup(r);
    }
    if r.tq != [] && exists w :: w in r.pc && r.pc[w] in WORKER {
      var w :| w in r.pc && r.pc[w] in WORKER;
      TaskNotStranded(r, w);
    }
  }

  // ---------------------------------------------------------- the queue empties itself

  /** How far a thread is from having nothing more to do for the tasks there are. */
  function Weight(p: Pc): nat {
    match p
    case WUnlock => 6
    case WRun => 5
    case WEnter => 4
    case WBlocked => 4
    case WWoken => 4
    case WTest => 3
    case WReady => 2
    case SPush => 10
    case SUnlock => 2
    case SWakeup => 1
    case SSignal => 2
    case SRelease => 1
    case SEnter => 0
  }

  ghost function Weigh(pc: map<Tid, Pc>): nat {
    6 * Count(pc, {WUnlock}) + 5 * Count(pc, {WRun}) + 4 * Count(pc, {WEnter, WBlocked, WWoken})
    + 3 * Count(pc, {WTest}) + 2 * Count(pc, {WReady, SUnlock, SSignal}) + 10 * Count(pc, {SPush})
    + Count(pc, {SWakeup, SRelease})
  }

  ghost function Work<T>(s: State<T>): nat { 5 * |s.tq| + Weigh(s.pc) }

  lemma WeighMove(pc: map<Tid, Pc>, t: Tid, to: Pc)
    requires t in pc
    ensures Weigh(pc[t := to]) == Weigh(pc) - Weight(pc[t]) + Weight(to)
  {
    CountMove(pc, t, to, {WUnlock});
    CountMove(pc, t, to, {WRun});
    CountMove(pc, t, to, {WEnter, WBlocked, WWoken});
    CountMove(pc, t, to, {WTest});
    CountMove(pc, t, to, {WReady, SUnlock, SSignal});
    CountMove(pc, t, to, {SPush});
    CountMove(pc, t, to, {SWakeup, SRelease});
  }

  lemma WeighWake(pc: map<Tid, Pc>, moving: set<Tid>)
    requires forall t :: t in moving ==> t in pc && pc[t] == WBlocked
    ensures Weigh(MoveAll(pc, moving, WWoken)) == Weigh(pc)
  {
    CountMoveAll(pc, moving, WBlocked, WWoken, {WUnlock});
    CountMoveAll(pc, moving, WBlocked, WWoken, {WRun});
    CountMoveAll(pc, moving, WBlocked, WWoken, {WEnter, WBlocked, WWoken});
    CountMoveAll(pc, moving, WBlocked, WWoken, {WTest});
    CountMoveAll(pc, moving, WBlocked, WWoken, {WReady, SUnlock, SSignal});
    CountMoveAll(pc, moving, WBlocked, WWoken, {SPush});
    CountMoveAll(pc, moving, WBlocked, WWoken, {SWakeup, SRelease});
  }

  lemma WorkerUsesWork<T>(s: State<T>, t: Tid)
    requires s.tq != [] && CanStep(s, t) && s.pc[t] in WORKER && InRange(s, t)
    ensures Work(WorkerStep(s, t)) < Work(s)
  {
    hide Weigh;
    WeighMove(s.pc, t, WorkerStep(s, t).pc[t]);
  }

  lemma PushUsesWork<T>(s: State<T>, t: Tid, item: T, choice: set<Tid>)
    requires Progress(s, t) && s.pc[t] !in WORKER
    ensures Work(PushStep(s, t, item, choice)) < Work(s)
  {
    hide Weigh;
    var to := PushStep(s, t, item, choice).pc[t];
    if s.pc[t] in {SWakeup, SSignal} {
      var w := Woken(At(s.pc, {WBlocked}), choice);
      WeighWake(s.pc, w);
      WeighMove(MoveAll(s.pc, w, WWoken), t, to);
    } else {
      WeighMove(s.pc, t, to);
    }
  }

  /** While a task is queued, every such statement of any thread uses up work. */
  lemma ProgressUsesWork<T>(s: State<T>, t: Tid, item: T, choice: set<Tid>)
    requires Inv(s) && s.tq != [] && Progress(s, t)
    ensures InRange(s, t) && Work(Step(s, Go(t, item, choice))) < Work(s)
  {
    hide Work;
    if s.pc[t] in WORKER {
      WorkerUsesWork(s, t);
    } else {
      PushUsesWork(s, t, item, choice);
    }
  }

  lemma SpuriousKeepsWork<T>(s: State<T>, t: Tid)
    requires Inv(s)
    ensures InRange(s, t) && Work(Step(s, Spurious(t))) == Work(s)
  {
    if t in s.pc && s.pc[t] == WBlocked {
      WeighMove(s.pc, t, WWoken);
    }
  }

  /** A schedule that begins no push and picks only threads that can move. */
  ghost predicate Draining<T>(s: State<T>, moves: seq<Move<T>>)
    requires Inv(s)
    decreases |moves|
  {
    moves == [] ||
    (StepKeepsInv(s, moves[0]);
     (moves[0].Go? ==> Progress(s, moves[0].thread)) && Draining(Step(s, moves[0]), moves[1..]))
  }

  function Steps<T>(moves: seq<Move<T>>): nat {
    if moves == [] then 0 else (if moves[0].Go? then 1 else 0) + Steps(moves[1..])
  }

  /** At some point of the run the queue is empty. */
  ghost predicate Emptied<T>(s: State<T>, moves: seq<Move<T>>)
    requires Inv(s)
  {
    exists i :: 0 <= i <= |moves| && Run(s, moves[..i]).tq == []
  }

  lemma {:induction false} WorkUsedUp<T>(s: State<T>, moves: seq<Move<T>>)
    requires Inv(s) && Draining(s, moves) && Steps(moves) > Work(s)
    ensures Emptied(s, moves)
    decreases |moves|
  {
    hide Inv, Step, Work, Progress, InRange;
    if s.tq == [] {
      assert Run(s, moves[..0]).tq == [];
    } else {
      var m := moves[0];
      StepKeepsInv(s, m);
      match m {
        case Go(t, item, choice) => ProgressUsesWork(s, t, item, choice);
        case Spurious(t) => SpuriousKeepsWork(s, t);
      }
      WorkUsedUp(Step(s, m), moves[1..]);
      var i :| 0 <= i <= |moves| - 1 && Run(Step(s, m), moves[1..][..i]).tq == [];
      assert moves[..i + 1][1..] == moves[1..][..i];
      assert Run(s, moves[..i + 1]).tq == [];
    }
  }

  lemma {:induction false} WorkersStay<T>(s: State<T>, moves: seq<Move<T>>, w: Tid)
    requires Inv(s) && w in s.pc && s.pc[w] in WORKER
    ensures w in Run(s, moves).pc && Run(s, moves).pc[w] in WORKER
    decreases |moves|
  {
    if moves != [] {
      StepKeepsInv(s, moves[0]);
      WorkerStays(s, moves[0], w);
      WorkersStay(Step(s, moves[0]), moves[1..], w);
    }
  }

  lemma WorkerStays<T>(s: State<T>, m: Move<T>, w: Tid)
    requires InRange(s, m.thread) && w in s.pc && s.pc[w] in WORKER
    ensures w in Step(s, m).pc && Step(s, m).pc[w] in WORKER
  {
  }

  /** However the scheduler picks, and whatever waiters wake for no reason: as long as new pushes do not
      begin, either the queue has been empty, or at most Work(s) statements were executed and there is a
      thread that can execute another. So a schedule neither goes on without emptying the queue nor ends
      before it has. */
  lemma QueueDrains<T>(s: State<T>, moves: seq<Move<T>>, w: Tid)
    requires Inv(s) && Draining(s, moves) && w in s.pc && s.pc[w] in WORKER
    ensures Emptied(s, moves) || (Steps(moves) <= Work(s) && exists t :: Progress(Run(s, moves), t))
  {
    assert moves[..|moves|] == moves;
    if Steps(moves) > Work(s) {
      WorkUsedUp(s, moves);
    } else if Run(s, moves).tq != [] {
      WorkersStay(s, moves, w);
      TaskNotStranded(Run(s, moves), w);
    }
  }

  // ------------------------------------------------- what is pushed, and calls left alone

  /** The tasks that the pushes among the moves hand in, in the order in which they get to their insertion. */
  ghost function HandedIn<T>(s: State<T>, moves: seq<Move<T>>): seq<T>
    requires Inv(s)
    decreases |moves|
  {
    if moves == [] then []
    else
      StepKeepsInv(s, moves[0]);
      var m := moves[0];
      (if m.Go? && m.thread in s.pc && s.pc[m.thread] == SPush then [m.item] else [])
      + HandedIn(Step(s, m), moves[1..])
  }

  /** The queue takes exactly those tasks. */
  lemma {:induction false} PushedIsHandedIn<T>(s: State<T>, moves: seq<Move<T>>)
    requires Inv(s)
    ensures Run(s, moves).pushed == s.pushed + HandedIn(s, moves)
    decreases |moves|
  {
    hide Step, Inv, InRange;
    if moves != [] {
      var m := moves[0];
      StepKeepsInv(s, m);
      InsertsOwn(s, m);
      PushedIsHandedIn(Step(s, m), moves[1..]);
      Append(s.pushed, if m.Go? && m.thread in s.pc && s.pc[m.thread] == SPush then [m.item] else [],
             HandedIn(Step(s, m), moves[1..]));
    }
  }

  lemma Append<T>(a: seq<T>, b: seq<T>, c: seq<T>)
    ensures a + b + c == a + (b + c)
  {
  }

  lemma InsertsOwn<T>(s: State<T>, m: Move<T>)
    requires InRange(s, m.thread)
    ensures Step(s, m).pushed ==
              s.pushed + if m.Go? && m.thread in s.pc && s.pc[m.thread] == SPush then [m.item] else []
  {
  }

  /** The same move n times: a thread that is left alone. */
  ghost function Solo<T>(s: State<T>, m: Move<T>, n: nat): (r: State<T>)
    requires Inv(s)
    ensures Inv(r)
    decreases n
  {
    if n == 0 then s
    else
      StepKeepsInv(s, m);
      Solo(Step(s, m), m, n - 1)
  }

  /** How many statements a push, or a worker with a task to take, has left. */
  function Left(p: Pc): nat {
    match p
    case SEnter => 4
    case SPush => 3
    case SUnlock => 2
    case SSignal => 2
    case SWakeup => 1
    case SRelease => 1
    case WEnter => 5
    case WTest => 4
    case WReady => 3
    case WUnlock => 2
    case WRun => 1
    case _ => 0
  }

  lemma PushMoves<T>(s: State<T>, t: Tid, item: T, choice: set<Tid>)
    requires CanStep(s, t) && s.pc[t] !in WORKER
    ensures var r, p := PushStep(s, t, item, choice), s.pc[t];
            && t in r.pc && r.pc[t] !in WORKER
            && (if Left(p) == 1 then r.pc[t] == SEnter else Left(r.pc[t]) == Left(p) - 1)
            && r.mtx == (if p == SEnter then Some(t) else if p in {SUnlock, SRelease} then None else s.mtx)
            && (r.pc[t] in HELD <==> p in {SEnter, SPush, SSignal})
            && r.tq == s.tq + (if p == SPush then [item] else []) && r.taken == s.taken
  {
  }

  lemma {:induction false} FinishPush<T>(s: State<T>, m: Move<T>)
    requires Inv(s) && m.Go? && m.thread in s.pc && s.pc[m.thread] !in WORKER
    requires s.mtx == if s.pc[m.thread] in HELD then Some(m.thread) else None
    ensures var r := Solo(s, m, Left(s.pc[m.thread]));
            && r.tq == s.tq + (if s.pc[m.thread] in {SEnter, SPush} then [m.item] else []) && r.taken == s.taken
            && m.thread in r.pc && r.pc[m.thread] == SEnter && r.mtx.None?
    decreases Left(s.pc[m.thread])
  {
    hide Inv, PushStep;
    StepKeepsInv(s, m);
    PushMoves(s, m.thread, m.item, m.choice);
    if Left(s.pc[m.thread]) > 1 {
      FinishPush(Step(s, m), m);
    }
  }

  /** A push that finds the mutex free, and is not disturbed, appends its task in four statements. */
  lemma PushAlone<T>(s: State<T>, m: Move<T>)
    requires Inv(s) && m.Go? && m.thread in s.pc && s.pc[m.thread] == SEnter && s.mtx.None?
    ensures var r := Solo(s, m, 4);
            && r.tq == s.tq + [m.item] && r.taken == s.taken
            && m.thread in r.pc && r.pc[m.thread] == SEnter && r.mtx.None?
  {
    FinishPush(s, m);
  }

  lemma WorkerMoves<T>(s: State<T>, t: Tid)
    requires CanStep(s, t) && s.pc[t] in {WEnter, WTest, WReady, WUnlock, WRun} && InRange(s, t)
    requires s.pc[t] == WTest ==> s.tq != []
    ensures var r, p := WorkerStep(s, t), s.pc[t];
            && t in r.pc && r.pc[t] in {WEnter, WTest, WReady, WUnlock, WRun}
            && (if p == WRun then r.pc[t] == WEnter else Left(r.pc[t]) == Left(p) - 1)
            && r.mtx == (if p == WEnter then Some(t) else if p == WUnlock then None else s.mtx)
            && r.tq == (if p == WReady then s.tq[1..] else s.tq) && r.pushed == s.pushed
            && r.taken == s.taken + (if p == WReady then [(t, s.tq[0])] else [])
  {
  }

  lemma {:induction false} FinishTask<T>(s: State<T>, m: Move<T>)
    requires Inv(s) && m.Go? && m.thread in s.pc && s.pc[m.thread] in {WEnter, WTest, WReady, WUnlock, WRun}
    requires s.mtx == if s.pc[m.thread] in HELD then Some(m.thread) else None
    requires s.pc[m.thread] in {WEnter, WTest, WReady} ==> s.tq != []
    ensures var r, takes := Solo(s, m, Left(s.pc[m.thread])), s.pc[m.thread] in {WEnter, WTest, WReady};
            && r.tq == (if takes then s.tq[1..] else s.tq)
            && r.taken == s.taken + (if takes then [(m.thread, s.tq[0])] else [])
            && m.thread in r.pc && r.pc[m.thread] == WEnter && r.mtx.None?
    decreases Left(s.pc[m.thread])
  {
    hide Inv, WorkerStep;
    StepKeepsInv(s, m);
    WorkerMoves(s, m.thread);
    if s.pc[m.thread] != WRun {
      FinishTask(Step(s, m), m);
    }
  }

  /** A worker that finds the mutex free and a task, and is not disturbed, takes and runs the front one and is
      ready for the next in five statements. */
  lemma TaskAlone<T>(s: State<T>, m: Move<T>)
    requires Inv(s) && m.Go? && m.thread in s.pc && s.pc[m.thread] == WEnter && s.mtx.None? && s.tq != []
    ensures var r := Solo(s, m, 5);
            && r.tq == s.tq[1..] && r.taken == s.taken + [(m.thread, s.tq[0])]
            && m.thread in r.pc && r.pc[m.thread] == WEnter && r.mtx.None?
  {
    FinishTask(s, m);
  }

  // -------------------------------------------------------------------- the object

  class ThreadPool<T> {
    const early: bool
    var tq: seq<T>
    var mtx: Option<Tid>
    var pc: map<Tid, Pc>
    var task: map<Tid, T>
    ghost var pushed: seq<T>
    ghost var taken: seq<(Tid, T)>

    ghost function View(): State<T>
      reads this
    {
      State(early, tq, mtx, pc, task, pushed, taken)
    }

    constructor (early: bool, threads: map<Tid, Pc>)
      requires forall t :: t in threads ==> threads[t] in {WEnter, SEnter}
      ensures Initial(View()) && pc == threads && this.early == early
    {
      this.early := early;
      tq, mtx, pc, task := [], None, threads, map[];
      pushed, taken := [], [];
    }

    predicate isEmpty()
      reads this
    {
      |tq| == 0
    }

    /** The thread's next statement would not block. */
    predicate Runnable(t: Tid)
      reads this
      ensures Runnable(t) == CanStep(View(), t)
    {
      t in pc && pc[t] != WBlocked && (pc[t] in {WEnter, WWoken, SEnter} ==> mtx.None?)
    }

    method Wait(t: Tid)
      modifies this`mtx, this`pc
      ensures mtx == None && pc == old(pc)[t := WBlocked]
    {
      mtx := None;
      pc := pc[t := WBlocked];
    }

    method Wakeup(choice: set<Tid>)
      modifies this`pc
      ensures pc == MoveAll(old(pc), Woken(At(old(pc), {WBlocked}), choice), WWoken)
    {
      pc := MoveAll(pc, Woken(At(pc, {WBlocked}), choice), WWoken);
    }

    /** The front of the queue moves into the worker's own task. */
    method pop(t: Tid)
      requires |tq| > 0
      modifies this`tq, this`task, this`taken
      ensures tq == old(tq)[1..] && task == old(task)[t := old(tq)[0]] && taken == old(taken) + [(t, old(tq)[0])]
    {
      task := task[t := tq[0]];
      taken := taken + [(t, tq[0])];
      tq := tq[1..];
    }

    /** The next statement of a worker's Routine. */
    method Routine(t: Tid)
      requires CanStep(View(), t) && pc[t] in WORKER && InRange(View(), t)
      modifies this
      ensures View() == WorkerStep(old(View()), t)
    {
      match pc[t]
      case WEnter =>
        mtx := Some(t);
        pc := pc[t := WTest];
      case WWoken =>
        mtx := Some(t);
        pc := pc[t := WTest];
      case WTest =>
        if isEmpty() {
          Wait(t);
        } else {
          pc := pc[t := WReady];
        }
      case WReady =>
        pop(t);
        pc := pc[t := WUnlock];
      case WUnlock =>
        mtx := None;
        pc := pc[t := WRun];
      case WRun =>
        pc := pc[t := WEnter];
    }

    /** The next statement of push by thread `t`. */
    method Push(t: Tid, item: T, choice: set<Tid>)
      requires CanStep(View(), t) && pc[t] !in WORKER
      modifies this
      ensures View() == PushStep(old(View()), t, item, choice)
    {
      match pc[t]
      case SEnter =>
        mtx := Some(t);
        pc := pc[t := SPush];
      case SPush =>
        tq := tq + [item];
        pushed := pushed + [item];
        pc := pc[t := if early then SSignal else SUnlock];
      case SUnlock =>
        mtx := None;
        pc := pc[t := SWakeup];
      case SWakeup =>
        Wakeup(choice);
        pc := pc[t := SEnter];
      case SSignal =>
        Wakeup(choice);
        pc := pc[t := SRelease];
      case SRelease =>
        mtx := None;
        pc := pc[t := SEnter];
    }

    /** Any interleaving of workers, pushers and spurious wakeups. */
    method Interleave(moves: seq<Move<T>>)
      requires Initial(View())
      modifies this
      ensures Inv(old(View())) && View() == Run(old(View()), moves)
    {
      InitialInv(View());
      for i := 0 to |moves|
        invariant Inv(View()) && Inv(old(View()))
        invariant Run(View(), moves[i..]) == Run(old(View()), moves)
      {
        var m := moves[i];
        assert moves[i..][1..] == moves[i + 1..];
        StepKeepsInv(View(), m);
        match m
        case Spurious(t) =>
          if t in pc && pc[t] == WBlocked {
            pc := pc[t := WWoken];
          }
        case Go(t, item, choice) =>
          if Runnable(t) {
            if pc[t] in WORKER {
              Routine(t);
            } else {
              Push(t, item, choice);
            }
          }
      }
    }
  }
}
