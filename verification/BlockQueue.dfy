/** importent-code/BlockQueue/BlockQueue.hpp: a bounded queue as a monitor with one mutex and two
    condition variables. A signal wakes at least one waiter if there is one, waiters may also wake
    for no reason, and any thread may take the mutex before a woken one does. */
module BlockQueueModel {
  import opened Text
  import opened Threads

  datatype Pc =
    // push: before the lock, at the test, waiting on _full, woken, before the push, before the
    // signal, before the unlock
    | PEnter | PTest | PBlocked | PWoken | PReady | PSignal | PUnlock
    // pop, likewise, waiting on _empty
    | CEnter | CTest | CBlocked | CWoken | CReady | CSignal | CUnlock

  const HELD := {PTest, PReady, PSignal, PUnlock, CTest, CReady, CSignal, CUnlock}
  const CONSUMER := {CEnter, CTest, CBlocked, CWoken, CReady, CSignal, CUnlock}
  // Those who will take an item, or wake somebody who will, without any further push.
  const CDUE := {CWoken, CTest, CReady, PSignal}
  // Those who will fill a free place, or wake somebody who will, without any further pop.
  const PDUE := {PWoken, PTest, PReady, CSignal}

  datatype State<T> = State(
    capacity: nat, bq: seq<T>, mtx: Option<Tid>, pc: map<Tid, Pc>,
    // History: every item pushed and every item popped, in order.
    pushed: seq<T>, popped: seq<T>)

  datatype Move<T> =
    // The thread executes its next statement; a push inserts `item`, a signal wakes among `choice`.
    | Go(thread: Tid, item: T, choice: set<Tid>)
    // A spurious wakeup.
    | Spurious(thread: Tid)

  predicate CanStep<T>(s: State<T>, t: Tid) {
    t in s.pc &&
    match s.pc[t]
    case PEnter | PWoken | CEnter | CWoken => s.mtx.None?
    case PBlocked | CBlocked => false
    case _ => true
  }

  predicate InRange<T>(s: State<T>, t: Tid) { t in s.pc && s.pc[t] == CReady ==> |s.bq| > 0 }

  function PushStep<T>(s: State<T>, t: Tid, item: T, choice: set<Tid>): State<T>
    requires CanStep(s, t) && s.pc[t] !in CONSUMER
  {
    match s.pc[t]
    case PEnter => s.(mtx := Some(t), pc := s.pc[t := PTest])
    case PWoken => s.(mtx := Some(t), pc := s.pc[t := PTest])
    case PTest =>
      if |s.bq| == s.capacity then s.(mtx := None, pc := s.pc[t := PBlocked]) else s.(pc := s.pc[t := PReady])
    case PReady => s.(bq := s.bq + [item], pushed := s.pushed + [item], pc := s.pc[t := PSignal])
    case PSignal => s.(pc := MoveAll(s.pc, Woken(At(s.pc, {CBlocked}), choice), CWoken)[t := PUnlock])
    case PUnlock => s.(mtx := None, pc := s.pc[t := PEnter])
  }

  function PopStep<T>(s: State<T>, t: Tid, choice: set<Tid>): State<T>
    requires CanStep(s, t) && s.pc[t] in CONSUMER && InRange(s, t)
  {
    match s.pc[t]
    case CEnter => s.(mtx := Some(t), pc := s.pc[t := CTest])
    case CWoken => s.(mtx := Some(t), pc := s.pc[t := CTest])
    case CTest =>
      if |s.bq| == 0 then s.(mtx := None, pc := s.pc[t := CBlocked]) else s.(pc := s.pc[t := CReady])
    case CReady => s.(bq := s.bq[1..], popped := s.popped + [s.bq[0]], pc := s.pc[t := CSignal])
    case CSignal => s.(pc := MoveAll(s.pc, Woken(At(s.pc, {PBlocked}), choice), PWoken)[t := CUnlock])
    case CUnlock => s.(mtx := None, pc := s.pc[t := CEnter])
  }

  function Wakeup<T>(s: State<T>, t: Tid): State<T> {
    if t in s.pc && s.pc[t] == PBlocked then s.(pc := s.pc[t := PWoken])
    else if t in s.pc && s.pc[t] == CBlocked then s.(pc := s.pc[t := CWoken])
    else s
  }

  function Step<T>(s: State<T>, m: Move<T>): State<T>
    requires InRange(s, m.thread)
  {
    match m
    case Spurious(t) => Wakeup(s, t)
    case Go(t, item, choice) =>
      if !CanStep(s, t) then s
      else if s.pc[t] in CONSUMER then PopStep(s, t, choice)
      else PushStep(s, t, item, choice)
  }

  // ---------------------------------------------------------------- the invariant

  ghost predicate Fifo<T>(s: State<T>) {
    && s.pushed == s.popped + s.bq && |s.bq| <= s.capacity
    && (forall t :: t in s.pc && s.pc[t] == PReady ==> |s.bq| < s.capacity)
    && (forall t :: t in s.pc && s.pc[t] == CReady ==> |s.bq| > 0)
  }

  /** No lost wakeup of a consumer: while one waits, every queued item is somebody's business. */
  ghost predicate ItemsCovered<T>(s: State<T>) {
    Count(s.pc, {CBlocked}) > 0 ==> |s.bq| <= Count(s.pc, CDUE)
  }

  /** No lost wakeup of a producer: while one waits, every free place is somebody's business. */
  ghost predicate PlacesCovered<T>(s: State<T>) {
    Count(s.pc, {PBlocked}) > 0 ==> s.capacity - |s.bq| <= Count(s.pc, PDUE)
  }

  ghost predicate Inv<T>(s: State<T>) {
    Holds(s.mtx, s.pc, HELD) && Fifo(s) && ItemsCovered(s) && PlacesCovered(s)
  }

  ghost predicate Initial<T>(s: State<T>) {
    && s.bq == s.pushed == s.popped == [] && s.mtx.None?
    && forall t :: t in s.pc ==> s.pc[t] in {PEnter, CEnter}
  }

  lemma InitialInv<T>(s: State<T>)
    requires Initial(s)
    ensures Inv(s)
  {
  }

  // The statements that move one thread only.

  lemma PushKeepsFifo<T>(s: State<T>, t: Tid, item: T, choice: set<Tid>)
    requires Inv(s) && CanStep(s, t) && s.pc[t] !in CONSUMER
    ensures Fifo(PushStep(s, t, item, choice))
  {
  }

  lemma PopKeepsFifo<T>(s: State<T>, t: Tid, choice: set<Tid>)
    requires Inv(s) && CanStep(s, t) && s.pc[t] in CONSUMER
    ensures Fifo(PopStep(s, t, choice))
  {
  }

  lemma PushKeepsLock<T>(s: State<T>, t: Tid, item: T, choice: set<Tid>)
    requires Inv(s) && CanStep(s, t) && s.pc[t] !in CONSUMER
    ensures var s' := PushStep(s, t, item, choice); Holds(s'.mtx, s'.pc, HELD)
  {
  }

  lemma PopKeepsLock<T>(s: State<T>, t: Tid, choice: set<Tid>)
    requires Inv(s) && CanStep(s, t) && s.pc[t] in CONSUMER
    ensures var s' := PopStep(s, t, choice); Holds(s'.mtx, s'.pc, HELD)
  {
  }

  /** How the count of `places` changes when `moving` go from `from` to `woken` and then `t` goes to `to`. */
  lemma CountSignal(pc: map<Tid, Pc>, moving: set<Tid>, from: Pc, woken: Pc, t: Tid, to: Pc, places: set<Pc>)
    requires (forall u :: u in moving ==> u in pc && pc[u] == from) && t in pc && t !in moving
    ensures Count(MoveAll(pc, moving, woken)[t := to], places)
            == Count(pc, places)
               - (if from in places then |moving| else 0) + (if woken in places then |moving| else 0)
               - (if pc[t] in places then 1 else 0) + (if to in places then 1 else 0)
  {
    CountMoveAll(pc, moving, from, woken, places);
    CountMove(MoveAll(pc, moving, woken), t, to, places);
  }

  lemma PushKeepsItemsCovered<T>(s: State<T>, t: Tid, item: T, choice: set<Tid>)
    requires Inv(s) && CanStep(s, t) && s.pc[t] !in CONSUMER
    ensures ItemsCovered(PushStep(s, t, item, choice))
  {
    hide Holds, PlacesCovered;
    var to := PushStep(s, t, item, choice).pc[t];
    if s.pc[t] == PSignal {
      var w := Woken(At(s.pc, {CBlocked}), choice);
      CountSignal(s.pc, w, CBlocked, CWoken, t, to, {CBlocked});
      CountSignal(s.pc, w, CBlocked, CWoken, t, to, CDUE);
    } else {
      CountMove(s.pc, t, to, {CBlocked});
      CountMove(s.pc, t, to, CDUE);
    }
  }

  lemma PushKeepsPlacesCovered<T>(s: State<T>, t: Tid, item: T, choice: set<Tid>)
    requires Inv(s) && CanStep(s, t) && s.pc[t] !in CONSUMER
    ensures PlacesCovered(PushStep(s, t, item, choice))
  {
    hide Holds, ItemsCovered;
    var to := PushStep(s, t, item, choice).pc[t];
    if s.pc[t] == PSignal {
      var w := Woken(At(s.pc, {CBlocked}), choice);
      CountSignal(s.pc, w, CBlocked, CWoken, t, to, {PBlocked});
      CountSignal(s.pc, w, CBlocked, CWoken, t, to, PDUE);
    } else {
      CountMove(s.pc, t, to, {PBlocked});
      CountMove(s.pc, t, to, PDUE);
    }
  }

  lemma PopKeepsItemsCovered<T>(s: State<T>, t: Tid, choice: set<Tid>)
    requires Inv(s) && CanStep(s, t) && s.pc[t] in CONSUMER
    ensures ItemsCovered(PopStep(s, t, choice))
  {
    hide Holds, PlacesCovered;
    var to := PopStep(s, t, choice).pc[t];
    if s.pc[t] == CSignal {
      var w := Woken(At(s.pc, {PBlocked}), choice);
      CountSignal(s.pc, w, PBlocked, PWoken, t, to, {CBlocked});
      CountSignal(s.pc, w, PBlocked, PWoken, t, to, CDUE);
    } else {
      CountMove(s.pc, t, to, {CBlocked});
      CountMove(s.pc, t, to, CDUE);
    }
  }

  lemma PopKeepsPlacesCovered<T>(s: State<T>, t: Tid, choice: set<Tid>)
    requires Inv(s) && CanStep(s, t) && s.pc[t] in CONSUMER
    ensures PlacesCovered(PopStep(s, t, choice))
  {
    hide Holds, ItemsCovered;
    var to := PopStep(s, t, choice).pc[t];
    if s.pc[t] == CSignal {
      var w := Woken(At(s.pc, {PBlocked}), choice);
      CountSignal(s.pc, w, PBlocked, PWoken, t, to, {PBlocked});
      CountSignal(s.pc, w, PBlocked, PWoken, t, to, PDUE);
    } else {
      CountMove(s.pc, t, to, {PBlocked});
      CountMove(s.pc, t, to, PDUE);
    }
  }

  lemma WakeupKeepsInv<T>(s: State<T>, t: Tid)
    requires Inv(s)
    ensures Inv(Wakeup(s, t))
  {
    if t in s.pc && s.pc[t] in {PBlocked, CBlocked} {
      var to := Wakeup(s, t).pc[t];
      HoldsKept(s.mtx, s.pc, HELD, t, to);
      CountMove(s.pc, t, to, {PBlocked});
      CountMove(s.pc, t, to, PDUE);
      CountMove(s.pc, t, to, {CBlocked});
      CountMove(s.pc, t, to, CDUE);
    }
  }

  lemma StepKeepsInv<T>(s: State<T>, m: Move<T>)
    requires Inv(s)
    ensures InRange(s, m.thread) && Inv(Step(s, m))
  {
    match m
    case Spurious(t) => WakeupKeepsInv(s, t);
    case Go(t, item, choice) =>
      if CanStep(s, t) {
        if s.pc[t] in CONSUMER {
          PopKeepsFifo(s, t, choice);
          PopKeepsLock(s, t, choice);
          PopKeepsItemsCovered(s, t, choice);
          PopKeepsPlacesCovered(s, t, choice);
        } else {
          PushKeepsFifo(s, t, item, choice);
          PushKeepsLock(s, t, item, choice);
          PushKeepsItemsCovered(s, t, item, choice);
          PushKeepsPlacesCovered(s, t, item, choice);
        }
      }
  }

  ghost function Run<T>(s: State<T>, moves: seq<Move<T>>): (r: State<T>)
    requires Inv(s)
    ensures Inv(r)
    decreases |moves|
  {
    if moves == [] then s
    else
      StepKeepsInv(s, moves[0]);
      Run(Step(s, moves[0]), moves[1..])
  }

  // ------------------------------------------------------------------ the results

  /** Whenever the mutex is free: a waiting consumer means no more items than woken consumers, a waiting
      producer no more free places than woken producers. */
  lemma NoLostWakeup<T>(s: State<T>)
    requires Inv(s) && s.mtx.None?
    ensures Count(s.pc, {CBlocked}) > 0 ==> |s.bq| <= Count(s.pc, {CWoken})
    ensures Count(s.pc, {PBlocked}) > 0 ==> s.capacity - |s.bq| <= Count(s.pc, {PWoken})
  {
    assert At(s.pc, CDUE) == At(s.pc, {CWoken});
    assert At(s.pc, PDUE) == At(s.pc, {PWoken});
  }

  /** Some thread can step without a spurious wakeup. */
  ghost predicate Live<T>(s: State<T>) { exists t :: CanStep(s, t) }

  /** A queued item is never stranded: if there is a consumer, some thread can step that is not just
      about to begin another push, even if no spurious wakeup ever happens. */
  lemma ItemNotStranded<T>(s: State<T>, c: Tid)
    requires Inv(s) && s.bq != [] && c in s.pc && s.pc[c] in CONSUMER
    ensures exists t :: CanStep(s, t) && s.pc[t] != PEnter
  {
    if s.mtx.Some? {
      assert CanStep(s, s.mtx.value);
    } else if t :| t in s.pc && s.pc[t] !in {PBlocked, CBlocked, PEnter} {
      assert CanStep(s, t);
    } else {
      CountPositive(s.pc, c, {CBlocked});
      CountZero(s.pc, {CWoken});
      NoLostWakeup(s);
      assert false;
    }
  }

  /** A free place is never stranded: if there is a producer, some thread can step that is not just
      about to begin another pop. */
  lemma PlaceNotStranded<T>(s: State<T>, p: Tid)
    requires Inv(s) && |s.bq| < s.capacity && p in s.pc && s.pc[p] !in CONSUMER
    ensures exists t :: CanStep(s, t) && s.pc[t] != CEnter
  {
    if s.mtx.Some? {
      assert CanStep(s, s.mtx.value);
    } else if t :| t in s.pc && s.pc[t] !in {PBlocked, CBlocked, CEnter} {
      assert CanStep(s, t);
    } else {
      CountPositive(s.pc, p, {PBlocked});
      CountZero(s.pc, {PWoken});
      NoLostWakeup(s);
      assert false;
    }
  }

  /** With room for one item, a producer and a consumer, some thread can always step, even if no
      spurious wakeup ever happens. */
  lemma DeadlockFree<T>(s: State<T>, p: Tid, c: Tid)
    requires Inv(s) && s.capacity > 0
    requires p in s.pc && c in s.pc && s.pc[p] !in CONSUMER && s.pc[c] in CONSUMER
    ensures Live(s)
  {
    if s.bq != [] {
      ItemNotStranded(s, c);
    } else {
      PlaceNotStranded(s, p);
    }
  }

  lemma RunOne<T>(s: State<T>, m: Move<T>, rest: seq<Move<T>>)
    requires Inv(s)
    ensures InRange(s, m.thread) && Inv(Step(s, m)) && Run(s, [m] + rest) == Run(Step(s, m), rest)
  {
    StepKeepsInv(s, m);
    assert ([m] + rest)[1..] == rest;
  }

  /** Without any capacity, nobody inside push or pop. */
  ghost predicate NoRoom<T>(s: State<T>) {
    && Inv(s) && s.capacity == 0 && s.mtx.None?
    && forall t :: t in s.pc ==> s.pc[t] in {PEnter, CEnter, PBlocked, CBlocked}
  }

  lemma BlockOne<T>(s: State<T>, t: Tid, item: T) returns (m: Move<T>, s': State<T>)
    requires NoRoom(s) && t in s.pc && s.pc[t] in {PEnter, CEnter}
    ensures NoRoom(s') && forall rest :: Run(s, [m] + ([m] + rest)) == Run(s', rest)
    ensures s'.pc == s.pc[t := if s.pc[t] == PEnter then PBlocked else CBlocked]
  {
    hide ItemsCovered, PlacesCovered, Run;
    m := Go(t, item, {});
    StepKeepsInv(s, m);
    var locked := Step(s, m);
    StepKeepsInv(locked, m);
    s' := Step(locked, m);
    forall rest ensures Run(s, [m] + ([m] + rest)) == Run(s', rest) {
      RunOne(s, m, [m] + rest);
      RunOne(locked, m, rest);
    }
  }

  /** Without any capacity every thread ends up waiting. */
  lemma NoRoomDeadlocks<T>(s: State<T>, item: T) returns (moves: seq<Move<T>>)
    requires NoRoom(s)
    ensures !Live(Run(s, moves))
    decreases Count(s.pc, {PEnter, CEnter})
  {
    if t :| t in s.pc && s.pc[t] in {PEnter, CEnter} {
      var m, s' := BlockOne(s, t, item);
      CountMove(s.pc, t, s'.pc[t], {PEnter, CEnter});
      var rest := NoRoomDeadlocks(s', item);
      moves := [m] + ([m] + rest);
    } else {
      moves := [];
    }
  }

  /** The queue is free of deadlock, in every run, exactly when it has room for an item. */
  lemma DeadlockFreeIffRoom<T>(s: State<T>, p: Tid, c: Tid, item: T)
    requires Initial(s) && p in s.pc && c in s.pc && s.pc[p] !in CONSUMER && s.pc[c] in CONSUMER
    ensures Inv(s)
    ensures (forall moves :: Live(Run(s, moves))) <==> s.capacity > 0
  {
    InitialInv(s);
    if s.capacity > 0 {
      forall moves ensures Live(Run(s, moves)) {
        RolesKept(s, moves);
        DeadlockFree(Run(s, moves), p, c);
      }
    } else {
      var moves := NoRoomDeadlocks(s, item);
    }
  }

  /** Nobody changes sides, and the capacity stays. */
  lemma {:induction false} RolesKept<T>(s: State<T>, moves: seq<Move<T>>)
    requires Inv(s)
    ensures var r := Run(s, moves); r.capacity == s.capacity && r.pc.Keys == s.pc.Keys
    ensures forall t :: t in s.pc ==> (s.pc[t] in CONSUMER <==> Run(s, moves).pc[t] in CONSUMER)
    decreases |moves|
  {
    if moves != [] {
      StepKeepsInv(s, moves[0]);
      RoleKept(s, moves[0]);
      RolesKept(Step(s, moves[0]), moves[1..]);
    }
  }

  lemma RoleKept<T>(s: State<T>, m: Move<T>)
    requires InRange(s, m.thread)
    ensures Step(s, m).capacity == s.capacity && Step(s, m).pc.Keys == s.pc.Keys
    ensures forall t :: t in s.pc ==> (s.pc[t] in CONSUMER <==> Step(s, m).pc[t] in CONSUMER)
  {
  }

  /** Every run from the constructor on: items leave in the order they came, none lost, none twice,
      never more than the capacity, and no wakeup is lost. */
  lemma EveryRun<T>(s: State<T>, moves: seq<Move<T>>)
    requires Initial(s)
    ensures Inv(s) && var r := Run(s, moves);
            && r.pushed == r.popped + r.bq && |r.bq| <= r.capacity
            && (r.mtx.None? && Count(r.pc, {CBlocked}) > 0 ==> |r.bq| <= Count(r.pc, {CWoken}))
            && (r.mtx.None? && Count(r.pc, {PBlocked}) > 0 ==> r.capacity - |r.bq| <= Count(r.pc, {PWoken}))
  {
    InitialInv(s);
    var r := Run(s, moves);
    if r.mtx.None? {
      NoLostWakeup(r);
    }
  }

  // ------------------------------------------------- what is pushed, and calls left alone

  /** The items that the pushes among the moves hand in, in the order in which they get to their insertion. */
  ghost function HandedIn<T>(s: State<T>, moves: seq<Move<T>>): seq<T>
    requires Inv(s)
    decreases |moves|
  {
    if moves == [] then []
    else
      StepKeepsInv(s, moves[0]);
      var m := moves[0];
      (if m.Go? && m.thread in s.pc && s.pc[m.thread] == PReady then [m.item] else [])
      + HandedIn(Step(s, m), moves[1..])
  }

  /** The queue takes exactly those items. */
  lemma {:induction false} PushedIsHandedIn<T>(s: State<T>, moves: seq<Move<T>>)
    requires Inv(s)
    ensures Run(s, moves).pushed == s.pushed + HandedIn(s, moves)
    decreases |moves|
  {
    hide Step, Inv, InRange;
    if moves != [] {
      var m := moves[0];
      StepKeepsInv(s, m);
      InsertsOwn(s, m);
      PushedIsHandedIn(Step(s, m), moves[1..]);
      Append(s.pushed, if m.Go? && m.thread in s.pc && s.pc[m.thread] == PReady then [m.item] else [],
             HandedIn(Step(s, m), moves[1..]));
    }
  }

  lemma Append<T>(a: seq<T>, b: seq<T>, c: seq<T>)
    ensures a + b + c == a + (b + c)
  {
  }

  lemma InsertsOwn<T>(s: State<T>, m: Move<T>)
    requires InRange(s, m.thread)
    ensures Step(s, m).pushed ==
              s.pushed + if m.Go? && m.thread in s.pc && s.pc[m.thread] == PReady then [m.item] else []
  {
  }

  /** The same move n times: a thread that is left alone. */
  ghost function Solo<T>(s: State<T>, m: Move<T>, n: nat): (r: State<T>)
    requires Inv(s)
    ensures Inv(r)
    decreases n
  {
    if n == 0 then s
    else
      StepKeepsInv(s, m);
      Solo(Step(s, m), m, n - 1)
  }

  /** How many statements a call has left, if it need not wait. */
  function Left(p: Pc): nat {
    match p
    case PEnter => 5
    case PTest => 4
    case PReady => 3
    case PSignal => 2
    case PUnlock => 1
    case CEnter => 5
    case CTest => 4
    case CReady => 3
    case CSignal => 2
    case CUnlock => 1
    case _ => 0
  }

  lemma PushMoves<T>(s: State<T>, t: Tid, item: T, choice: set<Tid>)
    requires CanStep(s, t) && s.pc[t] in {PEnter, PTest, PReady, PSignal, PUnlock}
    requires s.pc[t] == PTest ==> |s.bq| < s.capacity
    ensures var r, p := PushStep(s, t, item, choice), s.pc[t];
            && t in r.pc && r.pc[t] in {PEnter, PTest, PReady, PSignal, PUnlock}
            && (if p == PUnlock then r.pc[t] == PEnter else Left(r.pc[t]) == Left(p) - 1)
            && r.mtx == (if p == PEnter then Some(t) else if p == PUnlock then None else s.mtx)
            && r.bq == s.bq + (if p == PReady then [item] else [])
            && r.popped == s.popped && r.capacity == s.capacity
  {
  }

  lemma {:induction false} FinishPush<T>(s: State<T>, m: Move<T>)
    requires Inv(s) && m.Go? && m.thread in s.pc && s.pc[m.thread] in {PEnter, PTest, PReady, PSignal, PUnlock}
    requires s.mtx == if s.pc[m.thread] == PEnter then None else Some(m.thread)
    requires s.pc[m.thread] in {PEnter, PTest} ==> |s.bq| < s.capacity
    ensures var r := Solo(s, m, Left(s.pc[m.thread]));
            && r.bq == s.bq + (if s.pc[m.thread] in {PSignal, PUnlock} then [] else [m.item]) && r.popped == s.popped
            && m.thread in r.pc && r.pc[m.thread] == PEnter && r.mtx.None?
    decreases Left(s.pc[m.thread])
  {
    hide Inv, PushStep;
    StepKeepsInv(s, m);
    PushMoves(s, m.thread, m.item, m.choice);
    if s.pc[m.thread] != PUnlock {
      FinishPush(Step(s, m), m);
    }
  }

  /** A push that finds the mutex free and room for its item, and is not disturbed, appends it in five
      statements. */
  lemma PushAlone<T>(s: State<T>, m: Move<T>)
    requires Inv(s) && m.Go? && m.thread in s.pc && s.pc[m.thread] == PEnter
    requires s.mtx.None? && |s.bq| < s.capacity
    ensures var r := Solo(s, m, 5);
            && r.bq == s.bq + [m.item] && r.popped == s.popped
            && m.thread in r.pc && r.pc[m.thread] == PEnter && r.mtx.None?
  {
    FinishPush(s, m);
  }

  lemma PopMoves<T>(s: State<T>, t: Tid, choice: set<Tid>)
    requires CanStep(s, t) && s.pc[t] in {CEnter, CTest, CReady, CSignal, CUnlock} && InRange(s, t)
    requires s.pc[t] == CTest ==> s.bq != []
    ensures var r, p := PopStep(s, t, choice), s.pc[t];
            && t in r.pc && r.pc[t] in {CEnter, CTest, CReady, CSignal, CUnlock}
            && (if p == CUnlock then r.pc[t] == CEnter else Left(r.pc[t]) == Left(p) - 1)
            && r.mtx == (if p == CEnter then Some(t) else if p == CUnlock then None else s.mtx)
            && r.bq == (if p == CReady then s.bq[1..] else s.bq)
            && r.popped == s.popped + (if p == CReady then [s.bq[0]] else [])
  {
  }

  lemma {:induction false} FinishPop<T>(s: State<T>, m: Move<T>)
    requires Inv(s) && m.Go? && m.thread in s.pc && s.pc[m.thread] in {CEnter, CTest, CReady, CSignal, CUnlock}
    requires s.mtx == if s.pc[m.thread] == CEnter then None else Some(m.thread)
    requires s.pc[m.thread] in {CEnter, CTest, CReady} ==> s.bq != []
    ensures var r, takes := Solo(s, m, Left(s.pc[m.thread])), s.pc[m.thread] in {CEnter, CTest, CReady};
            && r.bq == (if takes then s.bq[1..] else s.bq)
            && r.popped == s.popped + (if takes then [s.bq[0]] else [])
            && m.thread in r.pc && r.pc[m.thread] == CEnter && r.mtx.None?
    decreases Left(s.pc[m.thread])
  {
    hide Inv, PopStep;
    StepKeepsInv(s, m);
    PopMoves(s, m.thread, m.choice);
    if s.pc[m.thread] != CUnlock {
      FinishPop(Step(s, m), m);
    }
  }

  /** A pop that finds the mutex free and an item, and is not disturbed, takes the front in five statements. */
  lemma PopAlone<T>(s: State<T>, m: Move<T>)
    requires Inv(s) && m.Go? && m.thread in s.pc && s.pc[m.thread] == CEnter && s.mtx.None? && s.bq != []
    ensures var r := Solo(s, m, 5);
            && r.bq == s.bq[1..] && r.popped == s.popped + [s.bq[0]]
            && m.thread in r.pc && r.pc[m.thread] == CEnter && r.mtx.None?
  {
    FinishPop(s, m);
  }

  // -------------------------------------------------------------------- the object

  class BlockQueue<T> {
    const capacity: nat
    var bq: seq<T>
    var mtx: Option<Tid>
    var pc: map<Tid, Pc>
    ghost var pushed: seq<T>
    ghost var popped: seq<T>

    ghost function View(): State<T>
      reads this
    {
      State(capacity, bq, mtx, pc, pushed, popped)
    }

    constructor (capacity: nat, threads: map<Tid, Pc>)
      requires forall t :: t in threads ==> threads[t] in {PEnter, CEnter}
      ensures Initial(View()) && pc == threads && this.capacity == capacity
    {
      this.capacity := capacity;
      bq, mtx, pc := [], None, threads;
      pushed, popped := [], [];
    }

    predicate isfull()
      reads this
    {
      |bq| == capacity
    }

    predicate isempty()
      reads this
    {
      |bq| == 0
    }

    /** The thread's next statement would not block. */
    predicate Runnable(t: Tid)
      reads this
      ensures Runnable(t) == CanStep(View(), t)
    {
      t in pc && pc[t] !in {PBlocked, CBlocked} && (pc[t] in {PEnter, PWoken, CEnter, CWoken} ==> mtx.None?)
    }

    /** pthread_cond_wait: release the mutex and become a waiter in one step. */
    method Wait(t: Tid, waiting: Pc)
      modifies this`mtx, this`pc
      ensures mtx == None && pc == old(pc)[t := waiting]
    {
      mtx := None;
      pc := pc[t := waiting];
    }

    /** pthread_cond_signal */
    method Signal(waiting: Pc, woken: Pc, choice: set<Tid>)
      modifies this`pc
      ensures pc == MoveAll(old(pc), Woken(At(old(pc), {waiting}), choice), woken)
    {
      pc := MoveAll(pc, Woken(At(pc, {waiting}), choice), woken);
    }

    /** The next statement of push by thread `t`. */
    method Push(t: Tid, in_: T, choice: set<Tid>)
      requires CanStep(View(), t) && pc[t] !in CONSUMER
      modifies this
      ensures View() == PushStep(old(View()), t, in_, choice)
    {
      match pc[t]
      case PEnter =>
        mtx := Some(t);
        pc := pc[t := PTest];
      case PWoken =>
        mtx := Some(t);
        pc := pc[t := PTest];
      case PTest =>
        if isfull() {
          Wait(t, PBlocked);
        } else {
          pc := pc[t := PReady];
        }
      case PReady =>
        bq := bq + [in_];
        pushed := pushed + [in_];
        pc := pc[t := PSignal];
      case PSignal =>
        Signal(CBlocked, CWoken, choice);
        pc := pc[t := PUnlock];
      case PUnlock =>
        mtx := None;
        pc := pc[t := PEnter];
    }

    /** The next statement of pop by thread `t`. */
    method Pop(t: Tid, choice: set<Tid>) returns (out: Option<T>)
      requires CanStep(View(), t) && pc[t] in CONSUMER && InRange(View(), t)
      modifies this
      ensures View() == PopStep(old(View()), t, choice)
      ensures out == if old(pc[t]) == CReady then Some(old(bq)[0]) else None
    {
      out := None;
      match pc[t]
      case CEnter =>
        mtx := Some(t);
        pc := pc[t := CTest];
      case CWoken =>
        mtx := Some(t);
        pc := pc[t := CTest];
      case CTest =>
        if isempty() {
          Wait(t, CBlocked);
        } else {
          pc := pc[t := CReady];
        }
      case CReady =>
        out := Some(bq[0]);
        popped := popped + [bq[0]];
        bq := bq[1..];
        pc := pc[t := CSignal];
      case CSignal =>
        Signal(PBlocked, PWoken, choice);
        pc := pc[t := CUnlock];
      case CUnlock =>
        mtx := None;
        pc := pc[t := CEnter];
    }

    /** Any interleaving of pushes, pops and spurious wakeups. */
    method Interleave(moves: seq<Move<T>>)
      requires Initial(View())
      modifies this
      ensures Inv(old(View())) && View() == Run(old(View()), moves)
    {
      InitialInv(View());
      for i := 0 to |moves|
        invariant Inv(View()) && Inv(old(View()))
        invariant Run(View(), moves[i..]) == Run(old(View()), moves)
      {
        var m := moves[i];
        assert moves[i..][1..] == moves[i + 1..];
        StepKeepsInv(View(), m);
        match m
        case Spurious(t) =>
          if t in pc && pc[t] == PBlocked {
            pc := pc[t := PWoken];
          } else if t in pc && pc[t] == CBlocked {
            pc := pc[t := CWoken];
          }
        case Go(t, item, choice) =>
          if Runnable(t) {
            if pc[t] in CONSUMER {
              var _ := Pop(t, choice);
            } else {
              Push(t, item, choice);
            }
          }
      }
    }
  }
}
