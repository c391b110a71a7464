/** 10-16/ThreadPool/threadPool.hpp, getThreadPool: a pool created on first use, tested once without
    and once with the lock, under sequentially consistent steps. */
module SingletonModel {
  import opened Text
  import opened Threads

  type Address = nat

  datatype Pc =
    // before the first test, before the lock, before the second test, before the construction,
    // before the assignment, before the unlock, before the return
    | Test | Lock | Retest | New | Assign | Unlock | Return

  const HELD := {Retest, New, Assign, Unlock}

  datatype State = State(
    threadPtr: Option<Address>, mutex: Option<Tid>, pc: map<Tid, Pc>, made: map<Tid, Address>,
    // History: every pool constructed, and what every finished call returned.
    built: seq<Address>, returned: seq<Option<Address>>)

  predicate CanStep(s: State, t: Tid) {
    t in s.pc && (s.pc[t] == Lock ==> s.mutex.None?) && (s.pc[t] == Assign ==> t in s.made)
  }

  /** The next statement of caller `t`; a construction would get the memory at `fresh_`. */
  function Step(s: State, t: Tid, fresh_: Address): State {
    if !CanStep(s, t) then s
    else
      match s.pc[t]
      case Test => s.(pc := s.pc[t := if s.threadPtr.None? then Lock else Return])
      case Lock => s.(mutex := Some(t), pc := s.pc[t := Retest])
      case Retest => s.(pc := s.pc[t := if s.threadPtr.None? then New else Unlock])
      case New => s.(made := s.made[t := fresh_], built := s.built + [fresh_], pc := s.pc[t := Assign])
      case Assign => s.(threadPtr := Some(s.made[t]), pc := s.pc[t := Unlock])
      case Unlock => s.(mutex := None, pc := s.pc[t := Return])
      // The caller may come again.
      case Return => s.(returned := s.returned + [s.threadPtr], pc := s.pc[t := Test])
  }

  ghost predicate Inv(s: State) {
    && Holds(s.mutex, s.pc, HELD)
    && (s.threadPtr.Some? ==> s.built == [s.threadPtr.value])
    && (s.threadPtr.None? ==> s.built == [] || Constructing(s))
    && (forall t :: t in s.pc && s.pc[t] == New ==> s.built == [])
    && (forall t :: t in s.pc && s.pc[t] == Assign ==> t in s.made && s.threadPtr.None? && s.built == [s.made[t]])
    && (forall t :: t in s.pc && s.pc[t] in {Unlock, Return} ==> s.threadPtr.Some?)
    && (forall i :: 0 <= i < |s.returned| ==> s.returned[i].Some? && s.returned[i] == s.threadPtr)
  }

  /** One caller has built a pool it has not assigned yet. */
  ghost predicate Constructing(s: State) {
    s.mutex.Some? && s.mutex.value in s.pc && s.pc[s.mutex.value] == Assign
  }

  ghost predicate Initial(s: State) {
    && s.threadPtr.None? && s.mutex.None? && s.built == [] && s.returned == []
    && forall t :: t in s.pc ==> s.pc[t] == Test
  }

  lemma StepKeepsInv(s: State, t: Tid, fresh_: Address)
    requires Inv(s)
    ensures Inv(Step(s, t, fresh_))
  {
    if CanStep(s, t) {
      HoldsKept(s.mutex, s.pc, HELD, t, Step(s, t, fresh_).pc[t]);
      assert s.pc[t] in HELD ==> forall u :: u in s.pc && s.pc[u] in HELD ==> u == t;
    }
  }

  /** Once set, the pointer never changes. */
  lemma PointerStays(s: State, t: Tid, fresh_: Address)
    requires Inv(s) && s.threadPtr.Some?
    ensures Step(s, t, fresh_).threadPtr == s.threadPtr
  {
  }

  ghost function Run(s: State, moves: seq<(Tid, Address)>): (r: State)
    requires Inv(s)
    ensures Inv(r)
    ensures s.threadPtr.Some? ==> r.threadPtr == s.threadPtr
    decreases |moves|
  {
    if moves == [] then s
    else
      StepKeepsInv(s, moves[0].0, moves[0].1);
      Run(Step(s, moves[0].0, moves[0].1), moves[1..])
  }

  lemma {:induction false} RunConcat(s: State, first: seq<(Tid, Address)>, then_: seq<(Tid, Address)>)
    requires Inv(s)
    ensures Run(s, first + then_) == Run(Run(s, first), then_)
    decreases |first|
  {
    if first == [] {
      assert first + then_ == then_;
    } else {
      StepKeepsInv(s, first[0].0, first[0].1);
      RunConcat(Step(s, first[0].0, first[0].1), first[1..], then_);
      assert (first + then_)[1..] == first[1..] + then_;
    }
  }

  /** For any number of callers, each coming any number of times: at most one pool is ever built,
      and any two calls, finished at any time, returned that one. */
  lemma OnePoolForAll(s: State, first: seq<(Tid, Address)>, then_: seq<(Tid, Address)>)
    requires Initial(s)
    ensures Inv(s) && var a, b := Run(s, first), Run(s, first + then_);
            && |b.built| <= 1
            && (forall i, j :: 0 <= i < |a.returned| && 0 <= j < |b.returned| ==>
                  a.returned[i].Some? && b.built == [a.returned[i].value] && a.returned[i] == b.returned[j])
  {
    RunConcat(s, first, then_);
  }

  /** How many statements a call has left at most. */
  function Left(p: Pc): nat {
    match p
    case Test => 7
    case Lock => 6
    case Retest => 5
    case New => 4
    case Assign => 3
    case Unlock => 2
    case Return => 1
  }

  function Alone(t: Tid, fresh_: Address, n: nat): seq<(Tid, Address)> { seq(n, _ => (t, fresh_)) }

  /** A caller that runs alone, with the mutex free or its own, has its pool within seven statements. */
  lemma {:induction false} CallReturns(s: State, t: Tid, fresh_: Address) returns (n: nat)
    requires Inv(s) && t in s.pc && s.mutex in {None, Some(t)}
    ensures n <= Left(s.pc[t]) <= 7
    ensures var r := Run(s, Alone(t, fresh_, n));
            && |r.returned| == |s.returned| + 1 && r.threadPtr.Some? && r.returned[|s.returned|] == r.threadPtr
            && r.threadPtr == if s.built == [] then Some(fresh_) else Some(s.built[0])
    decreases Left(s.pc[t])
  {
    StepKeepsInv(s, t, fresh_);
    var next := Step(s, t, fresh_);
    if s.pc[t] == Return {
      n := 1;
      assert Alone(t, fresh_, 1)[1..] == [];
    } else {
      var m := CallReturns(next, t, fresh_);
      n := m + 1;
      assert Alone(t, fresh_, n)[1..] == Alone(t, fresh_, m);
    }
  }

  /** Somebody can always go on. */
  lemma NeverStuck(s: State, t: Tid)
    requires Inv(s) && t in s.pc
    ensures exists u :: CanStep(s, u)
  {
    if s.mutex.Some? {
      assert CanStep(s, s.mutex.value);
    } else {
      assert CanStep(s, t);
    }
  }

  class PoolHolder {
    var threadPtr: Option<Address>
    var mutex: Option<Tid>
    var pc: map<Tid, Pc>
    var made: map<Tid, Address>
    ghost var built: seq<Address>
    ghost var returned: seq<Option<Address>>

    ghost function View(): State
      reads this
    {
      State(threadPtr, mutex, pc, made, built, returned)
    }

    constructor (callers: set<Tid>)
      ensures Initial(View()) && pc.Keys == callers
    {
      threadPtr, mutex, made := None, None, map[];
      pc := map t | t in callers :: Test;
      built, returned := [], [];
    }

    /** The next statement of getThreadPool by caller `t`. */
    method GetThreadPool(t: Tid, fresh_: Address) returns (r: Option<Address>)
      requires Inv(View()) && t in pc
      modifies this
      ensures View() == Step(old(View()), t, fresh_) && Inv(View())
      ensures r.Some? <==> old(pc[t]) == Return
      ensures r.Some? ==> r == threadPtr && built == [r.value]
    {
      StepKeepsInv(View(), t, fresh_);
      r := None;
      match pc[t]
      case Test => pc := pc[t := if threadPtr.None? then Lock else Return];
      case Lock =>
        if mutex.None? {
          mutex := Some(t);
          pc := pc[t := Retest];
        }
      case Retest => pc := pc[t := if threadPtr.None? then New else Unlock];
      case New =>
        made := made[t := fresh_];
        built := built + [fresh_];
        pc := pc[t := Assign];
      case Assign =>
        threadPtr := Some(made[t]);
        pc := pc[t := Unlock];
      case Unlock =>
        mutex := None;
        pc := pc[t := Return];
      case Return =>
        r := threadPtr;
        returned := returned + [r];
        pc := pc[t := Test];
    }
  }
}
