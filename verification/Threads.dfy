/** Threads as positions in a program: who is where, and how one step changes the counts. */
module Threads {
  import opened Text

  type Tid = nat

  function At<Pc(==)>(pc: map<Tid, Pc>, places: set<Pc>): set<Tid> {
    set t | t in pc && pc[t] in places
  }

  ghost function Count<Pc>(pc: map<Tid, Pc>, places: set<Pc>): nat { |At(pc, places)| }

  /** One thread moves. */
  lemma CountMove<Pc>(pc: map<Tid, Pc>, t: Tid, to: Pc, places: set<Pc>)
    requires t in pc
    ensures Count(pc[t := to], places)
            == Count(pc, places) - (if pc[t] in places then 1 else 0) + (if to in places then 1 else 0)
  {
    var rest := At(pc, places) - {t};
    assert At(pc[t := to], places) == rest + if to in places then {t} else {};
    assert At(pc, places) == rest + if pc[t] in places then {t} else {};
  }

  /** A whole set of threads moves, as when a signal wakes several waiters. */
  function MoveAll<Pc>(pc: map<Tid, Pc>, moving: set<Tid>, to: Pc): (r: map<Tid, Pc>)
    ensures r.Keys == pc.Keys
    ensures forall t :: t in pc ==> r[t] == if t in moving then to else pc[t]
  {
    map t | t in pc :: if t in moving then to else pc[t]
  }

  lemma CountMoveAll<Pc>(pc: map<Tid, Pc>, moving: set<Tid>, from: Pc, to: Pc, places: set<Pc>)
    requires forall t :: t in moving ==> t in pc && pc[t] == from
    ensures Count(MoveAll(pc, moving, to), places)
            == Count(pc, places) - (if from in places then |moving| else 0) + (if to in places then |moving| else 0)
  {
    var moved := MoveAll(pc, moving, to);
    var rest := At(pc, places) - moving;
    if to in places {
      assert At(moved, places) == rest + moving;
    } else {
      assert At(moved, places) == rest;
    }
    if from in places {
      assert At(pc, places) == rest + moving;
    } else {
      assert At(pc, places) == rest;
    }
  }

  lemma CountZero<Pc>(pc: map<Tid, Pc>, places: set<Pc>)
    requires forall t :: t in pc ==> pc[t] !in places
    ensures Count(pc, places) == 0
  {
  }

  lemma CountPositive<Pc>(pc: map<Tid, Pc>, t: Tid, places: set<Pc>)
    requires t in pc && pc[t] in places
    ensures Count(pc, places) >= 1
  {
    assert t in At(pc, places);
  }

  // -------------------------------------------------------------------- mutexes

  /** A mutex is held by exactly the one thread that stands inside its critical section. */
  ghost predicate Holds<Pc>(lock: Option<Tid>, pc: map<Tid, Pc>, held: set<Pc>) {
    && (lock.Some? ==> lock.value in pc && pc[lock.value] in held)
    && (forall t :: t in pc && pc[t] in held ==> lock == Some(t))
  }

  /** Who holds the mutex after a step that starts at `from` and ends at `to`. */
  function LockAfter<Pc(==)>(lock: Option<Tid>, t: Tid, from: Pc, to: Pc, held: set<Pc>): Option<Tid> {
    if from in held && to !in held then None
    else if from !in held && to in held then Some(t)
    else lock
  }

  lemma HoldsKept<Pc>(lock: Option<Tid>, pc: map<Tid, Pc>, held: set<Pc>, t: Tid, to: Pc)
    requires Holds(lock, pc, held) && t in pc
    requires pc[t] !in held && to in held ==> lock.None?
    ensures Holds(LockAfter(lock, t, pc[t], to, held), pc[t := to], held)
  {
  }

  lemma HoldsAfterWake<Pc>(lock: Option<Tid>, pc: map<Tid, Pc>, held: set<Pc>, moving: set<Tid>, to: Pc)
    requires Holds(lock, pc, held) && to !in held
    requires forall t :: t in moving ==> t in pc && pc[t] !in held
    ensures Holds(lock, MoveAll(pc, moving, to), held)
  {
  }

  // -------------------------------------------------------- condition variables

  /** The waiters a signal wakes: any non-empty set of them. */
  function Woken(blocked: set<Tid>, choice: set<Tid>): (w: set<Tid>)
    ensures w <= blocked && (blocked != {} ==> w != {})
  {
    if blocked * choice != {} then blocked * choice else blocked
  }
}
