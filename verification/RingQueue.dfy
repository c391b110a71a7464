/** importent-code/RingQueue/RingQueue.hpp: a ring shared by any number of producers and
    consumers, guarded by two counting semaphores and one mutex on each side. A thread stands
    between two atomic statements of push or pop; any thread may move next. */
module RingQueueModel {
  import opened Text
  import opened Threads
  import opened Modular

  datatype Pc =
    // push: before p(), before lock, before the write, before the wrap, before unlock, before v()
    | PIdle | PTok | PLocked | PWritten | PWrapped | PUnlocked
    // pop, likewise
    | CIdle | CTok | CLocked | CRead | CWrapped | CUnlocked

  const PHOLD := {PLocked, PWritten, PWrapped}
  const CHOLD := {CLocked, CRead, CWrapped}
  // Producers with a space token whose item is not in the ring yet, and those whose item is not posted yet.
  const CLAIMING := {PTok, PLocked}
  const POSTING := {PWritten, PWrapped, PUnlocked}
  // Consumers with a data token that have not read yet, and those that have not freed the slot yet.
  const TAKING := {CTok, CLocked}
  const FREEING := {CRead, CWrapped, CUnlocked}
  const CONSUMER := {CIdle} + TAKING + FREEING

  datatype State<T> = State(
    num: nat, rq: seq<T>, cStep: nat, pStep: nat, space: nat, data: nat,
    cLock: Option<Tid>, pLock: Option<Tid>,
    pc: map<Tid, Pc>, item: map<Tid, T>,
    // History: every item in the order of the writes, and every value in the order of the reads.
    written: seq<T>, read: seq<T>)

  predicate CanStep<T>(s: State<T>, t: Tid) {
    t in s.pc &&
    match s.pc[t]
    case PIdle => s.space > 0
    case PTok => s.pLock.None?
    case CIdle => s.data > 0
    case CTok => s.cLock.None?
    case _ => true
  }

  /** The accesses of the next step are inside the ring. */
  predicate InRange<T>(s: State<T>, t: Tid) {
    && s.num > 0
    && (t in s.pc && s.pc[t] == PLocked ==> s.pStep < |s.rq| && t in s.item)
    && (t in s.pc && s.pc[t] == CLocked ==> s.cStep < |s.rq|)
  }

  /** The next atomic statement of thread `t`; `v` is the item of a push that starts here. */
  function Step<T>(s: State<T>, t: Tid, v: T): State<T>
    requires InRange(s, t)
  {
    if !CanStep(s, t) then s
    else
      match s.pc[t]
      case PIdle => s.(space := s.space - 1, item := s.item[t := v], pc := s.pc[t := PTok])
      case PTok => s.(pLock := Some(t), pc := s.pc[t := PLocked])
      case PLocked => s.(rq := s.rq[s.pStep := s.item[t]], pStep := s.pStep + 1,
                         written := s.written + [s.item[t]], pc := s.pc[t := PWritten])
      case PWritten => s.(pStep := s.pStep % s.num, pc := s.pc[t := PWrapped])
      case PWrapped => s.(pLock := None, pc := s.pc[t := PUnlocked])
      case PUnlocked => s.(data := s.data + 1, pc := s.pc[t := PIdle])
      case CIdle => s.(data := s.data - 1, pc := s.pc[t := CTok])
      case CTok => s.(cLock := Some(t), pc := s.pc[t := CLocked])
      case CLocked => s.(read := s.read + [s.rq[s.cStep]], cStep := s.cStep + 1, pc := s.pc[t := CRead])
      case CRead => s.(cStep := s.cStep % s.num, pc := s.pc[t := CWrapped])
      case CWrapped => s.(cLock := None, pc := s.pc[t := CUnlocked])
      case CUnlocked => s.(space := s.space + 1, pc := s.pc[t := CIdle])
  }

  // ---------------------------------------------------------------- the invariant

  /** Tokens are conserved: an occupied slot is a data token or in the hands of a thread that has
      written and not posted or has claimed and not read; free slots likewise. */
  ghost predicate Occupied<T>(s: State<T>) {
    |s.written| == |s.read| + s.data + Count(s.pc, POSTING) + Count(s.pc, TAKING)
  }

  ghost predicate Free<T>(s: State<T>) {
    s.num + |s.read| == |s.written| + s.space + Count(s.pc, CLAIMING) + Count(s.pc, FREEING)
  }

  /** Where an index stands after `n` accesses: one past the last slot used until it is wrapped. */
  function Position(n: nat, num: nat, unwrapped: bool): nat
    requires num > 0 && (unwrapped ==> n > 0)
  {
    if unwrapped then (n - 1) % num + 1 else n % num
  }

  ghost predicate HolderAt(lock: Option<Tid>, pc: map<Tid, Pc>, place: Pc) {
    lock.Some? && lock.value in pc && pc[lock.value] == place
  }

  ghost predicate PIndex<T>(s: State<T>)
    requires s.num > 0
  {
    var mid := HolderAt(s.pLock, s.pc, PWritten);
    (mid ==> |s.written| > 0) && s.pStep == Position(|s.written|, s.num, mid)
  }

  ghost predicate CIndex<T>(s: State<T>)
    requires s.num > 0
  {
    var mid := HolderAt(s.cLock, s.pc, CRead);
    (mid ==> |s.read| > 0) && s.cStep == Position(|s.read|, s.num, mid)
  }

  /** The slots between the two counts hold what was written there. */
  ghost predicate Contents<T>(s: State<T>)
    requires s.num > 0 && |s.rq| == s.num
  {
    && s.read <= s.written
    && forall k :: |s.read| <= k < |s.written| ==> s.rq[k % s.num] == s.written[k]
  }

  ghost predicate Items<T>(s: State<T>) {
    forall t :: t in s.pc && s.pc[t] in CLAIMING ==> t in s.item
  }

  ghost predicate Inv<T>(s: State<T>) {
    && s.num > 0 && |s.rq| == s.num
    && Holds(s.pLock, s.pc, PHOLD) && Holds(s.cLock, s.pc, CHOLD)
    && Items(s) && Occupied(s) && Free(s) && PIndex(s) && CIndex(s) && Contents(s)
  }

  ghost predicate Initial<T>(s: State<T>) {
    && s.num > 0 && |s.rq| == s.num
    && s.cStep == s.pStep == s.data == 0 && s.space == s.num
    && s.cLock.None? && s.pLock.None? && s.written == s.read == []
    && forall t :: t in s.pc ==> s.pc[t] in {PIdle, CIdle}
  }

  lemma InitialInv<T>(s: State<T>)
    requires Initial(s)
    ensures Inv(s)
  {
  }

  /** A producer that is about to write has a free slot; a consumer about to read a full one. */
  lemma TokenMeansSlot<T>(s: State<T>, t: Tid)
    requires Inv(s) && t in s.pc
    ensures s.pc[t] in CLAIMING ==> |s.written| - |s.read| < s.num
    ensures s.pc[t] in TAKING ==> |s.read| < |s.written|
    ensures |s.read| <= |s.written| <= |s.read| + s.num
  {
    if s.pc[t] in CLAIMING {
      CountPositive(s.pc, t, CLAIMING);
    }
    if s.pc[t] in TAKING {
      CountPositive(s.pc, t, TAKING);
    }
  }

  lemma InvInRange<T>(s: State<T>, t: Tid)
    requires Inv(s)
    ensures InRange(s, t)
  {
  }

  lemma OccupiedKept<T>(s: State<T>, t: Tid, v: T)
    requires Inv(s) && CanStep(s, t)
    ensures Occupied(Step(s, t, v))
  {
    hide Holds, Free, PIndex, CIndex, Contents;
    InvInRange(s, t);
    var to := Step(s, t, v).pc[t];
    CountMove(s.pc, t, to, POSTING);
    CountMove(s.pc, t, to, TAKING);
  }

  lemma FreeKept<T>(s: State<T>, t: Tid, v: T)
    requires Inv(s) && CanStep(s, t)
    ensures Free(Step(s, t, v)) && Items(Step(s, t, v))
  {
    hide Holds, Occupied, PIndex, CIndex, Contents;
    InvInRange(s, t);
    var to := Step(s, t, v).pc[t];
    CountMove(s.pc, t, to, CLAIMING);
    CountMove(s.pc, t, to, FREEING);
  }

  lemma PLockKept<T>(s: State<T>, t: Tid, v: T)
    requires Inv(s) && CanStep(s, t)
    ensures Holds(Step(s, t, v).pLock, Step(s, t, v).pc, PHOLD)
  {
    hide Occupied, Free, PIndex, CIndex, Contents;
    InvInRange(s, t);
    HoldsKept(s.pLock, s.pc, PHOLD, t, Step(s, t, v).pc[t]);
  }

  lemma CLockKept<T>(s: State<T>, t: Tid, v: T)
    requires Inv(s) && CanStep(s, t)
    ensures Holds(Step(s, t, v).cLock, Step(s, t, v).pc, CHOLD)
  {
    hide Occupied, Free, PIndex, CIndex, Contents;
    InvInRange(s, t);
    HoldsKept(s.cLock, s.pc, CHOLD, t, Step(s, t, v).pc[t]);
  }

  lemma PIndexKept<T>(s: State<T>, t: Tid, v: T)
    requires Inv(s) && CanStep(s, t)
    ensures PIndex(Step(s, t, v))
  {
    hide Occupied, Free, CIndex, Contents;
    InvInRange(s, t);
    if s.pc[t] == PWritten {
      Wrap(|s.written| - 1, s.num);
    }
  }

  lemma CIndexKept<T>(s: State<T>, t: Tid, v: T)
    requires Inv(s) && CanStep(s, t)
    ensures CIndex(Step(s, t, v))
  {
    hide Occupied, Free, PIndex, Contents;
    InvInRange(s, t);
    if s.pc[t] == CRead {
      Wrap(|s.read| - 1, s.num);
    }
  }

  lemma ContentsKept<T>(s: State<T>, t: Tid, v: T)
    requires Inv(s) && CanStep(s, t)
    ensures var s' := Step(s, t, v); s'.num == s.num == |s'.rq| && Contents(s')
  {
    TokenMeansSlot(s, t);
    var w := |s.written|;
    if s.pc[t] == PLocked {
      forall k | |s.read| <= k < w ensures k % s.num != s.pStep {
        ModApart(k, w, s.num);
      }
    }
  }

  lemma StepKeepsInv<T>(s: State<T>, t: Tid, v: T)
    requires Inv(s)
    ensures InRange(s, t) && Inv(Step(s, t, v))
  {
    if CanStep(s, t) {
      OccupiedKept(s, t, v);
      FreeKept(s, t, v);
      PLockKept(s, t, v);
      CLockKept(s, t, v);
      PIndexKept(s, t, v);
      CIndexKept(s, t, v);
      ContentsKept(s, t, v);
    }
  }

  datatype Move<T> = Move(thread: Tid, item: T)

  /** A run: any threads, in any order, for any number of steps. */
  ghost function Run<T>(s: State<T>, moves: seq<Move<T>>): (r: State<T>)
    requires Inv(s)
    ensures Inv(r)
    decreases |moves|
  {
    if moves == [] then s
    else
      StepKeepsInv(s, moves[0].thread, moves[0].item);
      Run(Step(s, moves[0].thread, moves[0].item), moves[1..])
  }

  lemma RunStep<T>(s: State<T>, moves: seq<Move<T>>, i: nat)
    requires Inv(s) && i < |moves|
    ensures var m := moves[i];
            && InRange(s, m.thread) && Inv(Step(s, m.thread, m.item))
            && Run(s, moves[i..]) == Run(Step(s, m.thread, m.item), moves[i + 1..])
  {
    StepKeepsInv(s, moves[i].thread, moves[i].item);
    assert moves[i..][1..] == moves[i + 1..];
  }

  // ------------------------------------------------------------------ the results

  /** A bounded FIFO queue: what is written and not yet read. */
  ghost function Queue<T>(s: State<T>): seq<T>
    requires s.read <= s.written
  {
    s.written[|s.read|..]
  }

  /** Refinement, step by step: the write appends the item to a queue that is not full, the read
      takes the front of a queue that is not empty, and no other statement changes the queue. */
  lemma RefinesBoundedFifo<T>(s: State<T>, t: Tid, v: T)
    requires Inv(s) && CanStep(s, t)
    ensures InRange(s, t) && var s' := Step(s, t, v);
            && s'.read <= s'.written
            && |Queue(s)| <= s.num
            && match s.pc[t]
               case PLocked => |Queue(s)| < s.num && Queue(s') == Queue(s) + [s.item[t]] && s'.read == s.read
               case CLocked => |Queue(s)| > 0 && Queue(s') == Queue(s)[1..] && s'.read == s.read + [Queue(s)[0]]
               case _ => Queue(s') == Queue(s) && s'.read == s.read
  {
    TokenMeansSlot(s, t);
    StepKeepsInv(s, t, v);
    var s' := Step(s, t, v);
    if s.pc[t] == PLocked {
      assert s'.written == s.written + [s.item[t]];
    }
  }

  /** Two threads about to access the ring under different locks never touch the same slot. */
  lemma SlotsDisjoint<T>(s: State<T>, p: Tid, c: Tid)
    requires Inv(s) && p in s.pc && c in s.pc && s.pc[p] == PLocked && s.pc[c] == CLocked
    ensures s.pStep < s.num && s.cStep < s.num && s.pStep != s.cStep
  {
    TokenMeansSlot(s, p);
    TokenMeansSlot(s, c);
    ModApart(|s.read|, |s.written|, s.num);
  }

  ghost predicate Live<T>(s: State<T>) { exists t :: CanStep(s, t) }

  /** Nobody is inside push or pop: the tokens are the occupied and the free slots. */
  lemma AllIdle<T>(s: State<T>)
    requires Inv(s) && forall t :: t in s.pc ==> s.pc[t] in {PIdle, CIdle}
    ensures s.data == |Queue(s)| && s.space == s.num - |Queue(s)|
  {
    CountZero(s.pc, POSTING);
    CountZero(s.pc, TAKING);
    CountZero(s.pc, CLAIMING);
    CountZero(s.pc, FREEING);
  }

  /** Whoever is inside push or pop can step, or waits for one who can. */
  lemma InsideMoves<T>(s: State<T>, t: Tid)
    requires Inv(s) && t in s.pc && s.pc[t] !in {PIdle, CIdle}
    ensures exists u :: CanStep(s, u) && s.pc[u] !in {PIdle, CIdle}
  {
    if s.pc[t] == PTok && s.pLock.Some? {
      assert CanStep(s, s.pLock.value);
    } else if s.pc[t] == CTok && s.cLock.Some? {
      assert CanStep(s, s.cLock.value);
    } else {
      assert CanStep(s, t);
    }
  }

  /** A queued item is never stranded: if there is a consumer, some thread can step that is not just
      about to begin another push. */
  lemma ItemNotStranded<T>(s: State<T>, c: Tid)
    requires Inv(s) && Queue(s) != [] && c in s.pc && s.pc[c] in CONSUMER
    ensures exists t :: CanStep(s, t) && s.pc[t] != PIdle
  {
    if t :| t in s.pc && s.pc[t] !in {PIdle, CIdle} {
      InsideMoves(s, t);
    } else {
      AllIdle(s);
      assert CanStep(s, c);
    }
  }

  /** A free slot is never stranded: if there is a producer, some thread can step that is not just
      about to begin another pop. */
  lemma SlotNotStranded<T>(s: State<T>, p: Tid)
    requires Inv(s) && |Queue(s)| < s.num && p in s.pc && s.pc[p] !in CONSUMER
    ensures exists t :: CanStep(s, t) && s.pc[t] != CIdle
  {
    if t :| t in s.pc && s.pc[t] !in {PIdle, CIdle} {
      InsideMoves(s, t);
    } else {
      AllIdle(s);
      assert CanStep(s, p);
    }
  }

  /** With a producer and a consumer some thread can always step. */
  lemma DeadlockFree<T>(s: State<T>, p: Tid, c: Tid)
    requires Inv(s) && p in s.pc && c in s.pc && s.pc[p] !in CONSUMER && s.pc[c] in CONSUMER
    ensures Live(s)
  {
    if Queue(s) != [] {
      ItemNotStranded(s, c);
    } else {
      SlotNotStranded(s, p);
    }
  }

  /** From the constructor on, over every run: values are read in the order they were written, none
      lost, none twice, and never more than the capacity is waiting. */
  lemma EveryRun<T>(s: State<T>, moves: seq<Move<T>>)
    requires Initial(s)
    ensures Inv(s) && var r := Run(s, moves);
            && r.read <= r.written && |r.written| - |r.read| <= r.num
            && (forall p, c :: p in r.pc && c in r.pc && r.pc[p] == PLocked && r.pc[c] == CLocked ==>
                  r.pStep != r.cStep)
            && (forall p, c :: p in r.pc && c in r.pc && r.pc[p] !in CONSUMER && r.pc[c] in CONSUMER ==>
                  Live(r))
  {
    InitialInv(s);
    var r := Run(s, moves);
    forall p, c | p in r.pc && c in r.pc && r.pc[p] == PLocked && r.pc[c] == CLocked ensures r.pStep != r.cStep {
      SlotsDisjoint(r, p, c);
    }
    forall p, c | p in r.pc && c in r.pc && r.pc[p] !in CONSUMER && r.pc[c] in CONSUMER
      ensures Live(r)
    {
      DeadlockFree(r, p, c);
    }
  }

  // ---------------------------------------------------------- a call that is left alone

  /** Thread t executes its next n statements. */
  ghost function Solo<T>(s: State<T>, t: Tid, v: T, n: nat): (r: State<T>)
    requires Inv(s)
    ensures Inv(r)
    decreases n
  {
    if n == 0 then s
    else
      StepKeepsInv(s, t, v);
      Solo(Step(s, t, v), t, v, n - 1)
  }

  /** How many statements a call that has begun has left. */
  function Left(p: Pc): nat {
    match p
    case PTok => 5
    case PLocked => 4
    case PWritten => 3
    case PWrapped => 2
    case PUnlocked => 1
    case CTok => 5
    case CLocked => 4
    case CRead => 3
    case CWrapped => 2
    case CUnlocked => 1
    case _ => 0
  }

  function Next(p: Pc): Pc {
    match p
    case PIdle => PTok
    case PTok => PLocked
    case PLocked => PWritten
    case PWritten => PWrapped
    case PWrapped => PUnlocked
    case PUnlocked => PIdle
    case CIdle => CTok
    case CTok => CLocked
    case CLocked => CRead
    case CRead => CWrapped
    case CWrapped => CUnlocked
    case CUnlocked => CIdle
  }

  /** One statement of push, but for the ring and its index. */
  lemma PushMoves<T>(s: State<T>, t: Tid, v: T)
    requires InRange(s, t) && CanStep(s, t) && s.pc[t] !in CONSUMER
    ensures var r, p := Step(s, t, v), s.pc[t];
            && r.pc == s.pc[t := Next(p)] && r.read == s.read && r.cLock == s.cLock
            && r.item == (if p == PIdle then s.item[t := v] else s.item)
            && r.written == s.written + (if p == PLocked then [s.item[t]] else [])
            && r.pLock == (if p == PTok then Some(t) else if p == PWrapped then None else s.pLock)
            && r.space == s.space - (if p == PIdle then 1 else 0)
            && r.data == s.data + (if p == PUnlocked then 1 else 0)
  {
  }

  lemma PopMoves<T>(s: State<T>, t: Tid, v: T)
    requires InRange(s, t) && CanStep(s, t) && s.pc[t] in CONSUMER
    ensures var r, p := Step(s, t, v), s.pc[t];
            && r.pc == s.pc[t := Next(p)] && r.written == s.written && r.pLock == s.pLock && r.item == s.item
            && r.read == s.read + (if p == CLocked then [s.rq[s.cStep]] else [])
            && r.cLock == (if p == CTok then Some(t) else if p == CWrapped then None else s.cLock)
            && r.data == s.data - (if p == CIdle then 1 else 0)
            && r.space == s.space + (if p == CUnlocked then 1 else 0)
  {
  }

  lemma {:induction false} FinishPush<T>(s: State<T>, t: Tid, v: T)
    requires Inv(s) && t in s.pc && s.pc[t] in CLAIMING + POSTING && t in s.item
    requires s.pLock == if s.pc[t] in PHOLD then Some(t) else None
    ensures var r := Solo(s, t, v, Left(s.pc[t]));
            && r.written == s.written + (if s.pc[t] in CLAIMING then [s.item[t]] else []) && r.read == s.read
            && r.pc == s.pc[t := PIdle] && r.pLock.None? && r.cLock == s.cLock
            && r.space == s.space && r.data == s.data + 1
    decreases Left(s.pc[t])
  {
    hide Inv, Step;
    StepKeepsInv(s, t, v);
    PushMoves(s, t, v);
    if s.pc[t] != PUnlocked {
      FinishPush(Step(s, t, v), t, v);
    }
  }

  /** A push that finds a free slot and is not disturbed appends its item in six statements. */
  lemma PushAlone<T>(s: State<T>, t: Tid, v: T)
    requires Inv(s) && t in s.pc && s.pc[t] == PIdle && s.space > 0 && s.pLock.None?
    ensures var r := Solo(s, t, v, 6);
            && r.written == s.written + [v] && r.read == s.read
            && r.pc == s.pc && r.pLock.None? && r.cLock == s.cLock
            && r.space == s.space - 1 && r.data == s.data + 1
  {
    hide Inv, Step;
    StepKeepsInv(s, t, v);
    PushMoves(s, t, v);
    FinishPush(Step(s, t, v), t, v);
  }

  lemma {:induction false} FinishPop<T>(s: State<T>, t: Tid, v: T)
    requires Inv(s) && t in s.pc && s.pc[t] in TAKING + FREEING
    requires s.cLock == if s.pc[t] in CHOLD then Some(t) else None
    ensures s.pc[t] in TAKING ==> |s.read| < |s.written|
    ensures var r := Solo(s, t, v, Left(s.pc[t]));
            && r.read == s.read + (if s.pc[t] in TAKING then [s.written[|s.read|]] else []) && r.written == s.written
            && r.pc == s.pc[t := CIdle] && r.cLock.None? && r.pLock == s.pLock
            && r.space == s.space + 1 && r.data == s.data
    decreases Left(s.pc[t])
  {
    hide Inv, Step, CanStep;
    ReadsFront(s, t);
    StepKeepsInv(s, t, v);
    PopMoves(s, t, v);
    if s.pc[t] != CUnlocked {
      FinishPop(Step(s, t, v), t, v);
    }
  }

  lemma ReadsFront<T>(s: State<T>, t: Tid)
    requires Inv(s) && t in s.pc && s.pc[t] in TAKING + FREEING
    requires s.cLock == if s.pc[t] in CHOLD then Some(t) else None
    ensures CanStep(s, t)
    ensures s.pc[t] in TAKING ==> |s.read| < |s.written|
    ensures s.pc[t] == CLocked ==> s.cStep < |s.rq| && s.rq[s.cStep] == s.written[|s.read|]
  {
    TokenMeansSlot(s, t);
  }

  /** A pop that finds an item and is not disturbed takes the front in six statements. */
  lemma PopAlone<T>(s: State<T>, t: Tid, v: T)
    requires Inv(s) && t in s.pc && s.pc[t] == CIdle && s.data > 0 && s.cLock.None?
    ensures |s.read| < |s.written| && var r := Solo(s, t, v, 6);
            && r.read == s.read + [s.written[|s.read|]] && r.written == s.written
            && r.pc == s.pc && r.cLock.None? && r.pLock == s.pLock
            && r.space == s.space + 1 && r.data == s.data - 1
  {
    hide Inv, Step;
    StepKeepsInv(s, t, v);
    PopMoves(s, t, v);
    FinishPop(Step(s, t, v), t, v);
  }

  /** Nobody else changes the item of a push, and its own statements after the first do not. */
  lemma ItemKept<T>(s: State<T>, t: Tid, u: Tid, v: T)
    requires InRange(s, u) && t in s.pc && t in s.item && (u != t || s.pc[t] != PIdle)
    ensures t in Step(s, u, v).item && Step(s, u, v).item[t] == s.item[t]
  {
  }

  // -------------------------------------------------------------------- the object

  class RingQueue<T(0)> {
    const num: nat
    const rq: array<T>
    var cStep: nat
    var pStep: nat
    var spaceSem: nat
    var dataSem: nat
    var cLock: Option<Tid>
    var pLock: Option<Tid>
    var pc: map<Tid, Pc>
    var item: map<Tid, T>
    ghost var written: seq<T>
    ghost var read: seq<T>

    ghost function View(): State<T>
      reads this, rq
    {
      State(num, rq[..], cStep, pStep, spaceSem, dataSem, cLock, pLock, pc, item, written, read)
    }

    constructor (num: nat, threads: map<Tid, Pc>)
      requires num > 0
      requires forall t :: t in threads ==> threads[t] in {PIdle, CIdle}
      ensures Initial(View()) && pc == threads && this.num == num && fresh(rq)
    {
      this.num := num;
      rq := new T[num];
      cStep, pStep := 0, 0;
      spaceSem, dataSem := num, 0;
      cLock, pLock := None, None;
      pc, item := threads, map[];
      written, read := [], [];
    }

    /** One atomic statement of push by thread `t`; a thread that would block stays where it is. */
    method Push(t: Tid, in_: T)
      requires InRange(View(), t) && t in pc && pc[t] !in CONSUMER
      modifies this, rq
      ensures View() == Step(old(View()), t, in_)
    {
      match pc[t]
      case PIdle =>
        if spaceSem > 0 {
          spaceSem := spaceSem - 1;
          item := item[t := in_];
          pc := pc[t := PTok];
        }
      case PTok =>
        if pLock.None? {
          pLock := Some(t);
          pc := pc[t := PLocked];
        }
      case PLocked =>
        rq[pStep] := item[t];
        pStep := pStep + 1;
        written := written + [item[t]];
        pc := pc[t := PWritten];
      case PWritten =>
        pStep := pStep % num;
        pc := pc[t := PWrapped];
      case PWrapped =>
        pLock := None;
        pc := pc[t := PUnlocked];
      case PUnlocked =>
        dataSem := dataSem + 1;
        pc := pc[t := PIdle];
    }

    /** One atomic statement of pop by thread `t`. */
    method Pop(t: Tid, ghost any: T) returns (out: Option<T>)
      requires InRange(View(), t) && t in pc && pc[t] in CONSUMER
      modifies this
      ensures View() == Step(old(View()), t, any)
      ensures out.Some? <==> old(pc[t]) == CLocked
      ensures read == old(read) + if out.Some? then [out.value] else []
    {
      out := None;
      match pc[t]
      case CIdle =>
        if dataSem > 0 {
          dataSem := dataSem - 1;
          pc := pc[t := CTok];
        }
      case CTok =>
        if cLock.None? {
          cLock := Some(t);
          pc := pc[t := CLocked];
        }
      case CLocked =>
        out := Some(rq[cStep]);
        read := read + [out.value];
        cStep := cStep + 1;
        pc := pc[t := CRead];
      case CRead =>
        cStep := cStep % num;
        pc := pc[t := CWrapped];
      case CWrapped =>
        cLock := None;
        pc := pc[t := CUnlocked];
      case CUnlocked =>
        spaceSem := spaceSem + 1;
        pc := pc[t := CIdle];
    }

    /** Any interleaving of any number of pushes and pops. */
    method Interleave(moves: seq<Move<T>>)
      requires Initial(View())
      modifies this, rq
      ensures Inv(View()) && Inv(old(View())) && View() == Run(old(View()), moves)
    {
      InitialInv(View());
      for i := 0 to |moves|
        invariant Inv(View()) && Inv(old(View()))
        invariant Run(View(), moves[i..]) == Run(old(View()), moves)
      {
        var m := moves[i];
        RunStep(View(), moves, i);
        if m.thread in pc {
          if pc[m.thread] in CONSUMER {
            var _ := Pop(m.thread, m.item);
          } else {
            Push(m.thread, m.item);
          }
        }
      }
    }
  }
}
