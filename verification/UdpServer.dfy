/** importent-code/UdpSocket/UdpServer.hpp: one thread receives datagrams, enters the sender into a
    locked table and pushes the line into a ring queue; another pops lines and sends each to everybody
    in the table. The ring is the one of RingQueue.dfy, statement by statement
    (importent-code/UdpSocket/RingQueue.hpp has the same push and pop). */
module UdpServerModel {
  import opened Text
  import opened Threads
  import Ring = RingQueueModel

  datatype Peer = Peer(ip: string, port: nat)

  datatype Datagram = Datagram(peer: Peer, text: string)

  function Name(peer: Peer): string { peer.ip + "-" + ToString(peer.port) }

  /** The line that is broadcast; the text is read as a C string. */
  function Line(d: Datagram): string { Name(d.peer) + ">>" + CStr(d.text) }

  /** A datagram with the name and the line that Recv builds from it. */
  datatype Entry = Entry(d: Datagram, name: string, line: string)

  function Enter(d: Datagram): Entry { Entry(d, Name(d.peer), Line(d)) }

  const RECV: Tid := 1
  const CAST: Tid := 2

  datatype RecvPc = RWait | RLock | RAdd | RUnlock | RPush

  datatype CastPc = BPop | BLock | BSnap | BUnlock | BSend

  type Users = map<string, Peer>

  datatype State = State(
    rq: Ring.State<string>, onlineuser: Users, mutex: Option<Tid>, rpc: RecvPc, bpc: CastPc,
    // History: datagrams received, the table copied for each popped line and how many datagrams had their
    // senders in it, and lines sent with their recipients.
    received: seq<Entry>, snaps: seq<Users>, entered: seq<nat>, sends: seq<(string, Users)>)

  /** Each thread stays on its side of the ring. */
  predicate Sided(s: State) {
    && Ring.InRange(s.rq, RECV) && Ring.InRange(s.rq, CAST) && s.rq.pc.Keys == {RECV, CAST}
    && s.rq.pc[RECV] !in Ring.CONSUMER && s.rq.pc[CAST] in Ring.CONSUMER
    && (s.rpc != RWait ==> s.received != [])
    && (s.bpc == BSend ==> s.snaps != [] && s.rq.read != [])
  }

  /** The next statement of Recv; `d` is what recvfrom gives a waiting thread. */
  function RecvStep(s: State, d: Datagram): State
    requires Sided(s)
  {
    match s.rpc
    // An empty or failed recvfrom is simply tried again.
    case RWait => if d.text == "" then s else s.(received := s.received + [Enter(d)], rpc := RLock)
    case RLock => if s.mutex.None? then s.(mutex := Some(RECV), rpc := RAdd) else s
    case RAdd =>
      var entry := s.received[|s.received| - 1];
      s.(onlineuser := s.onlineuser[entry.name := entry.d.peer], rpc := RUnlock)
    case RUnlock => s.(mutex := None, rpc := RPush)
    case RPush =>
      s.(rq := Ring.Step(s.rq, RECV, s.received[|s.received| - 1].line),
         rpc := if s.rq.pc[RECV] == Ring.PUnlocked then RWait else RPush)
  }

  /** The next statement of Boardcast. */
  function CastStep(s: State): State
    requires Sided(s)
  {
    match s.bpc
    case BPop =>
      s.(rq := Ring.Step(s.rq, CAST, ""), bpc := if s.rq.pc[CAST] == Ring.CUnlocked then BLock else BPop)
    case BLock => if s.mutex.None? then s.(mutex := Some(CAST), bpc := BSnap) else s
    case BSnap => s.(snaps := s.snaps + [s.onlineuser],
                     entered := s.entered + [|s.received| - Unlisted(s.rpc)], bpc := BUnlock)
    case BUnlock => s.(mutex := None, bpc := BSend)
    case BSend => s.(sends := s.sends + [(s.rq.read[|s.rq.read| - 1], s.snaps[|s.snaps| - 1])], bpc := BPop)
  }

  // ---------------------------------------------------------------- the invariant

  /** Datagrams received whose line is not in the ring yet: none or the last one. */
  function Unpushed(s: State): nat
    requires RECV in s.rq.pc
  {
    if s.rpc in {RLock, RAdd, RUnlock} || (s.rpc == RPush && s.rq.pc[RECV] in {Ring.PIdle, Ring.PTok, Ring.PLocked})
    then 1 else 0
  }

  /** Datagrams received whose sender may be missing from the table: none or the last one. */
  function Unlisted(rpc: RecvPc): nat { if rpc in {RLock, RAdd} then 1 else 0 }

  /** Lines read from the ring without a copy of the table yet: none or the last one. */
  function Uncopied(s: State): nat
    requires CAST in s.rq.pc
  {
    if s.bpc in {BLock, BSnap} || (s.bpc == BPop && s.rq.pc[CAST] in Ring.FREEING) then 1 else 0
  }

  ghost predicate Roles(s: State) {
    && s.rq.pc.Keys == {RECV, CAST}
    && s.rq.pc[RECV] !in Ring.CONSUMER && s.rq.pc[CAST] in Ring.CONSUMER
    && (s.rpc != RPush ==> s.rq.pc[RECV] == Ring.PIdle)
    && (s.bpc != BPop ==> s.rq.pc[CAST] == Ring.CIdle)
    && (s.mutex == Some(RECV) <==> s.rpc in {RAdd, RUnlock})
    && (s.mutex == Some(CAST) <==> s.bpc in {BSnap, BUnlock})
    && (s.mutex.Some? ==> s.mutex.value in {RECV, CAST})
    && s.rq.read <= s.rq.written
    && (s.rpc != RWait ==> s.received != [])
  }

  /** The ring carries the lines in the order of the datagrams. */
  ghost predicate LinesInOrder(s: State)
    requires RECV in s.rq.pc
  {
    && |s.received| == |s.rq.written| + Unpushed(s)
    && (forall k :: 0 <= k < |s.rq.written| ==> s.rq.written[k] == s.received[k].line)
    && (s.rq.pc[RECV] in Ring.CLAIMING ==>
          RECV in s.rq.item && |s.received| > 0 && s.rq.item[RECV] == s.received[|s.received| - 1].line)
  }

  /** The table after the senders of the first n datagrams were entered one by one. */
  function Table(received: seq<Entry>, n: nat): Users
    requires n <= |received|
  {
    if n == 0 then map[] else Table(received, n - 1)[received[n - 1].name := received[n - 1].d.peer]
  }

  ghost predicate TableCurrent(s: State) {
    && Unlisted(s.rpc) <= |s.received|
    && s.onlineuser == Table(s.received, |s.received| - Unlisted(s.rpc))
  }

  /** The copy made for line k is the table of some moment at which its sender was in. */
  ghost predicate CopiesCurrent(s: State) {
    && |s.snaps| == |s.entered|
    && (forall k :: 0 <= k < |s.snaps| ==>
          k < s.entered[k] <= |s.received| - Unlisted(s.rpc) && s.snaps[k] == Table(s.received, s.entered[k]))
    && (forall j, k :: 0 <= j <= k < |s.entered| ==> s.entered[j] <= s.entered[k])
  }

  ghost predicate CopiesCounted(s: State)
    requires CAST in s.rq.pc
  {
    |s.snaps| + Uncopied(s) == |s.rq.read| && |s.snaps| <= |s.received|
  }

  ghost predicate SentInOrder(s: State) {
    && |s.sends| + (if s.bpc in {BUnlock, BSend} then 1 else 0) == |s.snaps| <= |s.received|
    && forall k :: 0 <= k < |s.sends| ==> s.sends[k] == (s.received[k].line, s.snaps[k])
  }

  ghost predicate Linked(s: State) { Roles(s) && LinesInOrder(s) && CopiesCounted(s) && SentInOrder(s) }

  ghost predicate Tables(s: State) { TableCurrent(s) && CopiesCurrent(s) }

  /** Names and lines are those of the datagrams. */
  ghost predicate Genuine(s: State) { forall k :: 0 <= k < |s.received| ==> s.received[k] == Enter(s.received[k].d) }

  ghost predicate Inv(s: State) { Ring.Inv(s.rq) && Linked(s) && Tables(s) && Genuine(s) }

  ghost predicate Initial(s: State) {
    && Ring.Initial(s.rq) && s.rq.pc == map[RECV := Ring.PIdle, CAST := Ring.CIdle]
    && s.onlineuser == map[] && s.mutex.None? && s.rpc == RWait && s.bpc == BPop
    && s.received == [] && s.snaps == [] && s.entered == [] && s.sends == []
  }

  lemma InitialInv(s: State)
    requires Initial(s)
    ensures Inv(s)
  {
    Ring.InitialInv(s.rq);
  }

  /** A statement of push leaves the reading side alone; only the write adds an item, its own. */
  ghost predicate PushEffect(r: Ring.State<string>, r': Ring.State<string>, v: string)
    requires RECV in r.pc
  {
    && RECV in r'.pc && r'.read == r.read && r'.pc == r.pc[RECV := r'.pc[RECV]]
    && match r.pc[RECV]
       case PIdle => r'.written == r.written && (r' == r || (r'.pc[RECV] == Ring.PTok && r'.item == r.item[RECV := v]))
       case PTok => r'.written == r.written && r'.pc[RECV] in Ring.CLAIMING && r'.item == r.item
       case PLocked => RECV in r.item && r'.written == r.written + [r.item[RECV]] && r'.pc[RECV] == Ring.PWritten
       case PUnlocked => r'.written == r.written && r'.pc[RECV] == Ring.PIdle
       case _ => r'.written == r.written && r'.pc[RECV] in Ring.POSTING
  }

  /** A statement of pop leaves the writing side alone; only the read takes an item. */
  ghost predicate PopEffect(r: Ring.State<string>, r': Ring.State<string>)
    requires CAST in r.pc
  {
    && CAST in r'.pc && r'.written == r.written && r'.item == r.item && r'.pc == r.pc[CAST := r'.pc[CAST]]
    && match r.pc[CAST]
       case CLocked => |r'.read| == |r.read| + 1 && r'.pc[CAST] == Ring.CRead
       case CUnlocked => r'.read == r.read && r'.pc[CAST] == Ring.CIdle
       case CRead => r'.read == r.read && r'.pc[CAST] in Ring.FREEING
       case CWrapped => r'.read == r.read && r'.pc[CAST] in Ring.FREEING
       case _ => r'.read == r.read && r'.pc[CAST] in {Ring.CIdle} + Ring.TAKING
  }

  lemma PushFrame(r: Ring.State<string>, v: string)
    requires Ring.InRange(r, RECV) && RECV in r.pc && r.pc[RECV] !in Ring.CONSUMER
    ensures PushEffect(r, Ring.Step(r, RECV, v), v)
  {
  }

  lemma PopFrame(r: Ring.State<string>, v: string)
    requires Ring.InRange(r, CAST) && CAST in r.pc && r.pc[CAST] in Ring.CONSUMER
    ensures PopEffect(r, Ring.Step(r, CAST, v))
  {
  }

  lemma InvSided(s: State)
    requires Inv(s)
    ensures Sided(s)
  {
    Ring.StepKeepsInv(s.rq, RECV, "");
    Ring.StepKeepsInv(s.rq, CAST, "");
  }

  /** What the two links below need of the ring. */
  ghost predicate Bounded(r: Ring.State<string>) { r.read <= r.written }

  lemma RingBounded(r: Ring.State<string>)
    requires Ring.Inv(r)
    ensures Bounded(r)
  {
  }

  lemma PushLinked(s: State, r: Ring.State<string>)
    requires Linked(s) && s.rpc == RPush && s.received != []
    requires PushEffect(s.rq, r, s.received[|s.received| - 1].line) && Bounded(r)
    ensures Linked(s.(rq := r, rpc := if s.rq.pc[RECV] == Ring.PUnlocked then RWait else RPush))
  {
    PushKeepsLines(s, r);
  }

  lemma PushKeepsLines(s: State, r: Ring.State<string>)
    requires Roles(s) && LinesInOrder(s) && s.rpc == RPush && s.received != []
    requires PushEffect(s.rq, r, s.received[|s.received| - 1].line) && Bounded(r)
    ensures var s' := s.(rq := r, rpc := if s.rq.pc[RECV] == Ring.PUnlocked then RWait else RPush);
            Roles(s') && LinesInOrder(s')
  {
    PushKeepsRoles(s, r);
  }

  lemma PushKeepsRoles(s: State, r: Ring.State<string>)
    requires Roles(s) && s.rpc == RPush
    requires PushEffect(s.rq, r, s.received[|s.received| - 1].line) && Bounded(r)
    ensures Roles(s.(rq := r, rpc := if s.rq.pc[RECV] == Ring.PUnlocked then RWait else RPush))
  {
  }

  lemma PopLinked(s: State, r: Ring.State<string>)
    requires Linked(s) && s.bpc == BPop && PopEffect(s.rq, r) && Bounded(r)
    ensures Linked(s.(rq := r, bpc := if s.rq.pc[CAST] == Ring.CUnlocked then BLock else BPop))
  {
  }

  lemma RecvLinked(s: State, d: Datagram)
    requires Linked(s) && Sided(s) && s.rpc != RPush
    ensures Linked(RecvStep(s, d)) && RecvStep(s, d).rq == s.rq
  {
  }

  lemma CastLinked(s: State)
    requires Linked(s) && Sided(s) && s.bpc != BPop
    ensures Linked(CastStep(s)) && CastStep(s).rq == s.rq
  {
  }

  /** The table follows the datagrams; older copies do not change. */
  lemma RecvTables(s: State, d: Datagram)
    requires Tables(s) && Sided(s)
    ensures Tables(RecvStep(s, d))
  {
    hide Ring.Step, Ring.InRange, Table;
    if s.rpc == RWait {
      forall n: nat | n <= |s.received| ensures Table(s.received + [Enter(d)], n) == Table(s.received, n) {
        TableStays(s.received, Enter(d), n);
      }
    } else if s.rpc == RAdd {
      EnterOne(s.received, |s.received|);
    }
  }

  lemma {:induction false} TableStays(received: seq<Entry>, e: Entry, n: nat)
    requires n <= |received|
    ensures Table(received + [e], n) == Table(received, n)
  {
    if n > 0 {
      TableStays(received, e, n - 1);
    }
  }

  lemma EnterOne(received: seq<Entry>, n: nat)
    requires 0 < n <= |received|
    ensures Table(received, n) == Table(received, n - 1)[received[n - 1].name := received[n - 1].d.peer]
  {
  }

  /** Every line popped so far, the last one included, has its sender in the table. */
  lemma CastTables(s: State)
    requires Linked(s) && Tables(s) && Sided(s)
    ensures Tables(CastStep(s))
  {
    hide Ring.Step, Ring.InRange, Table;
  }

  lemma RecvGenuine(s: State, d: Datagram)
    requires Genuine(s) && Sided(s)
    ensures Genuine(RecvStep(s, d))
  {
    hide Ring.Step, Ring.InRange;
  }

  lemma SameGenuine(s: State, s': State)
    requires Genuine(s) && s'.received == s.received
    ensures Genuine(s')
  {
  }

  lemma RecvKeepsInv(s: State, d: Datagram)
    requires Inv(s)
    ensures Sided(s) && Inv(RecvStep(s, d))
  {
    hide Ring.Step, Ring.Inv, Linked, Tables, Genuine;
    InvSided(s);
    RecvGenuine(s, d);
    RecvTables(s, d);
    if s.rpc == RPush {
      var line := s.received[|s.received| - 1].line;
      Ring.StepKeepsInv(s.rq, RECV, line);
      PushFrame(s.rq, line);
      RingBounded(Ring.Step(s.rq, RECV, line));
      PushLinked(s, Ring.Step(s.rq, RECV, line));
    } else {
      RecvLinked(s, d);
    }
  }

  lemma CastKeepsInv(s: State)
    requires Inv(s)
    ensures Sided(s) && Inv(CastStep(s))
  {
    hide Ring.Step, Ring.Inv, Linked, Tables, Genuine;
    InvSided(s);
    CastTables(s);
    assert CastStep(s).received == s.received;
    SameGenuine(s, CastStep(s));
    if s.bpc == BPop {
      Ring.StepKeepsInv(s.rq, CAST, "");
      PopFrame(s.rq, "");
      RingBounded(Ring.Step(s.rq, CAST, ""));
      PopLinked(s, Ring.Step(s.rq, CAST, ""));
    } else {
      CastLinked(s);
    }
  }

  datatype Move = Recv(d: Datagram) | Cast

  function Step(s: State, m: Move): State
    requires Sided(s)
  {
    match m
    case Recv(d) => RecvStep(s, d)
    case Cast => CastStep(s)
  }

  ghost function Run(s: State, moves: seq<Move>): (r: State)
    requires Inv(s)
    ensures Inv(r)
    decreases |moves|
  {
    if moves == [] then s
    else
      StepKeepsInv(s, moves[0]);
      Run(Step(s, moves[0]), moves[1..])
  }

  lemma StepKeepsInv(s: State, m: Move)
    requires Inv(s)
    ensures Sided(s) && Inv(Step(s, m))
  {
    match m
    case Recv(d) => RecvKeepsInv(s, d);
    case Cast => CastKeepsInv(s);
  }

  lemma RunStep(s: State, moves: seq<Move>, i: nat)
    requires Inv(s) && i < |moves|
    ensures Sided(s) && Inv(Step(s, moves[i])) && Run(s, moves[i..]) == Run(Step(s, moves[i]), moves[i + 1..])
  {
    StepKeepsInv(s, moves[i]);
    assert moves[i..][1..] == moves[i + 1..];
  }

  // ------------------------------------------------------------------ the results

  /** In every interleaving lines go out in the order the datagrams came in, none lost or doubled, and
      line k goes to exactly the clients that the first entered[k] datagrams put into the table: those of
      lines 0..k among them, and later lines to no earlier table. */
  lemma BroadcastOrder(s: State, moves: seq<Move>)
    requires Initial(s)
    ensures Inv(s) && var r := Run(s, moves);
            && |r.sends| <= |r.snaps| == |r.entered|
            && (forall k :: 0 <= k < |r.sends| ==>
                  && k < r.entered[k] <= |r.received|
                  && r.sends[k] == (Line(r.received[k].d), Table(r.received, r.entered[k])))
            && (forall j, k :: 0 <= j <= k < |r.sends| ==> r.entered[j] <= r.entered[k])
  {
    hide Ring.Inv, Table, RecvStep, CastStep, LinesInOrder, TableCurrent;
    InitialInv(s);
    var r := Run(s, moves);
    assert SentInOrder(r) && CopiesCurrent(r) && Genuine(r);
  }

  /** The names in the table are those of the datagrams, and each stands for the address of one of them. */
  lemma {:induction false} TableOf(received: seq<Entry>, n: nat)
    requires n <= |received|
    ensures forall i :: 0 <= i < n ==> received[i].name in Table(received, n)
    ensures forall name :: name in Table(received, n) ==>
              exists i :: 0 <= i < n && received[i].name == name && received[i].d.peer == Table(received, n)[name]
  {
    if n > 0 {
      TableOf(received, n - 1);
    }
  }

  /** So line k reaches the address of everybody who sent one of the lines 0..k. */
  lemma EverySenderHears(s: State, moves: seq<Move>, i: nat, k: nat)
    requires Initial(s) && Inv(s) && i <= k < |Run(s, moves).sends| <= |Run(s, moves).received|
    requires forall e :: e in Run(s, moves).received ==> '-' !in e.d.peer.ip
    ensures var r := Run(s, moves);
            var peer := r.received[i].d.peer;
            Name(peer) in r.sends[k].1 && r.sends[k].1[Name(peer)] == peer
  {
    hide Ring.Inv, RecvStep, CastStep, Linked, Tables, Run;
    BroadcastOrder(s, moves);
    var r := Run(s, moves);
    var n := r.entered[k];
    TableOf(r.received, n);
    assert Genuine(r);
    var name := Name(r.received[i].d.peer);
    var j :| 0 <= j < n && r.received[j].name == name && r.received[j].d.peer == Table(r.received, n)[name];
    assert r.received[i] in r.received && r.received[j] in r.received;
    NameInjective(r.received[i].d.peer, r.received[j].d.peer);
  }

  /** From a line, a reader gets back who sent it and what: the address up to the minus sign, the port up to
      the arrow, and behind it the text up to its first NUL. Addresses hold neither sign. */
  lemma LineParts(d: Datagram)
    requires '-' !in d.peer.ip && '>' !in d.peer.ip
    ensures var line, p, q := Line(d), |d.peer.ip|, |Name(d.peer)|;
            && Find(line, "-") == Some(p) && Find(line, ">>") == Some(q) && p < q
            && line[..p] == d.peer.ip && Atoi(line[p + 1..q]) == d.peer.port && line[q + 2..] == CStr(d.text)
  {
    var line, p, q, port := Line(d), |d.peer.ip|, |Name(d.peer)|, ToString(d.peer.port);
    assert line == d.peer.ip + "-" + port + ">>" + CStr(d.text);
    assert line[p + 1..q] == port == port + "";
    AtoiToString(d.peer.port, "");
    assert '>' !in port;
    FirstInLine(line, p, q);
  }

  lemma FirstInLine(line: string, p: nat, q: nat)
    requires p < q && q + 2 <= |line| && line[p] == '-' && line[q..q + 2] == ">>"
    requires (forall k :: 0 <= k < p ==> line[k] != '-') && (forall k :: 0 <= k < q ==> line[k] != '>')
    ensures Find(line, "-") == Some(p) && Find(line, ">>") == Some(q)
  {
    assert line[p..p + 1] == "-";
    forall k: nat | k < p ensures !OccursAt(line, "-", k) {
      assert line[k..k + 1][0] == line[k];
    }
    FindIs(line, "-", 0, p);
    forall k: nat | k < q ensures !OccursAt(line, ">>", k) {
      assert k + 2 <= |line| ==> line[k..k + 2][0] == line[k];
    }
    FindIs(line, ">>", 0, q);
  }

  /** The datagrams that recvfrom delivers to the waiting thread, without empty and failed ones. */
  ghost function Delivered(s: State, moves: seq<Move>): seq<Datagram>
    requires Inv(s)
    decreases |moves|
  {
    if moves == [] then []
    else
      StepKeepsInv(s, moves[0]);
      (if moves[0].Recv? && s.rpc == RWait && moves[0].d.text != "" then [moves[0].d] else [])
      + Delivered(Step(s, moves[0]), moves[1..])
  }

  function Entries(ds: seq<Datagram>): (r: seq<Entry>)
    ensures |r| == |ds|
  {
    seq(|ds|, i requires 0 <= i < |ds| => Enter(ds[i]))
  }

  /** None of them is ignored. */
  lemma {:induction false} ReceivedIsDelivered(s: State, moves: seq<Move>)
    requires Inv(s)
    ensures Run(s, moves).received == s.received + Entries(Delivered(s, moves))
    decreases |moves|
  {
    hide Step, Inv, Enter;
    if moves != [] {
      StepKeepsInv(s, moves[0]);
      TakesDelivered(s, moves[0]);
      ReceivedIsDelivered(Step(s, moves[0]), moves[1..]);
      var now: seq<Datagram> :=
        if moves[0].Recv? && s.rpc == RWait && moves[0].d.text != "" then [moves[0].d] else [];
      EntriesAppend(s.received, now, Delivered(Step(s, moves[0]), moves[1..]));
    }
  }

  lemma EntriesAppend(received: seq<Entry>, now: seq<Datagram>, later: seq<Datagram>)
    ensures received + Entries(now) + Entries(later) == received + Entries(now + later)
  {
    assert Entries(now + later) == Entries(now) + Entries(later);
  }

  lemma TakesDelivered(s: State, m: Move)
    requires Sided(s)
    ensures Step(s, m).received == s.received +
              Entries(if m.Recv? && s.rpc == RWait && m.d.text != "" then [m.d] else [])
  {
  }

  // ---------------------------------------------------------- threads that are left alone

  /** The same move n times. */
  ghost function Solo(s: State, m: Move, n: nat): (r: State)
    requires Inv(s)
    ensures Inv(r)
    decreases n
  {
    if n == 0 then s
    else
      StepKeepsInv(s, m);
      Solo(Step(s, m), m, n - 1)
  }

  function RecvLeft(s: State): nat
    requires RECV in s.rq.pc
  {
    match s.rpc
    case RWait => 10
    case RLock => 9
    case RAdd => 8
    case RUnlock => 7
    case RPush => if s.rq.pc[RECV] == Ring.PIdle then 6 else Ring.Left(s.rq.pc[RECV])
  }

  /** Nobody is in the way of the receiving thread. */
  predicate RecvFree(s: State)
    requires RECV in s.rq.pc
  {
    && s.mutex == (if s.rpc in {RAdd, RUnlock} then Some(RECV) else None)
    && s.rq.pLock == (if s.rq.pc[RECV] in Ring.PHOLD then Some(RECV) else None)
    && (s.rq.pc[RECV] == Ring.PIdle ==> s.rq.space > 0)
    && (s.rpc == RPush ==> s.rq.pc[RECV] !in Ring.CONSUMER)
    && (s.rpc != RPush ==> s.rq.pc[RECV] == Ring.PIdle)
  }

  lemma RecvMoves(s: State, d: Datagram)
    requires Sided(s) && RecvFree(s) && d.text != "" && (s.rq.pc[RECV] in Ring.CLAIMING ==> RECV in s.rq.item)
    ensures var r := RecvStep(s, d);
            && RECV in r.rq.pc && r.rq.read == s.rq.read
            && (RecvLeft(s) > 1 ==> RecvFree(r) && RecvLeft(r) == RecvLeft(s) - 1)
            && (RecvLeft(s) == 1 <==> r.rpc == RWait) && (RecvLeft(s) == 1 ==> r.mutex.None?)
            && RecvLeft(s) > 0 && (s.rpc == RWait ==> RecvLeft(s) == 10)
            && r.received == s.received + (if s.rpc == RWait then [Enter(d)] else [])
  {
    hide Ring.Step, Enter;
    if s.rpc == RPush {
      Ring.PushMoves(s.rq, RECV, s.received[|s.received| - 1].line);
    }
  }

  lemma InvItem(s: State)
    requires Inv(s)
    ensures Sided(s) && (s.rq.pc[RECV] in Ring.CLAIMING ==> RECV in s.rq.item)
  {
    InvSided(s);
  }

  lemma {:induction false} FinishRecv(s: State, d: Datagram)
    requires Inv(s) && RECV in s.rq.pc && RecvFree(s) && d.text != ""
    ensures var r := Solo(s, Recv(d), RecvLeft(s));
            && r.rpc == RWait && r.mutex.None? && r.rq.read == s.rq.read
            && r.received == s.received + if s.rpc == RWait then [Enter(d)] else []
    decreases RecvLeft(s)
  {
    InvItem(s);
    hide Inv, RecvStep, RecvFree, RecvLeft, Enter, Sided;
    StepKeepsInv(s, Recv(d));
    RecvMoves(s, d);
    if RecvLeft(s) > 1 {
      FinishRecv(RecvStep(s, d), d);
    }
  }

  /** A datagram that finds room in the ring, with nobody in the way, is in the ring after ten statements,
      and its sender in the table. */
  lemma ReceiveAlone(s: State, d: Datagram)
    requires Inv(s) && RECV in s.rq.pc && RecvFree(s) && s.rpc == RWait && d.text != ""
    ensures var r := Solo(s, Recv(d), 10);
            && r.rpc == RWait && r.rq.written == s.rq.written + [Line(d)] && r.rq.read == s.rq.read
            && r.onlineuser == s.onlineuser[Name(d.peer) := d.peer]
  {
    hide Ring.Inv, Solo, RecvFree, Table;
    FinishRecv(s, d);
    var r := Solo(s, Recv(d), 10);
    assert LinesInOrder(r) && LinesInOrder(s) && r.received == s.received + [Enter(d)];
    assert r.rq.written == s.rq.written + [Line(d)];
    assert TableCurrent(r) && TableCurrent(s);
    EnterOne(r.received, |r.received|);
    TableStays(s.received, Enter(d), |s.received|);
  }

  function CastLeft(s: State): nat
    requires CAST in s.rq.pc
  {
    match s.bpc
    case BPop => if s.rq.pc[CAST] == Ring.CIdle then 10 else 4 + Ring.Left(s.rq.pc[CAST])
    case BLock => 4
    case BSnap => 3
    case BUnlock => 2
    case BSend => 1
  }

  /** Nobody is in the way of the broadcasting thread. */
  predicate CastFree(s: State)
    requires CAST in s.rq.pc
  {
    && s.mutex == (if s.bpc in {BSnap, BUnlock} then Some(CAST) else None)
    && s.rq.cLock == (if s.rq.pc[CAST] in Ring.CHOLD then Some(CAST) else None)
    && (s.bpc == BPop && s.rq.pc[CAST] == Ring.CIdle ==> s.rq.data > 0)
    && (s.bpc == BPop ==> s.rq.pc[CAST] in Ring.CONSUMER)
    && (s.bpc != BPop ==> s.rq.pc[CAST] == Ring.CIdle)
  }

  lemma CastMoves(s: State)
    requires Sided(s) && CastFree(s)
    ensures var r := CastStep(s);
            && CAST in r.rq.pc && r.received == s.received && r.onlineuser == s.onlineuser
            && r.rq.written == s.rq.written
            && (CastLeft(s) > 1 ==> CastFree(r) && CastLeft(r) == CastLeft(s) - 1)
            && (CastLeft(s) == 1 <==> s.bpc == BSend) && (CastLeft(s) == 1 ==> r.bpc == BPop && r.mutex.None?)
            && |r.sends| == |s.sends| + (if CastLeft(s) == 1 then 1 else 0)
            && r.snaps == s.snaps + (if s.bpc == BSnap then [s.onlineuser] else [])
  {
    hide Ring.Step;
    if s.bpc == BPop {
      Ring.PopMoves(s.rq, CAST, "");
    }
  }

  lemma {:induction false} FinishCast(s: State)
    requires Inv(s) && CAST in s.rq.pc && CastFree(s)
    ensures var r := Solo(s, Cast, CastLeft(s));
            && r.bpc == BPop && r.mutex.None? && r.received == s.received && r.onlineuser == s.onlineuser
            && r.rq.written == s.rq.written && |r.sends| == |s.sends| + 1
            && r.snaps == s.snaps + if s.bpc in {BUnlock, BSend} then [] else [s.onlineuser]
    decreases CastLeft(s)
  {
    InvSided(s);
    hide Inv, CastStep, CastFree;
    StepKeepsInv(s, Cast);
    CastMoves(s);
    if CastLeft(s) > 1 {
      FinishCast(CastStep(s));
    }
  }

  /** A line in the ring, with nobody in the way, is sent after ten statements to everybody in the table. */
  lemma BroadcastAlone(s: State)
    requires Inv(s) && CAST in s.rq.pc && CastFree(s) && s.bpc == BPop && s.rq.pc[CAST] == Ring.CIdle
    ensures var r, k := Solo(s, Cast, 10), |s.sends|;
            && r.bpc == BPop && |r.sends| == k + 1 && k < |s.received|
            && r.sends[k] == (Line(s.received[k].d), s.onlineuser)
  {
    hide Ring.Inv, Solo, CastFree, Table;
    FinishCast(s);
    var r := Solo(s, Cast, 10);
    assert SentInOrder(r) && SentInOrder(s) && Genuine(s) && CopiesCounted(r);
  }

  /** The table name of a client determines the client, given that an address holds no '-'. */
  lemma NameInjective(a: Peer, b: Peer)
    requires '-' !in a.ip && '-' !in b.ip && Name(a) == Name(b)
    ensures a == b
  {
    assert Name(a)[|a.ip|] == Name(b)[|b.ip|] == '-';
    assert forall k :: 0 <= k < |a.ip| ==> Name(a)[k] == a.ip[k];
    assert forall k :: 0 <= k < |b.ip| ==> Name(b)[k] == b.ip[k];
    assert a.ip == Name(a)[..|a.ip|] && b.ip == Name(b)[..|b.ip|];
    assert ToString(a.port) == Name(a)[|a.ip| + 1..] && ToString(b.port) == Name(b)[|b.ip| + 1..];
    AtoiToString(a.port, "");
    AtoiToString(b.port, "");
    assert ToString(a.port) + "" == ToString(b.port) + "";
  }

  // -------------------------------------------------------------------- the object

  class UdpServer {
    const rq: Ring.RingQueue<string>
    var onlineuser: Users
    var mutex: Option<Tid>
    var rpc: RecvPc
    var bpc: CastPc
    // The datagram in hand in Recv, and in Boardcast the line and the copy of the table.
    var current: Entry
    var sendstring: string
    var v: Users
    ghost var received: seq<Entry>
    ghost var snaps: seq<Users>
    ghost var entered: seq<nat>
    ghost var sends: seq<(string, Users)>

    ghost function View(): State
      reads this, rq, rq.rq
    {
      State(rq.View(), onlineuser, mutex, rpc, bpc, received, snaps, entered, sends)
    }

    /** The variables of the two threads. */
    ghost predicate Locals()
      reads this, rq
    {
      && (rpc != RWait && received != [] ==> current == received[|received| - 1])
      && (rq.read != [] ==> sendstring == rq.read[|rq.read| - 1])
      && (bpc in {BUnlock, BSend} && snaps != [] ==> v == snaps[|snaps| - 1])
    }

    constructor (num: nat)
      requires num > 0
      ensures Initial(View()) && Locals() && fresh(rq) && fresh(rq.rq)
    {
      rq := new Ring.RingQueue<string>(num, map[RECV := Ring.PIdle, CAST := Ring.CIdle]);
      onlineuser, mutex, rpc, bpc := map[], None, RWait, BPop;
      current, sendstring, v := Entry(Datagram(Peer("", 0), ""), "", ""), "", map[];
      received, snaps, entered, sends := [], [], [], [];
    }

    method addUser(name: string, peer: Peer)
      modifies this`onlineuser
      ensures onlineuser == old(onlineuser)[name := peer]
    {
      onlineuser := onlineuser[name := peer];
    }

    /** The next statement of Recv. */
    method Recv(d: Datagram)
      requires Sided(View()) && Locals()
      modifies this, rq, rq.rq
      ensures View() == RecvStep(old(View()), d) && Locals()
    {
      if rpc == RPush {
        PushLine(d);
      } else {
        Receive(d);
      }
    }

    /** Recv up to the push. */
    method Receive(d: Datagram)
      requires Sided(View()) && Locals() && rpc != RPush
      modifies this`rpc, this`mutex, this`current, this`onlineuser, this`received
      ensures View() == RecvStep(old(View()), d) && Locals()
    {
      match rpc
      case RWait => ReceiveFrom(d);
      case RLock => LockUsers(d);
      case RAdd => EnterSender(d);
      case RUnlock => UnlockUsers(d);
    }

    method ReceiveFrom(d: Datagram)
      requires Sided(View()) && Locals() && rpc == RWait
      modifies this`rpc, this`current, this`received
      ensures View() == RecvStep(old(View()), d) && Locals()
    {
      hide Ring.Step, Ring.InRange;
      if d.text != "" {
        current := Enter(d);
        received := received + [current];
        rpc := RLock;
      }
    }

    method LockUsers(ghost d: Datagram)
      requires Sided(View()) && Locals() && rpc == RLock
      modifies this`rpc, this`mutex
      ensures View() == RecvStep(old(View()), d) && Locals()
    {
      hide Ring.Step, Ring.InRange;
      if mutex.None? {
        mutex := Some(RECV);
        rpc := RAdd;
      }
    }

    method EnterSender(ghost d: Datagram)
      requires Sided(View()) && Locals() && rpc == RAdd
      modifies this`rpc, this`onlineuser
      ensures View() == RecvStep(old(View()), d) && Locals()
    {
      hide Ring.Step, Ring.InRange;
      addUser(current.name, current.d.peer);
      rpc := RUnlock;
    }

    method UnlockUsers(ghost d: Datagram)
      requires Sided(View()) && Locals() && rpc == RUnlock
      modifies this`rpc, this`mutex
      ensures View() == RecvStep(old(View()), d) && Locals()
    {
      hide Ring.Step, Ring.InRange;
      mutex := None;
      rpc := RPush;
    }

    /** A statement inside _rq.push. */
    method PushLine(ghost d: Datagram)
      requires Sided(View()) && Locals() && rpc == RPush
      modifies this`rpc, rq, rq.rq
      ensures View() == RecvStep(old(View()), d) && Locals()
    {
      var last := rq.pc[RECV] == Ring.PUnlocked;
      rq.Push(RECV, current.line);
      rpc := if last then RWait else RPush;
    }

    /** The next statement of Boardcast. */
    method Boardcast()
      requires Sided(View()) && Locals()
      modifies this, rq
      ensures View() == CastStep(old(View())) && Locals()
    {
      if bpc == BPop {
        PopLine();
      } else {
        SendLine();
      }
    }

    /** Boardcast after the pop. */
    method SendLine()
      requires Sided(View()) && Locals() && bpc != BPop
      modifies this`bpc, this`mutex, this`v, this`snaps, this`entered, this`sends
      ensures View() == CastStep(old(View())) && Locals()
    {
      match bpc
      case BLock => LockTable();
      case BSnap => CopyTable();
      case BUnlock => UnlockTable();
      case BSend => SendToAll();
    }

    method LockTable()
      requires Sided(View()) && Locals() && bpc == BLock
      modifies this`bpc, this`mutex
      ensures View() == CastStep(old(View())) && Locals()
    {
      hide Ring.Step, Ring.InRange;
      if mutex.None? {
        mutex := Some(CAST);
        bpc := BSnap;
      }
    }

    method CopyTable()
      requires Sided(View()) && Locals() && bpc == BSnap
      modifies this`bpc, this`v, this`snaps, this`entered
      ensures View() == CastStep(old(View())) && Locals()
    {
      hide Ring.Step, Ring.InRange;
      v := onlineuser;
      snaps, entered := snaps + [onlineuser], entered + [|received| - Unlisted(rpc)];
      bpc := BUnlock;
    }

    method UnlockTable()
      requires Sided(View()) && Locals() && bpc == BUnlock
      modifies this`bpc, this`mutex
      ensures View() == CastStep(old(View())) && Locals()
    {
      hide Ring.Step, Ring.InRange;
      mutex := None;
      bpc := BSend;
    }

    method SendToAll()
      requires Sided(View()) && Locals() && bpc == BSend
      modifies this`bpc, this`sends
      ensures View() == CastStep(old(View())) && Locals()
    {
      hide Ring.Step, Ring.InRange;
      sends := sends + [(sendstring, v)];
      bpc := BPop;
    }

    /** A statement inside _rq.pop. */
    method PopLine()
      requires Sided(View()) && Locals() && bpc == BPop
      modifies this`bpc, this`sendstring, rq
      ensures View() == CastStep(old(View())) && Locals()
    {
      hide Ring.Step;
      var last := rq.pc[CAST] == Ring.CUnlocked;
      var out := rq.Pop(CAST, "");
      if out.Some? {
        sendstring := out.value;
      }
      bpc := if last then BLock else BPop;
    }

    method StepOne(m: Move)
      requires Inv(View()) && Locals()
      modifies this, rq, rq.rq
      ensures Sided(old(View())) && View() == Step(old(View()), m) && Locals()
    {
      InvSided(View());
      match m
      case Recv(d) => Recv(d);
      case Cast => Boardcast();
    }

    /** Both threads, interleaved in any way. */
    method Start(moves: seq<Move>)
      requires Initial(View()) && Locals()
      modifies this, rq, rq.rq
      ensures Inv(old(View())) && View() == Run(old(View()), moves)
    {
      ghost var was := View();
      InitialInv(was);
      for i := 0 to |moves|
        invariant Inv(View()) && Locals()
        invariant Run(View(), moves[i..]) == Run(was, moves)
      {
        RunStep(View(), moves, i);
        StepOne(moves[i]);
      }
    }
  }
}
