/** Reactor/reactor/TcpServer.hpp: the edge-triggered event loop over a table of
    connections. The answers of the kernel are parameters: a list of results for
    the successive calls of one handler, after which every further call would
    block (EAGAIN). */
module ReactorServer {
  import opened Text
  import opened ReactorProtocol
  import opened Descriptors

  datatype Errno = EAGAIN | EINTR | EOTHER

  datatype RecvResult = Received(bytes: string) | RecvFailed(recvErrno: Errno)

  /** One send: the bytes the kernel would take, and what errno reads if it takes none. */
  datatype SendResult = SendResult(room: nat, errno: Errno)

  datatype AcceptResult = Accepted | AcceptFailed(acceptErrno: Errno)

  datatype Interest = Interest(readable: bool, writeable: bool)

  /** One reported event, with the kernel's answers to the calls its callbacks will make. */
  datatype Ready = Ready(fd: int, epollin: bool, epollout: bool, epollerr: bool, epollhup: bool,
                         accepts: seq<AcceptResult>, recvs: seq<RecvResult>, sends: seq<SendResult>)
  {
    // Errors and hang-ups are turned into both kinds of readiness.
    predicate Reads() { epollin || epollerr || epollhup }

    predicate Writes() { epollout || epollerr || epollhup }
  }

  // ------------------------------------------------- what one handler call does

  /** The text a chain of recv calls adds to the in-buffer. */
  function ReadBytes(results: seq<RecvResult>): string {
    if results == [] then ""
    else
      match results[0]
      case RecvFailed(errno) => if errno == EINTR then ReadBytes(results[1..]) else ""
      case Received(bytes) => if bytes == "" then "" else CStr(bytes) + ReadBytes(results[1..])
  }

  /** The connection survives: no end of file and no fatal error before the first EAGAIN. */
  predicate ReadAlive(results: seq<RecvResult>) {
    results == [] ||
    match results[0]
    case RecvFailed(errno) => errno == EAGAIN || (errno == EINTR && ReadAlive(results[1..]))
    case Received(bytes) => bytes != "" && ReadAlive(results[1..])
  }

  function Min(a: nat, b: nat): nat { if a < b then a else b }

  /** How many of `size` pending bytes a chain of send calls takes. */
  function SentCount(results: seq<SendResult>, size: nat): (n: nat)
    ensures n <= size
    decreases |results|
  {
    if results == [] then 0
    else
      var n := Min(results[0].room, size);
      if n > 0 then n + (if n == size then 0 else SentCount(results[1..], size - n))
      else if results[0].errno == EINTR then SentCount(results[1..], size)
      else 0
  }

  predicate SendAlive(results: seq<SendResult>, size: nat)
    decreases |results|
  {
    results == [] ||
    var n := Min(results[0].room, size);
    if n > 0 then n == size || SendAlive(results[1..], size - n)
    else results[0].errno == EAGAIN || (results[0].errno == EINTR && SendAlive(results[1..], size))
  }

  function AcceptCount(results: seq<AcceptResult>): nat {
    if results == [] then 0
    else
      match results[0]
      case Accepted => 1 + AcceptCount(results[1..])
      case AcceptFailed(errno) => if errno == EINTR then AcceptCount(results[1..]) else 0
  }

  // ------------------------------------------- the same, by the positions of the answers

  /** A receive loop goes on after an interruption and after data. */
  predicate ReadsOn(r: RecvResult) {
    match r
    case RecvFailed(errno) => errno == EINTR
    case Received(bytes) => |bytes| > 0
  }

  /** Which recv is the last. */
  function LastRead(results: seq<RecvResult>): (k: nat)
    ensures k <= |results| && (forall i :: 0 <= i < k ==> ReadsOn(results[i]))
    ensures k < |results| ==> !ReadsOn(results[k])
  {
    if results == [] || !ReadsOn(results[0]) then 0 else 1 + LastRead(results[1..])
  }

  /** The text of all data among the results. */
  function Texts(results: seq<RecvResult>): string {
    if results == [] then ""
    else (if results[0].Received? then CStr(results[0].bytes) else "") + Texts(results[1..])
  }

  /** The bytes of all data among the results. */
  function Bytes(results: seq<RecvResult>): string {
    if results == [] then ""
    else (if results[0].Received? then results[0].bytes else "") + Bytes(results[1..])
  }

  /** The loop gets to a recv that would block, and to no end of file and no other error before it. */
  predicate BlocksAt(results: seq<RecvResult>, k: nat) {
    && k <= |results| && (forall i :: 0 <= i < k ==> ReadsOn(results[i]))
    && (k < |results| ==> results[k] == RecvFailed(EAGAIN))
  }

  predicate StaysOpen(results: seq<RecvResult>) { exists k :: 0 <= k <= |results| && BlocksAt(results, k) }

  lemma {:induction false} ReadIs(results: seq<RecvResult>)
    ensures ReadBytes(results) == Texts(results[..LastRead(results)])
    ensures RawBytes(results) == Bytes(results[..LastRead(results)])
    ensures ReadAlive(results) <==> BlocksAt(results, LastRead(results))
  {
    var k := LastRead(results);
    if k > 0 {
      ReadIs(results[1..]);
      assert results[..k][1..] == results[1..][..k - 1];
      assert results[1..][k - 1..] == results[k..];
    }
  }

  /** The connection stays in the table exactly if some recv would block before anything ends it. */
  lemma StaysOpenIff(results: seq<RecvResult>)
    ensures ReadAlive(results) <==> StaysOpen(results)
  {
    ReadIs(results);
    if k: nat :| k <= |results| && BlocksAt(results, k) {
      assert k == LastRead(results);
    }
  }

  /** A send loop goes on after an interruption and, with bytes pending, after progress. */
  predicate SendsOn(r: SendResult, pending: bool) { (pending && r.room > 0) || r.errno == EINTR }

  /** Which send fails, if bytes enough are pending. */
  function FirstRefusal(results: seq<SendResult>, pending: bool): (k: nat)
    ensures k <= |results| && (forall i :: 0 <= i < k ==> SendsOn(results[i], pending))
    ensures k < |results| ==> !SendsOn(results[k], pending)
  {
    if results == [] || !SendsOn(results[0], pending) then 0 else 1 + FirstRefusal(results[1..], pending)
  }

  /** How many bytes the kernel would take in all. */
  function Rooms(results: seq<SendResult>): nat {
    if results == [] then 0 else results[0].room + Rooms(results[1..])
  }

  /** Of `size` pending bytes all go that the sends before the first refusal have room for. The refusal ends
      the connection unless it is EAGAIN or everything was gone before. */
  predicate SendEffect(results: seq<SendResult>, size: nat, n: nat, alive: bool) {
    var m := FirstRefusal(results, size > 0);
    var room := Rooms(results[..m]);
    && n == (if room < size then room else size)
    && (alive <==> (size > 0 && room >= size) || m == |results| || results[m].errno == EAGAIN)
  }

  lemma {:induction false} SendIs(results: seq<SendResult>, size: nat)
    ensures SendEffect(results, size, SentCount(results, size), SendAlive(results, size))
    decreases |results|
  {
    var m := FirstRefusal(results, size > 0);
    if m > 0 {
      var n := Min(results[0].room, size);
      assert results[..m][1..] == results[1..][..m - 1];
      if n < size || size == 0 {
        SendIs(results[1..], size - n);
      }
    }
  }

  lemma SendMeasured(results: seq<SendResult>, sent: string, outbuffer: string)
    ensures var n := SentCount(results, |outbuffer|);
            SendEffect(results, |outbuffer|, |sent + outbuffer[..n]| - |sent|, SendAlive(results, |outbuffer|))
  {
    SendIs(results, |outbuffer|);
  }

  lemma {:induction false} RoomsGrow(results: seq<SendResult>, j: nat, m: nat)
    requires j <= m <= |results|
    ensures Rooms(results[..j]) <= Rooms(results[..m])
  {
    if j > 0 {
      assert results[..j][1..] == results[1..][..j - 1] && results[..m][1..] == results[1..][..m - 1];
      RoomsGrow(results[1..], j - 1, m - 1);
    }
  }

  lemma {:induction false} TextsGrow(results: seq<RecvResult>, j: nat, k: nat)
    requires j <= k <= |results|
    ensures Texts(results[..j]) <= Texts(results[..k])
  {
    if j > 0 {
      assert results[..j][1..] == results[1..][..j - 1] && results[..k][1..] == results[1..][..k - 1];
      TextsGrow(results[1..], j - 1, k - 1);
    }
  }

  predicate AcceptsOn(r: AcceptResult) { r.Accepted? || r.acceptErrno == EINTR }

  function LastAccept(results: seq<AcceptResult>): (k: nat)
    ensures k <= |results| && (forall i :: 0 <= i < k ==> AcceptsOn(results[i]))
    ensures k < |results| ==> !AcceptsOn(results[k])
  {
    if results == [] || !AcceptsOn(results[0]) then 0 else 1 + LastAccept(results[1..])
  }

  /** All clients accepted before the first failure other than an interruption. */
  ghost function Joined(results: seq<AcceptResult>): nat { multiset(results[..LastAccept(results)])[Accepted] }

  lemma {:induction false} AcceptIs(results: seq<AcceptResult>)
    ensures AcceptCount(results) == Joined(results)
  {
    var k := LastAccept(results);
    if k > 0 {
      AcceptIs(results[1..]);
      assert results[..k] == [results[0]] + results[1..][..k - 1];
    }
  }

  // ------------------------------------------------------ the batch specification

  type Service = string -> Option<string>

  /** The encoded answers to a list of messages; a message the service rejects has none. */
  function Replies(service: Service, messages: seq<string>): string {
    if messages == [] then ""
    else
      var reply := service(messages[0]);
      (if reply.Some? then Encode(reply.value) else "") + Replies(service, messages[1..])
  }

  /** All a client can observe: what it got across and what came back. */
  datatype Link = Link(received: string, sent: string, alive: bool)

  /** Everything the server owes for the bytes it received. */
  function Owed(service: Service, received: string): string { Replies(service, Messages(received)) }

  const NEWCOMER := Link("", "", true)

  function AfterRead(l: Link, e: Ready): Link {
    if !(e.epollin || e.epollerr || e.epollhup) then l
    else Link(l.received + ReadBytes(e.recvs), l.sent, ReadAlive(e.recvs))
  }

  function AfterWrite(service: Service, l: Link, e: Ready): Link
    requires l.sent <= Owed(service, l.received)
  {
    var owed := Owed(service, l.received);
    var pending := |owed| - |l.sent|;
    if !(e.epollout || e.epollerr || e.epollhup) || !l.alive then l
    else Link(l.received, owed[..|l.sent| + SentCount(e.sends, pending)], SendAlive(e.sends, pending))
  }

  /** The batch meaning of one event on a live connection. It reads, and stays if the last recv would
      block; it sends, if it has stayed, from the answers owed to all bytes received. */
  ghost predicate EventEffect(service: Service, l: Link, e: Ready, l': Link) {
    var readable := e.epollin || e.epollerr || e.epollhup;
    var writeable := e.epollout || e.epollerr || e.epollhup;
    var stays := readable ==> StaysOpen(e.recvs);
    var owed := Owed(service, l'.received);
    && l'.received == l.received + (if readable then Texts(e.recvs[..LastRead(e.recvs)]) else "")
    && l.sent <= l'.sent <= owed
    && (writeable && stays ==> SendEffect(e.sends, |owed| - |l.sent|, |l'.sent| - |l.sent|, l'.alive))
    && (!(writeable && stays) ==> l'.sent == l.sent && l'.alive == stays)
  }

  lemma EventIs(service: Service, l: Link, e: Ready)
    requires l.alive && l.sent <= Owed(service, AfterRead(l, e).received)
    ensures EventEffect(service, l, e, AfterWrite(service, AfterRead(l, e), e))
  {
    hide Owed, ReadBytes, ReadAlive, SentCount, SendAlive, SendEffect, StaysOpen, Texts;
    ReadIs(e.recvs);
    StaysOpenIff(e.recvs);
    var read := AfterRead(l, e);
    SendIs(e.sends, |Owed(service, read.received)| - |l.sent|);
  }

  /** A writeable, failed or hung-up connection that survives its reads sends what its first send has
      room for. */
  lemma EventSends(service: Service, l: Link, e: Ready, l': Link)
    requires EventEffect(service, l, e, l') && (e.epollout || e.epollerr || e.epollhup)
    requires e.epollin || e.epollerr || e.epollhup ==> StaysOpen(e.recvs)
    requires e.sends != [] && l.sent <= Owed(service, l'.received)
    ensures var pending := |Owed(service, l'.received)| - |l.sent|;
            |l'.sent| - |l.sent| >= if e.sends[0].room < pending then e.sends[0].room else pending
  {
    var pending := |Owed(service, l'.received)| - |l.sent|;
    if pending > 0 && e.sends[0].room > 0 {
      RoomsGrow(e.sends, 1, FirstRefusal(e.sends, true));
      assert Rooms(e.sends[..1]) == e.sends[0].room + Rooms([]);
    }
  }

  /** It sends everything if the sends before the first refusal have room for it. */
  lemma EventDrains(service: Service, l: Link, e: Ready, l': Link, j: nat)
    requires EventEffect(service, l, e, l') && (e.epollout || e.epollerr || e.epollhup)
    requires e.epollin || e.epollerr || e.epollhup ==> StaysOpen(e.recvs)
    requires j <= |e.sends| && forall i :: 0 <= i < j ==> e.sends[i].room > 0 || e.sends[i].errno == EINTR
    requires Rooms(e.sends[..j]) >= |Owed(service, l'.received)| - |l.sent|
    ensures l'.sent == Owed(service, l'.received)
  {
    var owed := Owed(service, l'.received);
    if |owed| > |l.sent| {
      var m := FirstRefusal(e.sends, true);
      assert j <= m;
      RoomsGrow(e.sends, j, m);
    }
    assert |l'.sent| == |owed|;
  }

  /** It receives all data before the first end of file or failure; without readiness nothing is received
      and nothing sent. */
  lemma EventReceives(service: Service, l: Link, e: Ready, l': Link, j: nat)
    requires EventEffect(service, l, e, l')
    requires j <= |e.recvs| && forall i :: 0 <= i < j ==> ReadsOn(e.recvs[i])
    ensures e.epollin || e.epollerr || e.epollhup ==> l.received + Texts(e.recvs[..j]) <= l'.received
    ensures !(e.epollin || e.epollerr || e.epollhup) ==> l'.received == l.received
    ensures !(e.epollout || e.epollerr || e.epollhup) ==> l'.sent == l.sent
  {
    if e.epollin || e.epollerr || e.epollhup {
      TextsGrow(e.recvs, j, LastRead(e.recvs));
    }
  }

  lemma {:induction false} RepliesConcat(service: Service, a: seq<string>, b: seq<string>)
    ensures Replies(service, a + b) == Replies(service, a) + Replies(service, b)
  {
    if a == [] {
      assert a + b == b;
    } else {
      assert (a + b)[1..] == a[1..] + b;
      RepliesConcat(service, a[1..], b);
    }
  }

  lemma RepliesSnoc(service: Service, messages: seq<string>, k: nat)
    requires k < |messages|
    ensures Replies(service, messages[..k + 1]) == Replies(service, messages[..k]) + Replies(service, [messages[k]])
  {
    assert messages[..k + 1] == messages[..k] + [messages[k]];
    RepliesConcat(service, messages[..k], [messages[k]]);
  }

  /** More input never changes an answer already owed. */
  lemma OwedGrows(service: Service, received: string, more: string)
    ensures Owed(service, received) <= Owed(service, received + more)
    ensures Owed(service, received + more)
            == Owed(service, received) + Replies(service, Messages(Tail(received) + more))
  {
    SplitIncremental(received, more);
    RepliesConcat(service, Messages(received), Messages(Tail(received) + more));
  }

  /** The refinement: sent bytes plus out-buffer are the answers to every complete message
      received, and the in-buffer is the unfinished message. */
  ghost predicate UpToDate(service: Service, received: string, sent: string, inbuffer: string, outbuffer: string) {
    inbuffer == Tail(received) && sent + outbuffer == Owed(service, received)
  }

  lemma NothingOwedYet(service: Service)
    ensures UpToDate(service, "", "", "", "")
  {
  }

  lemma ReadKeepsUpToDate(service: Service, received: string, sent: string, inbuffer: string, outbuffer: string,
                          more: string)
    requires UpToDate(service, received, sent, inbuffer, outbuffer)
    ensures var filled := inbuffer + more;
            UpToDate(service, received + more, sent, Tail(filled), outbuffer + Owed(service, filled))
  {
    OwedGrows(service, received, more);
    SplitIncremental(received, more);
    Assoc(sent, outbuffer, Owed(service, inbuffer + more));
  }

  lemma SendKeepsUpToDate(service: Service, received: string, sent: string, inbuffer: string, outbuffer: string, n: nat)
    requires UpToDate(service, received, sent, inbuffer, outbuffer) && n <= |outbuffer|
    ensures UpToDate(service, received, sent + outbuffer[..n], inbuffer, outbuffer[n..])
  {
  }

  lemma SendMeansOwed(service: Service, received: string, sent: string, inbuffer: string, outbuffer: string, n: nat)
    requires UpToDate(service, received, sent, inbuffer, outbuffer) && n <= |outbuffer|
    ensures sent <= Owed(service, received) && |Owed(service, received)| - |sent| == |outbuffer|
    ensures sent + outbuffer[..n] == Owed(service, received)[..|sent| + n]
  {
  }

  lemma TakeMore(before: string, all: string, n: nat, taken: nat)
    requires n + taken <= |all|
    ensures before + all[..n] + all[n..][..taken] == before + all[..n + taken]
    ensures all[n..][taken..] == all[n + taken..]
  {
  }

  /** What was sent stays part of what is owed, even when the read ends the connection. */
  lemma SentStaysOwed(service: Service, l: Link, e: Ready)
    requires l.sent <= Owed(service, l.received)
    ensures l.sent <= Owed(service, AfterRead(l, e).received)
  {
    if e.Reads() {
      OwedGrows(service, l.received, ReadBytes(e.recvs));
    }
  }

  /** The bytes one chain of reads delivers, NULs included. */
  function RawBytes(results: seq<RecvResult>): string {
    if results == [] then ""
    else
      match results[0]
      case RecvFailed(errno) => if errno == EINTR then RawBytes(results[1..]) else ""
      case Received(bytes) => if bytes == "" then "" else bytes + RawBytes(results[1..])
  }

  /** Nothing received is lost exactly when no byte is NUL. */
  lemma {:induction false} ReadsAreFaithful(results: seq<RecvResult>)
    ensures |ReadBytes(results)| <= |RawBytes(results)|
    ensures ReadBytes(results) == RawBytes(results) <==> NUL !in RawBytes(results)
  {
    if results != [] {
      ReadsAreFaithful(results[1..]);
      if results[0].Received? && results[0].bytes != "" {
        var bytes := results[0].bytes;
        var rest, raw := ReadBytes(results[1..]), RawBytes(results[1..]);
        if CStr(bytes) != bytes {
          assert |CStr(bytes)| < |bytes|;
        } else if CStr(bytes) + rest == bytes + raw {
          assert rest == (bytes + raw)[|bytes|..] == raw;
        }
      }
    }
  }

  lemma ReadMore(before: string, got: string, chunk: string, later: string)
    ensures before + got + chunk == before + (got + chunk)
    ensures got + chunk + later == got + (chunk + later)
  {
  }

  /** Of the bytes `raw` the text `received` was kept: all of them exactly when none is NUL. */
  ghost predicate Kept(raw: string, received: string) {
    |received| <= |raw| && (received == raw <==> NUL !in raw)
  }

  lemma KeptMore(raw: string, received: string, results: seq<RecvResult>)
    requires Kept(raw, received)
    ensures Kept(raw + RawBytes(results), received + ReadBytes(results))
  {
    var more, text := RawBytes(results), ReadBytes(results);
    ReadsAreFaithful(results);
    if received + text == raw + more {
      assert |received| == |raw| && |text| == |more|;
      assert received == (received + text)[..|raw|] == raw;
      assert text == (received + text)[|raw|..] == more;
    }
  }

  // ------------------------------------------------------------------ the objects

  class Connection {
    const sock: int
    // The listening connection has a receive callback only.
    const listening: bool
    var inbuffer: string
    var outbuffer: string
    // Every byte recv delivered, the text that was kept of it, and every byte send took.
    ghost var raw: string
    ghost var received: string
    ghost var sent: string

    constructor (sock: int, listening: bool)
      ensures this.sock == sock && this.listening == listening
      ensures inbuffer == outbuffer == raw == received == sent == ""
    {
      this.sock, this.listening := sock, listening;
      inbuffer, outbuffer := "", "";
      raw, received, sent := "", "", "";
    }

    ghost predicate Served(service: Service)
      reads this
    {
      Kept(raw, received) && UpToDate(service, received, sent, inbuffer, outbuffer)
    }
  }

  class TcpServer {
    const listensock: int
    // What the callback set by Dispather answers to a message.
    const service: Service
    var connections: map<int, Connection>
    // The descriptors registered with epoll and what they wait for.
    var interest: map<int, Interest>
    // The open descriptors that belong to the server.
    ghost var owned: set<int>
    // Every connection object that was ever in the table.
    ghost var repr: set<Connection>

    ghost predicate Valid()
      reads this, repr
    {
      && connections.Keys == interest.Keys == owned
      && listensock in connections
      && forall s :: s in connections ==> connections[s] in repr && InOrder(s, connections[s])
    }

    /** A table entry holds the connection of its descriptor; a client's answers are in order and
        it waits for write readiness exactly when bytes are pending. */
    ghost predicate InOrder(s: int, conn: Connection)
      reads this, conn
    {
      && conn.sock == s
      && (conn.listening <==> s == listensock)
      && s in interest && interest[s] == Interest(true, s != listensock && conn.outbuffer != "")
      && (s != listensock ==> conn.Served(service))
    }

    ghost predicate Registered(conn: Connection)
      reads this
    {
      conn.sock in connections && connections[conn.sock] == conn
    }

    /** What the table says about a connection at this moment. */
    ghost function View(conn: Connection): Link
      reads this, conn
    {
      Link(conn.received, conn.sent, Registered(conn))
    }

    twostate predicate Brand(new conn: Connection)
      reads conn
    {
      fresh(conn) && conn.received == "" && conn.sent == ""
    }

    /** Every entry was in the table `before`, or has neither received nor sent anything yet. */
    ghost predicate Carried(before: map<int, Connection>)
      reads this, connections.Values
    {
      forall s :: s in connections ==>
        (s in before && connections[s] == before[s]) || View(connections[s]) == NEWCOMER
    }

    ghost predicate Keeps(before: map<int, Connection>, except: set<int>)
      reads this
    {
      forall s :: s in before && s !in except ==> s in connections && connections[s] == before[s]
    }

    constructor (listensock: int, service: Service)
      ensures Valid() && fresh(repr)
      ensures this.listensock == listensock && this.service == service
      ensures Views(connections) == map[listensock := NEWCOMER]
    {
      this.listensock, this.service := listensock, service;
      connections, interest, owned, repr := map[], map[], {listensock}, {};
      new;
      AddConnection(listensock, true);
    }

    method AddConnection(sock: int, listening: bool)
      requires sock in owned && sock !in connections
      modifies this`connections, this`interest, this`repr
      ensures sock in connections && repr == old(repr) + {connections[sock]} && fresh(connections[sock])
      ensures connections[sock].sock == sock && connections[sock].listening == listening
      ensures connections[sock].received == "" && connections[sock].sent == ""
      ensures connections[sock].inbuffer == "" && connections[sock].outbuffer == "" && connections[sock].raw == ""
      ensures connections == old(connections)[sock := connections[sock]]
      ensures interest == old(interest)[sock := Interest(true, false)]
    {
      var conn := new Connection(sock, listening);
      interest := interest[sock := Interest(true, false)];
      connections := connections[sock := conn];
      repr := repr + {conn};
    }

    method IsConnectionExists(sock: int) returns (r: bool)
      ensures r <==> sock in connections
    {
      r := sock in connections;
    }

    method EnableReadWrite(conn: Connection, readable: bool, writeable: bool)
      requires conn.sock in interest
      modifies this`interest
      ensures interest == old(interest)[conn.sock := Interest(readable, writeable)]
    {
      interest := interest[conn.sock := Interest(readable, writeable)];
    }

    method Excepter(conn: Connection)
      modifies this`connections, this`interest, this`owned
      ensures conn.sock !in old(connections) ==>
                connections == old(connections) && interest == old(interest) && owned == old(owned)
      ensures conn.sock in old(connections) ==>
                && connections == old(connections) - {conn.sock}
                && interest == old(interest) - {conn.sock}
                && owned == old(owned) - {conn.sock}
    {
      var exists_ := IsConnectionExists(conn.sock);
      if !exists_ {
        return;
      }
      interest := interest - {conn.sock};
      connections := connections - {conn.sock};
      owned := owned - {conn.sock};
    }

    method Accepter(conn: Connection, results: seq<AcceptResult>)
      requires Valid() && Registered(conn) && conn.listening
      modifies this
      ensures Valid()
      ensures Keeps(old(connections), {})
      ensures forall s :: s in connections && s !in old(connections) ==> Brand(connections[s])
      ensures repr >= old(repr) && fresh(repr - old(repr))
      ensures |connections| == old(|connections|) + Joined(results)
    {
      hide Valid, Joined;
      AcceptIs(results);
      var rest := results;
      while rest != []
        invariant Valid()
        invariant Keeps(old(connections), {})
        invariant forall s :: s in connections && s !in old(connections) ==> Brand(connections[s])
        invariant repr >= old(repr) && fresh(repr - old(repr))
        invariant |connections| + AcceptCount(rest) == old(|connections|) + AcceptCount(results)
        decreases |rest|
      {
        var answer := rest[0];
        rest := rest[1..];
        match answer
        case AcceptFailed(errno) =>
          if errno == EAGAIN {
            break;
          } else if errno == EINTR {
            continue;
          } else {
            break;
          }
        case Accepted =>
          AcceptOne();
      }
    }

    /** A successful accept, whatever descriptor the kernel picks among those not in use. */
    method AcceptOne()
      requires Valid()
      modifies this
      ensures Valid()
      ensures Keeps(old(connections), {})
      ensures forall s :: s in connections && s !in old(connections) ==> Brand(connections[s])
      ensures repr >= old(repr) && fresh(repr - old(repr))
      ensures |connections| == old(|connections|) + 1
    {
      FreshDescriptor(connections.Keys);
      var sock: int :| 0 <= sock && sock !in connections;
      owned := owned + {sock};
      AddConnection(sock, false);
      assert forall s :: s in old(connections) ==> old(InOrder(s, connections[s]));
      NothingOwedYet(service);
    }

    /** The receive loop of Recver: read until the kernel has nothing more. */
    method ReceiveAll(conn: Connection, results: seq<RecvResult>) returns (err: bool)
      requires conn.sock in connections
      modifies this`connections, this`interest, this`owned, conn`inbuffer, conn`received, conn`raw
      ensures (err == !ReadAlive(results)) && (err <==> !StaysOpen(results))
      ensures conn.received == old(conn.received) + ReadBytes(results)
      ensures conn.inbuffer == old(conn.inbuffer) + ReadBytes(results)
      ensures conn.raw == old(conn.raw) + RawBytes(results)
      ensures !err ==> connections == old(connections) && interest == old(interest) && owned == old(owned)
      ensures err ==>
                && connections == old(connections) - {conn.sock}
                && interest == old(interest) - {conn.sock}
                && owned == old(owned) - {conn.sock}
    {
      err := false;
      var rest := results;
      ghost var got, raw := "", "";
      while rest != []
        invariant !err
        invariant got + ReadBytes(rest) == ReadBytes(results) && raw + RawBytes(rest) == RawBytes(results)
        invariant ReadAlive(rest) == ReadAlive(results)
        invariant conn.received == old(conn.received) + got && conn.inbuffer == old(conn.inbuffer) + got
        invariant conn.raw == old(conn.raw) + raw
        invariant connections == old(connections) && interest == old(interest) && owned == old(owned)
        decreases |rest|
      {
        var answer := rest[0];
        rest := rest[1..];
        match answer
        case RecvFailed(errno) =>
          if errno == EAGAIN {
            break;
          } else if errno == EINTR {
            continue;
          } else {
            Excepter(conn);
            err := true;
            break;
          }
        case Received(bytes) =>
          if |bytes| == 0 {
            Excepter(conn);
            err := true;
            break;
          } else {
            ReadMore(old(conn.received), got, CStr(bytes), ReadBytes(rest));
            ReadMore(old(conn.inbuffer), got, CStr(bytes), ReadBytes(rest));
            ReadMore(old(conn.raw), raw, bytes, RawBytes(rest));
            got, raw := got + CStr(bytes), raw + bytes;
            conn.inbuffer := conn.inbuffer + CStr(bytes);
            conn.received := conn.received + CStr(bytes);
            conn.raw := conn.raw + bytes;
          }
      }
      assert got == ReadBytes(results) && raw == RawBytes(results);
      StaysOpenIff(results);
    }

    /** The callback: append the encoded answer, if there is one, and ask for write readiness. */
    method Callback(conn: Connection, request: string)
      requires conn.sock in interest
      modifies this`interest, conn`outbuffer
      ensures conn.outbuffer == old(conn.outbuffer) + Replies(service, [request])
      ensures interest == if service(request).Some?
                          then old(interest)[conn.sock := Interest(true, true)] else old(interest)
    {
      var reply := service(request);
      assert Replies(service, []) == "";
      if reply.None? {
        return;
      }
      conn.outbuffer := conn.outbuffer + Encode(reply.value);
      EnableReadWrite(conn, true, true);
    }

    method Recver(conn: Connection, results: seq<RecvResult>)
      requires Valid() && Registered(conn) && !conn.listening
      modifies this`connections, this`interest, this`owned, conn
      ensures Valid()
      ensures View(conn) == Link(old(conn.received) + ReadBytes(results), old(conn.sent), ReadAlive(results))
      ensures conn.raw == old(conn.raw) + RawBytes(results)
      ensures connections == if ReadAlive(results) then old(connections) else old(connections) - {conn.sock}
      ensures conn.sock in connections <==> StaysOpen(results)
    {
      StaysOpenIff(results);
      var err := ReceiveAll(conn, results);
      if !err {
        KeptMore(old(conn.raw), old(conn.received), results);
        ReadKeepsUpToDate(service, old(conn.received), conn.sent, old(conn.inbuffer), conn.outbuffer,
                          ReadBytes(results));
        SplitAndServe(conn);
      }
    }

    /** The end of Recver: split the in-buffer and hand every message to the callback. */
    method SplitAndServe(conn: Connection)
      requires conn.sock in interest && interest[conn.sock] == Interest(true, conn.outbuffer != "")
      modifies this`interest, conn`inbuffer, conn`outbuffer
      ensures conn.inbuffer == Tail(old(conn.inbuffer))
      ensures conn.outbuffer == old(conn.outbuffer) + Owed(service, old(conn.inbuffer))
      ensures interest == old(interest)[conn.sock := Interest(true, conn.outbuffer != "")]
    {
      var rest, messages := SpliteMessage(conn.inbuffer, []);
      conn.inbuffer := rest;
      for k := 0 to |messages|
        invariant conn.inbuffer == rest
        invariant conn.outbuffer == old(conn.outbuffer) + Replies(service, messages[..k])
        invariant interest == old(interest)[conn.sock := Interest(true, conn.outbuffer != "")]
      {
        RepliesSnoc(service, messages, k);
        Assoc(old(conn.outbuffer), Replies(service, messages[..k]), Replies(service, [messages[k]]));
        Callback(conn, messages[k]);
      }
      assert messages[..|messages|] == messages;
    }

    method Sender(conn: Connection, results: seq<SendResult>)
      requires Valid() && Registered(conn) && !conn.listening
      modifies this`connections, this`interest, this`owned, conn
      ensures Valid()
      ensures var pending := |old(conn.outbuffer)|;
              View(conn) == Link(old(conn.received),
                                 old(conn.sent) + old(conn.outbuffer)[..SentCount(results, pending)],
                                 SendAlive(results, pending))
      ensures connections == if SendAlive(results, |old(conn.outbuffer)|)
                             then old(connections) else old(connections) - {conn.sock}
      ensures SendEffect(results, |old(conn.outbuffer)|, |conn.sent| - |old(conn.sent)|, conn.sock in connections)
    {
      hide SendEffect, SentCount, SendAlive, UpToDate, Kept;
      assert forall s :: s in connections && s != conn.sock ==> connections[s] != conn;
      ghost var n := SentCount(results, |conn.outbuffer|);
      SendMeasured(results, conn.sent, conn.outbuffer);
      SendKeepsUpToDate(service, conn.received, conn.sent, conn.inbuffer, conn.outbuffer, n);
      var alive := SendAll(conn, results);
      if !alive {
        // The source goes on with a connection it has deleted; the handler ends here.
        return;
      }
      AskForRoom(conn);
    }

    /** The end of Sender: write interest goes with what is left to send. */
    method AskForRoom(conn: Connection)
      requires conn.sock in interest
      modifies this`interest
      ensures interest == old(interest)[conn.sock := Interest(true, conn.outbuffer != "")]
    {
      if conn.outbuffer == "" {
        EnableReadWrite(conn, true, false);
      } else {
        EnableReadWrite(conn, true, true);
      }
    }

    /** The send loop of Sender. */
    method SendAll(conn: Connection, results: seq<SendResult>) returns (alive: bool)
      requires conn.sock in connections
      modifies this`connections, this`interest, this`owned, conn`outbuffer, conn`sent
      ensures alive == SendAlive(results, |old(conn.outbuffer)|)
      ensures var n := SentCount(results, |old(conn.outbuffer)|);
              conn.sent == old(conn.sent) + old(conn.outbuffer)[..n] &&
              conn.outbuffer == old(conn.outbuffer)[n..]
      ensures alive ==> connections == old(connections) && interest == old(interest) && owned == old(owned)
      ensures !alive ==>
                && connections == old(connections) - {conn.sock}
                && interest == old(interest) - {conn.sock}
                && owned == old(owned) - {conn.sock}
    {
      alive := true;
      var rest := results;
      ghost var all, n := conn.outbuffer, 0;
      while rest != []
        invariant alive && n <= |all|
        invariant conn.sent == old(conn.sent) + all[..n] && conn.outbuffer == all[n..]
        invariant n + SentCount(rest, |all| - n) == SentCount(results, |all|)
        invariant SendAlive(rest, |all| - n) == SendAlive(results, |all|)
        invariant connections == old(connections) && interest == old(interest) && owned == old(owned)
        decreases |rest|
      {
        var answer := rest[0];
        rest := rest[1..];
        var taken := Min(answer.room, |conn.outbuffer|);
        if taken > 0 {
          TakeMore(old(conn.sent), all, n, taken);
          conn.sent := conn.sent + conn.outbuffer[..taken];
          conn.outbuffer := conn.outbuffer[taken..];
          n := n + taken;
          if conn.outbuffer == "" {
            break;
          }
        } else if answer.errno == EAGAIN {
          break;
        } else if answer.errno == EINTR {
          continue;
        } else {
          Excepter(conn);
          alive := false;
          break;
        }
      }
    }

    /** The receive half of one event. */
    method DispatchRead(e: Ready)
      requires Valid() && e.fd in connections && e.fd != listensock
      modifies this`connections, this`interest, this`owned, connections[e.fd]
      ensures Valid()
      ensures var conn := old(connections[e.fd]);
              && View(conn) == AfterRead(old(View(conn)), e)
              && connections == (if View(conn).alive then old(connections) else old(connections) - {e.fd})
    {
      if e.Reads() {
        var exists_ := IsConnectionExists(e.fd);
        if exists_ && !connections[e.fd].listening {
          Recver(connections[e.fd], e.recvs);
        }
      }
    }

    /** The send half of one event; the receive half may have removed the connection. */
    method DispatchWrite(e: Ready, ghost conn: Connection)
      requires Valid() && conn.sock == e.fd != listensock
      requires e.fd in connections ==> connections[e.fd] == conn
      modifies this`connections, this`interest, this`owned, conn
      ensures Valid()
      ensures old(conn.sent) <= Owed(service, old(conn.received)) ==>
                View(conn) == AfterWrite(service, old(View(conn)), e)
      ensures connections == (if View(conn).alive then old(connections) else old(connections) - {e.fd})
    {
      if e.Writes() {
        var exists_ := IsConnectionExists(e.fd);
        if exists_ && !connections[e.fd].listening {
          SendMeansOwed(service, conn.received, conn.sent, conn.inbuffer, conn.outbuffer,
                        SentCount(e.sends, |conn.outbuffer|));
          Sender(connections[e.fd], e.sends);
        }
      }
    }

    /** An event on the listening connection accepts everything that is waiting. */
    method DispatchAccept(e: Ready)
      requires Valid() && e.fd in connections && e.fd == listensock
      modifies this
      ensures Valid()
      ensures forall c :: c in old(repr) ==> View(c) == old(View(c))
      ensures Carried(old(connections))
      ensures repr >= old(repr) && fresh(repr - old(repr))
      ensures connections.Keys >= old(connections).Keys
      ensures |connections.Keys - old(connections).Keys| == AcceptedBy(listensock, e)
    {
      ghost var before := connections.Keys;
      if e.Reads() {
        Accepter(connections[e.fd], e.accepts);
        forall s | s in before ensures s in connections.Keys {
        }
        Growth(before, connections.Keys);
      }
    }

    /** An event on a client: read, then write if the connection is still there. */
    method DispatchClient(e: Ready)
      requires Valid() && e.fd in connections && e.fd != listensock
      modifies this`connections, this`interest, this`owned, connections[e.fd]
      ensures Valid()
      ensures var conn := old(connections[e.fd]);
              && EventEffect(service, old(View(conn)), e, View(conn))
              && connections == (if View(conn).alive then old(connections) else old(connections) - {e.fd})
    {
      ghost var conn := connections[e.fd];
      SentStaysOwed(service, View(conn), e);
      EventIs(service, View(conn), e);
      hide EventEffect, Owed;
      DispatchRead(e);
      DispatchWrite(e, conn);
    }

    /** The body of LoopOnce's loop: at most one receive and one send callback for one event. */
    method DispatchEvent(e: Ready)
      requires Valid() && e.fd in connections
      modifies this, connections[e.fd]
      ensures Valid()
      ensures forall c :: c in old(repr) && c != old(connections[e.fd]) ==> View(c) == old(View(c))
      ensures e.fd == listensock ==> View(old(connections[e.fd])) == old(View(connections[e.fd]))
      ensures e.fd != listensock ==>
                EventEffect(service, old(View(connections[e.fd])), e, View(old(connections[e.fd])))
      ensures Carried(old(connections))
      ensures if e.fd == listensock
              then connections.Keys >= old(connections).Keys &&
                   |connections.Keys - old(connections).Keys| == AcceptedBy(listensock, e)
              else connections.Keys == old(connections).Keys -
                                       if View(old(connections[e.fd])).alive then {} else {e.fd}
      ensures repr >= old(repr) && fresh(repr - old(repr))
    {
      if e.fd == listensock {
        DispatchAccept(e);
      } else {
        DispatchClient(e);
      }
    }

    /** Where LoopOnce stands after `i` events, for the table `at` and the links `was` of the moment the
        wait returned. */
    ghost predicate Midway(batch: seq<Ready>, i: nat, at: map<int, Connection>, was: map<int, Link>)
      requires i <= |batch|
      reads this, repr, at.Values, connections.Values
    {
      && Valid()
      && (forall s :: s in at ==> at[s] in repr && at[s].sock == s)
      && Carried(at)
      && BatchEffect(listensock, service, batch, i, was, Views(at))
      && Arrivals(listensock, batch, i, |Newcomers(Views(at), connections.Keys)|)
    }

    lemma Beginning(batch: seq<Ready>)
      requires Valid() && Reportable(batch, connections.Keys)
      ensures Midway(batch, 0, connections, Views(connections))
      ensures forall k :: 0 <= k < |batch| ==>
                batch[k].fd in connections && Views(connections)[batch[k].fd].alive
    {
      NoNewcomersYet(Views(connections), connections.Keys);
    }

    method LoopStep(batch: seq<Ready>, i: nat, ghost at: map<int, Connection>, ghost was: map<int, Link>)
      requires i < |batch| && Distinct(batch) && batch[i].fd in at && at.Keys == was.Keys && was[batch[i].fd].alive
      requires Midway(batch, i, at, was)
      modifies this, repr
      ensures Midway(batch, i + 1, at, was) && repr >= old(repr) && fresh(repr - old(repr))
    {
      ghost var now, keys := Views(at), connections.Keys;
      assert now[batch[i].fd] == was[batch[i].fd];
      assert forall s :: s in now && now[s].alive ==> s in keys;
      DispatchEvent(batch[i]);
      BatchStep(listensock, service, batch, i, was, now, Views(at));
      NewcomersStep(listensock, batch, i, now, keys, Views(at), connections.Keys);
    }

    /** One batch. Every client event has its batch effect on the connection that was registered
        when the wait returned; connections without an event are untouched. */
    method LoopOnce(batch: seq<Ready>)
      requires Valid() && Reportable(batch, connections.Keys)
      modifies this, repr
      ensures Valid() && repr >= old(repr) && fresh(repr - old(repr))
      ensures RoundEffect(listensock, service,
                          Round(batch, old(Views(connections)), Views(old(connections)), Views(connections)))
    {
      hide Valid, InOrder, BatchEffect, Arrivals, Newcomers, Carried, RoundEffect;
      ghost var at := connections;
      ghost var was := Views(at);
      Beginning(batch);
      for i := 0 to |batch|
        invariant Midway(batch, i, at, was) && repr >= old(repr) && fresh(repr - old(repr))
      {
        LoopStep(batch, i, at, was);
      }
      Ending(batch, at, was);
    }

    lemma Ending(batch: seq<Ready>, at: map<int, Connection>, was: map<int, Link>)
      requires Midway(batch, |batch|, at, was)
      ensures RoundEffect(listensock, service, Round(batch, was, Views(at), Views(connections)))
    {
    }

    /** Dispather: round after round, whatever batches the kernel reports; a batch it cannot report
        for the table of the moment stands for a wait without events. */
    method Dispather(batches: seq<seq<Ready>>) returns (ghost rounds: seq<Round>)
      requires Valid()
      modifies this, repr
      ensures Valid() && repr >= old(repr) && fresh(repr - old(repr))
      ensures Trace(listensock, service, batches, old(Views(connections)), rounds, Views(connections))
      ensures forall s :: s in connections && s != listensock ==>
                var conn := connections[s];
                && (conn.received == conn.raw <==> NUL !in conn.raw)
                && conn.inbuffer == Tail(conn.received)
                && conn.sent + conn.outbuffer == Owed(service, conn.received)
                && interest[s] == Interest(true, conn.outbuffer != "")
    {
      hide Trace, RoundEffect, Views;
      rounds := [];
      ghost var start := Views(connections);
      TraceStart(listensock, service, batches, start);
      for r := 0 to |batches|
        invariant Valid() && repr >= old(repr) && fresh(repr - old(repr))
        invariant Trace(listensock, service, batches[..r], start, rounds, Views(connections))
      {
        var batch := if Reportable(batches[r], connections.Keys) then batches[r] else [];
        ghost var at, was := connections, Views(connections);
        LoopOnce(batch);
        TraceMore(listensock, service, batches, r, start, rounds, Round(batch, was, Views(at), Views(connections)));
        rounds := rounds + [Round(batch, was, Views(at), Views(connections))];
      }
      assert batches[..|batches|] == batches;
    }

    ghost function Views(at: map<int, Connection>): (r: map<int, Link>)
      reads this, at.Values
      ensures r.Keys == at.Keys
    {
      map s | s in at :: View(at[s])
    }
  }

  /** What epoll_wait may report: registered descriptors, each at most once in a batch. */
  predicate Reportable(batch: seq<Ready>, registered: set<int>) {
    (forall i :: 0 <= i < |batch| ==> batch[i].fd in registered) && Distinct(batch)
  }

  predicate Distinct(batch: seq<Ready>) {
    forall i, j :: 0 <= i < j < |batch| ==> batch[i].fd != batch[j].fd
  }

  ghost predicate Reported(batch: seq<Ready>, n: nat, s: int)
    requires n <= |batch|
  {
    exists k :: 0 <= k < n && batch[k].fd == s
  }

  ghost function AcceptedBy(listensock: int, e: Ready): nat {
    if e.fd == listensock && (e.epollin || e.epollerr || e.epollhup) then Joined(e.accepts) else 0
  }

  lemma NothingLeft<T>(a: set<T>, b: set<T>)
    requires a <= b
    ensures a - b == {}
  {
  }

  lemma SameSet<T>(a: set<T>, b: set<T>)
    requires a <= b && b <= a
    ensures a == b
  {
  }

  lemma Growth(a: set<int>, b: set<int>)
    requires a <= b
    ensures |b - a| == |b| - |a|
  {
  }

  /** The descriptors of the table that belong to clients accepted since the links `now` were listed. */
  function Newcomers(now: map<int, Link>, keys: set<int>): set<int> {
    keys - Alive(now)
  }

  function Alive(links: map<int, Link>): set<int> { set s | s in links && links[s].alive }

  lemma NoNewcomersYet(now: map<int, Link>, keys: set<int>)
    requires forall s :: s in keys ==> s in now && now[s].alive
    ensures |Newcomers(now, keys)| == 0
  {
    forall s | s in keys ensures s in Alive(now) {
    }
    NothingLeft(keys, Alive(now));
  }

  lemma NewcomersStep(listensock: int, batch: seq<Ready>, i: nat,
                      now: map<int, Link>, keys: set<int>, next: map<int, Link>, keys': set<int>)
    requires i < |batch| && Distinct(batch) && Arrivals(listensock, batch, i, |Newcomers(now, keys)|)
    requires next.Keys == now.Keys && batch[i].fd in now && now[batch[i].fd].alive
    requires forall s :: s in now && now[s].alive ==> s in keys
    requires forall s :: s in now && (s != batch[i].fd || s == listensock) ==> next[s] == now[s]
    requires if batch[i].fd == listensock
             then keys' >= keys && |keys' - keys| == AcceptedBy(listensock, batch[i])
             else keys' == keys - if next[batch[i].fd].alive then {} else {batch[i].fd}
    ensures Arrivals(listensock, batch, i + 1, |Newcomers(next, keys')|)
  {
    hide Arrivals;
    ArrivalsStep(listensock, batch, i, |Newcomers(now, keys)|);
    if batch[i].fd == listensock {
      assert Newcomers(next, keys') == Newcomers(now, keys) + (keys' - keys);
    } else {
      NoNewcomer(batch[i].fd, now, keys, next, keys');
    }
  }

  lemma NoNewcomer(fd: int, now: map<int, Link>, keys: set<int>, next: map<int, Link>, keys': set<int>)
    requires next.Keys == now.Keys && fd in now && now[fd].alive
    requires forall s :: s in now && s != fd ==> next[s] == now[s]
    requires keys' == keys - if next[fd].alive then {} else {fd}
    ensures Newcomers(next, keys') == Newcomers(now, keys)
  {
    forall s | s in Newcomers(next, keys') ensures s in Newcomers(now, keys) {
    }
    forall s | s in Newcomers(now, keys) ensures s in Newcomers(next, keys') {
    }
    SameSet(Newcomers(next, keys'), Newcomers(now, keys));
  }

  /** The first `n` events of a batch brought in every client the listener had waiting, and nobody else. */
  ghost predicate Arrivals(listensock: int, batch: seq<Ready>, n: nat, joined: nat)
    requires n <= |batch|
  {
    && (!Reported(batch, n, listensock) ==> joined == 0)
    && (forall k :: 0 <= k < n && batch[k].fd == listensock ==> joined == AcceptedBy(listensock, batch[k]))
  }

  lemma ArrivalsStep(listensock: int, batch: seq<Ready>, i: nat, joined: nat)
    requires i < |batch| && Distinct(batch) && Arrivals(listensock, batch, i, joined)
    ensures Arrivals(listensock, batch, i + 1, joined + AcceptedBy(listensock, batch[i]))
  {
  }

  /** The first `n` events of a batch had their effect on the links `was`, and nothing else changed. */
  ghost predicate BatchEffect(listensock: int, service: Service, batch: seq<Ready>, n: nat,
                              was: map<int, Link>, now: map<int, Link>)
    requires n <= |batch|
  {
    && was.Keys == now.Keys
    && (forall s :: s in was && (s == listensock || !Reported(batch, n, s)) ==> now[s] == was[s])
    && (forall k :: 0 <= k < n && batch[k].fd != listensock ==>
          batch[k].fd in was && EventEffect(service, was[batch[k].fd], batch[k], now[batch[k].fd]))
  }

  lemma BatchStep(listensock: int, service: Service, batch: seq<Ready>, n: nat,
                  was: map<int, Link>, now: map<int, Link>, next: map<int, Link>)
    requires n < |batch| && BatchEffect(listensock, service, batch, n, was, now)
    requires Distinct(batch)
    requires batch[n].fd in now && next.Keys == now.Keys
    requires forall s :: s in now && s != batch[n].fd ==> next[s] == now[s]
    requires if batch[n].fd == listensock then next[listensock] == now[listensock]
             else EventEffect(service, now[batch[n].fd], batch[n], next[batch[n].fd])
    ensures BatchEffect(listensock, service, batch, n + 1, was, next)
  {
  }

  /** One round: its batch, the links of the table when the wait returned, the same links after the batch,
      and the links of the new table. */
  datatype Round = Round(batch: seq<Ready>, was: map<int, Link>, now: map<int, Link>, next: map<int, Link>)

  /** Those that are still alive make up the new table, with the clients that were accepted. */
  ghost predicate RoundEffect(listensock: int, service: Service, x: Round) {
    && BatchEffect(listensock, service, x.batch, |x.batch|, x.was, x.now)
    && (forall s :: s in x.now && x.now[s].alive ==> s in x.next)
    && (forall s :: s in x.next ==> x.next[s] == if s in x.now && x.now[s].alive then x.now[s] else NEWCOMER)
    && Arrivals(listensock, x.batch, |x.batch|, |Newcomers(x.now, x.next.Keys)|)
  }

  /** A whole run, from the table `start` to the table `end`. */
  ghost predicate Trace(listensock: int, service: Service, batches: seq<seq<Ready>>,
                        start: map<int, Link>, rounds: seq<Round>, end: map<int, Link>)
  {
    && |rounds| == |batches|
    && (rounds != [] ==> rounds[0].was == start)
    && (forall r :: 0 < r < |rounds| ==> rounds[r].was == rounds[r - 1].next)
    && (forall r :: 0 <= r < |rounds| ==>
          && rounds[r].batch == (if Reportable(batches[r], rounds[r].was.Keys) then batches[r] else [])
          && RoundEffect(listensock, service, rounds[r]))
    && end == if rounds == [] then start else rounds[|rounds| - 1].next
  }

  lemma TraceMore(listensock: int, service: Service, batches: seq<seq<Ready>>, r: nat,
                  start: map<int, Link>, rounds: seq<Round>, x: Round)
    requires r < |batches| && Trace(listensock, service, batches[..r], start, rounds, x.was)
    requires x.batch == if Reportable(batches[r], x.was.Keys) then batches[r] else []
    requires RoundEffect(listensock, service, x)
    ensures Trace(listensock, service, batches[..r + 1], start, rounds + [x], x.next)
  {
    hide RoundEffect, Reportable;
    assert batches[..r + 1] == batches[..r] + [batches[r]];
  }

  /** A batch that the kernel can report is the one that is dispatched. */
  lemma ReportedIsDispatched(listensock: int, service: Service, batches: seq<seq<Ready>>,
                             start: map<int, Link>, rounds: seq<Round>, end: map<int, Link>, r: nat)
    requires Trace(listensock, service, batches, start, rounds, end) && r < |rounds|
    requires forall i :: 0 <= i < |batches[r]| ==> batches[r][i].fd in rounds[r].was
    requires forall i, j :: 0 <= i < j < |batches[r]| ==> batches[r][i].fd != batches[r][j].fd
    ensures rounds[r].batch == batches[r] && RoundEffect(listensock, service, rounds[r])
  {
    hide RoundEffect;
  }

  lemma TraceStart(listensock: int, service: Service, batches: seq<seq<Ready>>, start: map<int, Link>)
    ensures Trace(listensock, service, batches[..0], start, [], start)
  {
  }

  /** Nothing was ever sent that is not, in order, an answer to what had been received. */
  ghost predicate AllOwed(service: Service, links: map<int, Link>) {
    forall s :: s in links ==> links[s].sent <= Owed(service, links[s].received)
  }

  lemma EventKeepsOwed(service: Service, l: Link, e: Ready, l': Link)
    requires EventEffect(service, l, e, l')
    ensures l'.sent <= Owed(service, l'.received)
  {
  }

  lemma RoundKeepsOwed(listensock: int, service: Service, x: Round)
    requires RoundEffect(listensock, service, x) && AllOwed(service, x.was)
    ensures AllOwed(service, x.now) && AllOwed(service, x.next)
  {
    hide EventEffect, Owed, Arrivals;
    forall s | s in x.now ensures x.now[s].sent <= Owed(service, x.now[s].received) {
      if s != listensock && Reported(x.batch, |x.batch|, s) {
        var k :| 0 <= k < |x.batch| && x.batch[k].fd == s;
        EventKeepsOwed(service, x.was[s], x.batch[k], x.now[s]);
      }
    }
  }

  /** In every round of every run, also on the connections that end in it. */
  lemma {:induction false} EveryRound(listensock: int, service: Service, batches: seq<seq<Ready>>,
                                      start: map<int, Link>, rounds: seq<Round>, end: map<int, Link>, r: nat)
    requires Trace(listensock, service, batches, start, rounds, end) && AllOwed(service, start) && r < |rounds|
    ensures AllOwed(service, rounds[r].was) && AllOwed(service, rounds[r].now) && AllOwed(service, rounds[r].next)
  {
    hide RoundEffect, AllOwed, Reportable;
    if r > 0 {
      EveryRound(listensock, service, batches, start, rounds, end, r - 1);
    }
    RoundKeepsOwed(listensock, service, rounds[r]);
  }
}
