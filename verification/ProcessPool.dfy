/** 10-1/processpool/processpoll.cc: one pipe per child, commands dealt out in turn, and a shutdown that
    closes the write ends in ascending order and waits after each close. Descriptor tables are
    modelled, because a fork copies the parent's table, earlier write ends included. */
module ProcessPool {
  import opened Descriptors
  import opened Modular

  datatype End = Other | ReadEnd(pipe: nat) | WriteEnd(pipe: nat)

  type Table = map<int, End>

  datatype EndPoint = EndPoint(childId: nat, writeFd: int)

  const COMMANDS := 3

  /** The commands that are sent: those before the first 3, without the ones out of range. */
  function Selected(commands: seq<int>): seq<int> {
    if commands == [] || commands[0] == COMMANDS then []
    else if 0 <= commands[0] < COMMANDS then [commands[0]] + Selected(commands[1..])
    else Selected(commands[1..])
  }

  /** What child `j` of `n` gets when commands are dealt out in turn. */
  function Share(sent: seq<int>, j: nat, n: nat): seq<int>
    requires n > 0
  {
    if sent == [] then []
    else
      var last := |sent| - 1;
      Share(sent[..last], j, n) + if last % n == j then [sent[last]] else []
  }

  class Pool {
    var parent: Table
    // A child's table is empty once it has exited.
    var children: seq<Table>
    var exited: seq<bool>
    // The commands written to each pipe, and those each child has executed.
    var pipes: seq<seq<int>>
    var executed: seq<seq<int>>

    constructor (parent: Table)
      ensures this.parent == parent && children == [] && exited == [] && pipes == [] && executed == []
    {
      this.parent := parent;
      children, exited, pipes, executed := [], [], [], [];
    }

    /** After the children are created: the parent holds one write end per pipe and nothing else of the
        pipes; child i reads pipe i on descriptor 0; no child holds a write end. */
    ghost predicate Ready(before: Table, ends: seq<EndPoint>)
      reads this
    {
      && |children| == |exited| == |pipes| == |executed| == |ends|
      && (forall i :: 0 <= i < |ends| ==>
            && ends[i].childId == i && ends[i].writeFd !in before
            && ends[i].writeFd in parent && parent[ends[i].writeFd] == WriteEnd(i)
            && !exited[i])
      && (forall fd :: fd in before ==> fd in parent && parent[fd] == before[fd])
      && Rest(before, ends, 0)
      && (forall i :: 0 <= i < |ends| ==> ReadsOnly(children[i], i))
    }

    /** What the parent holds besides its own descriptors are the write ends of the pipes from `first` on. */
    ghost predicate Rest(before: Table, ends: seq<EndPoint>, first: nat)
      reads this
    {
      forall fd :: fd in parent && fd !in before ==>
        && parent[fd].WriteEnd?
        && first <= parent[fd].pipe < |ends| && ends[parent[fd].pipe].writeFd == fd
    }

    /** A process may create the pool if its standard input is open and it holds no pipes. */
    ghost predicate Plain(before: Table) {
      0 in before && forall fd :: fd in before ==> before[fd] == Other
    }

    method CreateProcesses(gnum: nat) returns (ends: seq<EndPoint>)
      requires Plain(parent) && |children| == |exited| == |pipes| == |executed| == 0
      modifies this
      ensures Ready(old(parent), ends) && |ends| == gnum
      ensures forall i :: 0 <= i < gnum ==> pipes[i] == [] && executed[i] == []
    {
      ends := [];
      var fds: seq<int> := [];
      for i := 0 to gnum
        invariant Created(old(parent), ends, fds) && |ends| == i
      {
        ends, fds := CreateOne(old(parent), ends, fds);
      }
    }

    /** The pool so far, with the write ends that the next child must close. */
    ghost predicate Created(before: Table, ends: seq<EndPoint>, fds: seq<int>)
      reads this
    {
      && Plain(before) && Ready(before, ends)
      && |fds| == |ends| && (forall j :: 0 <= j < |ends| ==> fds[j] == ends[j].writeFd)
      && (forall j :: 0 <= j < |ends| ==> pipes[j] == [] && executed[j] == [])
    }

    /** One round of the creation loop: pipe, fork, and what child and parent close. */
    method CreateOne(ghost before: Table, ends: seq<EndPoint>, fds: seq<int>)
      returns (ends': seq<EndPoint>, fds': seq<int>)
      requires Created(before, ends, fds)
      modifies this
      ensures Created(before, ends', fds') && |ends'| == |ends| + 1
    {
      var i := |ends|;
      // pipe: two numbers that are not in use
      FreshDescriptor(parent.Keys);
      var readFd: int :| 0 <= readFd && readFd !in parent;
      FreshDescriptor(parent.Keys + {readFd});
      var writeFd: int :| 0 <= writeFd && writeFd !in parent.Keys + {readFd};
      var forked := parent[readFd := ReadEnd(i)][writeFd := WriteEnd(i)];
      // fork, and the child's part
      var child := ChildTable(forked, fds, readFd, writeFd);
      assert ReadsOnly(child, i);
      children, exited := children + [child], exited + [false];
      pipes, executed := pipes + [[]], executed + [[]];
      // the parent's part
      parent := forked - {readFd};
      ends' := ends + [EndPoint(i, writeFd)];
      fds' := fds + [writeFd];
    }

    /** The child's side of the fork: close the inherited write ends, then read commands on descriptor 0. */
    method ChildTable(forked: Table, fds: seq<int>, readFd: int, writeFd: int) returns (child: Table)
      requires readFd in forked && readFd != writeFd && readFd !in fds
      ensures child == (forked - (set fd | fd in fds) - {writeFd})[0 := forked[readFd]]
    {
      child := forked;
      for j := 0 to |fds|
        invariant child == forked - set fd | fd in fds[..j]
      {
        child := child - {fds[j]};
        assert fds[..j + 1] == fds[..j] + [fds[j]];
      }
      assert fds[..|fds|] == fds;
      child := child - {writeFd};
      child := child[0 := child[readFd]];
    }

    /** ctrlProcess: every valid command goes to the next child in turn. */
    method CtrlProcess(ghost before: Table, ends: seq<EndPoint>, commands: seq<int>)
      requires Ready(before, ends) && |ends| > 0
      requires forall i :: 0 <= i < |pipes| ==> pipes[i] == []
      modifies this`pipes
      ensures Ready(before, ends)
      ensures forall j :: 0 <= j < |ends| ==> pipes[j] == Share(Selected(commands), j, |ends|)
    {
      var cnt := 0;
      var i := 0;
      ghost var sent := [];
      while i < |commands|
        invariant i <= |commands| && Ready(before, ends)
        invariant sent + Selected(commands[i..]) == Selected(commands)
        invariant cnt == |sent| % |ends|
        invariant Dealt(sent, |ends|)
      {
        var command := commands[i];
        assert commands[i..][1..] == commands[i + 1..];
        i := i + 1;
        if command == COMMANDS {
          break;
        }
        if command < 0 || command > 2 {
          continue;
        }
        var index := cnt;
        cnt := cnt + 1;
        cnt := cnt % |ends|;
        Wrap(|sent|, |ends|);
        Deal(before, ends, sent, index, command);
        sent := sent + [command];
      }
      assert sent == Selected(commands);
    }

    ghost predicate Dealt(sent: seq<int>, n: nat)
      requires n > 0
      reads this
    {
      |pipes| == n && forall j :: 0 <= j < n ==> pipes[j] == Share(sent, j, n)
    }

    method Deal(ghost before: Table, ends: seq<EndPoint>, ghost sent: seq<int>, index: nat, command: int)
      requires Ready(before, ends) && |ends| > 0 && Dealt(sent, |ends|) && index == |sent| % |ends|
      modifies this`pipes
      ensures Ready(before, ends) && Dealt(sent + [command], |ends|)
    {
      forall j | 0 <= j < |ends|
        ensures Share(sent + [command], j, |ends|) == Share(sent, j, |ends|) + if index == j then [command] else []
      {
        ShareSnoc(sent, command, j, |ends|);
      }
      Write(ends[index].writeFd, command);
    }

    method Write(fd: int, command: int)
      requires fd in parent && parent[fd].WriteEnd? && parent[fd].pipe < |pipes|
      modifies this`pipes
      ensures var p := parent[fd].pipe; pipes == old(pipes)[p := old(pipes)[p] + [command]]
    {
      var p := parent[fd].pipe;
      pipes := pipes[p := pipes[p] + [command]];
    }

    /** Nobody can write to pipe i any more: its reader will see end of file. */
    ghost predicate AtEof(i: nat)
      reads this
    {
      && (forall fd :: fd in parent ==> parent[fd] != WriteEnd(i))
      && (forall c, fd :: 0 <= c < |children| && fd in children[c] ==> children[c][fd] != WriteEnd(i))
    }

    /** WaitCommand: execute what is in the pipe, then leave at end of file. */
    method WaitCommand(commands: seq<int>) returns (done: seq<int>)
      ensures done == Executable(commands)
    {
      done := [];
      for i := 0 to |commands|
        invariant done == Executable(commands[..i])
      {
        assert commands[..i + 1][..i] == commands[..i];
        // Task::Execute ignores numbers without a function.
        if 0 <= commands[i] < COMMANDS {
          done := done + [commands[i]];
        }
      }
      assert commands[..|commands|] == commands;
    }

    /** waitpid for child i. It returns because the child does: without end of file on its pipe the child
        would read for ever, and so would the wait. */
    method WaitPid(i: nat)
      requires i < |children| && |children| == |exited| == |pipes| == |executed|
      requires 0 in children[i] && children[i][0] == ReadEnd(i) && AtEof(i)
      modifies this`children, this`exited, this`executed
      ensures children == old(children)[i := map[]]
      ensures exited == old(exited)[i := true]
      ensures executed == old(executed)[i := Executable(pipes[i])]
    {
      var done := WaitCommand(pipes[i]);
      executed := executed[i := done];
      children := children[i := map[]];
      exited := exited[i := true];
    }

    /** waitProcess: close, wait, next; no wait blocks, and the parent's table is as before the pool. */
    method WaitProcess(ghost before: Table, ends: seq<EndPoint>)
      requires Plain(before) && Ready(before, ends)
      modifies this`parent, this`children, this`exited, this`executed
      ensures parent == before
      ensures |exited| == |executed| == |ends|
      ensures forall j :: 0 <= j < |ends| ==> exited[j] && executed[j] == Executable(pipes[j])
    {
      assert forall i, j :: 0 <= i < j < |ends| ==> parent[ends[i].writeFd] != parent[ends[j].writeFd];
      for end := 0 to |ends|
        invariant Closed(before, ends, end)
      {
        CloseAndWait(before, ends, end);
      }
      SameTable(parent, before);
    }

    /** The children before `end` have gone, the others still read, each from a pipe that only the parent
        can write to. */
    ghost predicate Closed(before: Table, ends: seq<EndPoint>, end: nat)
      reads this
    {
      && |children| == |exited| == |pipes| == |executed| == |ends|
      && (forall fd :: fd in before ==> fd in parent && parent[fd] == before[fd])
      && Rest(before, ends, end)
      && (forall i :: end <= i < |ends| ==>
            && ends[i].childId == i && ends[i].writeFd !in before
            && ends[i].writeFd in parent && parent[ends[i].writeFd] == WriteEnd(i)
            && ReadsOnly(children[i], i))
      && (forall i :: 0 <= i < end && i < |ends| ==>
            children[i] == map[] && exited[i] && executed[i] == Executable(pipes[i]))
    }

    method CloseAndWait(ghost before: Table, ends: seq<EndPoint>, end: nat)
      requires Plain(before) && end < |ends| && Closed(before, ends, end)
      modifies this`parent, this`children, this`exited, this`executed
      ensures Closed(before, ends, end + 1)
    {
      hide Executable;
      parent := parent - {ends[end].writeFd};
      WaitPid(ends[end].childId);
    }
  }

  lemma SameTable(a: Table, b: Table)
    requires forall fd :: fd in a ==> fd in b
    requires forall fd :: fd in b ==> fd in a && a[fd] == b[fd]
    ensures a == b
  {
    forall fd | fd in a.Keys ensures fd in b.Keys {
    }
    forall fd | fd in b.Keys ensures fd in a.Keys && a[fd] == b[fd] {
    }
    assert a.Keys <= b.Keys <= a.Keys;
  }

  ghost predicate ReadsOnly(child: Table, i: nat) {
    0 in child && child[0] == ReadEnd(i) && forall fd :: fd in child ==> !child[fd].WriteEnd?
  }

  function Executable(commands: seq<int>): seq<int> {
    if commands == [] then []
    else
      var last := |commands| - 1;
      Executable(commands[..last]) + if 0 <= commands[last] < COMMANDS then [commands[last]] else []
  }

  /** Only 0, 1 and 2 are kept, each as often as it stands there, and in order: a kept command comes after
      as many others as were kept before it. */
  lemma {:induction false} ExecutableIs(commands: seq<int>)
    ensures forall c :: multiset(Executable(commands))[c] == if 0 <= c <= 2 then multiset(commands)[c] else 0
    ensures forall i :: 0 <= i < |commands| && 0 <= commands[i] <= 2 ==>
              var n := |Executable(commands[..i])|;
              n < |Executable(commands)| && Executable(commands)[n] == commands[i]
  {
    if commands != [] {
      var last := |commands| - 1;
      var earlier := commands[..last];
      ExecutableIs(earlier);
      assert commands == earlier + [commands[last]];
      forall i | 0 <= i < |commands| && 0 <= commands[i] <= 2
        ensures |Executable(commands[..i])| < |Executable(commands)|
        ensures Executable(commands)[|Executable(commands[..i])|] == commands[i]
      {
        if i < last {
          assert earlier[..i] == commands[..i] && earlier[i] == commands[i];
        }
      }
    }
  }

  /** A command is sent exactly if it is 0 to 2 and no 3 was typed before it; other numbers end nothing. */
  lemma {:induction false} SelectedIs(commands: seq<int>, k: nat)
    requires k <= |commands| && 3 !in commands[..k] && (k < |commands| ==> commands[k] == 3)
    ensures Selected(commands) == Executable(commands[..k])
  {
    if k > 0 {
      assert commands[0] == commands[..k][0] != 3;
      assert commands[1..][..k - 1] == commands[..k][1..];
      SelectedIs(commands[1..], k - 1);
      ExecutableFirst(commands[..k]);
    }
  }

  lemma {:induction false} ExecutableFirst(commands: seq<int>)
    requires commands != []
    ensures Executable(commands)
            == (if 0 <= commands[0] < COMMANDS then [commands[0]] else []) + Executable(commands[1..])
  {
    var last := |commands| - 1;
    if last > 0 {
      ExecutableFirst(commands[..last]);
      assert commands[..last][1..] == commands[1..][..last - 1];
      assert commands[1..][last - 1] == commands[last];
    } else {
      assert Executable(commands[..0]) == [];
      assert Executable(commands[1..]) == [];
    }
  }

  lemma {:induction false} SelectedExecutable(commands: seq<int>)
    ensures forall c :: c in Selected(commands) ==> 0 <= c < COMMANDS
  {
    if commands != [] {
      SelectedExecutable(commands[1..]);
    }
  }

  lemma {:induction false} SharesExecutable(sent: seq<int>, j: nat, n: nat)
    requires n > 0 && forall c :: c in sent ==> 0 <= c < COMMANDS
    ensures Executable(Share(sent, j, n)) == Share(sent, j, n)
  {
    if sent != [] {
      var last := |sent| - 1;
      assert forall c :: c in sent[..last] ==> c in sent;
      SharesExecutable(sent[..last], j, n);
      var rest := Share(sent[..last], j, n);
      assert sent[last] in sent;
      if last % n == j {
        assert (rest + [sent[last]])[..|rest|] == rest;
      } else {
        assert rest + [] == rest;
      }
    }
  }

  /** main: however many children there are and whatever is typed, every child exits, having executed
      exactly its share of the valid commands in order, and the parent's descriptors are as before. */
  method RunPool(pool: Pool, gnum: nat, commands: seq<int>)
    requires pool.Plain(pool.parent) && gnum > 0
    requires |pool.children| == |pool.exited| == |pool.pipes| == |pool.executed| == 0
    modifies pool
    ensures pool.parent == old(pool.parent)
    ensures |pool.exited| == |pool.executed| == gnum
    ensures forall j :: 0 <= j < gnum ==> pool.exited[j] && pool.executed[j] == Share(Selected(commands), j, gnum)
  {
    var ends := pool.CreateProcesses(gnum);
    pool.CtrlProcess(old(pool.parent), ends, commands);
    pool.WaitProcess(old(pool.parent), ends);
    SelectedExecutable(commands);
    forall j | 0 <= j < gnum ensures pool.executed[j] == Share(Selected(commands), j, gnum) {
      SharesExecutable(Selected(commands), j, gnum);
    }
  }

  /** Dealing in turn: the k-th command of child j is number k * n + j of those sent. */
  lemma {:induction false} ShareAt(sent: seq<int>, j: nat, n: nat)
    requires j < n
    ensures |Share(sent, j, n)| == (|sent| + n - 1 - j) / n
    ensures forall k :: 0 <= k < |Share(sent, j, n)| ==>
              0 <= k * n + j < |sent| && Share(sent, j, n)[k] == sent[k * n + j]
    decreases |sent|
  {
    if sent == [] {
      DivUnique(0, n - 1 - j, n - 1 - j, n);
    } else {
      var last := |sent| - 1;
      var earlier := sent[..last];
      var share := Share(earlier, j, n);
      ShareAt(earlier, j, n);
      Turn(last, j, n);
      assert Share(sent, j, n) == share + if last % n == j then [sent[last]] else [];
      hide Share;
      forall k | 0 <= k < |Share(sent, j, n)|
        ensures 0 <= k * n + j < |sent| && Share(sent, j, n)[k] == sent[k * n + j]
      {
        if k < |share| {
          assert share[k] == earlier[k * n + j];
        }
      }
    }
  }

  /** The next command goes to child j exactly when j's share grows. */
  lemma Turn(m: nat, j: nat, n: nat)
    requires j < n
    ensures var grown := (m + n - 1 - j) / n;
            if m % n == j then m == grown * n + j && (m + n - j) / n == grown + 1 else (m + n - j) / n == grown
  {
    var q, r := m / n, m % n;
    assert m == n * q + r;
    assert n * q + n == n * (q + 1);
    if r == j {
      DivUnique(q, n - 1, m + n - 1 - j, n);
      DivUnique(q + 1, 0, m + n - j, n);
    } else if r > j {
      DivUnique(q + 1, r - 1 - j, m + n - 1 - j, n);
      DivUnique(q + 1, r - j, m + n - j, n);
    } else {
      DivUnique(q, n + r - 1 - j, m + n - 1 - j, n);
      DivUnique(q, n + r - j, m + n - j, n);
    }
  }

  /** All that the first m children get. */
  function AllShares(sent: seq<int>, n: nat, m: nat): multiset<int>
    requires n > 0
  {
    if m == 0 then multiset{} else AllShares(sent, n, m - 1) + multiset(Share(sent, m - 1, n))
  }

  lemma ShareSnoc(sent: seq<int>, c: int, j: nat, n: nat)
    requires n > 0
    ensures Share(sent + [c], j, n) == Share(sent, j, n) + if |sent| % n == j then [c] else []
  {
  }

  lemma {:induction false} SharesSnoc(sent: seq<int>, c: int, n: nat, m: nat)
    requires n > 0
    ensures AllShares(sent + [c], n, m) == AllShares(sent, n, m) + if |sent| % n < m then multiset{c} else multiset{}
  {
    hide Share;
    if m > 0 {
      var r := |sent| % n;
      var before, share := AllShares(sent, n, m - 1), Share(sent, m - 1, n);
      SharesSnoc(sent, c, n, m - 1);
      ShareSnoc(sent, c, m - 1, n);
      assert AllShares(sent + [c], n, m)
        == before + (if r < m - 1 then multiset{c} else multiset{})
           + multiset(share + if r == m - 1 then [c] else []);
      hide AllShares;
      AddOne(before, share, c, r < m - 1, r == m - 1);
    }
  }

  /** Adding c to the multiset or to the sequence, but not to both. */
  lemma AddOne(a: multiset<int>, share: seq<int>, c: int, toA: bool, toShare: bool)
    requires !(toA && toShare)
    ensures a + (if toA then multiset{c} else multiset{}) + multiset(share + if toShare then [c] else [])
            == a + multiset(share) + if toA || toShare then multiset{c} else multiset{}
  {
  }

  /** Every command sent is executed by exactly one child, exactly once. */
  lemma {:induction false} SharesPartition(sent: seq<int>, n: nat)
    requires n > 0
    ensures AllShares(sent, n, n) == multiset(sent)
  {
    if sent == [] {
      NoShares(n, n);
    } else {
      hide AllShares;
      var last := |sent| - 1;
      var earlier := sent[..last];
      SharesPartition(earlier, n);
      SharesSnoc(earlier, sent[last], n, n);
      assert |earlier| % n < n;
      assert sent == earlier + [sent[last]];
      assert multiset(sent) == multiset(earlier) + multiset{sent[last]};
    }
  }

  lemma {:induction false} NoShares(n: nat, m: nat)
    requires n > 0
    ensures AllShares([], n, m) == multiset{}
  {
    if m > 0 {
      NoShares(n, m - 1);
    }
  }
}
