/** 11-4: the poll and the select server keep their descriptors in a fixed table of slots, and change
    the table while they scan it. */
module SlotTable {
  import opened Text

  const FD_NONE := -1

  /** Slot 0 is the listener, and no descriptor stands in two slots. */
  ghost predicate Valid(t: seq<int>, listensock: int) {
    && |t| > 0 && t[0] == listensock >= 0
    && (forall i :: 0 <= i < |t| ==> t[i] == FD_NONE || t[i] >= 0)
    && (forall i, j :: 0 <= i < j < |t| && t[i] == t[j] ==> t[i] == FD_NONE)
  }

  /** The slot a new connection gets, or |t| when the table is full. */
  function FirstFree(t: seq<int>, from: nat := 1): (pos: nat)
    requires from <= |t|
    ensures from <= pos <= |t|
    ensures pos < |t| ==> t[pos] == FD_NONE
    ensures forall k :: from <= k < pos ==> t[k] != FD_NONE
    decreases |t| - from
  {
    if from == |t| || t[from] == FD_NONE then from else FirstFree(t, from + 1)
  }

  /** accept returns a number that is not open. */
  predicate Unused(t: seq<int>, accepted: Option<int>) {
    accepted.Some? ==> accepted.value >= 0 && accepted.value !in t
  }

  /** The table after the listener's turn. */
  function Placed(t: seq<int>, listening: bool, accepted: Option<int>): (r: seq<int>)
    requires |t| > 0
    ensures |r| == |t|
  {
    if listening && accepted.Some? && FirstFree(t) < |t| then t[FirstFree(t) := accepted.value] else t
  }

  /** The first slot behind the listener's without a descriptor. */
  predicate FreeAt(t: seq<int>, pos: int) {
    1 <= pos < |t| && t[pos] == FD_NONE && forall q :: 1 <= q < pos ==> t[q] != FD_NONE
  }

  /** The accepted client sits in the first free slot, and nothing else has changed. */
  ghost predicate Seated(t: seq<int>, accepted: Option<int>, t': seq<int>) {
    && |t'| == |t|
    && (forall i :: 0 <= i < |t| ==> t'[i] == if accepted.Some? && FreeAt(t, i) then accepted.value else t[i])
  }

  lemma PlacedIs(t: seq<int>, listening: bool, accepted: Option<int>)
    requires |t| > 0
    ensures Seated(t, if listening then accepted else None, Placed(t, listening, accepted))
  {
  }

  /** A client is seated if there is any free slot, and then in one slot only. */
  lemma SomebodySits(t: seq<int>, accepted: Option<int>, t': seq<int>)
    requires Seated(t, accepted, t') && accepted.Some? && Unused(t, accepted)
    ensures (exists i :: 1 <= i < |t| && t[i] == FD_NONE) <==> accepted.value in t'
    ensures forall i, j :: 0 <= i < |t| && 0 <= j < |t| && t'[i] == accepted.value == t'[j] ==> i == j
  {
    if |t| > 0 && exists i :: 1 <= i < |t| && t[i] == FD_NONE {
      var pos := FirstFree(t);
      assert FreeAt(t, pos) && t'[pos] == accepted.value;
    }
  }

  /** One pass, for the readiness reported by the wait: a new connection goes to the first free slot, and
      a ready client whose recv returns nothing leaves its slot. Everything is decided by the table
      and the readiness of the moment the wait returned. */
  function Scan(t: seq<int>, ready: seq<bool>, accepted: Option<int>, recvs: seq<int>): (r: seq<int>)
    requires |t| == |ready| == |recvs| > 0
    ensures |r| == |t|
  {
    var placed := Placed(t, ready[0], accepted);
    seq(|t|, i requires 0 <= i < |t| =>
      if i > 0 && t[i] != FD_NONE && ready[i] && recvs[i] <= 0 then FD_NONE else placed[i])
  }

  /** The slots, with their descriptors, that a pass reads. */
  function Reads(t: seq<int>, ready: seq<bool>, n: nat): seq<(nat, int)>
    requires n <= |t| == |ready|
  {
    if n <= 1 then []
    else Reads(t, ready, n - 1) + if t[n - 1] != FD_NONE && ready[n - 1] then [(n - 1, t[n - 1])] else []
  }

  /** Slot by slot: a ready client whose recv returns nothing leaves, the accepted client takes the first
      free slot if the listener was ready, and nothing else changes. */
  lemma ScanIs(t: seq<int>, ready: seq<bool>, accepted: Option<int>, recvs: seq<int>)
    requires |t| == |ready| == |recvs| > 0
    ensures var next := Scan(t, ready, accepted, recvs);
            forall i :: 0 <= i < |t| ==>
              next[i] == if i > 0 && t[i] != FD_NONE && ready[i] && recvs[i] <= 0 then FD_NONE
                         else if ready[0] && accepted.Some? && FreeAt(t, i) then accepted.value
                         else t[i]
  {
    PlacedIs(t, ready[0], accepted);
  }

  lemma ScanKeepsValid(t: seq<int>, listensock: int, ready: seq<bool>, accepted: Option<int>, recvs: seq<int>)
    requires Valid(t, listensock) && Unused(t, accepted)
    requires |t| == |ready| == |recvs|
    ensures Valid(Scan(t, ready, accepted, recvs), listensock)
  {
  }

  /** Slots are read in ascending order, each once. Every read is on a slot that held that descriptor, ready,
      when the wait returned; never on the listener and never on a connection accepted in the pass. */
  lemma {:induction false} ReadsWereReady(t: seq<int>, listensock: int, ready: seq<bool>, accepted: Option<int>, n: nat)
    requires Valid(t, listensock) && Unused(t, accepted) && n <= |t| == |ready|
    ensures forall r :: r in Reads(t, ready, n) ==>
              && 0 < r.0 < n && t[r.0] == r.1 && ready[r.0] && r.1 >= 0 && r.1 != listensock
              && (accepted.Some? ==> r.1 != accepted.value)
    ensures forall i :: 0 < i < n && t[i] != FD_NONE && ready[i] ==> (i, t[i]) in Reads(t, ready, n)
    ensures forall i, j :: 0 <= i < j < |Reads(t, ready, n)| ==> Reads(t, ready, n)[i].0 < Reads(t, ready, n)[j].0
  {
    if n > 1 {
      ReadsWereReady(t, listensock, ready, accepted, n - 1);
    }
  }

  // Whole runs.

  /** What one wait reports, with the answers of accept and, slot by slot, of recv in the pass after it. */
  datatype Report = Report(ready: set<int>, accepted: Option<int>, recvs: seq<int>)

  /** The slots that hold a ready descriptor. */
  function ReadySlots(t: seq<int>, ready: set<int>): (r: seq<bool>)
    ensures |r| == |t|
  {
    seq(|t|, i requires 0 <= i < |t| => t[i] != FD_NONE && t[i] in ready)
  }

  /** A time-out or an error is not handled; neither is an answer the kernel could not give. */
  predicate Handled(t: seq<int>, report: Report) {
    report.ready != {} && |report.recvs| == |t| && Unused(t, report.accepted)
  }

  /** The table after n waits. */
  function AfterWaits(t: seq<int>, reports: seq<Report>, n: nat): (r: seq<int>)
    requires n <= |reports| && |t| > 0
    ensures |r| == |t|
  {
    if n == 0 then t
    else
      var now, report := AfterWaits(t, reports, n - 1), reports[n - 1];
      if Handled(now, report) then Scan(now, ReadySlots(now, report.ready), report.accepted, report.recvs) else now
  }

  /** The reads of the pass after wait k. */
  function PassReads(t: seq<int>, reports: seq<Report>, k: nat): seq<(nat, int)>
    requires k < |reports| && |t| > 0
  {
    var now := AfterWaits(t, reports, k);
    if Handled(now, reports[k]) then Reads(now, ReadySlots(now, reports[k].ready), |now|) else []
  }

  function ReadsOfWaits(t: seq<int>, reports: seq<Report>, n: nat): seq<(nat, int)>
    requires n <= |reports| && |t| > 0
  {
    if n == 0 then [] else ReadsOfWaits(t, reports, n - 1) + PassReads(t, reports, n - 1)
  }

  lemma {:induction false} EveryTableValid(t: seq<int>, listensock: int, reports: seq<Report>, n: nat)
    requires Valid(t, listensock) && n <= |reports|
    ensures Valid(AfterWaits(t, reports, n), listensock)
  {
    if n > 0 {
      EveryTableValid(t, listensock, reports, n - 1);
      var now, report := AfterWaits(t, reports, n - 1), reports[n - 1];
      if Handled(now, report) {
        ScanKeepsValid(now, listensock, ReadySlots(now, report.ready), report.accepted, report.recvs);
      }
    }
  }

  lemma NoWait(t: seq<int>, listensock: int, reports: seq<Report>)
    requires Valid(t, listensock)
    ensures |t| > 0 && AfterWaits(t, reports, 0) == t && ReadsOfWaits(t, reports, 0) == []
  {
  }

  lemma OneWait(t: seq<int>, reports: seq<Report>, n: nat, before: seq<(nat, int)>)
    requires n < |reports| && |t| > 0
    ensures var now := AfterWaits(t, reports, n);
            && AfterWaits(t, reports, n + 1) == AfterWaits(now, [reports[n]], 1)
            && before + ReadsOfWaits(t, reports, n + 1)
               == before + ReadsOfWaits(t, reports, n) + ReadsOfWaits(now, [reports[n]], 1)
  {
  }

  /** The read is of a client that was in this slot, reported ready, when wait k returned. */
  ghost predicate ReadyAtWait(t: seq<int>, listensock: int, reports: seq<Report>, k: nat, r: (nat, int))
    requires k < |reports| && |t| > 0
  {
    && 0 < r.0 < |t| && AfterWaits(t, reports, k)[r.0] == r.1
    && r.1 != FD_NONE && r.1 != listensock && r.1 in reports[k].ready
  }

  /** Over any run, the pass after a wait that reports something reads exactly the clients reported, and none
      that was accepted in the pass; the pass after any other wait reads nothing. */
  lemma EveryReadReported(t: seq<int>, listensock: int, reports: seq<Report>, k: nat)
    requires Valid(t, listensock) && k < |reports|
    requires |reports[k].recvs| == |t| && Unused(AfterWaits(t, reports, k), reports[k].accepted)
    ensures forall r: (nat, int) :: r in PassReads(t, reports, k) <==> ReadyAtWait(t, listensock, reports, k, r)
    ensures forall r :: r in PassReads(t, reports, k) ==> reports[k].accepted != Some(r.1)
  {
    var now, report := AfterWaits(t, reports, k), reports[k];
    EveryTableValid(t, listensock, reports, k);
    if Handled(now, report) {
      ReadsWereReady(now, listensock, ReadySlots(now, report.ready), report.accepted, |now|);
    }
  }

  /** The table after that wait, slot by slot: ready clients that are at their end leave, a client that is
      accepted on a ready listener takes the first free slot, and nothing else changes. */
  lemma EveryPassTable(t: seq<int>, listensock: int, reports: seq<Report>, k: nat)
    requires Valid(t, listensock) && k < |reports|
    requires |reports[k].recvs| == |t| && Unused(AfterWaits(t, reports, k), reports[k].accepted)
    ensures var now, next, x := AfterWaits(t, reports, k), AfterWaits(t, reports, k + 1), reports[k];
            forall i :: 0 <= i < |t| ==>
              next[i] == if i > 0 && now[i] != FD_NONE && now[i] in x.ready && x.recvs[i] <= 0 then FD_NONE
                         else if listensock in x.ready && x.accepted.Some? && FreeAt(now, i) then x.accepted.value
                         else now[i]
  {
    var now, report := AfterWaits(t, reports, k), reports[k];
    EveryTableValid(t, listensock, reports, k);
    if Handled(now, report) {
      ScanIs(now, ReadySlots(now, report.ready), report.accepted, report.recvs);
    }
  }

  // The scan, slot by slot, as the loops do it on the table they change.

  /** A slot without a descriptor is never ready. */
  ghost predicate NoneIdle(t: seq<int>, ready: seq<bool>)
    requires |t| == |ready|
  {
    forall i :: 0 <= i < |t| && t[i] == FD_NONE ==> !ready[i]
  }

  /** What one round of the loop does to the current table. */
  function Visit(now: seq<int>, i: nat, listensock: int, ready: seq<bool>,
                 accepted: Option<int>, recvs: seq<int>): seq<int>
    requires i < |now| == |ready| == |recvs|
  {
    if now[i] == FD_NONE || !ready[i] then now
    else if now[i] == listensock then Placed(now, true, accepted)
    else now[i := if recvs[i] > 0 then now[i] else FD_NONE]
  }

  /** What that round reads. */
  function VisitReads(now: seq<int>, i: nat, listensock: int, ready: seq<bool>): seq<(nat, int)>
    requires i < |now| == |ready|
  {
    if now[i] != FD_NONE && ready[i] && now[i] != listensock then [(i, now[i])] else []
  }

  /** A round asks only whether its own slot is ready. */
  lemma SameVisit(now: seq<int>, i: nat, listensock: int, ready: seq<bool>, other: seq<bool>,
                  accepted: Option<int>, recvs: seq<int>)
    requires i < |now| == |ready| == |other| == |recvs| && ready[i] == other[i]
    ensures Visit(now, i, listensock, ready, accepted, recvs) == Visit(now, i, listensock, other, accepted, recvs)
    ensures VisitReads(now, i, listensock, ready) == VisitReads(now, i, listensock, other)
  {
  }

  /** The table when the loop comes to slot `i`. */
  function Partial(t: seq<int>, ready: seq<bool>, accepted: Option<int>, recvs: seq<int>, i: nat): (r: seq<int>)
    requires i <= |t| == |ready| == |recvs| && |t| > 0
    ensures |r| == |t|
  {
    if i == 0 then t else Scan(t, ready, accepted, recvs)[..i] + Placed(t, ready[0], accepted)[i..]
  }

  /** Slot i is read in this round exactly if the whole pass reads it; a connection accepted in the pass
      sits in a slot that was idle when the wait returned, so its turn passes. */
  lemma VisitStep(t: seq<int>, listensock: int, ready: seq<bool>, accepted: Option<int>, recvs: seq<int>, i: nat)
    requires Valid(t, listensock) && Unused(t, accepted) && i < |t| == |ready| == |recvs|
    requires NoneIdle(t, ready)
    ensures var now := Partial(t, ready, accepted, recvs, i);
            && Visit(now, i, listensock, ready, accepted, recvs) == Partial(t, ready, accepted, recvs, i + 1)
            && (now[i] == listensock <==> i == 0)
            && Reads(t, ready, i + 1) == Reads(t, ready, i) + VisitReads(now, i, listensock, ready)
  {
    VisitPartial(t, listensock, ready, accepted, recvs, i);
    hide Visit;
  }

  lemma VisitPartial(t: seq<int>, listensock: int, ready: seq<bool>, accepted: Option<int>, recvs: seq<int>, i: nat)
    requires Valid(t, listensock) && Unused(t, accepted) && i < |t| == |ready| == |recvs|
    requires NoneIdle(t, ready)
    ensures var now := Partial(t, ready, accepted, recvs, i);
            Visit(now, i, listensock, ready, accepted, recvs) == Partial(t, ready, accepted, recvs, i + 1)
  {
    var now, next := Partial(t, ready, accepted, recvs, i), Partial(t, ready, accepted, recvs, i + 1);
    var placed, scanned := Placed(t, ready[0], accepted), Scan(t, ready, accepted, recvs);
    if i == 0 {
      assert scanned[..1] == placed[..1];
      assert next == placed;
    } else {
      assert next == now[i := scanned[i]];
    }
  }

  lemma PartialEnds(t: seq<int>, ready: seq<bool>, accepted: Option<int>, recvs: seq<int>)
    requires |t| == |ready| == |recvs| && |t| > 0
    ensures Partial(t, ready, accepted, recvs, |t|) == Scan(t, ready, accepted, recvs)
  {
  }
}

/** 11-4/pollServer/pollServer.hpp */
module PollServerModel {
  import opened Text
  import opened SlotTable

  // events and revents are the POLLIN bits.
  datatype PollFd = PollFd(fd: int, events: bool, revents: bool)

  function Fds(t: seq<PollFd>): (r: seq<int>)
    ensures |r| == |t|
  {
    seq(|t|, i requires 0 <= i < |t| => t[i].fd)
  }

  function Revents(t: seq<PollFd>): (r: seq<bool>)
    ensures |r| == |t|
  {
    seq(|t|, i requires 0 <= i < |t| => t[i].revents)
  }

  class PollServer {
    const listensock: int
    const fds: array<PollFd>
    // Every recv so far: the slot and its descriptor.
    ghost var received: seq<(nat, int)>

    /** The server waits for input on every descriptor it has, and on nothing else. */
    ghost predicate Ok()
      reads this, fds
    {
      SlotTable.Valid(Fds(fds[..]), listensock) && Waiting(fds[..])
    }

    constructor (listensock: int, nfds: nat)
      requires listensock >= 0 && nfds > 0
      ensures Ok() && fresh(fds) && fds.Length == nfds && received == []
    {
      this.listensock := listensock;
      fds := new PollFd[nfds](_ => PollFd(FD_NONE, false, false));
      received := [];
      new;
      fds[0] := PollFd(listensock, true, false);
    }

    /** poll: a negative descriptor gets no event (POSIX.1-2017, System Interfaces, poll). */
    method Poll(ready: set<int>)
      modifies fds
      ensures Fds(fds[..]) == old(Fds(fds[..])) && (old(Waiting(fds[..])) ==> Waiting(fds[..]))
      ensures forall i :: 0 <= i < fds.Length ==> (fds[i].revents <==> fds[i].fd >= 0 && fds[i].fd in ready)
    {
      for i := 0 to fds.Length
        invariant forall k :: 0 <= k < fds.Length ==> fds[k].fd == old(fds[k].fd) && fds[k].events == old(fds[k].events)
        invariant forall k :: 0 <= k < i ==> (fds[k].revents <==> fds[k].fd >= 0 && fds[k].fd in ready)
      {
        fds[i] := fds[i].(revents := fds[i].fd >= 0 && fds[i].fd in ready);
      }
    }

    method Accepter(accepted: Option<int>)
      requires fds.Length > 0 && (accepted.Some? ==> accepted.value >= 0) && Waiting(fds[..])
      modifies fds
      ensures Fds(fds[..]) == Placed(old(Fds(fds[..])), true, accepted)
      ensures Seated(old(Fds(fds[..])), accepted, Fds(fds[..]))
      ensures Revents(fds[..]) == old(Revents(fds[..])) && Waiting(fds[..])
    {
      hide Seated;
      PlacedIs(Fds(fds[..]), true, accepted);
      ghost var t := Fds(fds[..]);
      if accepted.None? {
        return;
      }
      var pos := 1;
      while pos < fds.Length
        invariant 1 <= pos <= fds.Length && FirstFree(t) == FirstFree(t, pos)
      {
        if fds[pos].fd == FD_NONE {
          break;
        }
        pos := pos + 1;
      }
      if pos == fds.Length {
        // The table is full: the new descriptor is closed.
      } else {
        fds[pos] := fds[pos].(fd := accepted.value);
        fds[pos] := fds[pos].(events := true);
      }
    }

    method Recver(pos: nat, n: int)
      requires pos < fds.Length && fds[pos].fd != FD_NONE && Waiting(fds[..])
      modifies fds, this`received
      ensures Fds(fds[..]) == old(Fds(fds[..]))[pos := if n > 0 then old(fds[pos].fd) else FD_NONE]
      ensures Revents(fds[..]) == old(Revents(fds[..])) && Waiting(fds[..])
      ensures received == old(received) + [(pos, old(fds[pos].fd))]
    {
      received := received + [(pos, fds[pos].fd)];
      if n > 0 {
      } else if n == 0 {
        fds[pos] := fds[pos].(fd := FD_NONE);
        fds[pos] := fds[pos].(events := false);
      } else {
        fds[pos] := fds[pos].(fd := FD_NONE);
        fds[pos] := fds[pos].(events := false);
      }
    }

    /** One round of HandlerEvent's loop. */
    method HandleSlot(i: nat, accepted: Option<int>, recvs: seq<int>)
      requires i < fds.Length == |recvs| && Waiting(fds[..])
      requires accepted.Some? ==> accepted.value >= 0
      modifies fds, this`received
      ensures Fds(fds[..]) == Visit(old(Fds(fds[..])), i, listensock, old(Revents(fds[..])), accepted, recvs)
      ensures Revents(fds[..]) == old(Revents(fds[..])) && Waiting(fds[..])
      ensures received == old(received) + VisitReads(old(Fds(fds[..])), i, listensock, old(Revents(fds[..])))
    {
      if fds[i].fd == FD_NONE {
        return;
      }
      if fds[i].revents {
        if fds[i].fd == listensock {
          Accepter(accepted);
        } else {
          Recver(i, recvs[i]);
        }
      }
    }

    /** The table `t` has been scanned up to slot i. */
    ghost predicate Reached(t: seq<int>, ready: seq<bool>, before: seq<(nat, int)>,
                            accepted: Option<int>, recvs: seq<int>, i: nat)
      requires i <= |t| == |ready| == |recvs| && |t| > 0
      reads this, fds
    {
      && Fds(fds[..]) == Partial(t, ready, accepted, recvs, i)
      && Revents(fds[..]) == ready && Waiting(fds[..])
      && received == before + Reads(t, ready, i)
    }

    method Round(i: nat, accepted: Option<int>, recvs: seq<int>,
                 ghost t: seq<int>, ghost ready: seq<bool>, ghost before: seq<(nat, int)>)
      requires SlotTable.Valid(t, listensock) && Unused(t, accepted)
      requires i < |t| == |ready| == |recvs| == fds.Length && NoneIdle(t, ready)
      requires Reached(t, ready, before, accepted, recvs, i)
      modifies fds, this`received
      ensures Reached(t, ready, before, accepted, recvs, i + 1)
    {
      VisitStep(t, listensock, ready, accepted, recvs, i);
      HandleSlot(i, accepted, recvs);
    }

    /** One pass over the table after a poll. */
    method HandlerEvent(accepted: Option<int>, recvs: seq<int>)
      requires Ok() && Unused(Fds(fds[..]), accepted) && |recvs| == fds.Length
      requires forall i :: 0 <= i < fds.Length && fds[i].fd < 0 ==> !fds[i].revents
      modifies fds, this`received
      ensures Ok()
      ensures Fds(fds[..]) == Scan(old(Fds(fds[..])), old(Revents(fds[..])), accepted, recvs)
      ensures received == old(received) + Reads(old(Fds(fds[..])), old(Revents(fds[..])), fds.Length)
    {
      ghost var t, ready, before := Fds(fds[..]), Revents(fds[..]), received;
      for i := 0 to fds.Length
        invariant Reached(t, ready, before, accepted, recvs, i)
      {
        Round(i, accepted, recvs, t, ready, before);
      }
      PartialEnds(t, ready, accepted, recvs);
      ScanKeepsValid(t, listensock, ready, accepted, recvs);
    }

    /** One poll and the pass after it. */
    method PollOnce(report: Report)
      requires Ok()
      modifies fds, this`received
      ensures Ok()
      ensures Fds(fds[..]) == AfterWaits(old(Fds(fds[..])), [report], 1)
      ensures received == old(received) + ReadsOfWaits(old(Fds(fds[..])), [report], 1)
    {
      ghost var t := Fds(fds[..]);
      Poll(report.ready);
      assert AfterWaits(t, [report], 0) == t && ReadsOfWaits(t, [report], 0) == [];
      if report.ready != {} && |report.recvs| == fds.Length && Unused(Fds(fds[..]), report.accepted) {
        assert Revents(fds[..]) == ReadySlots(t, report.ready);
        HandlerEvent(report.accepted, report.recvs);
      }
    }

    /** Start: poll after poll. */
    method Start(reports: seq<Report>)
      requires Ok()
      modifies fds, this`received
      ensures Ok()
      ensures Fds(fds[..]) == AfterWaits(old(Fds(fds[..])), reports, |reports|)
      ensures received == old(received) + ReadsOfWaits(old(Fds(fds[..])), reports, |reports|)
    {
      ghost var t := Fds(fds[..]);
      NoWait(t, listensock, reports);
      for r := 0 to |reports|
        invariant Waited(t, reports, r, old(received))
      {
        PollNext(reports, r, t, old(received));
      }
    }

    /** After r waits that began with the table `t`. */
    ghost predicate Waited(t: seq<int>, reports: seq<Report>, r: nat, before: seq<(nat, int)>)
      requires r <= |reports| && |t| > 0
      reads this, fds
    {
      Ok() && Fds(fds[..]) == AfterWaits(t, reports, r) && received == before + ReadsOfWaits(t, reports, r)
    }

    method PollNext(reports: seq<Report>, r: nat, ghost t: seq<int>, ghost before: seq<(nat, int)>)
      requires r < |reports| && |t| > 0 && Waited(t, reports, r, before)
      modifies fds, this`received
      ensures Waited(t, reports, r + 1, before)
    {
      hide SlotTable.Valid, AfterWaits, ReadsOfWaits;
      OneWait(t, reports, r, before);
      PollOnce(reports[r]);
    }
  }

  ghost predicate Waiting(t: seq<PollFd>) {
    forall i :: 0 <= i < |t| ==> (t[i].events <==> t[i].fd != FD_NONE)
  }
}

/** 11-4/selectServer/selectServer.hpp */
module SelectServerModel {
  import opened Text
  import opened SlotTable

  /** Which slots of the table hold a descriptor of the set. */
  function Slots(t: seq<int>, fdset: set<int>): (r: seq<bool>)
    ensures |r| == |t|
  {
    seq(|t|, i requires 0 <= i < |t| => t[i] in fdset)
  }

  class SelectServer {
    const listensock: int
    const fdArray: array<int>
    ghost var received: seq<(nat, int)>

    ghost predicate Ok()
      reads this, fdArray
    {
      SlotTable.Valid(fdArray[..], listensock)
    }

    constructor (listensock: int, num: nat)
      requires listensock >= 0 && num > 0
      ensures Ok() && fresh(fdArray) && fdArray.Length == num && received == []
    {
      this.listensock := listensock;
      fdArray := new int[num](_ => FD_NONE);
      received := [];
      new;
      fdArray[0] := listensock;
    }

    /** The set and the highest descriptor that every select starts from. */
    method Rebuild() returns (rfds: set<int>, maxfd: int)
      requires Ok()
      ensures forall fd :: fd in rfds <==> fd in fdArray[..] && fd != FD_NONE
      ensures maxfd in rfds && forall fd :: fd in rfds ==> fd <= maxfd
    {
      rfds, maxfd := {}, listensock;
      for i := 0 to fdArray.Length
        invariant forall fd :: fd in rfds <==> fd in fdArray[..i] && fd != FD_NONE
        invariant maxfd == listensock || maxfd in rfds
        invariant forall fd :: fd in rfds ==> fd <= maxfd
        invariant i > 0 ==> listensock in rfds
      {
        assert fdArray[..i + 1] == fdArray[..i] + [fdArray[i]];
        if fdArray[i] == FD_NONE {
          continue;
        }
        rfds := rfds + {fdArray[i]};
        if maxfd < fdArray[i] {
          maxfd := fdArray[i];
        }
      }
      assert fdArray[..fdArray.Length] == fdArray[..];
    }

    method Accepter(accepted: Option<int>)
      requires fdArray.Length > 0
      modifies fdArray
      ensures fdArray[..] == Placed(old(fdArray[..]), true, accepted)
      ensures Seated(old(fdArray[..]), accepted, fdArray[..])
    {
      hide Seated;
      PlacedIs(fdArray[..], true, accepted);
      if accepted.None? {
        return;
      }
      ghost var t := fdArray[..];
      var pos := 1;
      while pos < fdArray.Length
        invariant 1 <= pos <= fdArray.Length && FirstFree(t) == FirstFree(t, pos)
      {
        if fdArray[pos] == FD_NONE {
          break;
        }
        pos := pos + 1;
      }
      if pos == fdArray.Length {
        // The table is full: the new descriptor is closed.
      } else {
        fdArray[pos] := accepted.value;
      }
    }

    method Recver(pos: nat, n: int)
      requires pos < fdArray.Length
      modifies fdArray, this`received
      ensures fdArray[..] == old(fdArray[..])[pos := if n > 0 then old(fdArray[pos]) else FD_NONE]
      ensures received == old(received) + [(pos, old(fdArray[pos]))]
    {
      received := received + [(pos, fdArray[pos])];
      if n > 0 {
      } else if n == 0 {
        fdArray[pos] := FD_NONE;
      } else {
        fdArray[pos] := FD_NONE;
      }
    }

    /** One round of HandlerEvent's loop: the current descriptor is looked up in the set. */
    method HandleSlot(i: nat, rfds: set<int>, accepted: Option<int>, recvs: seq<int>)
      requires i < fdArray.Length == |recvs| && FD_NONE !in rfds
      modifies fdArray, this`received
      ensures var ready := old(Slots(fdArray[..], rfds));
              && fdArray[..] == Visit(old(fdArray[..]), i, listensock, ready, accepted, recvs)
              && received == old(received) + VisitReads(old(fdArray[..]), i, listensock, ready)
    {
      if fdArray[i] == FD_NONE {
        return;
      }
      if fdArray[i] in rfds {
        if fdArray[i] == listensock {
          Accepter(accepted);
        } else {
          Recver(i, recvs[i]);
        }
      }
    }

    /** The table `t` has been scanned up to slot i. */
    ghost predicate Reached(t: seq<int>, rfds: set<int>, before: seq<(nat, int)>,
                            accepted: Option<int>, recvs: seq<int>, i: nat)
      requires i <= |t| == |recvs| && |t| > 0
      reads this, fdArray
    {
      && fdArray[..] == Partial(t, Slots(t, rfds), accepted, recvs, i)
      && received == before + Reads(t, Slots(t, rfds), i)
    }

    method Round(i: nat, rfds: set<int>, accepted: Option<int>, recvs: seq<int>,
                 ghost t: seq<int>, ghost before: seq<(nat, int)>)
      requires SlotTable.Valid(t, listensock) && Unused(t, accepted)
      requires i < |t| == |recvs| == fdArray.Length && FD_NONE !in rfds
      requires forall fd :: fd in rfds ==> fd in t
      requires Reached(t, rfds, before, accepted, recvs, i)
      modifies fdArray, this`received
      ensures Reached(t, rfds, before, accepted, recvs, i + 1)
    {
      VisitStep(t, listensock, Slots(t, rfds), accepted, recvs, i);
      StillReady(t, rfds, accepted, recvs, i);
      SameVisit(fdArray[..], i, listensock, Slots(t, rfds), Slots(fdArray[..], rfds), accepted, recvs);
      HandleSlot(i, rfds, accepted, recvs);
    }

    /** One pass over the table. The readiness of a slot is looked up by descriptor, in the set that select
        returned, when the loop comes to it. */
    method HandlerEvent(rfds: set<int>, accepted: Option<int>, recvs: seq<int>)
      requires Ok() && Unused(fdArray[..], accepted) && |recvs| == fdArray.Length
      requires forall fd :: fd in rfds ==> fd in fdArray[..] && fd != FD_NONE
      modifies fdArray, this`received
      ensures Ok()
      ensures fdArray[..] == Scan(old(fdArray[..]), Slots(old(fdArray[..]), rfds), accepted, recvs)
      ensures received == old(received) + Reads(old(fdArray[..]), Slots(old(fdArray[..]), rfds), fdArray.Length)
    {
      ghost var t, ready, before := fdArray[..], Slots(fdArray[..], rfds), received;
      for i := 0 to fdArray.Length
        invariant Reached(t, rfds, before, accepted, recvs, i)
      {
        Round(i, rfds, accepted, recvs, t, before);
      }
      PartialEnds(t, ready, accepted, recvs);
      ScanKeepsValid(t, listensock, ready, accepted, recvs);
    }

    /** One select and the pass after it. select returns a part of the set it is given. */
    method SelectOnce(report: Report)
      requires Ok()
      modifies fdArray, this`received
      ensures Ok()
      ensures fdArray[..] == AfterWaits(old(fdArray[..]), [report], 1)
      ensures received == old(received) + ReadsOfWaits(old(fdArray[..]), [report], 1)
    {
      ghost var t := fdArray[..];
      assert AfterWaits(t, [report], 0) == t && ReadsOfWaits(t, [report], 0) == [];
      var rfds, maxfd := Rebuild();
      rfds := rfds * report.ready;
      if report.ready != {} && |report.recvs| == fdArray.Length && Unused(fdArray[..], report.accepted) {
        assert Slots(t, rfds) == ReadySlots(t, report.ready);
        HandlerEvent(rfds, report.accepted, report.recvs);
      }
    }

    /** Start: select after select. */
    method Start(reports: seq<Report>)
      requires Ok()
      modifies fdArray, this`received
      ensures Ok()
      ensures fdArray[..] == AfterWaits(old(fdArray[..]), reports, |reports|)
      ensures received == old(received) + ReadsOfWaits(old(fdArray[..]), reports, |reports|)
    {
      ghost var t := fdArray[..];
      NoWait(t, listensock, reports);
      for r := 0 to |reports|
        invariant Waited(t, reports, r, old(received))
      {
        SelectNext(reports, r, t, old(received));
      }
    }

    /** After r waits that began with the table `t`. */
    ghost predicate Waited(t: seq<int>, reports: seq<Report>, r: nat, before: seq<(nat, int)>)
      requires r <= |reports| && |t| > 0
      reads this, fdArray
    {
      Ok() && fdArray[..] == AfterWaits(t, reports, r) && received == before + ReadsOfWaits(t, reports, r)
    }

    method SelectNext(reports: seq<Report>, r: nat, ghost t: seq<int>, ghost before: seq<(nat, int)>)
      requires r < |reports| && |t| > 0 && Waited(t, reports, r, before)
      modifies fdArray, this`received
      ensures Waited(t, reports, r + 1, before)
    {
      hide SlotTable.Valid, AfterWaits, ReadsOfWaits;
      OneWait(t, reports, r, before);
      SelectOnce(reports[r]);
    }
  }

  /** Looking a slot's current descriptor up in the set gives the answer its descriptor of the moment the
      wait returned would have given: a new descriptor is in no slot's place in the set, because the
      listener's turn comes before any descriptor is closed. */
  lemma StillReady(t: seq<int>, rfds: set<int>, accepted: Option<int>, recvs: seq<int>, i: nat)
    requires Unused(t, accepted) && i < |t| == |recvs| && FD_NONE !in rfds
    requires forall fd :: fd in rfds ==> fd in t
    ensures Partial(t, Slots(t, rfds), accepted, recvs, i)[i] in rfds <==> Slots(t, rfds)[i]
  {
  }
}
