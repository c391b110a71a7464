/** 10-23/NetCal/Protocol.hpp and CalServer.cc: frames with a decimal length in front, and the service
    loop that decodes at most one frame per read. Payloads are opaque strings. */
module NetCal {
  import opened Text

  const SEP := "\r\n"

  /** "length" SEP payload SEP */
  function Encode(s: string): string { ToString(|s|) + SEP + s + SEP }

  /** Position by position: the decimal length, a separator, the payload, a separator, and nothing else. */
  lemma FrameShape(s: string)
    ensures var f, p := Encode(s), |ToString(|s|)|;
            && |f| == p + 2 + |s| + 2
            && f[..p] == ToString(|s|) && f[p..p + 2] == "\r\n"
            && f[p + 2..p + 2 + |s|] == s && f[p + 2 + |s|..] == "\r\n"
  {
  }

  /** std::string::substr(0, n) */
  function Take(s: string, n: nat): string { if n <= |s| then s[..n] else s }

  /** std::string::erase(0, n) */
  function Drop(s: string, n: nat): string { if n <= |s| then s[n..] else "" }

  /** size_t arithmetic stored in an int. */
  function Narrow(n: int): int { ToInt(ToSize(n)) }

  /** What Decode returns and what it leaves in the buffer. */
  function Decoded(buffer: string): (string, string) {
    var pos := Find(buffer, SEP);
    if pos.None? then ("", buffer)
    else
      var size := Atoi(buffer[..pos.value]);
      var surplus := Narrow(|buffer| - pos.value - 2 * |SEP|);
      if surplus >= size then
        var rest := Drop(buffer, pos.value + |SEP|);
        (Take(rest, ToSize(size)), Drop(rest, ToSize(size + |SEP|)))
      else ("", buffer)
  }

  method Decode(buffer: string) returns (s: string, buffer': string)
    ensures (s, buffer') == Decoded(buffer)
  {
    buffer' := buffer;
    var pos := Find(buffer', SEP);
    if pos.None? {
      return "", buffer';
    }
    var size := Atoi(buffer'[..pos.value]);
    var surplus := Narrow(|buffer'| - pos.value - 2 * |SEP|);
    if surplus >= size {
      buffer' := Drop(buffer', pos.value + |SEP|);
      s := Take(buffer', ToSize(size));
      buffer' := Drop(buffer', ToSize(size + |SEP|));
    } else {
      s := "";
    }
  }

  /** The first separator ends the length, whatever follows: a payload may hold separators too. */
  lemma LengthEnds(n: nat, tail: string)
    ensures Find(ToString(n) + SEP + tail, SEP) == Some(|ToString(n)|)
    ensures Atoi((ToString(n) + SEP + tail)[..|ToString(n)|]) == n
  {
    var digits := ToString(n);
    var b := digits + SEP + tail;
    assert b[|digits|..|digits| + 2] == SEP;
    forall k: nat | k < |digits| ensures !OccursAt(b, SEP, k) {
      assert b[k] == digits[k] && digits[k] in digits && SEP[0] == '\r';
      assert k + 2 <= |b| ==> b[k..k + 2][0] == b[k];
    }
    FindIs(b, SEP, 0, |digits|);
    assert b[..|digits|] == digits + "";
    AtoiToString(n, "");
  }

  lemma NarrowFits(n: int)
    requires FitsInt(n)
    ensures Narrow(n) == n
  {
  }

  /** A frame with anything after it decodes to the payload and leaves the rest, exactly when the length
      of payload and rest, narrowed to an int, does not drop below the length of the payload. */
  lemma DecodeIff(s: string, rest: string)
    requires FitsInt(|s|)
    ensures Decoded(Encode(s) + rest) == (s, rest) <==> Narrow(|s| + |rest|) >= |s|
    ensures Narrow(|s| + |rest|) < |s| ==> Decoded(Encode(s) + rest) == ("", Encode(s) + rest)
  {
    var digits := ToString(|s|);
    var b := Encode(s) + rest;
    var tail := s + SEP + rest;
    assert b == digits + SEP + tail;
    LengthEnds(|s|, tail);
    assert |b| - |digits| - 2 * |SEP| == |s| + |rest|;
    assert Drop(b, |digits| + |SEP|) == tail;
    assert Take(tail, |s|) == s;
    assert Drop(tail, |s| + |SEP|) == rest;
    assert ToSize(|s|) == |s| && ToSize(|s| + |SEP|) == |s| + |SEP|;
    assert |b| > |rest|;
  }

  /** The round trip, for buffers whose size fits an int. */
  lemma DecodeEncoded(s: string, rest: string)
    requires FitsInt(|s| + |rest|)
    ensures Decoded(Encode(s) + rest) == (s, rest)
  {
    DecodeIff(s, rest);
    NarrowFits(|s| + |rest|);
  }

  /** An unfinished frame decodes to nothing and stays in the buffer, also where the subtraction of
      unsigned sizes wraps. */
  lemma DecodePartial(s: string, part: string)
    requires FitsInt(|s|) && part <= Encode(s) && part != Encode(s)
    ensures Decoded(part) == ("", part)
  {
    var digits := ToString(|s|);
    var pos := Find(part, SEP);
    FindNone(Encode(s), SEP, 0);
    if pos.Some? {
      assert Encode(s) == digits + SEP + (s + SEP);
      LengthEnds(|s|, s + SEP);
      var p := pos.value;
      assert OccursAt(Encode(s), SEP, p) by {
        assert part[p..p + |SEP|] == Encode(s)[p..p + |SEP|];
      }
      assert p >= |digits|;
      if p > |digits| {
        assert part[|digits|..|digits| + |SEP|] == Encode(s)[|digits|..|digits| + |SEP|];
        assert OccursAt(part, SEP, |digits|);
      }
      assert part[..p] == Encode(s)[..p];
      NarrowFits(|part| - p - 2 * |SEP|);
    }
  }

  /** The same for any text in front of the first separator, be it a frame or not. With fewer bytes than it
      asks for, nothing happens; otherwise the payload is cut out behind the separator, together with the two
      bytes after it, whatever they are. */
  lemma DecodeAny(buffer: string, p: nat)
    requires FitsInt(|buffer|) && FirstAt(buffer, SEP, 0, p) && Atoi(buffer[..p]) >= 0
    ensures var size := Atoi(buffer[..p]);
            && (p + 4 + size > |buffer| ==> Decoded(buffer) == ("", buffer))
            && (p + 4 + size <= |buffer| ==>
                  Decoded(buffer) == (buffer[p + 2..p + 2 + size], buffer[p + 4 + size..]))
  {
    FindIs(buffer, SEP, 0, p);
    NarrowFits(|buffer| - p - 2 * |SEP|);
    var size, rest := Atoi(buffer[..p]), buffer[p + 2..];
    if p + 4 + size <= |buffer| {
      assert rest[..size] == buffer[p + 2..p + 2 + size] && rest[size + 2..] == buffer[p + 4 + size..];
    }
  }

  /** A negative length takes everything behind the separator for the payload. From -3 down the buffer is
      emptied, but after -2 and -1 the bytes are still there, but for one after -1. */
  lemma DecodeNegative(buffer: string, p: nat)
    requires FitsInt(|buffer|) && FirstAt(buffer, SEP, 0, p)
    requires FitsInt(Atoi(buffer[..p])) && Atoi(buffer[..p]) < 0
    ensures var size, rest := Atoi(buffer[..p]), buffer[p + 2..];
            Decoded(buffer) ==
              if |rest| - 2 < size then ("", buffer)
              else (rest, if size == -2 then rest else if size == -1 then rest[1..] else "")
  {
    FindIs(buffer, SEP, 0, p);
    NarrowFits(|buffer| - p - 2 * |SEP|);
  }

  // ------------------------------------------------------------- the service loop

  /** The buffer and the non-empty payloads taken from it so far. */
  datatype Session = Session(inbuffer: string, packages: seq<string>)

  /** One iteration: append what was read (as a C string), try to decode one frame. */
  function ServeOne(st: Session, chunk: string): Session {
    var (s, rest) := Decoded(st.inbuffer + CStr(chunk));
    Session(rest, if s == "" then st.packages else st.packages + [s])
  }

  /** The loop: it ends with the reads, or at the first read of nothing. */
  function Serve(st: Session, chunks: seq<string>): Session
    decreases |chunks|
  {
    if chunks == [] || chunks[0] == "" then st else Serve(ServeOne(st, chunks[0]), chunks[1..])
  }

  /** One frame for the answer to each package, in order. */
  ghost predicate AnswersAll(service: string -> string, packages: seq<string>, sent: seq<string>) {
    |sent| == |packages| && forall i :: 0 <= i < |sent| ==> sent[i] == Encode(service(packages[i]))
  }

  /** The service loop on one connection; `service` stands for parsing, computing and printing. */
  method Calculator(chunks: seq<string>, service: string -> string) returns (sent: seq<string>, inbuffer: string)
    ensures var end := Serve(Session("", []), chunks);
            AnswersAll(service, end.packages, sent) && inbuffer == end.inbuffer
  {
    hide Decoded, Encode;
    inbuffer, sent := "", [];
    var i := 0;
    ghost var packages := [];
    while true
      invariant i <= |chunks| && AnswersAll(service, packages, sent)
      invariant Serve(Session(inbuffer, packages), chunks[i..]) == Serve(Session("", []), chunks)
      decreases |chunks| - i
    {
      if i == |chunks| || chunks[i] == "" {
        break;
      }
      assert chunks[i..][0] == chunks[i] && chunks[i..][1..] == chunks[i + 1..];
      inbuffer := inbuffer + CStr(chunks[i]);
      i := i + 1;
      var package: string;
      package, inbuffer := Decode(inbuffer);
      if package == "" {
        continue;
      }
      packages := packages + [package];
      sent := sent + [Encode(service(package))];
    }
  }

  function EncodeAll(payloads: seq<string>): string {
    if payloads == [] then "" else Encode(payloads[0]) + EncodeAll(payloads[1..])
  }

  function NonEmpty(payloads: seq<string>): seq<string> {
    if payloads == [] then []
    else (if payloads[0] == "" then [] else [payloads[0]]) + NonEmpty(payloads[1..])
  }

  /** `buffer` is the beginning of the frames still to come; the length of each payload is an int, but
      the stream may have any length. */
  ghost predicate Pending(payloads: seq<string>, buffer: string) {
    (forall p :: p in payloads ==> FitsInt(|p|)) && buffer <= EncodeAll(payloads)
  }

  /** The first frame is complete, and the surplus computed for it does not drop below its length. */
  ghost predicate Takes(payloads: seq<string>, buffer: string) {
    && payloads != [] && Encode(payloads[0]) <= buffer
    && Narrow(|buffer| - |ToString(|payloads[0]|)| - 2 * |SEP|) >= |payloads[0]|
  }

  lemma ComparePrefixes(frame: string, buffer: string, all: string)
    requires frame <= all && buffer <= all
    ensures |frame| <= |buffer| ==> frame <= buffer
  {
  }

  /** One decode takes the next frame exactly when it is complete and its surplus is not spoilt by the
      narrowing, and otherwise changes nothing. In a buffer whose size is an int, nothing is spoilt. */
  lemma DecodeNext(payloads: seq<string>, buffer: string)
    requires Pending(payloads, buffer)
    ensures if Takes(payloads, buffer)
            then var rest := buffer[|Encode(payloads[0])|..];
                 Decoded(buffer) == (payloads[0], rest) && Pending(payloads[1..], rest)
            else Decoded(buffer) == ("", buffer)
    ensures FitsInt(|buffer|) ==>
              (Takes(payloads, buffer) <==> payloads != [] && Encode(payloads[0]) <= buffer)
  {
    hide Decoded, Encode, Narrow, ToString;
    if payloads == [] {
      DecodeNothing();
    } else {
      var frame, later := Encode(payloads[0]), EncodeAll(payloads[1..]);
      assert FitsInt(|payloads[0]|);
      if frame <= buffer {
        var rest := buffer[|frame|..];
        assert buffer == frame + rest;
        LaterPrefix(frame, later, rest);
        DecodeComplete(payloads[0], rest);
      } else {
        ComparePrefixes(frame, buffer, EncodeAll(payloads));
        assert buffer == EncodeAll(payloads)[..|buffer|] == frame[..|buffer|];
        DecodePartial(payloads[0], buffer);
      }
    }
  }

  lemma DecodeNothing()
    ensures Decoded("") == ("", "")
  {
    assert Find("", SEP).None?;
  }

  lemma LaterPrefix(frame: string, later: string, rest: string)
    requires frame + rest <= frame + later
    ensures rest <= later
  {
    assert later == (frame + later)[|frame|..];
    assert rest == (frame + later)[|frame|..|frame + rest|];
  }

  lemma DecodeComplete(s: string, rest: string)
    requires FitsInt(|s|)
    ensures var buffer := Encode(s) + rest;
            var surplus := Narrow(|buffer| - |ToString(|s|)| - 2 * |SEP|);
            && (surplus >= |s| ==> Decoded(buffer) == (s, rest))
            && (surplus < |s| ==> Decoded(buffer) == ("", buffer))
            && (FitsInt(|buffer|) ==> surplus >= |s|)
  {
    hide Decoded;
    DecodeIff(s, rest);
    assert |Encode(s) + rest| - |ToString(|s|)| - 2 * |SEP| == |s| + |rest|;
    if FitsInt(|s| + |rest|) {
      NarrowFits(|s| + |rest|);
    }
  }

  /** From `st`, having the bytes `got` before it, the loop took the first k frames. */
  ghost predicate Took(st: Session, payloads: seq<string>, got: string, end: Session, k: nat) {
    && k <= |payloads|
    && end.packages == st.packages + NonEmpty(payloads[..k])
    && EncodeAll(payloads[..k]) + end.inbuffer == got
    && Pending(payloads[k..], end.inbuffer)
  }

  lemma TookOneMore(st: Session, payloads: seq<string>, buffer: string, later: string, end: Session, k: nat)
    requires payloads != [] && Encode(payloads[0]) <= buffer
    requires var rest := buffer[|Encode(payloads[0])|..];
             var packages := if payloads[0] == "" then st.packages else st.packages + [payloads[0]];
             Took(Session(rest, packages), payloads[1..], rest + later, end, k)
    ensures Took(st, payloads, buffer + later, end, k + 1)
  {
    hide Pending, NonEmpty, EncodeAll, Encode;
    var frame := Encode(payloads[0]);
    var rest := buffer[|frame|..];
    TakeOneMore(payloads, k);
    assert payloads[1..][k..] == payloads[k + 1..];
    assert buffer == frame + rest;
    Regroup(frame, EncodeAll(payloads[1..][..k]), end.inbuffer);
    Regroup(frame, rest, later);
    Regroup(st.packages, if payloads[0] == "" then [] else [payloads[0]], NonEmpty(payloads[1..][..k]));
  }

  /** Cutting the loop's input anywhere, the frames taken are the first ones sent, at most one per read,
      and together with the buffer they are all the bytes received. */
  lemma {:induction false} Conservation(st: Session, payloads: seq<string>, chunks: seq<string>) returns (k: nat)
    requires "" !in chunks
    requires Pending(payloads, st.inbuffer + Concat(CStrings(chunks)))
    ensures k <= |chunks|
    ensures Took(st, payloads, st.inbuffer + Concat(CStrings(chunks)), Serve(st, chunks), k)
    decreases |chunks|
  {
    if chunks == [] {
      k := 0;
      assert st.inbuffer + Concat(CStrings(chunks)) == st.inbuffer;
      assert payloads[k..] == payloads && st.packages + [] == st.packages;
    } else {
      var later := Concat(CStrings(chunks[1..]));
      var buffer := st.inbuffer + CStr(chunks[0]);
      assert CStrings(chunks)[1..] == CStrings(chunks[1..]);
      Regroup(st.inbuffer, CStr(chunks[0]), later);
      assert buffer == (buffer + later)[..|buffer|];
      DecodeNext(payloads, buffer);
      var next := ServeOne(st, chunks[0]);
      if Takes(payloads, buffer) {
        NextPending(payloads, buffer, later);
        k := Conservation(next, payloads[1..], chunks[1..]);
        TookOneMore(st, payloads, buffer, later, Serve(st, chunks), k);
        k := k + 1;
      } else {
        k := Conservation(next, payloads, chunks[1..]);
      }
    }
  }

  lemma Regroup<T>(a: seq<T>, b: seq<T>, c: seq<T>)
    ensures a + b + c == a + (b + c)
  {
  }

  lemma NextPending(payloads: seq<string>, buffer: string, later: string)
    requires payloads != [] && Pending(payloads, buffer + later) && Encode(payloads[0]) <= buffer
    ensures Pending(payloads[1..], buffer[|Encode(payloads[0])|..] + later)
  {
    var frame, all := Encode(payloads[0]), EncodeAll(payloads);
    var rest := buffer[|frame|..] + later;
    assert rest == (buffer + later)[|frame|..];
    assert EncodeAll(payloads[1..]) == all[|frame|..];
    assert rest == all[|frame|..|buffer + later|];
  }

  lemma TakeOneMore(payloads: seq<string>, k: nat)
    requires payloads != [] && k <= |payloads| - 1
    ensures EncodeAll(payloads[..k + 1]) == Encode(payloads[0]) + EncodeAll(payloads[1..][..k])
    ensures NonEmpty(payloads[..k + 1])
            == (if payloads[0] == "" then [] else [payloads[0]]) + NonEmpty(payloads[1..][..k])
  {
    assert payloads[..k + 1][1..] == payloads[1..][..k];
  }

  /** A client that sends frames and nothing else: after any number of reads of any sizes, the packages the
      server has taken are exactly the non-empty payloads among the first k sent, in order, with k at most the
      number of reads, and it holds the bytes after them. */
  lemma PackagesInOrder(payloads: seq<string>, chunks: seq<string>) returns (k: nat)
    requires "" !in chunks && Pending(payloads, Concat(CStrings(chunks)))
    ensures var end := Serve(Session("", []), chunks);
            && k <= |payloads| && k <= |chunks|
            && end.packages == NonEmpty(payloads[..k])
            && EncodeAll(payloads[..k]) + end.inbuffer == Concat(CStrings(chunks))
  {
    assert "" + Concat(CStrings(chunks)) == Concat(CStrings(chunks));
    k := Conservation(Session("", []), payloads, chunks);
    assert [] + NonEmpty(payloads[..k]) == NonEmpty(payloads[..k]);
  }

  /** Every read takes a frame if, with the bytes it brings, the next one is complete, and none otherwise. */
  lemma EveryReadTakes(st: Session, payloads: seq<string>, chunk: string)
    requires Pending(payloads, st.inbuffer + CStr(chunk))
    ensures var buffer := st.inbuffer + CStr(chunk);
            ServeOne(st, chunk) ==
              if !Takes(payloads, buffer) then Session(buffer, st.packages)
              else Session(buffer[|Encode(payloads[0])|..],
                           st.packages + if payloads[0] == "" then [] else [payloads[0]])
  {
    hide Decoded, Encode;
    DecodeNext(payloads, st.inbuffer + CStr(chunk));
  }

  lemma FrameText(s: string)
    requires NUL !in s
    ensures Encode(s) != "" && CStr(Encode(s)) == Encode(s)
  {
    assert NUL !in ToString(|s|) && NUL !in SEP;
  }

  lemma OneFrame(st: Session, s: string)
    requires st.inbuffer == "" && NUL !in s && FitsInt(|s|)
    ensures Encode(s) != ""
    ensures ServeOne(st, Encode(s)) == Session("", st.packages + if s == "" then [] else [s])
  {
    hide Decoded, Encode;
    FrameText(s);
    assert st.inbuffer + Encode(s) == Encode(s) == Encode(s) + "";
    DecodeEncoded(s, "");
  }

  /** When each read brings one frame, as from a client that waits for its answers, all are answered. */
  lemma {:induction false} FramePerRead(st: Session, payloads: seq<string>, chunks: seq<string>)
    requires st.inbuffer == "" && |chunks| == |payloads|
    requires forall i :: 0 <= i < |chunks| ==>
               chunks[i] == Encode(payloads[i]) && NUL !in payloads[i] && FitsInt(|payloads[i]|)
    ensures Serve(st, chunks) == Session("", st.packages + NonEmpty(payloads))
    decreases |chunks|
  {
    if chunks != [] {
      hide Encode, ServeOne;
      OneFrame(st, payloads[0]);
      FramePerRead(ServeOne(st, chunks[0]), payloads[1..], chunks[1..]);
      Regroup(st.packages, if payloads[0] == "" then [] else [payloads[0]], NonEmpty(payloads[1..]));
    }
  }

  function Served(service: string -> string, packages: seq<string>): (r: seq<string>)
    ensures |r| == |packages|
  {
    seq(|packages|, i requires 0 <= i < |packages| => service(packages[i]))
  }

  lemma {:induction false} AnswersAreFrames(service: string -> string, packages: seq<string>, sent: seq<string>)
    requires AnswersAll(service, packages, sent)
    ensures Concat(sent) == EncodeAll(Served(service, packages))
  {
    if sent != [] {
      assert Served(service, packages)[1..] == Served(service, packages[1..]);
      AnswersAreFrames(service, packages[1..], sent[1..]);
    }
  }

  /** Whatever frame was sent for a package, a client decodes it to the answer, with anything behind it. */
  lemma AnswerDecodes(service: string -> string, packages: seq<string>, sent: seq<string>, i: nat, rest: string)
    requires AnswersAll(service, packages, sent) && i < |packages| && FitsInt(|service(packages[i])| + |rest|)
    ensures Decoded(sent[i] + rest) == (service(packages[i]), rest)
  {
    DecodeEncoded(service(packages[i]), rest);
  }

  /** Both ends. The server reads the client's frames in any cuts, the client reads the bytes `sent` back in
      any cuts, as many as have arrived. What the client has then decoded are the non-empty answers to
      the non-empty payloads among the first k it sent, the first j of them, in order. */
  lemma ServiceAnswersInOrder(service: string -> string, payloads: seq<string>, chunks: seq<string>,
                              sent: seq<string>, back: seq<string>) returns (k: nat, j: nat)
    requires "" !in chunks && Pending(payloads, Concat(CStrings(chunks)))
    requires AnswersAll(service, Serve(Session("", []), chunks).packages, sent)
    requires "" !in back && Concat(CStrings(back)) <= Concat(sent)
    requires forall p :: p in payloads ==> FitsInt(|service(p)|)
    ensures k <= |payloads| && k <= |chunks| && j <= |NonEmpty(payloads[..k])| && j <= |back|
    ensures Serve(Session("", []), back).packages == NonEmpty(Served(service, NonEmpty(payloads[..k])[..j]))
  {
    hide Serve, Encode, NonEmpty, EncodeAll, CStrings, Concat;
    k := PackagesInOrder(payloads, chunks);
    var packages := NonEmpty(payloads[..k]);
    var answers := Served(service, packages);
    AnswersAreFrames(service, packages, sent);
    NonEmptyWithin(payloads[..k]);
    assert forall p :: p in payloads[..k] ==> p in payloads;
    j := PackagesInOrder(answers, back);
    assert answers[..j] == Served(service, packages[..j]);
  }

  lemma {:induction false} NonEmptyAll(payloads: seq<string>)
    requires "" !in payloads
    ensures NonEmpty(payloads) == payloads
  {
    if payloads != [] {
      NonEmptyAll(payloads[1..]);
    }
  }

  lemma {:induction false} NonEmptyWithin(payloads: seq<string>)
    ensures forall p :: p in NonEmpty(payloads) <==> p in payloads && p != ""
  {
    if payloads != [] {
      NonEmptyWithin(payloads[1..]);
      assert payloads == [payloads[0]] + payloads[1..];
    }
  }
}
