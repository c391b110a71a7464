/** Reactor/reactor/Protocol.hpp: messages closed by a separator, and the
    hand-written text form of requests and responses. */
module ReactorProtocol {
  import opened Text

  const SEP := "X"
  const SPACE := " "

  // ------------------------------------------------------------------ framing

  function Encode(s: string): string { s + SEP }

  /** Every message, each closed by the separator. */
  function Framed(messages: seq<string>): string {
    if messages == [] then "" else Encode(messages[0]) + Framed(messages[1..])
  }

  ghost predicate SepFree(s: string) { 'X' !in s }

  ghost predicate AllSepFree(messages: seq<string>) { forall m :: m in messages ==> SepFree(m) }

  /** The complete messages of a byte stream. */
  function Messages(s: string): seq<string>
    decreases |s|
  {
    var pos := Find(s, SEP);
    if pos.None? then [] else [s[..pos.value]] + Messages(s[pos.value + 1..])
  }

  /** What follows the last separator. */
  function Tail(s: string): string
    decreases |s|
  {
    var pos := Find(s, SEP);
    if pos.None? then s else Tail(s[pos.value + 1..])
  }

  method SpliteMessage(buffer: string, out: seq<string>) returns (buffer': string, out': seq<string>)
    ensures out' == out + Messages(buffer)
    ensures buffer' == Tail(buffer)
  {
    buffer', out' := buffer, out;
    while true
      invariant out' + Messages(buffer') == out + Messages(buffer)
      invariant Tail(buffer') == Tail(buffer)
      decreases |buffer'|
    {
      var pos := Find(buffer', SEP);
      if pos.None? {
        break;
      }
      var message := buffer'[..pos.value];
      buffer' := buffer'[pos.value + |SEP|..];
      out' := out' + [message];
    }
  }

  lemma SepAt(s: string, k: nat)
    ensures OccursAt(s, SEP, k) <==> k < |s| && s[k] == 'X'
  {
  }

  lemma FindSep(s: string)
    ensures Find(s, SEP).None? <==> SepFree(s)
    ensures Find(s, SEP).Some? ==>
              var p := Find(s, SEP).value; p < |s| && s[p] == 'X' && SepFree(s[..p]) && s == Encode(s[..p]) + s[p + 1..]
  {
    FindNone(s, SEP, 0);
    forall k: nat ensures OccursAt(s, SEP, k) <==> k < |s| && s[k] == 'X' {
      SepAt(s, k);
    }
  }

  lemma FirstMessage(m: string, rest: string)
    requires SepFree(m)
    ensures Find(m + SEP + rest, SEP) == Some(|m|)
    ensures (m + SEP + rest)[..|m|] == m && (m + SEP + rest)[|m| + 1..] == rest
  {
    var s := m + SEP + rest;
    assert s[|m|..|m| + 1] == SEP;
    forall k: nat | k < |m| ensures !OccursAt(s, SEP, k) {
      assert s[k..k + 1] == [m[k]] && m[k] in m;
    }
    FindIs(s, SEP, 0, |m|);
  }

  lemma Assoc(a: string, b: string, c: string)
    ensures a + b + c == a + (b + c)
  {
  }

  lemma {:induction false} MessagesRebuild(s: string)
    ensures Framed(Messages(s)) + Tail(s) == s
    ensures AllSepFree(Messages(s)) && SepFree(Tail(s))
    decreases |s|
  {
    FindSep(s);
    var pos := Find(s, SEP);
    if pos.Some? {
      var m, rest := s[..pos.value], s[pos.value + 1..];
      MessagesRebuild(rest);
      FramedCons(m, Messages(rest));
      Assoc(Encode(m), Framed(Messages(rest)), Tail(rest));
    }
  }

  lemma FramedCons(m: string, messages: seq<string>)
    ensures Framed([m] + messages) == Encode(m) + Framed(messages)
  {
  }

  lemma {:induction false} FramedSplits(messages: seq<string>, tail: string)
    requires AllSepFree(messages) && SepFree(tail)
    ensures Messages(Framed(messages) + tail) == messages
    ensures Tail(Framed(messages) + tail) == tail
  {
    var s := Framed(messages) + tail;
    if messages == [] {
      assert s == tail;
      FindSep(s);
    } else {
      var m, rest := messages[0], Framed(messages[1..]) + tail;
      assert SepFree(m);
      assert s == m + SEP + rest;
      FirstMessage(m, rest);
      FramedSplits(messages[1..], tail);
    }
  }

  /** Splitting is the only way to read a stream as closed messages and an unfinished tail. */
  lemma SplitUnique(s: string, messages: seq<string>, tail: string)
    ensures Framed(messages) + tail == s && AllSepFree(messages) && SepFree(tail)
            <==> messages == Messages(s) && tail == Tail(s)
  {
    MessagesRebuild(s);
    if Framed(messages) + tail == s && AllSepFree(messages) && SepFree(tail) {
      FramedSplits(messages, tail);
    }
  }

  lemma {:induction false} FramedConcat(a: seq<string>, b: seq<string>)
    ensures Framed(a + b) == Framed(a) + Framed(b)
  {
    if a == [] {
      assert a + b == b;
    } else {
      assert (a + b)[1..] == a[1..] + b;
      FramedConcat(a[1..], b);
    }
  }

  /** Splitting early and carrying the tail over is splitting late. */
  lemma SplitIncremental(a: string, b: string)
    ensures Messages(a + b) == Messages(a) + Messages(Tail(a) + b)
    ensures Tail(a + b) == Tail(Tail(a) + b)
  {
    var now, later := Framed(Messages(a)), Tail(a) + b;
    var messages := Messages(a) + Messages(later);
    MessagesRebuild(a);
    MessagesRebuild(later);
    FramedConcat(Messages(a), Messages(later));
    Assoc(now, Framed(Messages(later)), Tail(later));
    Assoc(now, Tail(a), b);
    SplitUnique(a + b, messages, Tail(later));
  }

  /** Append a chunk, split, repeat: the buffer and the messages after a list of chunks. */
  function SplitChunks(buffer: string, out: seq<string>, chunks: seq<string>): (string, seq<string>)
    decreases |chunks|
  {
    if chunks == [] then (buffer, out)
    else
      var filled := buffer + chunks[0];
      SplitChunks(Tail(filled), out + Messages(filled), chunks[1..])
  }

  /** However a stream is cut, splitting chunk by chunk gives the one-shot messages and tail. */
  lemma {:induction false} ChunkingIsInvisible(buffer: string, out: seq<string>, chunks: seq<string>)
    requires SepFree(buffer)
    ensures SplitChunks(buffer, out, chunks)
            == (Tail(buffer + Concat(chunks)), out + Messages(buffer + Concat(chunks)))
    decreases |chunks|
  {
    if chunks == [] {
      assert buffer + Concat(chunks) == buffer;
      FindSep(buffer);
      assert out + [] == out;
    } else {
      var filled, rest := buffer + chunks[0], Concat(chunks[1..]);
      MessagesRebuild(filled);
      ChunkingIsInvisible(Tail(filled), out + Messages(filled), chunks[1..]);
      SplitIncremental(filled, rest);
      Assoc(buffer, chunks[0], rest);
      AppendAssoc(out, Messages(filled), Messages(Tail(filled) + rest));
    }
  }

  lemma AppendAssoc(a: seq<string>, b: seq<string>, c: seq<string>)
    ensures a + b + c == a + (b + c)
  {
  }

  // ---------------------------------------------------- requests and responses

  datatype RequestData = RequestData(x: int, y: int, op: char)

  datatype ResponseData = ResponseData(result: int, code: int)

  function PrintRequest(r: RequestData): string {
    ToString(r.x) + SPACE + [r.op] + SPACE + ToString(r.y)
  }

  function PrintResponse(r: ResponseData): string {
    ToString(r.code) + SPACE + ToString(r.result)
  }

  /** Between the first and the last blank stands the operator: the character after the first
      blank, or the NUL that ends the text. The text fails to parse when it has no blank. */
  function ParseRequest(s: string): Option<RequestData> {
    var left, right := Find(s, SPACE), RFind(s, ' ');
    if left.None? || right.None? then None
    else
      var op := if left.value + 1 < |s| then s[left.value + 1] else NUL;
      Some(RequestData(Atoi(s[..left.value]), Atoi(s[right.value + 1..]), op))
  }

  function ParseResponse(s: string): Option<ResponseData> {
    var pos := Find(s, SPACE);
    if pos.None? then None
    else Some(ResponseData(Atoi(s[pos.value + 1..]), Atoi(s[..pos.value])))
  }

  class Request {
    var x_: int
    var y_: int
    var op_: char

    // The fields start with whatever values the memory holds.
    constructor () {
    }

    function Data(): RequestData
      reads this
    {
      RequestData(x_, y_, op_)
    }

    method Serialize() returns (str: string)
      ensures str == PrintRequest(Data())
    {
      str := ToString(x_);
      str := str + SPACE;
      str := str + [op_];
      str := str + SPACE;
      str := str + ToString(y_);
    }

    method Deserialized(str: string) returns (ok: bool)
      modifies this
      ensures ok <==> ParseRequest(str).Some?
      ensures if ok then Data() == ParseRequest(str).value else Data() == old(Data())
    {
      var left := Find(str, SPACE);
      if left.None? {
        return false;
      }
      var right := RFind(str, ' ');
      if right.None? {
        return false;
      }
      x_ := Atoi(str[..left.value]);
      y_ := Atoi(str[right.value + |SPACE|..]);
      if left.value + |SPACE| > |str| {
        return false;
      } else {
        op_ := if left.value + |SPACE| == |str| then NUL else str[left.value + |SPACE|];
      }
      return true;
    }
  }

  class Response {
    var result_: int
    var code_: int

    constructor (result: int, code: int)
      ensures Data() == ResponseData(result, code)
    {
      result_, code_ := result, code;
    }

    function Data(): ResponseData
      reads this
    {
      ResponseData(result_, code_)
    }

    method Serialize() returns (s: string)
      ensures s == PrintResponse(Data())
    {
      s := ToString(code_);
      s := s + SPACE;
      s := s + ToString(result_);
    }

    method Deserialized(s: string) returns (ok: bool)
      modifies this
      ensures ok <==> ParseResponse(s).Some?
      ensures if ok then Data() == ParseResponse(s).value else Data() == old(Data())
    {
      var pos := Find(s, SPACE);
      if pos.None? {
        return false;
      }
      code_ := Atoi(s[..pos.value]);
      result_ := Atoi(s[pos.value + |SPACE|..]);
      return true;
    }
  }

  lemma FirstBlank(head: string, rest: string)
    requires ' ' !in head
    ensures Find(head + SPACE + rest, SPACE) == Some(|head|)
    ensures (head + SPACE + rest)[..|head|] == head && (head + SPACE + rest)[|head| + 1..] == rest
  {
    var s := head + SPACE + rest;
    assert s[|head|..|head| + 1] == SPACE;
    forall k: nat | k < |head| ensures !OccursAt(s, SPACE, k) {
      assert s[k..k + 1] == [head[k]] && head[k] in head;
    }
    FindIs(s, SPACE, 0, |head|);
  }

  lemma LastBlank(head: string, rest: string)
    requires ' ' !in rest
    ensures RFind(head + SPACE + rest, ' ') == Some(|head|)
    ensures (head + SPACE + rest)[|head| + 1..] == rest
  {
    RFindIs(head + SPACE + rest, ' ', |head|);
  }

  /** Three fields, the middle one a single character, come apart again, whatever that character is. */
  lemma ThreeFields(x: string, op: char, y: string)
    requires ' ' !in x && ' ' !in y
    ensures var s := x + SPACE + [op] + SPACE + y;
            && Find(s, SPACE) == Some(|x|) && s[..|x|] == x && s[|x| + 1] == op
            && RFind(s, ' ') == Some(|x| + 2) && s[|x| + 3..] == y
  {
    var s := x + SPACE + [op] + SPACE + y;
    var rest := [op] + SPACE + y;
    assert s == x + SPACE + rest;
    FirstBlank(x, rest);
    LastBlank(x + SPACE + [op], y);
  }

  lemma BlankFree(n: int)
    ensures ' ' !in ToString(n) && 'X' !in ToString(n)
  {
  }

  lemma AtoiPrinted(n: int)
    ensures Atoi(ToString(n)) == n
  {
    AtoiToString(n, "");
    assert ToString(n) + "" == ToString(n);
  }

  /** Parsing undoes printing for every operand and every operator, blank and minus included. */
  lemma RequestRoundTrip(r: RequestData)
    ensures ParseRequest(PrintRequest(r)) == Some(r)
  {
    BlankFree(r.x);
    BlankFree(r.y);
    ThreeFields(ToString(r.x), r.op, ToString(r.y));
    AtoiPrinted(r.x);
    AtoiPrinted(r.y);
  }

  lemma ResponseRoundTrip(r: ResponseData)
    ensures ParseResponse(PrintResponse(r)) == Some(r)
  {
    BlankFree(r.code);
    FirstBlank(ToString(r.code), ToString(r.result));
    AtoiPrinted(r.code);
    AtoiPrinted(r.result);
  }

  lemma BlankAt(s: string, k: nat)
    ensures OccursAt(s, SPACE, k) <==> k < |s| && s[k] == ' '
  {
    if k < |s| {
      assert s[k..k + 1] == [s[k]];
    }
  }

  lemma NoBlank(s: string)
    ensures Find(s, SPACE).None? <==> ' ' !in s
  {
    FindNone(s, SPACE, 0);
    forall k: nat ensures OccursAt(s, SPACE, k) <==> k < |s| && s[k] == ' ' {
      BlankAt(s, k);
    }
  }

  predicate IsFirstBlank(s: string, p: nat) { p < |s| && s[p] == ' ' && forall k :: 0 <= k < p ==> s[k] != ' ' }

  predicate IsLastBlank(s: string, q: nat) { q < |s| && s[q] == ' ' && forall k :: q < k < |s| ==> s[k] != ' ' }

  lemma BlankIsFirst(s: string, p: nat)
    requires IsFirstBlank(s, p)
    ensures Find(s, SPACE) == Some(p)
  {
    forall k: nat | k <= p ensures OccursAt(s, SPACE, k) <==> s[k] == ' ' {
      BlankAt(s, k);
    }
    FindIs(s, SPACE, 0, p);
  }

  /** A text is a request exactly if it has a blank. The operands stand before the first and behind the
      last one, the operator right behind the first: "7 +8" is 7 and 8 with '+'. */
  lemma ParseRequestIs(s: string, p: nat, q: nat)
    ensures ParseRequest(s).None? <==> ' ' !in s
    ensures IsFirstBlank(s, p) && IsLastBlank(s, q) ==>
              ParseRequest(s) == Some(RequestData(Atoi(s[..p]), Atoi(s[q + 1..]),
                                                  if p + 1 < |s| then s[p + 1] else NUL))
  {
    hide Atoi, Find;
    NoBlank(s);
    if IsFirstBlank(s, p) && IsLastBlank(s, q) {
      BlankIsFirst(s, p);
      RFindIs(s, ' ', q);
    }
  }

  lemma ParseResponseIs(s: string, p: nat)
    ensures ParseResponse(s).None? <==> ' ' !in s
    ensures IsFirstBlank(s, p) ==> ParseResponse(s) == Some(ResponseData(Atoi(s[p + 1..]), Atoi(s[..p])))
  {
    hide Atoi, Find;
    NoBlank(s);
    if IsFirstBlank(s, p) {
      BlankIsFirst(s, p);
    }
  }

  /** The printed text, position by position: three fields, two blanks and nothing else. */
  lemma PrintedRequest(r: RequestData)
    ensures var s, p := PrintRequest(r), |ToString(r.x)|;
            && |s| == p + 3 + |ToString(r.y)|
            && s[..p] == ToString(r.x) && s[p..p + 3] == [' ', r.op, ' '] && s[p + 3..] == ToString(r.y)
  {
  }

  /** Two fields, the code first, and one blank. */
  lemma PrintedResponse(r: ResponseData)
    ensures var s, p := PrintResponse(r), |ToString(r.code)|;
            && |s| == p + 1 + |ToString(r.result)|
            && s[..p] == ToString(r.code) && s[p] == ' ' && s[p + 1..] == ToString(r.result)
  {
  }

  function PrintRequests(rs: seq<RequestData>): (r: seq<string>)
    ensures |r| == |rs|
  {
    seq(|rs|, i requires 0 <= i < |rs| => PrintRequest(rs[i]))
  }

  function PrintResponses(rs: seq<ResponseData>): (r: seq<string>)
    ensures |r| == |rs|
  {
    seq(|rs|, i requires 0 <= i < |rs| => PrintResponse(rs[i]))
  }

  lemma PrintedSepFree(r: RequestData)
    ensures SepFree(PrintRequest(r)) <==> r.op != 'X'
  {
  }

  /** A stream of printed requests splits back into them exactly when no operator is the separator. */
  lemma RequestStream(rs: seq<RequestData>)
    ensures Messages(Framed(PrintRequests(rs))) == PrintRequests(rs)
            <==> forall r :: r in rs ==> r.op != 'X'
  {
    var texts := PrintRequests(rs);
    MessagesRebuild(Framed(texts));
    forall i | 0 <= i < |rs| ensures SepFree(texts[i]) <==> rs[i].op != 'X' {
      PrintedSepFree(rs[i]);
    }
    if forall r :: r in rs ==> r.op != 'X' {
      assert AllSepFree(texts);
      FramedSplits(texts, "");
      assert Framed(texts) + "" == Framed(texts);
    }
    if Messages(Framed(texts)) == texts {
      forall r | r in rs ensures r.op != 'X' {
        var i :| 0 <= i < |rs| && rs[i] == r;
        assert texts[i] in texts;
      }
    }
  }

  lemma ResponseSepFree(r: ResponseData)
    ensures SepFree(PrintResponse(r))
  {
  }

  /** A client that splits and parses a stream of responses reads back every one of them. */
  lemma ResponseStream(rs: seq<ResponseData>)
    ensures Messages(Framed(PrintResponses(rs))) == PrintResponses(rs)
    ensures forall i :: 0 <= i < |rs| ==> ParseResponse(PrintResponses(rs)[i]) == Some(rs[i])
  {
    var texts := PrintResponses(rs);
    forall i | 0 <= i < |rs| ensures SepFree(texts[i]) && ParseResponse(texts[i]) == Some(rs[i]) {
      ResponseSepFree(rs[i]);
      ResponseRoundTrip(rs[i]);
    }
    FramedSplits(texts, "");
    assert Framed(texts) + "" == Framed(texts);
  }
}
