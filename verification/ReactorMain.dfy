/** Reactor/reactor/main.cc: the calculator behind the callback. */
module ReactorMain {
  import opened Text
  import opened ReactorProtocol
  import opened ReactorServer

  // C++ division and remainder truncate toward zero.

  function Quotient(x: int, y: int): int
    requires y != 0
  {
    if x >= 0 then x / y else -(-x / y)
  }

  function Remainder(x: int, y: int): int
    requires y != 0
  {
    if x >= 0 then x % y else -(-x % y)
  }

  /** The mathematical result. */
  function Calculate(r: RequestData): ResponseData {
    match r.op
    case '+' => ResponseData(r.x + r.y, 0)
    case '-' => ResponseData(r.x - r.y, 0)
    case '*' => ResponseData(r.x * r.y, 0)
    case '/' => if r.y == 0 then ResponseData(0, 1) else ResponseData(Quotient(r.x, r.y), 0)
    case '%' => if r.y == 0 then ResponseData(0, 2) else ResponseData(Remainder(r.x, r.y), 0)
    case _ => ResponseData(0, 3)
  }

  /** The remainder takes the sign of the dividend and is smaller than the divisor. */
  lemma DivisionTruncates(x: int, y: int)
    requires y != 0
    ensures x == Quotient(x, y) * y + Remainder(x, y)
    ensures if x >= 0 then 0 <= Remainder(x, y) else Remainder(x, y) <= 0
    ensures if y > 0 then -y < Remainder(x, y) < y else y < Remainder(x, y) < -y
  {
  }

  /** Dividing 32-bit numbers overflows for exactly one pair of operands. */
  lemma DivisionFits(x: int, y: int)
    requires FitsInt(x) && FitsInt(y) && y != 0
    ensures FitsInt(Remainder(x, y))
    ensures FitsInt(Quotient(x, y)) <==> !(x == -0x8000_0000 && y == -1)
  {
  }

  /** Division that truncates toward zero: the remainder has the sign of the dividend and is smaller than
      the divisor. */
  predicate Truncates(x: int, y: int, q: int, rem: int) {
    && x == q * y + rem
    && (if x >= 0 then 0 <= rem else rem <= 0)
    && (if y > 0 then -y < rem < y else y < rem < -y)
  }

  lemma TruncatesOnce(x: int, y: int, q: int, rem: int)
    requires y != 0 && Truncates(x, y, q, rem)
    ensures q == Quotient(x, y) && rem == Remainder(x, y)
  {
    DivisionTruncates(x, y);
    var d := q - Quotient(x, y);
    assert d * y == Remainder(x, y) - rem;
    if d >= 1 || d <= -1 {
      AtLeast(d, y);
    }
  }

  lemma AtLeast(d: int, y: int)
    requires (d >= 1 || d <= -1) && y != 0
    ensures d * y >= (if y > 0 then y else -y) || d * y <= (if y > 0 then -y else y)
  {
  }

  /** What a client may expect of an answer: which code stands for which failure, and the arithmetic law of
      each operator. */
  ghost predicate Lawful(r: RequestData, a: ResponseData) {
    && (a.code == 1 <==> r.op == '/' && r.y == 0)
    && (a.code == 2 <==> r.op == '%' && r.y == 0)
    && (a.code == 3 <==> r.op !in {'+', '-', '*', '/', '%'})
    && a.code in {0, 1, 2, 3}
    && (a.code != 0 ==> a.result == 0)
    && (r.op == '+' ==> a.result - r.y == r.x)
    && (r.op == '-' ==> a.result + r.y == r.x)
    && (r.op == '*' ==> a.result == r.x * r.y)
    && (r.op == '/' && r.y != 0 ==> exists rem :: Truncates(r.x, r.y, a.result, rem))
    && (r.op == '%' && r.y != 0 ==> exists q :: Truncates(r.x, r.y, q, a.result))
  }

  /** Those laws have one solution. */
  lemma LawfulIff(r: RequestData, a: ResponseData)
    ensures Lawful(r, a) <==> a == Calculate(r)
  {
    hide Truncates, Quotient, Remainder;
    if r.y != 0 {
      DividesIff(r.x, r.y, a.result);
      LeavesIff(r.x, r.y, a.result);
    }
  }

  lemma DividesIff(x: int, y: int, q: int)
    requires y != 0
    ensures (exists rem :: Truncates(x, y, q, rem)) <==> q == Quotient(x, y)
  {
    hide Truncates, Quotient, Remainder;
    QuotientTruncates(x, y);
    forall rem | Truncates(x, y, q, rem) ensures q == Quotient(x, y) {
      TruncatesOnce(x, y, q, rem);
    }
  }

  lemma LeavesIff(x: int, y: int, rem: int)
    requires y != 0
    ensures (exists q :: Truncates(x, y, q, rem)) <==> rem == Remainder(x, y)
  {
    hide Truncates, Quotient, Remainder;
    QuotientTruncates(x, y);
    forall q | Truncates(x, y, q, rem) ensures rem == Remainder(x, y) {
      TruncatesOnce(x, y, q, rem);
    }
  }

  lemma QuotientTruncates(x: int, y: int)
    requires y != 0
    ensures Truncates(x, y, Quotient(x, y), Remainder(x, y))
  {
    DivisionTruncates(x, y);
  }

  const MAX := 0x7fff_ffff
  const MIN := -0x8000_0000

  /** The result as C++ defines it for ints: none if an operand is no int or the operation overflows. A
      remainder is undefined with its quotient. */
  function Evaluate(r: RequestData): Option<ResponseData> {
    if !FitsInt(r.x) || !FitsInt(r.y) then None
    else
      var overflows := if r.op == '%' then r.y != 0 && !FitsInt(Quotient(r.x, r.y)) else !FitsInt(Calculate(r).result);
      if overflows then None else Some(Calculate(r))
  }

  /** What a caller can check on the operands, without overflowing itself in sums and differences. */
  predicate Defined(r: RequestData) {
    FitsInt(r.x) && FitsInt(r.y) &&
    match r.op
    case '+' => if r.y > 0 then r.x <= MAX - r.y else r.x >= MIN - r.y
    case '-' => if r.y > 0 then r.x >= MIN + r.y else r.x <= MAX + r.y
    case '*' => MIN <= r.x * r.y <= MAX
    case '/' => !(r.x == MIN && r.y == -1)
    case '%' => !(r.x == MIN && r.y == -1)
    case _ => true
  }

  /** The calculator has a result exactly for these requests, and it is the mathematical one. */
  lemma DefinedIff(r: RequestData)
    ensures Defined(r) <==> Evaluate(r).Some?
    ensures Defined(r) ==> Evaluate(r) == Some(Calculate(r)) && FitsInt(Calculate(r).result)
  {
    if FitsInt(r.x) && FitsInt(r.y) && r.y != 0 {
      DivisionFits(r.x, r.y);
    }
  }

  /** A sum, a quotient and a remainder of ints that have no result. */
  lemma Undefined()
    ensures Evaluate(RequestData(MAX, 1, '+')).None? && Calculate(RequestData(MAX, 1, '+')).result == 2147483648
    ensures Evaluate(RequestData(MIN, -1, '/')).None? && Evaluate(RequestData(MIN, -1, '%')).None?
  {
    DefinedIff(RequestData(MAX, 1, '+'));
    DefinedIff(RequestData(MIN, -1, '/'));
    DefinedIff(RequestData(MIN, -1, '%'));
  }

  method calculator(req: Request) returns (resp: Response)
    requires Defined(req.Data())
    ensures fresh(resp) && Evaluate(req.Data()) == Some(resp.Data())
    ensures resp.Data() == Calculate(req.Data()) && FitsInt(resp.result_)
    ensures Lawful(req.Data(), resp.Data())
  {
    hide Lawful;
    DefinedIff(req.Data());
    LawfulIff(req.Data(), Calculate(req.Data()));
    resp := new Response(0, 0);
    match req.op_
    case '+' => resp.result_ := req.x_ + req.y_;
    case '-' => resp.result_ := req.x_ - req.y_;
    case '*' => resp.result_ := req.x_ * req.y_;
    case '/' =>
      if 0 == req.y_ {
        resp.code_ := 1;
      } else {
        resp.result_ := Quotient(req.x_, req.y_);
      }
    case '%' =>
      if 0 == req.y_ {
        resp.code_ := 2;
      } else {
        resp.result_ := Remainder(req.x_, req.y_);
      }
    case _ => resp.code_ := 3;
  }

  /** What NetCal answers to a message: nothing when it does not parse. */
  function Answer(message: string): Option<string> {
    var r := ParseRequest(message);
    if r.None? then None else Some(PrintResponse(Calculate(r.value)))
  }

  /** The message does not make NetCal overflow: it does not parse, or its result is defined. */
  predicate Sound(message: string) { ParseRequest(message).Some? ==> Defined(ParseRequest(message).value) }

  /** NetCal up to the point where it hands the answer to the connection. */
  method NetCal(request: string) returns (sendstr: Option<string>)
    requires Sound(request)
    ensures sendstr == Answer(request)
  {
    var req := new Request();
    var ok := req.Deserialized(request);
    if !ok {
      return None;
    }
    var resp := calculator(req);
    var text := resp.Serialize();
    sendstr := Some(text);
  }

  /** NetCal as far as C++ defines it: an overflow may be answered in any way. */
  ghost predicate Conforms(service: Service) {
    forall message :: Sound(message) ==> service(message) == Answer(message)
  }

  /** What the client reads back from NetCal: a message without a blank gets no answer at all, and any other
      the lawful result of the request it parses to. */
  lemma AnswerIs(message: string)
    ensures Answer(message).None? <==> ' ' !in message
    ensures Answer(message).Some? ==>
              var back := ParseResponse(Answer(message).value);
              ParseRequest(message).Some? && back.Some? && Lawful(ParseRequest(message).value, back.value)
  {
    hide ParseRequest, PrintResponse, ParseResponse, Calculate, Lawful;
    ParseRequestIs(message, 0, 0);
    var r := ParseRequest(message);
    if r.Some? {
      ResponseRoundTrip(Calculate(r.value));
      LawfulIff(r.value, Calculate(r.value));
    }
  }

  /** A message without a blank adds nothing to the output, wherever it comes. */
  lemma UnparsableIsSilent(service: Service, before: seq<string>, message: string, later: seq<string>)
    requires Conforms(service) && ' ' !in message
    ensures Replies(service, before + [message] + later) == Replies(service, before + later)
  {
    hide ParseRequest, Lawful, Answer, Replies;
    AnswerIs(message);
    ParseRequestIs(message, 0, 0);
    assert Sound(message);
    RejectedIsSilent(service, message);
    RepliesConcat(service, before + [message], later);
    RepliesConcat(service, before, [message]);
    RepliesConcat(service, before, later);
  }

  lemma RejectedIsSilent(service: Service, message: string)
    requires service(message).None?
    ensures Replies(service, [message]) == ""
  {
    assert Replies(service, []) == "";
  }

  /** The answer to a request is settled exactly if its result is defined. */
  lemma AnswerSettledIff(r: RequestData)
    ensures (forall service: Service | Conforms(service) :: service(PrintRequest(r)) == Answer(PrintRequest(r)))
            <==> Defined(r)
  {
    hide PrintRequest, PrintResponse, ParseRequest, Calculate, Defined;
    var text := PrintRequest(r);
    RequestRoundTrip(r);
    if !Defined(r) {
      var other: Service := message => if message == text then None else Answer(message);
      assert Conforms(other) && other(text) != Answer(text);
    }
  }

  function Results(rs: seq<RequestData>): (r: seq<ResponseData>)
    ensures |r| == |rs|
  {
    seq(|rs|, i requires 0 <= i < |rs| => Calculate(rs[i]))
  }

  ghost predicate AllDefined(rs: seq<RequestData>) { forall r :: r in rs ==> Defined(r) }

  lemma {:induction false} AnswersToRequests(service: Service, rs: seq<RequestData>)
    requires Conforms(service) && AllDefined(rs)
    ensures Replies(service, PrintRequests(rs)) == Framed(PrintResponses(Results(rs)))
  {
    hide Defined;
    if rs != [] {
      var texts, results := PrintRequests(rs), Results(rs);
      assert texts[1..] == PrintRequests(rs[1..]);
      assert results[1..] == Results(rs[1..]);
      assert PrintResponses(results)[1..] == PrintResponses(results[1..]);
      RequestRoundTrip(rs[0]);
      assert Sound(texts[0]);
      AnswersToRequests(service, rs[1..]);
    }
  }

  /** The calculator end to end: for requests with defined results whose operators are not the separator,
      whatever the cuts in the input and the partial sends, the full output splits and parses back into the
      result of every request, in order. */
  lemma CalculatorEndToEnd(service: Service, rs: seq<RequestData>)
    requires Conforms(service) && AllDefined(rs) && forall r :: r in rs ==> r.op != 'X'
    ensures var output := Owed(service, Framed(PrintRequests(rs)));
            && Messages(output) == PrintResponses(Results(rs))
            && Tail(output) == ""
            && forall i :: 0 <= i < |rs| ==>
                 var back := ParseResponse(PrintResponses(Results(rs))[i]);
                 back.Some? && back == Evaluate(rs[i]) && Lawful(rs[i], back.value)
  {
    hide Defined, Conforms, Evaluate, Lawful;
    RequestStream(rs);
    AnswersToRequests(service, rs);
    var texts := PrintResponses(Results(rs));
    ResponseStream(Results(rs));
    SplitUnique(Framed(texts), texts, Tail(Framed(texts)));
    MessagesRebuild(Framed(texts));
    forall i | 0 <= i < |rs| ensures Evaluate(rs[i]) == Some(Results(rs)[i]) && Lawful(rs[i], Results(rs)[i]) {
      DefinedIff(rs[i]);
      LawfulIff(rs[i], Results(rs)[i]);
    }
  }

  lemma PrintedNulFree(r: RequestData)
    ensures NUL in PrintRequest(r) <==> r.op == NUL
  {
    var x, y := ToString(r.x), ToString(r.y);
    assert NUL in PrintRequest(r) <==> NUL in x || NUL in SPACE || NUL == r.op || NUL in y;
  }

  lemma {:induction false} FramedNulFree(messages: seq<string>)
    ensures NUL in Framed(messages) <==> exists i :: 0 <= i < |messages| && NUL in messages[i]
  {
    if messages != [] {
      var rest := messages[1..];
      FramedNulFree(rest);
      assert forall i :: 0 <= i < |rest| ==> messages[i + 1] == rest[i];
      assert forall i :: 0 < i < |messages| ==> messages[i] == rest[i - 1];
    }
  }

  lemma NulFree(rs: seq<RequestData>)
    ensures NUL in Framed(PrintRequests(rs)) <==> exists r :: r in rs && r.op == NUL
  {
    var texts := PrintRequests(rs);
    FramedNulFree(texts);
    forall i | 0 <= i < |rs| ensures NUL in texts[i] <==> rs[i].op == NUL {
      PrintedNulFree(rs[i]);
    }
  }

  /** The beginning of a request stream, wherever it ends, splits into the first requests and an
      unfinished one. */
  lemma StreamPrefix(rs: seq<RequestData>, input: string) returns (k: nat)
    requires input <= Framed(PrintRequests(rs)) && forall r :: r in rs ==> r.op != 'X'
    ensures k <= |rs| && Messages(input) == PrintRequests(rs[..k])
    ensures Framed(PrintRequests(rs[..k])) + Tail(input) == input
  {
    hide PrintRequest, Framed, Messages, Tail;
    var all := Framed(PrintRequests(rs));
    k := |Messages(input)|;
    RequestStream(rs);
    SplitIncremental(input, all[|input|..]);
    assert input + all[|input|..] == all;
    assert PrintRequests(rs[..k]) == PrintRequests(rs)[..k];
    MessagesRebuild(input);
  }

  /** One client of the server: it sends the requests `rs`, of which the bytes `raw` have arrived. Its first
      k requests are complete; what was sent and what is pending are exactly their results. */
  ghost predicate Calculated(rs: seq<RequestData>, raw: string, inbuffer: string, output: string, k: nat) {
    && k <= |rs|
    && Framed(PrintRequests(rs[..k])) + inbuffer == raw && SepFree(inbuffer)
    && output == Framed(PrintResponses(Results(rs[..k])))
  }

  /** What a client may send: the operator neither ends the message nor the C string, and the result is
      defined. */
  ghost predicate Sendable(rs: seq<RequestData>) {
    forall r :: r in rs ==> r.op != 'X' && r.op != NUL && Defined(r)
  }

  lemma CalculatedAll(service: Service, rs: seq<RequestData>, raw: string) returns (k: nat)
    requires Conforms(service) && Sendable(rs) && raw <= Framed(PrintRequests(rs))
    ensures NUL !in raw && Calculated(rs, raw, Tail(raw), Owed(service, raw), k)
  {
    hide Defined, Conforms;
    NulFree(rs);
    assert forall c :: c in raw ==> c in Framed(PrintRequests(rs));
    k := StreamPrefix(rs, raw);
    AnswersToRequests(service, rs[..k]);
    MessagesRebuild(raw);
  }

  /** A whole run of the server. Whatever a client has sent of its requests so far, however the bytes were
      cut on the way and however few its socket took at a time, it is served exactly the results of its
      complete requests, in order. `service` is NetCal, as far as C++ defines it: an overflow that some other
      client causes may be answered in any way. */
  method RunCalculator(listensock: int, service: Service, batches: seq<seq<Ready>>)
    returns (server: TcpServer, ghost rounds: seq<Round>)
    requires Conforms(service)
    ensures Trace(listensock, service, batches, map[listensock := NEWCOMER], rounds, server.Views(server.connections))
    ensures forall s, rs: seq<RequestData> ::
              s in server.connections && s != listensock && Sendable(rs) &&
              server.connections[s].raw <= Framed(PrintRequests(rs)) ==>
                var conn := server.connections[s];
                exists k :: Calculated(rs, conn.raw, conn.inbuffer, conn.sent + conn.outbuffer, k)
  {
    hide Trace, Calculated, Conforms, Sendable;
    server := new TcpServer(listensock, service);
    rounds := server.Dispather(batches);
    forall s, rs: seq<RequestData> |
      s in server.connections && s != listensock && Sendable(rs) &&
      server.connections[s].raw <= Framed(PrintRequests(rs))
      ensures var conn := server.connections[s];
              exists k :: Calculated(rs, conn.raw, conn.inbuffer, conn.sent + conn.outbuffer, k)
    {
      var k := CalculatedAll(service, rs, server.connections[s].raw);
    }
  }
}
