/**
 Length-prefixed frames and the blocking server loop: framing.hpp and TcpServer::handle_client. A Socket
 holds the bytes the peer will ever send, and how recv() and send() split them is an input. The broker is
 any function from the requests handed to it so far to the answer to the last one, None if it throws, so
 what other clients do to it in between is covered.
 */
module Framing {
  import opened Types
  import opened Bytes
  import opened Protocol

  // 64 KiB
  const MAX_PAYLOAD_SIZE: nat := 65536
  const HEADER_SIZE: nat := 4

  function Frame(payload: string): string {
    HostToNet(|payload|) + payload
  }

  datatype FrameRead = Closed | Got(payload: string, rest: string) | Oversized | CutShort

  // What read_frame makes of the bytes that are still to come.
  function NextFrame(s: string): (r: FrameRead)
    ensures r.Got? ==> |r.rest| < |s|
  {
    if |s| < HEADER_SIZE then Closed else
    var length := NetToHost(s[..HEADER_SIZE]);
    if length > MAX_PAYLOAD_SIZE then Oversized
    else if |s| - HEADER_SIZE < length then CutShort
    else Got(s[HEADER_SIZE..HEADER_SIZE + length], s[HEADER_SIZE + length..])
  }

  // ----- One connection -----

  type Answerer = seq<Request> -> Option<string>

  type Membership = (string, string)

  datatype Session = Session(requests: seq<Request>, joined: seq<Membership>, out: string, open: bool)

  const FRESH := Session([], [], "", true)

  // Erase the first entry that matches.
  function WithoutFirst(joined: seq<Membership>, m: Membership): seq<Membership> {
    if joined == [] then []
    else if joined[0] == m then joined[1..]
    else [joined[0]] + WithoutFirst(joined[1..], m)
  }

  // The memberships a connection owns after a request was answered.
  function JoinedAfter(joined: seq<Membership>, req: Request, response: string): seq<Membership> {
    if response == "OK" && req.kind == JOIN then joined + [(req.groupId, req.consumerId)]
    else if response == "OK" && req.kind == LEAVE then WithoutFirst(joined, (req.groupId, req.consumerId))
    else joined
  }

  // One request frame: parsed, handed over, recorded, answered. An exception or an oversized answer closes the connection.
  function Handle(answer: Answerer, s: Session, payload: string): Session {
    var req := Parse(payload);
    var requests := s.requests + [req];
    match answer(requests)
    case None => s.(requests := requests, open := false)
    case Some(response) =>
      var joined := JoinedAfter(s.joined, req, response);
      if |response| > MAX_PAYLOAD_SIZE then s.(requests := requests, joined := joined, open := false)
      else s.(requests := requests, joined := joined, out := s.out + Frame(response))
  }

  // The blocking loop over a whole byte stream.
  function Serve(answer: Answerer, s: Session, stream: string): Session
    decreases |stream|
  {
    var r := NextFrame(stream);
    if !r.Got? then s.(open := false) else
    var s' := Handle(answer, s, r.payload);
    if s'.open then Serve(answer, s', r.rest) else s'
  }

  // ----- The blocking code -----

  // How a recv() or send() ends: some bytes, an interruption, or what makes the source throw (an error, or send taking nothing).
  datatype Cut = Chunk(bytes: nat) | Eintr | Broken

  class Socket {
    var incoming: string
    var outgoing: string
    var cuts: seq<Cut>

    constructor (incoming: string, cuts: seq<Cut>)
      ensures this.incoming == incoming && outgoing == "" && this.cuts == cuts
    {
      this.incoming, outgoing, this.cuts := incoming, "", cuts;
    }

    ghost predicate Intact()
      reads this
    {
      Broken !in cuts
    }

    // How many of at most limit bytes the next call moves; 0 when it was interrupted.
    method NextCut(limit: nat) returns (count: nat, threw: bool)
      requires limit > 0
      modifies this`cuts
      ensures count <= limit && |cuts| <= |old(cuts)|
      ensures count == 0 ==> |cuts| < |old(cuts)|
      ensures threw ==> count == 0
      ensures old(Intact()) ==> Intact() && !threw
    {
      threw := false;
      if cuts == [] {
        return limit, false;
      }
      var cut := cuts[0];
      assert cut in cuts && forall c | c in cuts[1..] :: c in cuts;
      cuts := cuts[1..];
      match cut {
        case Broken => count, threw := 0, true;
        case Eintr => count := 0;
        case Chunk(bytes) => count := if bytes == 0 then 1 else if bytes <= limit then bytes else limit;
      }
    }
  }

  method ReadExactly(socket: Socket, bytes: nat) returns (ok: bool, threw: bool, buffer: string)
    modifies socket
    ensures socket.outgoing == old(socket.outgoing)
    ensures old(socket.incoming) == buffer + socket.incoming && |buffer| <= bytes
    ensures !threw ==> ok == (|old(socket.incoming)| >= bytes) && (ok ==> |buffer| == bytes)
    ensures old(socket.Intact()) ==> socket.Intact() && !threw
  {
    buffer, threw := "", false;
    while |buffer| < bytes
      invariant |buffer| <= bytes && old(socket.incoming) == buffer + socket.incoming && socket.outgoing == old(socket.outgoing)
      invariant !threw && (old(socket.Intact()) ==> socket.Intact())
      decreases bytes - |buffer|, |socket.cuts|
    {
      if socket.incoming == "" {
        return false, false, buffer;
      }
      var limit := if bytes - |buffer| <= |socket.incoming| then bytes - |buffer| else |socket.incoming|;
      var count;
      count, threw := socket.NextCut(limit);
      if threw {
        return false, true, buffer;
      }
      buffer, socket.incoming := buffer + socket.incoming[..count], socket.incoming[count..];
    }
    ok := true;
  }

  method WriteExactly(socket: Socket, buffer: string) returns (threw: bool)
    modifies socket
    ensures socket.incoming == old(socket.incoming)
    ensures !threw ==> socket.outgoing == old(socket.outgoing) + buffer
    ensures old(socket.outgoing) <= socket.outgoing <= old(socket.outgoing) + buffer
    ensures old(socket.Intact()) ==> socket.Intact() && !threw
  {
    var totalSent := 0;
    threw := false;
    assert buffer[..0] == "";
    while totalSent < |buffer|
      invariant totalSent <= |buffer| && socket.incoming == old(socket.incoming) && !threw
      invariant socket.outgoing == old(socket.outgoing) + buffer[..totalSent]
      invariant old(socket.Intact()) ==> socket.Intact()
      decreases |buffer| - totalSent, |socket.cuts|
    {
      var count;
      count, threw := socket.NextCut(|buffer| - totalSent);
      if threw {
        return;
      }
      assert buffer[..totalSent] + buffer[totalSent..totalSent + count] == buffer[..totalSent + count];
      socket.outgoing := socket.outgoing + buffer[totalSent..totalSent + count];
      totalSent := totalSent + count;
    }
    assert buffer[..totalSent] == buffer;
  }

  // ok is false when the source throws.
  method WriteFrame(socket: Socket, payload: string) returns (ok: bool)
    modifies socket
    ensures socket.incoming == old(socket.incoming)
    ensures ok ==> |payload| <= MAX_PAYLOAD_SIZE && socket.outgoing == old(socket.outgoing) + Frame(payload)
    ensures |payload| > MAX_PAYLOAD_SIZE ==> socket.outgoing == old(socket.outgoing)
    ensures old(socket.outgoing) <= socket.outgoing <= old(socket.outgoing) + Frame(payload)
    ensures old(socket.Intact()) ==> socket.Intact() && ok == (|payload| <= MAX_PAYLOAD_SIZE)
  {
    hide HostToNet;
    ok := false;
    if |payload| > MAX_PAYLOAD_SIZE {
      return;
    }
    var threw := WriteExactly(socket, HostToNet(|payload|));
    assert old(socket.outgoing) + HostToNet(|payload|) <= old(socket.outgoing) + Frame(payload);
    if threw {
      return;
    }
    assert old(socket.outgoing) + HostToNet(|payload|) + payload == old(socket.outgoing) + Frame(payload);
    if payload != "" {
      threw := WriteExactly(socket, payload);
    }
    ok := !threw;
  }

  // None is an exception out of recv().
  method ReadFrame(socket: Socket) returns (result: Option<FrameRead>)
    modifies socket
    ensures socket.outgoing == old(socket.outgoing)
    ensures result.Some? ==> result.value == NextFrame(old(socket.incoming))
    ensures result.Some? && result.value.Got? ==> socket.incoming == result.value.rest
    ensures old(socket.Intact()) ==> socket.Intact() && result.Some?
  {
    hide NetToHost;
    ghost var stream := socket.incoming;
    var ok, threw, header := ReadExactly(socket, HEADER_SIZE);
    if threw {
      return None;
    }
    if !ok {
      return Some(Closed);
    }
    assert stream[..HEADER_SIZE] == header;
    ghost var rest := socket.incoming;
    var payloadSize := NetToHost(header);
    if payloadSize > MAX_PAYLOAD_SIZE {
      return Some(Oversized);
    }
    if payloadSize == 0 {
      assert stream[HEADER_SIZE..HEADER_SIZE] == "" && stream[HEADER_SIZE..] == rest;
      return Some(Got("", socket.incoming));
    }
    var payload;
    ok, threw, payload := ReadExactly(socket, payloadSize);
    if threw {
      return None;
    }
    if !ok {
      return Some(CutShort);
    }
    assert stream == header + payload + socket.incoming;
    result := Some(Got(payload, socket.incoming));
  }

  // Having served the bytes before it, the loop is in session s, whatever bytes come next.
  ghost predicate Reaches(answer: Answerer, before: string, s: Session) {
    forall next: string :: Serve(answer, FRESH, before + next) == Onward(answer, s, next)
  }

  function Onward(answer: Answerer, s: Session, next: string): Session {
    if s.open then Serve(answer, s, next) else s
  }

  lemma ReachesMore(answer: Answerer, before: string, s: Session, stream: string)
    requires Reaches(answer, before, s) && s.open && NextFrame(stream).Got?
    ensures var r := NextFrame(stream);
      |r.rest| <= |stream| && Reaches(answer, before + stream[..|stream| - |r.rest|], Handle(answer, s, r.payload))
  {
    hide Handle, NextFrame;
    var r := NextFrame(stream);
    FrameAlone(stream);
    var frame := stream[..|stream| - |r.rest|];
    forall next: string
      ensures Serve(answer, FRESH, before + frame + next) == Onward(answer, Handle(answer, s, r.payload), next)
    {
      assert before + frame + next == before + (frame + next);
      assert NextFrame(frame + next) == Got(r.payload, next);
    }
  }

  // A frame is taken off the stream whatever follows it.
  lemma FrameAlone(stream: string)
    requires NextFrame(stream).Got?
    ensures var r := NextFrame(stream); var frame := stream[..|stream| - |r.rest|];
      stream == frame + r.rest && forall next: string :: NextFrame(frame + next) == Got(r.payload, next)
  {
    hide NetToHost;
    var r := NextFrame(stream);
    var size := HEADER_SIZE + |r.payload|;
    var frame := stream[..size];
    assert |stream| - |r.rest| == size;
    forall next: string
      ensures NextFrame(frame + next) == Got(r.payload, next)
    {
      var all := frame + next;
      assert all[..HEADER_SIZE] == stream[..HEADER_SIZE];
      assert all[HEADER_SIZE..size] == r.payload && all[size..] == next;
    }
  }

  lemma ReachesEnd(answer: Answerer, before: string, s: Session, next: string)
    requires Reaches(answer, before, s)
    ensures Serve(answer, FRESH, before) == s.(open := false)
    ensures Serve(answer, FRESH, before + next) == Onward(answer, s, next)
  {
    hide NextFrame;
    assert before + "" == before;
    NothingIsNext();
  }

  lemma NothingIsNext()
    ensures NextFrame("").Closed?
  {
  }

  lemma ReachesStart(answer: Answerer)
    ensures Reaches(answer, "", FRESH)
  {
    hide Serve;
    forall next: string
      ensures Serve(answer, FRESH, "" + next) == Onward(answer, FRESH, next)
    {
      assert "" + next == next;
    }
  }

  // One frame of the whole stream more.
  lemma FrameServed(answer: Answerer, all: string, before: string, s: Session, stream: string)
    requires all == before + stream && Reaches(answer, before, s) && s.open && NextFrame(stream).Got?
    ensures var r := NextFrame(stream);
      var served, s' := before + stream[..|stream| - |r.rest|], Handle(answer, s, r.payload);
      && all == served + r.rest && Reaches(answer, served, s')
      && Serve(answer, FRESH, served) == s'.(open := false)
      && (!s'.open ==> Serve(answer, FRESH, all) == s')
  {
    hide NextFrame, Serve, Reaches, Handle;
    var r := NextFrame(stream);
    ReachesMore(answer, before, s, stream);
    FrameAlone(stream);
    var served := before + stream[..|stream| - |r.rest|];
    assert all == served + r.rest;
    ReachesEnd(answer, served, Handle(answer, s, r.payload), r.rest);
  }

  lemma ServeStops(answer: Answerer, s: Session, stream: string)
    requires !NextFrame(stream).Got?
    ensures Serve(answer, s, stream) == s.(open := false)
  {
  }

  // The exchange of one frame, its session being the one that Handle gives.
  method Exchange(socket: Socket, answer: Answerer, session: Session, payload: string) returns (session': Session, ok: bool)
    requires session.open && socket.outgoing == session.out
    modifies socket
    ensures socket.incoming == old(socket.incoming)
    ensures session' == Handle(answer, session, payload)
    ensures socket.outgoing <= session'.out && (ok ==> socket.outgoing == session'.out)
    ensures !session'.open ==> socket.outgoing == session'.out
    ensures old(socket.Intact()) ==> socket.Intact() && (ok || !session'.open)
  {
    hide Parse, Frame, JoinedAfter;
    ok := false;
    var req := ParseRequest(payload);
    session' := session.(requests := session.requests + [req]);
    var response := answer(session'.requests);
    if response.None? {
      session' := session'.(open := false);
      return;
    }
    var joined := UpdateJoined(session'.joined, req, response.value);
    session' := session'.(joined := joined);
    ok := WriteFrame(socket, response.value);
    if |response.value| <= MAX_PAYLOAD_SIZE {
      session' := session'.(out := session'.out + Frame(response.value));
    } else {
      session' := session'.(open := false);
    }
  }

  /**
   TcpServer::handle_client: serves the stream frame by frame, then removes the memberships the connection still owns.
   A call on the socket that throws acts as if the stream had ended after the frames served; the last answer may be cut.
   */
  method HandleClient(socket: Socket, answer: Answerer) returns (session: Session, removed: seq<Membership>, ghost served: string)
    requires socket.outgoing == ""
    modifies socket
    ensures served <= old(socket.incoming)
    ensures session == Serve(answer, FRESH, served) && removed == session.joined
    ensures socket.outgoing <= session.out
    ensures old(socket.Intact()) ==> session == Serve(answer, FRESH, old(socket.incoming)) && socket.outgoing == session.out
  {
    hide NextFrame, Serve, Reaches, Handle, Frame;
    session := FRESH;
    served := "";
    ReachesStart(answer);
    while session.open
      invariant old(socket.Intact()) ==> socket.Intact()
      invariant session.open ==>
        && old(socket.incoming) == served + socket.incoming && socket.outgoing == session.out
        && Reaches(answer, served, session)
      invariant !session.open ==>
        && served <= old(socket.incoming) && session == Serve(answer, FRESH, served) && socket.outgoing <= session.out
        && (old(socket.Intact()) ==> session == Serve(answer, FRESH, old(socket.incoming)) && socket.outgoing == session.out)
      decreases session.open, |socket.incoming|
    {
      ghost var before, stream := session, socket.incoming;
      var frame := ReadFrame(socket);
      if frame.None? || !frame.value.Got? {
        ReachesEnd(answer, served, before, stream);
        if frame.Some? {
          ServeStops(answer, before, stream);
        }
        session := session.(open := false);
      } else {
        ghost var all := old(socket.incoming);
        FrameServed(answer, all, served, before, stream);
        served := served + stream[..|stream| - |socket.incoming|];
        var ok;
        session, ok := Exchange(socket, answer, session, frame.value.payload);
        if !ok {
          session := session.(open := false);
        }
      }
    }
    removed := [];
    for i := 0 to |session.joined|
      invariant removed == session.joined[..i]
    {
      removed := removed + [session.joined[i]];
    }
  }

  // Shared by both servers.
  method UpdateJoined(joined: seq<Membership>, req: Request, response: string) returns (joined': seq<Membership>)
    ensures joined' == JoinedAfter(joined, req, response)
  {
    joined' := joined;
    if response == "OK" && req.kind == JOIN {
      joined' := joined' + [(req.groupId, req.consumerId)];
    } else if response == "OK" && req.kind == LEAVE {
      var m := (req.groupId, req.consumerId);
      var i := 0;
      while i < |joined|
        invariant i <= |joined| && m !in joined[..i]
      {
        if joined[i] == m {
          joined' := joined[..i] + joined[i + 1..];
          FirstAt(joined, m, i);
          return;
        }
        i := i + 1;
      }
      NotThere(joined, m);
    }
  }

  lemma {:induction false} FirstAt(joined: seq<Membership>, m: Membership, i: nat)
    requires i < |joined| && joined[i] == m && m !in joined[..i]
    ensures WithoutFirst(joined, m) == joined[..i] + joined[i + 1..]
  {
    if i > 0 {
      assert joined[..i] == [joined[0]] + joined[1..][..i - 1];
      assert joined[1..][..i - 1] == joined[1..i];
      assert joined[0] != m;
      FirstAt(joined[1..], m, i - 1);
    }
  }

  lemma {:induction false} NotThere(joined: seq<Membership>, m: Membership)
    requires m !in joined
    ensures WithoutFirst(joined, m) == joined
  {
    if joined != [] {
      assert joined == [joined[0]] + joined[1..];
      NotThere(joined[1..], m);
    }
  }

  // ----- What the list of a connection is -----

  // An answered request.
  datatype Exchanged = Exchanged(req: Request, response: string)

  function ListAfter(history: seq<Exchanged>): seq<Membership> {
    if history == [] then [] else
    var last := history[|history| - 1];
    JoinedAfter(ListAfter(history[..|history| - 1]), last.req, last.response)
  }

  // How often a membership was joined and not yet left again: an accepted LEAVE takes one off if there is one.
  function Outstanding(history: seq<Exchanged>, g: string, c: string): nat {
    if history == [] then 0 else
    var before, last := Outstanding(history[..|history| - 1], g, c), history[|history| - 1];
    if last.response != "OK" || last.req.groupId != g || last.req.consumerId != c then before
    else match last.req.kind
      case JOIN => before + 1
      case LEAVE => if before > 0 then before - 1 else 0
      case _ => before
  }

  lemma {:induction false} WithoutFirstCount(joined: seq<Membership>, gone: Membership, m: Membership)
    ensures multiset(WithoutFirst(joined, gone))[m]
         == multiset(joined)[m] - if m == gone && m in joined then 1 else 0
  {
    if joined != [] {
      assert joined == [joined[0]] + joined[1..];
      WithoutFirstCount(joined[1..], gone, m);
    }
  }

  /** After any exchanges of a connection its list holds each membership as often as it is outstanding. */
  lemma {:induction false} ListCounts(history: seq<Exchanged>, g: string, c: string)
    ensures multiset(ListAfter(history))[(g, c)] == Outstanding(history, g, c)
  {
    hide WithoutFirst;
    if history != [] {
      var front, last := history[..|history| - 1], history[|history| - 1];
      ListCounts(front, g, c);
      var list, m := ListAfter(front), (last.req.groupId, last.req.consumerId);
      WithoutFirstCount(list, m, (g, c));
      assert multiset(list + [m]) == multiset(list) + multiset{m};
      assert (g, c) in list <==> multiset(list)[(g, c)] > 0;
    }
  }

  // The exchanges that a session's requests led to; a request whose handling threw is none.
  function History(answer: Answerer, requests: seq<Request>): seq<Exchanged> {
    if requests == [] then [] else
    var front := History(answer, requests[..|requests| - 1]);
    match answer(requests)
    case None => front
    case Some(response) => front + [Exchanged(requests[|requests| - 1], response)]
  }

  lemma {:induction false} ServedList(answer: Answerer, s: Session, stream: string)
    requires s.joined == ListAfter(History(answer, s.requests))
    ensures var served := Serve(answer, s, stream); served.joined == ListAfter(History(answer, served.requests))
    decreases |stream|
  {
    hide NextFrame, Parse, Frame, JoinedAfter;
    var r := NextFrame(stream);
    if r.Got? {
      HandledList(answer, s, r.payload);
      var s' := Handle(answer, s, r.payload);
      if s'.open {
        ServedList(answer, s', r.rest);
      }
    }
  }

  lemma HandledList(answer: Answerer, s: Session, payload: string)
    requires s.joined == ListAfter(History(answer, s.requests))
    ensures var s' := Handle(answer, s, payload); s'.joined == ListAfter(History(answer, s'.requests))
  {
    hide Parse, Frame, JoinedAfter;
    var req := Parse(payload);
    assert (s.requests + [req])[..|s.requests|] == s.requests;
    var front := History(answer, s.requests);
    match answer(s.requests + [req])
    case None =>
    case Some(response) => assert (front + [Exchanged(req, response)])[..|front|] == front;
  }

  /** Over any byte stream: what a connection owns in the end is what its accepted JOINs added and its accepted LEAVEs took off. */
  lemma OwnedInTheEnd(answer: Answerer, stream: string, g: string, c: string)
    ensures var served := Serve(answer, FRESH, stream);
      multiset(served.joined)[(g, c)] == Outstanding(History(answer, served.requests), g, c)
  {
    hide Serve, ListAfter, Outstanding;
    FreshList(answer);
    ServedList(answer, FRESH, stream);
    ListCounts(History(answer, Serve(answer, FRESH, stream).requests), g, c);
  }

  lemma FreshList(answer: Answerer)
    ensures FRESH.joined == ListAfter(History(answer, FRESH.requests))
  {
  }

  // ----- What a stream of frames is served -----

  function FramesOf(payloads: seq<string>): string {
    if payloads == [] then "" else Frame(payloads[0]) + FramesOf(payloads[1..])
  }

  function ParsedAll(payloads: seq<string>): (requests: seq<Request>)
    ensures |requests| == |payloads|
  {
    seq(|payloads|, i requires 0 <= i < |payloads| => Parse(payloads[i]))
  }

  // Each request, handed over after those before it, is answered, and the answer fits a frame.
  predicate AllAnswered(answer: Answerer, before: seq<Request>, requests: seq<Request>, responses: seq<string>)
    requires |requests| == |responses|
    decreases |requests|
  {
    requests == [] || (
      && answer(before + [requests[0]]) == Some(responses[0]) && |responses[0]| <= 65536
      && AllAnswered(answer, before + [requests[0]], requests[1..], responses[1..]))
  }

  /** A stream of frames that are all answered is answered frame by frame, in order, whatever the stream ends with. */
  lemma {:induction false} ServesEveryFrame(answer: Answerer, s: Session, payloads: seq<string>, responses: seq<string>, rest: string)
    requires s.open && (forall p | p in payloads :: |p| <= 65536) && !NextFrame(rest).Got?
    requires |responses| == |payloads| && AllAnswered(answer, s.requests, ParsedAll(payloads), responses)
    ensures var served := Serve(answer, s, FramesOf(payloads) + rest);
      served.requests == s.requests + ParsedAll(payloads) && served.out == s.out + FramesOf(responses) && !served.open
    decreases |payloads|
  {
    hide NextFrame, Parse, JoinedAfter, Frame, Serve;
    if payloads == [] {
      ServeStops(answer, s, rest);
      assert FramesOf(payloads) + rest == rest;
      assert s.requests + ParsedAll(payloads) == s.requests && s.out + FramesOf(responses) == s.out;
    } else {
      var tail := FramesOf(payloads[1..]) + rest;
      assert FramesOf(payloads) + rest == Frame(payloads[0]) + tail;
      ServeOne(answer, s, payloads[0], tail);
      var req := Parse(payloads[0]);
      assert ParsedAll(payloads)[1..] == ParsedAll(payloads[1..]);
      ServesEveryFrame(answer, Handle(answer, s, payloads[0]), payloads[1..], responses[1..], rest);
      assert s.out + Frame(responses[0]) + FramesOf(responses[1..]) == s.out + FramesOf(responses);
      assert s.requests + [req] + ParsedAll(payloads[1..]) == s.requests + ParsedAll(payloads);
    }
  }

  lemma ServeOne(answer: Answerer, s: Session, payload: string, tail: string)
    requires |payload| <= 65536
    ensures var s' := Handle(answer, s, payload);
      Serve(answer, s, Frame(payload) + tail) == if s'.open then Serve(answer, s', tail) else s'
  {
    hide NextFrame, Handle, Frame;
    FrameIsNext(payload, tail);
  }

  /** The first frame that is not answered, or whose answer does not fit, ends the connection; nothing behind it is looked at. */
  lemma {:induction false} ServesUpToFailure(answer: Answerer, s: Session, payloads: seq<string>, responses: seq<string>, bad: string, behind: string)
    requires s.open && |bad| <= 65536 && (forall p | p in payloads :: |p| <= 65536)
    requires |responses| == |payloads| && AllAnswered(answer, s.requests, ParsedAll(payloads), responses)
    requires match answer(s.requests + ParsedAll(payloads) + [Parse(bad)]) case None => true case Some(response) => |response| > 65536
    ensures var served := Serve(answer, s, FramesOf(payloads) + (Frame(bad) + behind));
      served.requests == s.requests + ParsedAll(payloads) + [Parse(bad)] && served.out == s.out + FramesOf(responses) && !served.open
    decreases |payloads|
  {
    hide NextFrame, Parse, JoinedAfter, Frame, Serve;
    var rest := Frame(bad) + behind;
    if payloads == [] {
      ServeOne(answer, s, bad, behind);
      assert FramesOf(payloads) + rest == rest;
      assert s.requests + ParsedAll(payloads) == s.requests && s.out + FramesOf(responses) == s.out;
    } else {
      var tail := FramesOf(payloads[1..]) + rest;
      assert FramesOf(payloads) + rest == Frame(payloads[0]) + tail;
      ServeOne(answer, s, payloads[0], tail);
      var req := Parse(payloads[0]);
      assert ParsedAll(payloads)[1..] == ParsedAll(payloads[1..]);
      assert s.requests + [req] + ParsedAll(payloads[1..]) == s.requests + ParsedAll(payloads);
      ServesUpToFailure(answer, Handle(answer, s, payloads[0]), payloads[1..], responses[1..], bad, behind);
      assert s.out + Frame(responses[0]) + FramesOf(responses[1..]) == s.out + FramesOf(responses);
    }
  }

  /** Frames carry up to 65536 bytes, their length in front, most significant byte first; a larger length is refused. */
  lemma FrameIsNext(payload: string, rest: string)
    requires |payload| < TWO_TO_32
    ensures NextFrame(Frame(payload) + rest) == if |payload| <= 65536 then Got(payload, rest) else Oversized
    ensures U8(Frame(payload)[0]) * 0x1000000 + U8(Frame(payload)[1]) * 0x10000 + U8(Frame(payload)[2]) * 0x100 + U8(Frame(payload)[3]) == |payload|
  {
    NetRoundTrip(|payload|);
    NetworkOrder(|payload|);
    hide HostToNet, NetToHost, U8;
    var s := Frame(payload) + rest;
    assert s[..HEADER_SIZE] == HostToNet(|payload|);
    assert s[HEADER_SIZE..][..|payload|] == payload;
    if |payload| <= 65536 {
      assert s[HEADER_SIZE..HEADER_SIZE + |payload|] == payload && s[HEADER_SIZE + |payload|..] == rest;
    }
  }
}
