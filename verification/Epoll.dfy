/**
 One client of EpollServer: bytes arrive in whatever pieces recv() returns, frames are cut out of a
 buffer, answers are queued and leave when the socket takes them. Its handling of a connection is shown
 to be that of the blocking loop in Framing, however the stream is split.
 */
module Epoll {
  import opened Types
  import opened Bytes
  import opened Protocol
  import opened Framing

  datatype Recv = Data(bytes: string) | Eof | Interrupted | WouldBlock | RecvError

  datatype Send = Took(count: nat) | SendInterrupted | SendWouldBlock | SendError

  // What the read side of a connection amounts to: the session so far and the bytes of an unfinished frame.
  datatype Conn = Conn(session: Session, buffer: string)

  // extract_complete_frames on a buffer; the session is closed when the code returns false.
  function Extract(answer: Answerer, c: Conn): Conn
    decreases |c.buffer|
  {
    if |c.buffer| < HEADER_SIZE then c else
    var length := NetToHost(c.buffer[..HEADER_SIZE]);
    if length > MAX_PAYLOAD_SIZE then c.(session := c.session.(open := false))
    else if |c.buffer| < HEADER_SIZE + length then c
    else
      var s := Handle(answer, c.session, c.buffer[HEADER_SIZE..HEADER_SIZE + length]);
      if s.open then Extract(answer, Conn(s, c.buffer[HEADER_SIZE + length..])) else Conn(s, c.buffer)
  }

  // What one round of the loop does.
  lemma ExtractFirst(answer: Answerer, c: Conn)
    ensures |c.buffer| < HEADER_SIZE ==> Extract(answer, c) == c
    ensures |c.buffer| >= HEADER_SIZE ==>
      var length := NetToHost(c.buffer[..HEADER_SIZE]);
      Extract(answer, c) ==
        if length > MAX_PAYLOAD_SIZE then c.(session := c.session.(open := false))
        else if |c.buffer| < HEADER_SIZE + length then c
        else
          var s := Handle(answer, c.session, c.buffer[HEADER_SIZE..HEADER_SIZE + length]);
          if s.open then Extract(answer, Conn(s, c.buffer[HEADER_SIZE + length..])) else Conn(s, c.buffer)
  {
    hide Handle, NetToHost;
  }

  lemma HandleFrame(answer: Answerer, s: Session, payload: string)
    requires s.open
    ensures var req := Parse(payload); var requests := s.requests + [req];
      Handle(answer, s, payload) ==
        match answer(requests)
        case None => s.(requests := requests, open := false)
        case Some(response) =>
          var joined := JoinedAfter(s.joined, req, response);
          if |response| > MAX_PAYLOAD_SIZE then s.(requests := requests, joined := joined, open := false)
          else s.(requests := requests, joined := joined, out := s.out + Frame(response))
  {
    hide Parse, Frame, JoinedAfter;
  }

  // The results of recv() over the life of a connection; WouldBlock hands back to epoll_wait.
  function Receive(answer: Answerer, c: Conn, recvs: seq<Recv>): Conn
    decreases |recvs|
  {
    if recvs == [] || !c.session.open then c
    else match recvs[0]
      case Data(bytes) => Receive(answer, Extract(answer, c.(buffer := c.buffer + bytes)), recvs[1..])
      case Eof => c.(session := c.session.(open := false))
      case RecvError => c.(session := c.session.(open := false))
      case _ => Receive(answer, c, recvs[1..])
  }

  // What the send() results of one event take of the pending bytes, and whether the client survives them.
  datatype Flow = Flow(taken: nat, open: bool)

  function Flowed(sends: seq<Send>, pending: nat): (f: Flow)
    ensures f.taken <= pending
    decreases |sends|
  {
    if pending == 0 || sends == [] then Flow(0, true)
    else match sends[0]
      case Took(n) =>
        if n == 0 then Flow(0, false) else
        var count := if n <= pending then n else pending;
        var rest := Flowed(sends[1..], pending - count);
        Flow(count + rest.taken, rest.open)
      case SendInterrupted => Flowed(sends[1..], pending)
      case SendWouldBlock => Flow(0, true)
      case SendError => Flow(0, false)
  }

  // The recv() results that one EPOLLIN event gets to see.
  function UpToBlock(recvs: seq<Recv>): seq<Recv>
    decreases |recvs|
  {
    if recvs == [] || recvs[0].WouldBlock? then [] else [recvs[0]] + UpToBlock(recvs[1..])
  }

  // ----- The code -----

  class ClientState {
    var readBuffer: string
    var writeBuffer: string
    var writeOffset: nat
    var joinedGroups: seq<Membership>
    var requests: seq<Request>  // handed to the broker
    ghost var sent: string      // taken by the socket
    ghost var queued: string    // every frame ever queued
    var wantsOut: bool          // EPOLLOUT is armed
    var open: bool
    var removed: seq<Membership>  // taken out of the broker when the connection closed

    constructor ()
      ensures Valid() && open && Connection() == Conn(FRESH, "") && sent == ""
    {
      readBuffer, writeBuffer, writeOffset, joinedGroups, requests := "", "", 0, [], [];
      sent, queued, wantsOut, open, removed := "", "", false, true, [];
    }

    ghost function Connection(): Conn
      reads this
    {
      Conn(Session(requests, joinedGroups, queued, open), readBuffer)
    }

    // Sent bytes and the unsent suffix are all that was queued, and EPOLLOUT is armed exactly while there is a suffix.
    ghost predicate Valid()
      reads this
    {
      && Conserved()
      && (open ==> (wantsOut <==> writeOffset < |writeBuffer|))
      && (open ==> removed == []) && (!open ==> removed == joinedGroups)
    }

    function Pending(): string
      requires writeOffset <= |writeBuffer|
      reads this
    {
      writeBuffer[writeOffset..]
    }

    ghost predicate Conserved()
      reads this
    {
      writeOffset <= |writeBuffer| && sent + writeBuffer[writeOffset..] == queued
    }

    method QueueResponse(response: string)
      requires Valid() && open && |response| <= MAX_PAYLOAD_SIZE
      modifies this`writeBuffer, this`queued, this`wantsOut
      ensures Valid() && wantsOut && queued == old(queued) + Frame(response)
    {
      hide HostToNet;
      ghost var suffix := writeBuffer[writeOffset..];
      writeBuffer := writeBuffer + HostToNet(|response|);
      writeBuffer := writeBuffer + response;
      queued := queued + Frame(response);
      assert writeBuffer[writeOffset..] == suffix + Frame(response);
      wantsOut := true;
    }

    // The socket took count bytes.
    method Advance(count: nat)
      requires Conserved() && count <= |Pending()|
      modifies this`writeOffset, this`sent
      ensures Conserved() && Pending() == old(Pending())[count..]
      ensures sent == old(sent) + old(Pending())[..count]
      ensures writeOffset == old(writeOffset) + count
    {
      ghost var pending := Pending();
      assert pending == pending[..count] + pending[count..];
      assert writeBuffer[writeOffset + count..] == pending[count..];
      sent := sent + pending[..count];
      writeOffset := writeOffset + count;
    }

    /** Sends exactly what the results take, in order, and keeps the rest; no byte is lost, repeated or reordered. */
    method WriteToClient(sends: seq<Send>)
      requires Valid() && open
      modifies this`writeBuffer, this`writeOffset, this`sent, this`wantsOut, this`open, this`removed
      ensures Valid()
      ensures var pending := old(Pending()); var flow := Flowed(sends, |pending|);
        && sent == old(sent) + pending[..flow.taken]
        && Pending() == pending[flow.taken..]
        && open == flow.open
    {
      hide Flowed;
      ghost var pending := Pending();
      ghost var taken: nat := 0;
      var i := 0;
      assert sends[0..] == sends;
      while writeOffset < |writeBuffer|
        invariant Conserved() && open && removed == [] && i <= |sends| && taken <= |pending|
        invariant writeOffset < |writeBuffer| ==> wantsOut
        invariant sent == old(sent) + pending[..taken] && Pending() == pending[taken..]
        invariant Flowed(sends, |pending|) == FlowFrom(sends, i, taken, |pending|)
        decreases |sends| - i
      {
        FlowedOne(sends, i, taken, |pending|);
        if i == |sends| {
          return;  // not called again until the socket is writable
        }
        var result := sends[i];
        i := i + 1;
        if result == Took(0) || result.SendError? {
          Close();
          return;
        }
        if result.SendWouldBlock? {
          return;
        }
        if result.Took? {
          var count := if result.count <= |writeBuffer| - writeOffset then result.count else |writeBuffer| - writeOffset;
          TakenFurther(pending, taken, count);
          Advance(count);
          taken := taken + count;
        }
      }
      FlowedAll(sends[i..]);
      writeBuffer, writeOffset := "", 0;
      wantsOut := false;
    }

    method ExtractCompleteFrames(answer: Answerer) returns (ok: bool)
      requires Valid() && open
      modifies this`readBuffer, this`writeBuffer, this`joinedGroups, this`requests, this`queued, this`wantsOut
      ensures Valid() && ok == Extract(answer, old(Connection())).session.open
      ensures Connection().(session := Connection().session.(open := ok)) == Extract(answer, old(Connection()))
      ensures ok ==> |readBuffer| < HEADER_SIZE + MAX_PAYLOAD_SIZE
    {
      hide Parse, Frame, NetToHost, Extract, Handle;
      while |readBuffer| >= HEADER_SIZE
        invariant Valid() && open
        invariant Extract(answer, Connection()) == Extract(answer, old(Connection()))
        decreases |readBuffer|
      {
        ghost var before := Connection();
        ExtractFirst(answer, before);
        var payloadLength := NetToHost(readBuffer[..HEADER_SIZE]);
        if payloadLength > MAX_PAYLOAD_SIZE {
          return false;
        }
        var frameSize := HEADER_SIZE + payloadLength;
        if |readBuffer| < frameSize {
          return true;
        }
        var payload := readBuffer[HEADER_SIZE..HEADER_SIZE + payloadLength];
        HandleFrame(answer, before.session, payload);
        var req := ParseRequest(payload);
        requests := requests + [req];
        var response := answer(requests);
        if response.None? {
          return false;
        }
        joinedGroups := UpdateJoined(joinedGroups, req, response.value);
        if |response.value| > MAX_PAYLOAD_SIZE {
          return false;
        }
        QueueResponse(response.value);
        readBuffer := readBuffer[frameSize..];
      }
      ExtractFirst(answer, Connection());
      ok := true;
    }

    /** One EPOLLIN event: reads until recv would block, the peer is done, or a frame is refused. Nothing is sent. */
    method ReadFromClient(answer: Answerer, recvs: seq<Recv>)
      requires Valid() && open
      modifies this
      ensures Valid() && sent == old(sent)
      ensures Connection() == Receive(answer, old(Connection()), UpToBlock(recvs))
    {
      hide Receive, UpToBlock, Extract;
      var used := 0;
      ghost var start := Connection();
      assert recvs[0..] == recvs;
      while used < |recvs|
        invariant used <= |recvs| && Valid() && open && sent == old(sent)
        invariant Receive(answer, Connection(), UpToBlock(recvs[used..])) == Receive(answer, start, UpToBlock(recvs))
      {
        var result := recvs[used];
        ReceiveOne(answer, Connection(), recvs, used);
        used := used + 1;
        match result {
          case Data(bytes) =>
            readBuffer := readBuffer + bytes;
            var ok := ExtractCompleteFrames(answer);
            if !ok {
              Close();
              ClosedIgnores(answer, Connection(), UpToBlock(recvs[used..]));
              return;
            }
          case Eof =>
            Close();
            return;
          case Interrupted =>
          case WouldBlock => return;
          case RecvError =>
            Close();
            return;
        }
      }
      assert recvs[used..] == [];
      ReceiveNothing(answer, Connection());
    }

    // close_client: the broker forgets every membership the connection still owns.
    method Close()
      requires Conserved() && removed == []
      modifies this`open, this`removed
      ensures !open && removed == joinedGroups && Valid()
    {
      for i := 0 to |joinedGroups|
        invariant removed == joinedGroups[..i]
      {
        removed := removed + [joinedGroups[i]];
      }
      open := false;
    }
  }

  lemma {:induction false} ReceiveConcat(answer: Answerer, c: Conn, recvs: seq<Recv>, more: seq<Recv>)
    ensures Receive(answer, c, recvs + more) == Receive(answer, Receive(answer, c, recvs), more)
    decreases |recvs|
  {
    hide Extract;
    if recvs == [] {
      assert recvs + more == more;
    } else {
      assert (recvs + more)[1..] == recvs[1..] + more;
      match recvs[0]
      case Data(bytes) => ReceiveConcat(answer, Extract(answer, c.(buffer := c.buffer + bytes)), recvs[1..], more);
      case Eof =>
      case RecvError =>
      case _ => ReceiveConcat(answer, c, recvs[1..], more);
    }
  }

  // ----- Refinement -----

  // The bytes that a list of recv results carries.
  function Carried(recvs: seq<Recv>): string
    decreases |recvs|
  {
    if recvs == [] then "" else (if recvs[0].Data? then recvs[0].bytes else "") + Carried(recvs[1..])
  }

  /** Extracting now and again after more bytes came is extracting once from all of them. */
  lemma {:induction false} ExtractInPieces(answer: Answerer, c: Conn, more: string)
    requires c.session.open
    ensures var e := Extract(answer, c); var all := Extract(answer, c.(buffer := c.buffer + more));
      if e.session.open then all == Extract(answer, e.(buffer := e.buffer + more)) else all.session == e.session
    decreases |c.buffer|
  {
    hide Handle, NetToHost;
    if |c.buffer| >= HEADER_SIZE {
      var all := c.buffer + more;
      assert all[..HEADER_SIZE] == c.buffer[..HEADER_SIZE];
      var length := NetToHost(c.buffer[..HEADER_SIZE]);
      if length <= MAX_PAYLOAD_SIZE && |c.buffer| >= HEADER_SIZE + length {
        var payload, rest := c.buffer[HEADER_SIZE..HEADER_SIZE + length], c.buffer[HEADER_SIZE + length..];
        assert all[HEADER_SIZE..HEADER_SIZE + length] == payload && all[HEADER_SIZE + length..] == rest + more;
        var s := Handle(answer, c.session, payload);
        if s.open {
          ExtractInPieces(answer, Conn(s, rest), more);
        }
      }
    }
  }

  /** What stays in the read buffer is less than one maximal frame. */
  lemma {:induction false} ReadBufferBounded(answer: Answerer, c: Conn)
    requires Extract(answer, c).session.open
    ensures |Extract(answer, c).buffer| < HEADER_SIZE + MAX_PAYLOAD_SIZE
    decreases |c.buffer|
  {
    hide Handle, NetToHost;
    if |c.buffer| >= HEADER_SIZE {
      var length := NetToHost(c.buffer[..HEADER_SIZE]);
      if |c.buffer| >= HEADER_SIZE + length {
        var s := Handle(answer, c.session, c.buffer[HEADER_SIZE..HEADER_SIZE + length]);
        ReadBufferBounded(answer, Conn(s, c.buffer[HEADER_SIZE + length..]));
      }
    }
  }

  // Nothing but data and the pauses between it.
  ghost predicate Flowing(recvs: seq<Recv>) {
    forall i | 0 <= i < |recvs| :: !recvs[i].Eof? && !recvs[i].RecvError?
  }

  lemma {:induction false} ReceiveIsExtract(answer: Answerer, c: Conn, recvs: seq<Recv>)
    requires c.session.open && Flowing(recvs) && Extract(answer, c) == c
    ensures var all := Extract(answer, c.(buffer := c.buffer + Carried(recvs)));
      var r := Receive(answer, c, recvs);
      r.session == all.session && (r.session.open ==> r == all)
    decreases |recvs|
  {
    hide Extract;
    if recvs == [] {
      assert c.buffer + "" == c.buffer;
    } else if recvs[0].Data? {
      var bytes, rest := recvs[0].bytes, Carried(recvs[1..]);
      var grown := c.(buffer := c.buffer + bytes);
      var next := Extract(answer, grown);
      ExtractInPieces(answer, grown, rest);
      assert c.buffer + Carried(recvs) == grown.buffer + rest;
      if next.session.open {
        ExtractTwice(answer, grown);
        ReceiveIsExtract(answer, next, recvs[1..]);
      }
    } else {
      assert Carried(recvs) == Carried(recvs[1..]);
      ReceiveIsExtract(answer, c, recvs[1..]);
    }
  }

  lemma ExtractTwice(answer: Answerer, c: Conn)
    requires c.session.open && Extract(answer, c).session.open
    ensures Extract(answer, Extract(answer, c)) == Extract(answer, c)
  {
    ExtractInPieces(answer, c, "");
    assert c.buffer + "" == c.buffer && Extract(answer, c).buffer + "" == Extract(answer, c).buffer;
  }

  lemma {:induction false} ExtractIsServe(answer: Answerer, c: Conn)
    requires c.session.open
    ensures Extract(answer, c).session.(open := false) == Serve(answer, c.session, c.buffer).(open := false)
    ensures !Serve(answer, c.session, c.buffer).open
    decreases |c.buffer|
  {
    hide Handle, NetToHost;
    if |c.buffer| >= HEADER_SIZE {
      var length := NetToHost(c.buffer[..HEADER_SIZE]);
      if length <= MAX_PAYLOAD_SIZE && |c.buffer| >= HEADER_SIZE + length {
        var s := Handle(answer, c.session, c.buffer[HEADER_SIZE..HEADER_SIZE + length]);
        if s.open {
          ExtractIsServe(answer, Conn(s, c.buffer[HEADER_SIZE + length..]));
        }
      }
    }
  }

  /**
   The two servers agree: for every byte stream, however recv cuts and pauses it, the epoll client hands over the same
   requests, owns the same memberships, queues the same bytes and stops at the same frame as the blocking loop.
   */
  lemma ServersAgree(answer: Answerer, recvs: seq<Recv>)
    requires Flowing(recvs)
    ensures Receive(answer, Conn(FRESH, ""), recvs + [Eof]).session == Serve(answer, FRESH, Carried(recvs))
    ensures !Serve(answer, FRESH, Carried(recvs)).open
  {
    hide Serve, Receive, Extract;
    var c := Conn(FRESH, "");
    assert Extract(answer, c) == c by { ExtractNothing(answer, c); }
    ReceiveIsExtract(answer, c, recvs);
    assert "" + Carried(recvs) == Carried(recvs);
    ExtractIsServe(answer, Conn(FRESH, Carried(recvs)));
    EofCloses(answer, c, recvs);
  }

  lemma ExtractNothing(answer: Answerer, c: Conn)
    requires c.buffer == ""
    ensures Extract(answer, c) == c
  {
  }

  lemma EofCloses(answer: Answerer, c: Conn, recvs: seq<Recv>)
    ensures Receive(answer, c, recvs + [Eof]).session == Receive(answer, c, recvs).session.(open := false)
  {
    ReceiveConcat(answer, c, recvs, [Eof]);
  }

  ghost predicate Sending(sends: seq<Send>) {
    forall i | 0 <= i < |sends| :: !sends[i].SendError? && sends[i] != Took(0)
  }

  // ----- One step of the loops -----

  // The flow of all results, when the first i of them have taken some bytes and stopped nothing.
  function FlowFrom(sends: seq<Send>, i: nat, taken: nat, pending: nat): Flow
    requires i <= |sends| && taken <= pending
  {
    var rest := Flowed(sends[i..], pending - taken);
    Flow(taken + rest.taken, rest.open)
  }

  lemma FlowedOne(sends: seq<Send>, i: nat, taken: nat, pending: nat)
    requires i <= |sends| && taken < pending
    ensures i == |sends| ==> FlowFrom(sends, i, taken, pending) == Flow(taken, true)
    ensures i < |sends| ==>
      FlowFrom(sends, i, taken, pending) ==
        match sends[i]
        case Took(n) =>
          if n == 0 then Flow(taken, false)
          else FlowFrom(sends, i + 1, if n <= pending - taken then taken + n else pending, pending)
        case SendInterrupted => FlowFrom(sends, i + 1, taken, pending)
        case SendWouldBlock => Flow(taken, true)
        case SendError => Flow(taken, false)
  {
    if i < |sends| {
      assert sends[i..][1..] == sends[i + 1..];
    }
  }

  lemma FlowedAll(sends: seq<Send>)
    ensures Flowed(sends, 0) == Flow(0, true)
  {
  }

  lemma TakenFurther(pending: string, taken: nat, count: nat)
    requires taken + count <= |pending|
    ensures pending[taken..][count..] == pending[taken + count..]
    ensures forall sent: string :: sent + pending[..taken] + pending[taken..][..count] == sent + pending[..taken + count]
  {
    assert pending[..taken] + pending[taken..][..count] == pending[..taken + count];
    forall sent: string
      ensures sent + pending[..taken] + pending[taken..][..count] == sent + pending[..taken + count]
    {
      assert sent + pending[..taken] + pending[taken..][..count] == sent + (pending[..taken] + pending[taken..][..count]);
    }
  }

  lemma ReceiveOne(answer: Answerer, c: Conn, recvs: seq<Recv>, used: nat)
    requires c.session.open && used < |recvs|
    ensures Receive(answer, c, UpToBlock(recvs[used..])) ==
      match recvs[used]
      case Data(bytes) => Receive(answer, Extract(answer, c.(buffer := c.buffer + bytes)), UpToBlock(recvs[used + 1..]))
      case Eof => c.(session := c.session.(open := false))
      case RecvError => c.(session := c.session.(open := false))
      case Interrupted => Receive(answer, c, UpToBlock(recvs[used + 1..]))
      case WouldBlock => c
  {
    hide Extract;
    assert recvs[used..][1..] == recvs[used + 1..];
    var rest := UpToBlock(recvs[used + 1..]);
    assert ([recvs[used]] + rest)[1..] == rest;
  }

  lemma ReceiveNothing(answer: Answerer, c: Conn)
    ensures Receive(answer, c, []) == c && UpToBlock([]) == []
  {
  }

  // ----- A connection from its first event to its last -----

  // A readiness event: EPOLLIN or EPOLLOUT, and how the calls made for it end.
  datatype Event = Readable(recvs: seq<Recv>) | Writable(sends: seq<Send>)

  // The read side of a connection, and the bytes its peer was sent.
  datatype Life = Life(conn: Conn, sent: string)

  function Unsent(l: Life): string {
    if |l.sent| <= |l.conn.session.out| then l.conn.session.out[|l.sent|..] else ""
  }

  function Happened(answer: Answerer, l: Life, e: Event): Life {
    if !l.conn.session.open then l
    else match e
      case Readable(recvs) => Life(Receive(answer, l.conn, UpToBlock(recvs)), l.sent)
      case Writable(sends) =>
        var flow := Flowed(sends, |Unsent(l)|);
        Life(l.conn.(session := l.conn.session.(open := flow.open)), l.sent + Unsent(l)[..flow.taken])
  }

  function Lived(answer: Answerer, events: seq<Event>): Life {
    if events == [] then Life(Conn(FRESH, ""), "") else Happened(answer, Lived(answer, events[..|events| - 1]), events[|events| - 1])
  }

  /** The event loop for one client: whatever the events, its requests, memberships, queue and sent bytes are those of Lived. */
  method RunConnection(answer: Answerer, events: seq<Event>) returns (client: ClientState)
    ensures fresh(client) && client.Valid()
    ensures Life(client.Connection(), client.sent) == Lived(answer, events)
    ensures !client.open ==> client.removed == client.joinedGroups
  {
    hide Receive, Flowed, UpToBlock;
    client := new ClientState();
    for i := 0 to |events|
      invariant fresh(client) && client.Valid()
      invariant Life(client.Connection(), client.sent) == Lived(answer, events[..i])
    {
      assert events[..i + 1][..i] == events[..i];
      if client.open {
        assert client.queued[|client.sent|..] == client.Pending();
        match events[i] {
          case Readable(recvs) => client.ReadFromClient(answer, recvs);
          case Writable(sends) => client.WriteToClient(sends);
        }
      }
    }
    assert events[..|events|] == events;
  }

  // All the recv() results that the events carry.
  function Arrived(events: seq<Event>): seq<Recv> {
    if events == [] then [] else
    var last := events[|events| - 1];
    Arrived(events[..|events| - 1]) + if last.Readable? then UpToBlock(last.recvs) else []
  }

  ghost predicate Writing(events: seq<Event>) {
    forall e | e in events && e.Writable? :: Sending(e.sends)
  }

  lemma {:induction false} SendingSurvives(sends: seq<Send>, pending: nat)
    requires Sending(sends)
    ensures Flowed(sends, pending).open
    decreases |sends|
  {
    if pending > 0 && sends != [] {
      assert sends[0] != Took(0);
      if sends[0].Took? {
        SendingSurvives(sends[1..], pending - if sends[0].count <= pending then sends[0].count else pending);
      } else {
        SendingSurvives(sends[1..], pending);
      }
    }
  }

  /** While sends succeed, what was sent is a prefix of what was queued, and writing does not disturb reading. */
  lemma {:induction false} LivedIsReceive(answer: Answerer, events: seq<Event>)
    requires Writing(events)
    ensures Lived(answer, events).conn == Receive(answer, Conn(FRESH, ""), Arrived(events))
    ensures Lived(answer, events).sent <= Lived(answer, events).conn.session.out
  {
    hide Receive, Flowed, UpToBlock;
    if events == [] {
      ReceiveNothing(answer, Conn(FRESH, ""));
    } else {
      var front, last := events[..|events| - 1], events[|events| - 1];
      LivedIsReceive(answer, front);
      var l := Lived(answer, front);
      if last.Readable? {
        ReceiveConcat(answer, Conn(FRESH, ""), Arrived(front), UpToBlock(last.recvs));
        ClosedIgnores(answer, l.conn, UpToBlock(last.recvs));
        OutGrows(answer, l.conn, UpToBlock(last.recvs));
      } else {
        assert last in events;
        SendingSurvives(last.sends, |Unsent(l)|);
        assert Arrived(front) + [] == Arrived(front);
        assert l.sent + Unsent(l) == l.conn.session.out;
      }
    }
  }

  lemma ClosedIgnores(answer: Answerer, c: Conn, recvs: seq<Recv>)
    ensures !c.session.open ==> Receive(answer, c, recvs) == c
  {
  }

  lemma {:induction false} OutGrows(answer: Answerer, c: Conn, recvs: seq<Recv>)
    ensures c.session.out <= Receive(answer, c, recvs).session.out
    decreases |recvs|
  {
    hide Extract;
    if recvs != [] && c.session.open {
      if recvs[0].Data? {
        ExtractOutGrows(answer, c.(buffer := c.buffer + recvs[0].bytes));
        OutGrows(answer, Extract(answer, c.(buffer := c.buffer + recvs[0].bytes)), recvs[1..]);
      } else {
        OutGrows(answer, c, recvs[1..]);
      }
    }
  }

  lemma {:induction false} ExtractOutGrows(answer: Answerer, c: Conn)
    ensures c.session.out <= Extract(answer, c).session.out
    decreases |c.buffer|
  {
    hide Parse, Frame, NetToHost, JoinedAfter;
    if |c.buffer| >= HEADER_SIZE {
      var length := NetToHost(c.buffer[..HEADER_SIZE]);
      if length <= MAX_PAYLOAD_SIZE && |c.buffer| >= HEADER_SIZE + length {
        var s := Handle(answer, c.session, c.buffer[HEADER_SIZE..HEADER_SIZE + length]);
        if s.open {
          ExtractOutGrows(answer, Conn(s, c.buffer[HEADER_SIZE + length..]));
        }
      }
    }
  }

  // Results after which the send loop goes on.
  predicate GoesOn(r: Send) {
    r.SendInterrupted? || (r.Took? && r.count > 0)
  }

  function Sum(sends: seq<Send>): nat {
    if sends == [] then 0 else (if sends[0].Took? then sends[0].count else 0) + Sum(sends[1..])
  }

  /**
   Exactly what a send event does: results that go on take the pending bytes as far as they add up. Then a full socket ends the event,
   and an error or an empty send ends the client, unless everything was sent before.
   */
  lemma {:induction false} FlowExactly(sends: seq<Send>, stop: seq<Send>, pending: nat)
    requires forall r | r in sends :: GoesOn(r)
    requires stop == [] || !GoesOn(stop[0])
    ensures Flowed(sends + stop, pending) ==
      if Sum(sends) >= pending then Flow(pending, true) else Flow(Sum(sends), stop == [] || stop[0].SendWouldBlock?)
    decreases |sends|
  {
    if sends == [] {
      assert sends + stop == stop;
    } else {
      assert sends[0] in sends;
      assert (sends + stop)[1..] == sends[1..] + stop;
      var n := if sends[0].Took? then sends[0].count else 0;
      if pending > 0 {
        FlowExactly(sends[1..], stop, if n <= pending then pending - n else 0);
      }
    }
  }

  /** A failing recv ends the client as it is; interruptions and pauses change nothing. */
  lemma ReadFailures(answer: Answerer, c: Conn, recvs: seq<Recv>, more: seq<Recv>)
    ensures Receive(answer, c, recvs + [RecvError] + more) == Receive(answer, c, recvs).(session := Receive(answer, c, recvs).session.(open := false))
    ensures Receive(answer, c, recvs + [Interrupted] + more) == Receive(answer, c, recvs + more)
    ensures Receive(answer, c, recvs + [WouldBlock] + more) == Receive(answer, c, recvs + more)
  {
    hide Extract;
    assert recvs + [RecvError] + more == recvs + ([RecvError] + more);
    assert recvs + [Interrupted] + more == recvs + ([Interrupted] + more);
    assert recvs + [WouldBlock] + more == recvs + ([WouldBlock] + more);
    ReceiveConcat(answer, c, recvs, [RecvError] + more);
    ReceiveConcat(answer, c, recvs, [Interrupted] + more);
    ReceiveConcat(answer, c, recvs, [WouldBlock] + more);
    ReceiveConcat(answer, c, recvs, more);
    assert ([Interrupted] + more)[1..] == more && ([WouldBlock] + more)[1..] == more;
  }

  ghost predicate Steady(recvs: seq<Recv>) {
    Flowing(recvs) && forall i | 0 <= i < |recvs| :: !recvs[i].WouldBlock?
  }

  lemma {:induction false} NoBlock(recvs: seq<Recv>, last: Recv)
    requires Steady(recvs) && last == Eof
    ensures UpToBlock(recvs + [last]) == recvs + [last] && UpToBlock(recvs) == recvs
  {
    if recvs == [] {
      assert UpToBlock([last]) == [last] + UpToBlock([]);
    } else {
      assert (recvs + [last])[1..] == recvs[1..] + [last];
      NoBlock(recvs[1..], last);
    }
  }

  /**
   The end of a connection. The peer of either server ends the stream; the epoll server drops what it has not sent. Both peers
   have been sent the same bytes exactly when nothing is unsent at the moment the end of the stream is read.
   */
  lemma SameBytes(answer: Answerer, events: seq<Event>, last: seq<Recv>)
    requires Writing(events) && Flowing(Arrived(events)) && Steady(last)
    requires Lived(answer, events).conn.session.open
    ensures var before := Happened(answer, Lived(answer, events), Readable(last));
      var ended := Happened(answer, Lived(answer, events), Readable(last + [Eof]));
      var served := Serve(answer, FRESH, Carried(Arrived(events) + last));
      && ended.conn.session == served
      && ended.sent <= served.out
      && (ended.sent == served.out <==> Unsent(before) == "")
  {
    hide Receive, Flowed, UpToBlock, Serve;
    var l, c := Lived(answer, events), Conn(FRESH, "");
    LivedIsReceive(answer, events);
    NoBlock(last, Eof);
    ServersAgree(answer, Arrived(events) + last);
    assert Arrived(events) + last + [Eof] == Arrived(events) + (last + [Eof]);
    ReceiveConcat(answer, c, Arrived(events), last + [Eof]);
    OutGrows(answer, l.conn, last);
    EofCloses(answer, l.conn, last);
  }

  /** The servers do differ to a peer: a request and the end of the stream in one event are answered by the blocking one only. */
  lemma LastAnswerDropped(answer: Answerer, payload: string, response: string)
    requires |payload| <= MAX_PAYLOAD_SIZE && |response| <= MAX_PAYLOAD_SIZE
    requires answer([Parse(payload)]) == Some(response)
    ensures Lived(answer, [Readable([Data(Frame(payload)), Eof])]).sent == ""
    ensures Serve(answer, FRESH, Frame(payload)).out == Frame(response) != ""
  {
    hide Parse, NextFrame, NetToHost, HostToNet, Receive, UpToBlock;
    FrameIsNext(payload, "");
    NothingIsNext();
    assert Frame(payload) + "" == Frame(payload);
    assert [] + [Parse(payload)] == [Parse(payload)];
    assert "" + Frame(response) == Frame(response);
    var all := [Readable([Data(Frame(payload)), Eof])];
    assert all[..0] == [];
    assert Lived(answer, all) == Happened(answer, Lived(answer, []), all[0]);
  }

  // Everything is answered with PONG.
  function Pong(requests: seq<Request>): Option<string> {
    Some("PONG")
  }

  lemma PingDropped()
    ensures Lived(Pong, [Readable([Data(Frame("PING")), Eof])]).sent == ""
    ensures Serve(Pong, FRESH, Frame("PING")).out == Frame("PONG") != ""
  {
    LastAnswerDropped(Pong, "PING", "PONG");
  }
}
