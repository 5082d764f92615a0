/**
 * The scenarios that test the downstream interface of the system under
 * test. This side plays the upstream machine: every scenario opens an
 * upstream session to the system under test, on one of the session shapes
 * of module Sessions. The scenarios are registered with the
 * `hermes_testcase` decorator and run through its wrapper.
 *
 * `Message.to_bytes()` is not part of this model: the encoding is a
 * parameter, an arbitrary function from messages to bytes, and so is
 * `MAX_MESSAGE_SIZE`. What the peer does is a behaviour per session: the
 * i-th session of a scenario meets peer(i).
 */
module DownstreamIfc {
  import opened Runtime
  import opened Hermes
  import opened Sessions
  import opened TestCases

  // ---------------------------------------------------------------------
  // Payload of the maximum message size scenario

  /** The attribute name the dummy attribute is inserted before. */
  const LaneIdMarker: seq<byte> := Ascii("LaneId=")

  /** An extra attribute with an empty value, followed by a space. */
  const DummyAttribute: seq<byte> := Ascii("HermesAcceptanceTestDummyAttributeId=\"\" ")

  /** The padding byte, `x`. */
  const PaddingByte: byte := 120

  /** The byte `"`. */
  const Quote: byte := 34

  /** The ServiceDescription both payload scenarios encode. */
  const DownstreamServiceDescription: Message := ServiceDescription(Text("DownstreamId"), Number(1))

  /** The bytes with the dummy attribute inserted where `LaneId=` first
      occurs. When it does not occur, `find` gives -1, and the slices at -1
      put the attribute before the last byte. */
  function InsertDummy(msg: seq<byte>): (r: seq<byte>)
    ensures |r| == |msg| + |DummyAttribute|
    ensures var k := SliceBound(Find(msg, LaneIdMarker), |msg|);
      && r[..k] == msg[..k]
      && r[k..k + |DummyAttribute|] == DummyAttribute
      && r[k + |DummyAttribute|..] == msg[k..]
  {
    var splitat := Find(msg, LaneIdMarker);
    SliceTo(msg, splitat) + DummyAttribute + SliceFrom(msg, splitat)
  }

  /** The crafted payload: the dummy attribute inserted, then padding of
      `MAX_MESSAGE_SIZE` minus the length so far inserted 38 bytes after
      where the attribute went (no padding when that difference is not
      positive). */
  function CraftMaximumSizePayload(msg: seq<byte>, maxMessageSize: int): (r: seq<byte>)
    ensures |r| == |msg| + |DummyAttribute| + PaddingLength(msg, maxMessageSize)
  {
    var splitat := Find(msg, LaneIdMarker);
    var withDummy := InsertDummy(msg);
    var padAt := splitat + |DummyAttribute| - 2;
    var extendBy := maxMessageSize - |withDummy|;
    Padded(withDummy, padAt, extendBy);
    SliceTo(withDummy, padAt) + Repeat(PaddingByte, extendBy) + SliceFrom(withDummy, padAt)
  }

  /** The number of padding bytes: what is missing to the maximum size. */
  function PaddingLength(msg: seq<byte>, maxMessageSize: int): (n: nat)
    ensures n > 0 ==> |msg| + |DummyAttribute| + n == maxMessageSize
    ensures n == 0 <==> |msg| + |DummyAttribute| >= maxMessageSize
  {
    if |msg| + |DummyAttribute| < maxMessageSize then maxMessageSize - |msg| - |DummyAttribute| else 0
  }

  lemma DummyAttributeBytes()
    ensures |DummyAttribute| == 40
    ensures DummyAttribute[37] == Quote && DummyAttribute[38] == Quote
  {
  }

  /** The payload is exactly MAX_MESSAGE_SIZE long when the message and the
      dummy attribute fit, and otherwise it is the message with the dummy
      attribute and nothing else: no padding. */
  lemma PayloadLength(msg: seq<byte>, maxMessageSize: int)
    ensures var r := CraftMaximumSizePayload(msg, maxMessageSize);
      && |r| == |msg| + 40 + PaddingLength(msg, maxMessageSize)
      && (|msg| + 40 <= maxMessageSize ==> |r| == maxMessageSize)
      && (|msg| + 40 >= maxMessageSize ==> r == InsertDummy(msg))
  {
    var withDummy := InsertDummy(msg);
    DummyAttributeBytes();
    Padded(withDummy, Find(msg, LaneIdMarker) + 38, maxMessageSize - |withDummy|);
  }

  /** Padding n bytes into w at p lengthens w by n, and a non-positive n
      leaves w as it is. */
  lemma Padded(w: seq<byte>, p: int, n: int)
    ensures |SliceTo(w, p) + Repeat(PaddingByte, n) + SliceFrom(w, p)| == |w| + (if n <= 0 then 0 else n)
    ensures n <= 0 ==> SliceTo(w, p) + Repeat(PaddingByte, n) + SliceFrom(w, p) == w
  {
    SliceSplit(w, p);
    if n <= 0 {
      assert Repeat(PaddingByte, n) == [];
    }
  }

  /** Where `LaneId=` occurs at j, the payload is: the bytes before j, the
      dummy attribute up to and including its opening quote, the padding,
      the closing quote and the space, then the bytes from j on. */
  lemma PayloadShape(msg: seq<byte>, maxMessageSize: int)
    requires Find(msg, LaneIdMarker) >= 0
    ensures var j := Find(msg, LaneIdMarker);
      CraftMaximumSizePayload(msg, maxMessageSize)
        == msg[..j] + DummyAttribute[..38] + Repeat(PaddingByte, maxMessageSize - |msg| - 40) + DummyAttribute[38..] + msg[j..]
  {
    var j := Find(msg, LaneIdMarker);
    var withDummy := InsertDummy(msg);
    DummyAttributeBytes();
    assert withDummy == msg[..j] + DummyAttribute + msg[j..];
    assert |withDummy| == |msg| + 40;
    assert withDummy[..j + 38] == msg[..j] + DummyAttribute[..38];
    assert withDummy[j + 38..] == DummyAttribute[38..] + msg[j..];
  }

  /** Where `LaneId=` occurs at j: the bytes before it are a prefix of the
      payload, the message from `LaneId=` on is its suffix, and in between
      are the 37 bytes of the attribute name and `="`, the padding, all `x`,
      and the closing quote. */
  lemma PayloadKeepsMessage(msg: seq<byte>, maxMessageSize: int)
    requires Find(msg, LaneIdMarker) >= 0
    ensures var j, r, pad := Find(msg, LaneIdMarker), CraftMaximumSizePayload(msg, maxMessageSize), PaddingLength(msg, maxMessageSize);
      && OccursAt(msg, LaneIdMarker, j)
      && |r| == |msg| + 40 + pad
      && r[..j] == msg[..j]
      && r[j + 40 + pad..] == msg[j..]
      && r[j..j + 38] == DummyAttribute[..38]
      && r[j + 37] == Quote
      && (forall i :: j + 38 <= i < j + 38 + pad ==> r[i] == PaddingByte)
      && r[j + 38 + pad] == Quote
  {
    var j, r, pad := Find(msg, LaneIdMarker), CraftMaximumSizePayload(msg, maxMessageSize), PaddingLength(msg, maxMessageSize);
    PayloadShape(msg, maxMessageSize);
    DummyAttributeBytes();
    var padding := Repeat(PaddingByte, maxMessageSize - |msg| - 40);
    assert |padding| == pad;
    assert r == (msg[..j] + DummyAttribute[..38]) + (padding + (DummyAttribute[38..] + msg[j..]));
    assert r[j + 38 + pad] == DummyAttribute[38];
  }

  /** Without `LaneId=`, the attribute goes before the last byte and the
      padding after the first 37 bytes, wherever those are. */
  lemma PayloadWithoutMarker(msg: seq<byte>, maxMessageSize: int)
    requires Find(msg, LaneIdMarker) == -1
    ensures |msg| > 0 ==> InsertDummy(msg) == msg[..|msg| - 1] + DummyAttribute + msg[|msg| - 1..]
    ensures msg == [] ==> InsertDummy(msg) == DummyAttribute
    ensures var r, pad := CraftMaximumSizePayload(msg, maxMessageSize), PaddingLength(msg, maxMessageSize);
      && r[..37] == InsertDummy(msg)[..37]
      && forall i :: 37 <= i < 37 + pad ==> r[i] == PaddingByte
  {
    DummyAttributeBytes();
    var withDummy := InsertDummy(msg);
    var padding := Repeat(PaddingByte, maxMessageSize - |withDummy|);
    assert CraftMaximumSizePayload(msg, maxMessageSize) == withDummy[..37] + padding + withDummy[37..];
  }

  /** The packet of three frames: CheckAlive, ServiceDescription, CheckAlive.
      The ServiceDescription frame starts after the first CheckAlive frame. */
  function MultiMessagePacket(checkAlive: seq<byte>, serviceDescription: seq<byte>): (r: seq<byte>)
    ensures |r| == 2 * |checkAlive| + |serviceDescription|
    ensures r[..|checkAlive|] == checkAlive
    ensures r[|checkAlive|..|checkAlive| + |serviceDescription|] == serviceDescription
    ensures r[|checkAlive| + |serviceDescription|..] == checkAlive
  {
    checkAlive + serviceDescription + checkAlive
  }

  // ---------------------------------------------------------------------
  // Scenario bodies

  /** `send_tag_and_bytes(msg.tag, bytes)` with the ServiceDescription tag,
      then `expect_message("ServiceDescription")`. */
  function SendAndExpectBody(bytes: seq<byte>): seq<Op> {
    [SendTagAndBytes(Some(TagOf(DownstreamServiceDescription)), bytes), ExpectMessage(ByName("ServiceDescription"))]
  }

  /** The body of the maximum message size scenario. */
  function MaximumMessageSizeBody(toBytes: Message -> seq<byte>, maxMessageSize: int): seq<Op> {
    SendAndExpectBody(CraftMaximumSizePayload(toBytes(DownstreamServiceDescription), maxMessageSize))
  }

  /** The body of the multiple messages per packet scenario. */
  function MultipleMessagesBody(toBytes: Message -> seq<byte>): seq<Op> {
    SendAndExpectBody(MultiMessagePacket(toBytes(CheckAlive), toBytes(DownstreamServiceDescription)))
  }

  /** The ServiceDescription sent in each session of the second loop. */
  const AcceptanceTestServiceDescription: Message := ServiceDescription(Text("AcceptanceTest"), Number(2))

  /** The body of the second loop's sessions. */
  function ServiceDescriptionBody(): seq<Op> {
    [SendMsg(AcceptanceTestServiceDescription)]
  }

  /** The number of sessions the two loops open. */
  const Repetitions: nat := 10

  // ---------------------------------------------------------------------
  // Properties of the sessions

  /** The default upstream session around body: what was called before close
      is a prefix of connect, start_receiving and the body, and close ends
      every path. */
  lemma UpstreamSessionPrefix(b: Behaviour, body: seq<Op>)
    ensures var r, ops := UpstreamContext(b, true, SystemUnderTestHost, SystemUnderTestPort, body),
                          [Connect(SystemUnderTestHost, SystemUnderTestPort), StartReceiving] + body;
      && 2 <= |r.trace| <= |ops| + 1
      && r.trace == ops[..|r.trace| - 1] + [Close]
      && r.notified == []
      && (r.outcome.Returned? ==> r.trace == ops + [Close])
  {
    var r := UpstreamContext(b, true, SystemUnderTestHost, SystemUnderTestPort, body);
    var ops := [Connect(SystemUnderTestHost, SystemUnderTestPort), StartReceiving] + body;
    var setup := UpstreamSetup(true, SystemUnderTestHost, SystemUnderTestPort);
    ClosesOnEveryPath(b, false, setup, body);
    UpstreamContextOrder(b, true, SystemUnderTestHost, SystemUnderTestPort, body);
    SessionReturned(b, false, BareExcept, setup, body);
    assert Ops(setup) + body == ops;
    assert r.trace == r.trace[..|r.trace| - 1] + [Close];
  }

  /** A session of the first loop connects, starts receiving if connect
      returned, and closes. */
  lemma ConnectDisconnectTrace(b: Behaviour)
    ensures var r := UpstreamContext(b, true, SystemUnderTestHost, SystemUnderTestPort, []);
      && (r.trace == [Connect(SystemUnderTestHost, SystemUnderTestPort), Close]
          || r.trace == [Connect(SystemUnderTestHost, SystemUnderTestPort), StartReceiving, Close])
      && (r.outcome.Returned? ==> r.trace == [Connect(SystemUnderTestHost, SystemUnderTestPort), StartReceiving, Close])
  {
    UpstreamSessionPrefix(b, []);
    var r := UpstreamContext(b, true, SystemUnderTestHost, SystemUnderTestPort, []);
    var ops := [Connect(SystemUnderTestHost, SystemUnderTestPort), StartReceiving] + [];
    assert |r.trace| == 2 || |r.trace| == 3;
    assert ops[..1] == [Connect(SystemUnderTestHost, SystemUnderTestPort)];
  }

  /** A session of the second loop sends at most one message, the
      ServiceDescription, third, waits for nothing, and closes. */
  lemma ServiceDescriptionSessionTrace(b: Behaviour)
    ensures var r := UpstreamContext(b, true, SystemUnderTestHost, SystemUnderTestPort, ServiceDescriptionBody());
      && |r.trace| >= 2 && r.trace[|r.trace| - 1] == Close
      && (forall i :: 0 <= i < |r.trace| ==> !r.trace[i].ExpectMessage? && !r.trace[i].ReceiveData?)
      && (forall i :: 0 <= i < |r.trace| && r.trace[i].SendMsg? ==> i == 2 && r.trace[i].msg == AcceptanceTestServiceDescription)
      && (r.outcome.Returned? ==>
            r.trace == [Connect(SystemUnderTestHost, SystemUnderTestPort), StartReceiving, SendMsg(AcceptanceTestServiceDescription), Close])
  {
    UpstreamSessionPrefix(b, ServiceDescriptionBody());
  }

  /** The payload scenarios send the bytes once, tagged ServiceDescription,
      and then expect one ServiceDescription, and nothing else. */
  lemma SendAndExpectSessionTrace(b: Behaviour, bytes: seq<byte>)
    ensures var r := UpstreamContext(b, true, SystemUnderTestHost, SystemUnderTestPort, SendAndExpectBody(bytes));
      && |r.trace| >= 2 && r.trace[|r.trace| - 1] == Close
      && (forall i :: 0 <= i < |r.trace| && r.trace[i].SendTagAndBytes? ==>
            i == 2 && r.trace[i] == SendTagAndBytes(Some(ServiceDescriptionTag), bytes))
      && (forall i :: 0 <= i < |r.trace| && r.trace[i].ExpectMessage? ==>
            i == 3 && r.trace[i] == ExpectMessage(ByName("ServiceDescription")))
      && (forall i :: 0 <= i < |r.trace| ==> !r.trace[i].SendMsg?)
      && (r.outcome.Returned? ==>
            r.trace == [Connect(SystemUnderTestHost, SystemUnderTestPort), StartReceiving,
                        SendTagAndBytes(Some(ServiceDescriptionTag), bytes), ExpectMessage(ByName("ServiceDescription")), Close])
  {
    UpstreamSessionPrefix(b, SendAndExpectBody(bytes));
  }

  // ---------------------------------------------------------------------
  // The loops of sessions

  /** The last session raised, which ends the loop. */
  predicate Stopped(runs: seq<Run>) {
    runs != [] && runs[|runs| - 1].outcome.Raised?
  }

  /** How a loop of sessions ends: with the exception of the one that
      raised, or normally. */
  function LoopOutcome(runs: seq<Run>): Outcome {
    if Stopped(runs) then runs[|runs| - 1].outcome else Returned
  }

  /** The first n iterations of a loop of default upstream sessions around
      body, the i-th session meeting peer(i), up to the first that raises. */
  function RepeatedSessions(peer: nat -> Behaviour, body: seq<Op>, n: nat): seq<Run>
    decreases n
  {
    if n == 0 then []
    else
      var prev := RepeatedSessions(peer, body, n - 1);
      if Stopped(prev) then prev
      else prev + [UpstreamContext(peer(n - 1), true, SystemUnderTestHost, SystemUnderTestPort, body)]
  }

  /** The loop runs sessions one after the other, the i-th with peer(i),
      each but the last returning; n of them unless one raised; always at
      least the first. */
  lemma {:induction false} RepeatedSessionsShape(peer: nat -> Behaviour, body: seq<Op>, n: nat)
    ensures var runs := RepeatedSessions(peer, body, n);
      && |runs| <= n
      && (n > 0 ==> |runs| > 0)
      && (forall i :: 0 <= i < |runs| ==> runs[i] == UpstreamContext(peer(i), true, SystemUnderTestHost, SystemUnderTestPort, body))
      && (forall i :: 0 <= i < |runs| - 1 ==> runs[i].outcome.Returned?)
      && (!Stopped(runs) ==> |runs| == n)
    decreases n
  {
    if n > 0 {
      RepeatedSessionsShape(peer, body, n - 1);
    }
  }

  /** The loop ends normally iff it ran all n sessions and each returned;
      otherwise with the exception of the last one it ran. */
  lemma LoopOutcomeShape(peer: nat -> Behaviour, body: seq<Op>, n: nat)
    ensures var runs := RepeatedSessions(peer, body, n);
      && (LoopOutcome(runs).Returned? <==> |runs| == n && forall i :: 0 <= i < |runs| ==> runs[i].outcome.Returned?)
      && (LoopOutcome(runs).Raised? ==> runs != [] && LoopOutcome(runs) == runs[|runs| - 1].outcome)
  {
    RepeatedSessionsShape(peer, body, n);
  }

  /** While no session raised, the next iteration runs one more session,
      and the loop's outcome is then that session's. */
  lemma RepeatedSessionsStep(peer: nat -> Behaviour, body: seq<Op>, i: nat)
    requires !Stopped(RepeatedSessions(peer, body, i))
    ensures var r := UpstreamContext(peer(i), true, SystemUnderTestHost, SystemUnderTestPort, body);
      && RepeatedSessions(peer, body, i + 1) == RepeatedSessions(peer, body, i) + [r]
      && LoopOutcome(RepeatedSessions(peer, body, i) + [r]) == r.outcome
  {
  }

  /** Once a session raised, later iterations are not run. */
  lemma {:induction false} StoppedStays(peer: nat -> Behaviour, body: seq<Op>, i: nat, n: nat)
    requires i <= n && Stopped(RepeatedSessions(peer, body, i))
    ensures RepeatedSessions(peer, body, n) == RepeatedSessions(peer, body, i)
    decreases n
  {
    if i < n {
      StoppedStays(peer, body, i, n - 1);
    }
  }

  /** Every session of the first loop connects first and closes last, and
      when the loop ends normally each of them was connect, start_receiving,
      close. */
  lemma ConnectDisconnectLoop(peer: nat -> Behaviour, n: nat)
    ensures var runs := RepeatedSessions(peer, [], n);
      && (forall i :: 0 <= i < |runs| ==>
            && |runs[i].trace| >= 2
            && runs[i].trace[0] == Connect(SystemUnderTestHost, SystemUnderTestPort)
            && runs[i].trace[|runs[i].trace| - 1] == Close)
      && (LoopOutcome(runs).Returned? ==> forall i :: 0 <= i < |runs| ==>
            runs[i].trace == [Connect(SystemUnderTestHost, SystemUnderTestPort), StartReceiving, Close])
  {
    var runs := RepeatedSessions(peer, [], n);
    RepeatedSessionsShape(peer, [], n);
    LoopOutcomeShape(peer, [], n);
    forall i | 0 <= i < |runs|
      ensures |runs[i].trace| >= 2
      ensures runs[i].trace[0] == Connect(SystemUnderTestHost, SystemUnderTestPort) && runs[i].trace[|runs[i].trace| - 1] == Close
      ensures runs[i].outcome.Returned? ==> runs[i].trace == [Connect(SystemUnderTestHost, SystemUnderTestPort), StartReceiving, Close]
    {
      ConnectDisconnectTrace(peer(i));
    }
  }

  /** Every session of the second loop sends the ServiceDescription at most
      once, never waits for an answer, and closes; when the loop ends
      normally each of them was connect, start_receiving, send, close. */
  lemma ServiceDescriptionLoop(peer: nat -> Behaviour, n: nat)
    ensures var runs := RepeatedSessions(peer, ServiceDescriptionBody(), n);
      && (forall i :: 0 <= i < |runs| ==> |runs[i].trace| >= 2 && runs[i].trace[|runs[i].trace| - 1] == Close)
      && (forall i, k :: 0 <= i < |runs| && 0 <= k < |runs[i].trace| ==>
            !runs[i].trace[k].ExpectMessage? && !runs[i].trace[k].ReceiveData?)
      && (LoopOutcome(runs).Returned? ==> forall i :: 0 <= i < |runs| ==>
            runs[i].trace == [Connect(SystemUnderTestHost, SystemUnderTestPort), StartReceiving, SendMsg(AcceptanceTestServiceDescription), Close])
  {
    var runs := RepeatedSessions(peer, ServiceDescriptionBody(), n);
    RepeatedSessionsShape(peer, ServiceDescriptionBody(), n);
    LoopOutcomeShape(peer, ServiceDescriptionBody(), n);
    forall i | 0 <= i < |runs|
      ensures |runs[i].trace| >= 2 && runs[i].trace[|runs[i].trace| - 1] == Close
      ensures forall k :: 0 <= k < |runs[i].trace| ==> !runs[i].trace[k].ExpectMessage? && !runs[i].trace[k].ReceiveData?
      ensures runs[i].outcome.Returned? ==>
        runs[i].trace == [Connect(SystemUnderTestHost, SystemUnderTestPort), StartReceiving, SendMsg(AcceptanceTestServiceDescription), Close]
    {
      ServiceDescriptionSessionTrace(peer(i));
    }
  }

  // ---------------------------------------------------------------------
  // The scenarios

  /** `with create_upstream_context(): pass`. */
  method ConnectDisconnectOnce(b: Behaviour) returns (trace: seq<Op>, o: Outcome)
    ensures Run(trace, [], o) == UpstreamContext(b, true, SystemUnderTestHost, SystemUnderTestPort, [])
  {
    var conn;
    conn, o := EnterUpstreamContext(b, true, SystemUnderTestHost, SystemUnderTestPort);
    SessionSplit(b, false, BareExcept, UpstreamSetup(true, SystemUnderTestHost, SystemUnderTestPort), []);
    if o.Returned? {
      o := LeaveContext(conn, BareExcept, o);
    }
    trace := conn.trace;
  }

  /** `with create_upstream_context() as ctxt: ctxt.send_msg(...)`. */
  method ConnectServiceDescriptionDisconnectOnce(b: Behaviour) returns (trace: seq<Op>, o: Outcome)
    ensures Run(trace, [], o) == UpstreamContext(b, true, SystemUnderTestHost, SystemUnderTestPort, ServiceDescriptionBody())
  {
    var conn;
    ghost var body := ServiceDescriptionBody();
    conn, o := EnterUpstreamContext(b, true, SystemUnderTestHost, SystemUnderTestPort);
    SessionSplit(b, false, BareExcept, UpstreamSetup(true, SystemUnderTestHost, SystemUnderTestPort), body);
    if o.Returned? {
      ghost var h := conn.trace;
      o := conn.SendMsg(AcceptanceTestServiceDescription);
      if o.Raised? {
        assert body[..0] == [] && h + body[..0] == h && h + body[..1] == conn.trace;
        PerformFailing(b, false, h, body, 0);
      } else {
        assert Succeeds(b, h + [body[0]], []);
        PerformSucceeding(b, false, h, body);
      }
      o := LeaveContext(conn, BareExcept, o);
    }
    trace := conn.trace;
  }

  /** The two calls of the payload scenarios' bodies, stopping at the first
      that raises. */
  method SendAndExpectServiceDescription(conn: Connection, bytes: seq<byte>) returns (o: Outcome)
    modifies conn
    ensures var q := Perform(conn.behaviour, false, old(conn.trace), Calls(SendAndExpectBody(bytes)));
      conn.trace == q.trace && o == q.outcome
  {
    ghost var b, h, body := conn.behaviour, conn.trace, SendAndExpectBody(bytes);
    o := conn.SendTagAndBytes(Some(TagOf(DownstreamServiceDescription)), bytes);
    assert body[..0] == [] && h + body[..0] == h && h + body[..1] == conn.trace;
    if o.Raised? {
      PerformFailing(b, false, h, body, 0);
    } else {
      assert Succeeds(b, h, body[..1]) by {
        assert Succeeds(b, h + [body[0]], []);
      }
      o := conn.ExpectMessage(ByName("ServiceDescription"));
      assert body[..2] == body && h + body == conn.trace;
      if o.Raised? {
        PerformFailing(b, false, h, body, 1);
      } else {
        SucceedsSnoc(b, h, body[..1], body[1]);
        assert body[..1] + [body[1]] == body;
        PerformSucceeding(b, false, h, body);
      }
    }
  }

  /** `test_maximum_message_size`: the crafted payload in one send tagged
      ServiceDescription, then expect a ServiceDescription. */
  method TestMaximumMessageSize(b: Behaviour, toBytes: Message -> seq<byte>, maxMessageSize: int)
    returns (trace: seq<Op>, o: Outcome)
    ensures Run(trace, [], o) == UpstreamContext(b, true, SystemUnderTestHost, SystemUnderTestPort,
                                                 MaximumMessageSizeBody(toBytes, maxMessageSize))
  {
    var conn;
    conn, o := EnterUpstreamContext(b, true, SystemUnderTestHost, SystemUnderTestPort);
    SessionSplit(b, false, BareExcept, UpstreamSetup(true, SystemUnderTestHost, SystemUnderTestPort),
                 MaximumMessageSizeBody(toBytes, maxMessageSize));
    if o.Returned? {
      var msgBytes := CraftMaximumSizePayload(toBytes(DownstreamServiceDescription), maxMessageSize);
      o := SendAndExpectServiceDescription(conn, msgBytes);
      o := LeaveContext(conn, BareExcept, o);
    }
    trace := conn.trace;
  }

  /** `test_multiple_messages_per_packet`: three frames in one send tagged
      ServiceDescription, then expect a ServiceDescription. */
  method TestMultipleMessagesPerPacket(b: Behaviour, toBytes: Message -> seq<byte>) returns (trace: seq<Op>, o: Outcome)
    ensures Run(trace, [], o) == UpstreamContext(b, true, SystemUnderTestHost, SystemUnderTestPort, MultipleMessagesBody(toBytes))
  {
    var conn;
    conn, o := EnterUpstreamContext(b, true, SystemUnderTestHost, SystemUnderTestPort);
    SessionSplit(b, false, BareExcept, UpstreamSetup(true, SystemUnderTestHost, SystemUnderTestPort), MultipleMessagesBody(toBytes));
    if o.Returned? {
      var msgBytes := MultiMessagePacket(toBytes(CheckAlive), toBytes(DownstreamServiceDescription));
      o := SendAndExpectServiceDescription(conn, msgBytes);
      o := LeaveContext(conn, BareExcept, o);
    }
    trace := conn.trace;
  }

  /** `test_connect_disconnect_n_times`: ten sessions with an empty body,
      the loop ending at the first that raises. */
  method TestConnectDisconnectNTimes(peer: nat -> Behaviour) returns (runs: seq<Run>, o: Outcome)
    ensures runs == RepeatedSessions(peer, [], Repetitions) && o == LoopOutcome(runs)
  {
    runs, o := [], Returned;
    var i := 0;
    while i < Repetitions && o.Returned?
      invariant 0 <= i <= Repetitions
      invariant runs == RepeatedSessions(peer, [], i)
      invariant o == LoopOutcome(runs)
    {
      RepeatedSessionsStep(peer, [], i);
      var trace;
      trace, o := ConnectDisconnectOnce(peer(i));
      runs := runs + [Run(trace, [], o)];
      i := i + 1;
    }
    if i < Repetitions {
      StoppedStays(peer, [], i, Repetitions);
    }
  }

  /** `test_connect_service_description_disconnect_n_times`: ten sessions
      sending a ServiceDescription, the loop ending at the first that
      raises. */
  method TestConnectServiceDescriptionDisconnectNTimes(peer: nat -> Behaviour) returns (runs: seq<Run>, o: Outcome)
    ensures runs == RepeatedSessions(peer, ServiceDescriptionBody(), Repetitions) && o == LoopOutcome(runs)
  {
    runs, o := [], Returned;
    var i := 0;
    while i < Repetitions && o.Returned?
      invariant 0 <= i <= Repetitions
      invariant runs == RepeatedSessions(peer, ServiceDescriptionBody(), i)
      invariant o == LoopOutcome(runs)
    {
      RepeatedSessionsStep(peer, ServiceDescriptionBody(), i);
      var trace;
      trace, o := ConnectServiceDescriptionDisconnectOnce(peer(i));
      runs := runs + [Run(trace, [], o)];
      i := i + 1;
    }
    if i < Repetitions {
      StoppedStays(peer, ServiceDescriptionBody(), i, Repetitions);
    }
  }

  /** `test_connect_handshake_disconnect`: the upstream handshake session
      with an empty body. */
  method TestConnectHandshakeDisconnect(env: EnvironmentManager, b: Behaviour) returns (trace: seq<Op>, o: Outcome)
    modifies env`callbackUsed, env`invocations
    ensures var r := UpstreamContextWithHandshake(b, env.callback.Some?, SystemUnderTestHost, SystemUnderTestPort,
                                                  old(env.ServiceDescriptionMessage()), env.executeHandshakeCallback, []);
      && trace == r.trace && o == r.outcome
      && env.invocations == old(env.invocations) + Invocations(env.callback, r.notified)
      && env.callbackUsed == (old(env.callbackUsed) || r.notified != [])
  {
    ghost var setup := UpstreamHandshakeSetup(SystemUnderTestHost, SystemUnderTestPort, env.ServiceDescriptionMessage(),
                                              env.executeHandshakeCallback);
    var conn;
    conn, o := EnterUpstreamContextWithHandshake(env, b, SystemUnderTestHost, SystemUnderTestPort);
    SessionSplit(b, env.callback.Some?, BareExcept, setup, []);
    if o.Returned? {
      ghost var p := Perform(b, env.callback.Some?, [], setup);
      assert p.notified + [] == p.notified;
      o := LeaveContext(conn, BareExcept, o);
    }
    trace := conn.trace;
  }

  // ---------------------------------------------------------------------
  // Registration and the decorator's wrapper

  /** The scenarios with a body in this model. */
  datatype Scenario =
    | ConnectDisconnectNTimes
    | ConnectServiceDescriptionDisconnectNTimes
    | ConnectHandshakeDisconnect
    | MaximumMessageSize
    | MultipleMessagesPerPacket

  /** The functions the module decorates with `hermes_testcase`, in order.
      `test_connect_2_times` is not among them: its decorator is commented
      out. */
  const ModuleTestFunctions: seq<TestFunction> := [
    TestFunction("test_connect_disconnect_n_times"),
    TestFunction("test_connect_service_description_disconnect_n_times"),
    TestFunction("test_connect_handshake_disconnect"),
    TestFunction("test_maximum_message_size"),
    TestFunction("test_multiple_messages_per_packet"),
    TestFunction("xtest_terminate_on_illegal_message")
  ]

  /** The registry a run of decorations leaves, and how it ended. */
  datatype Registration = Registration(cases: map<string, TestFunction>, names: seq<string>, outcome: Outcome)

  /** Decorating funcs in order, starting from the registry (cases, names):
      the first name already taken raises NameError and ends the run. */
  function RegisterAll(cases: map<string, TestFunction>, names: seq<string>, funcs: seq<TestFunction>): (r: Registration)
    ensures r.outcome.Raised? ==> IsException(r.outcome.exc) && r.outcome.exc.kind == "NameError"
    decreases |funcs|
  {
    if funcs == [] then Registration(cases, names, Returned)
    else if funcs[0].name in cases then Registration(cases, names, Raised(DuplicateName(funcs[0].name)))
    else RegisterAll(cases[funcs[0].name := funcs[0]], names + [funcs[0].name], funcs[1..])
  }

  /** The names of funcs, in order. */
  function NamesOf(funcs: seq<TestFunction>): (r: seq<string>)
    ensures |r| == |funcs| && forall i :: 0 <= i < |funcs| ==> r[i] == funcs[i].name
  {
    seq(|funcs|, i requires 0 <= i < |funcs| => funcs[i].name)
  }

  /** Decorating functions with distinct names, none of them registered
      yet, returns and adds each under its name, after the names already
      there, and leaves the earlier entries alone. */
  lemma {:induction false} RegisterAllFresh(cases: map<string, TestFunction>, names: seq<string>, funcs: seq<TestFunction>)
    requires forall i, j :: 0 <= i < j < |funcs| ==> funcs[i].name != funcs[j].name
    requires forall i :: 0 <= i < |funcs| ==> funcs[i].name !in cases
    ensures var r := RegisterAll(cases, names, funcs);
      && r.outcome == Returned
      && r.names == names + NamesOf(funcs)
      && (forall n :: n in r.cases <==> n in cases || n in NamesOf(funcs))
      && (forall n :: n in cases ==> r.cases[n] == cases[n])
      && (forall i :: 0 <= i < |funcs| ==> r.cases[funcs[i].name] == funcs[i])
    decreases |funcs|
  {
    if funcs != [] {
      var f := funcs[0];
      RegisterAllFresh(cases[f.name := f], names + [f.name], funcs[1..]);
      assert NamesOf(funcs) == [f.name] + NamesOf(funcs[1..]);
      forall i | 0 <= i < |funcs|
        ensures RegisterAll(cases, names, funcs).cases[funcs[i].name] == funcs[i]
      {
        if i > 0 {
          assert funcs[i] == funcs[1..][i - 1];
        }
      }
    }
  }

  /** Decorating a function whose name is taken changes nothing more: the
      run raises NameError for that name, with the registry as it was after
      the functions before it. */
  lemma {:induction false} RegisterAllDuplicate(cases: map<string, TestFunction>, names: seq<string>, funcs: seq<TestFunction>, k: nat)
    requires k < |funcs| && funcs[k].name in cases
    requires forall i, j :: 0 <= i < j <= k ==> funcs[i].name != funcs[j].name
    requires forall i :: 0 <= i < k ==> funcs[i].name !in cases
    ensures var r, before := RegisterAll(cases, names, funcs), RegisterAll(cases, names, funcs[..k]);
      r == before.(outcome := Raised(DuplicateName(funcs[k].name)))
    decreases k
  {
    if k > 0 {
      var f := funcs[0];
      assert funcs[1..][k - 1] == funcs[k];
      assert funcs[..k][1..] == funcs[1..][..k - 1];
      RegisterAllDuplicate(cases[f.name := f], names + [f.name], funcs[1..], k - 1);
    }
  }

  /** From a registry holding none of them, the module registers exactly its
      six test functions, and `test_connect_2_times` is not one of them. */
  lemma ModuleRegistration(cases: map<string, TestFunction>, names: seq<string>)
    requires forall i :: 0 <= i < |ModuleTestFunctions| ==> ModuleTestFunctions[i].name !in cases
    ensures var r := RegisterAll(cases, names, ModuleTestFunctions);
      && r.outcome == Returned
      && r.names == names + NamesOf(ModuleTestFunctions)
      && |NamesOf(ModuleTestFunctions)| == 6
      && "test_connect_2_times" !in NamesOf(ModuleTestFunctions)
      && ("test_connect_2_times" in r.cases <==> "test_connect_2_times" in cases)
  {
    RegisterAllFresh(cases, names, ModuleTestFunctions);
  }

  /** One decoration: `hermes_testcase` applied to funcs[k]. */
  method Decorate(reg: Registry, funcs: seq<TestFunction>, k: nat) returns (o: Outcome)
    requires reg.Valid() && k < |funcs|
    modifies reg
    ensures reg.Valid()
    ensures RegisterAll(old(reg.cases), old(reg.names), funcs[k..])
      == if o.Raised? then Registration(reg.cases, reg.names, o) else RegisterAll(reg.cases, reg.names, funcs[k + 1..])
  {
    var r := reg.HermesTestcase(funcs[k]);
    assert funcs[k..][0] == funcs[k] && funcs[k..][1..] == funcs[k + 1..];
    o := if r.Err? then Raised(r.exc) else Returned;
  }

  /** Importing the module: its six decorations in order, the first
      NameError ending the import. */
  method ImportModule(reg: Registry) returns (o: Outcome)
    requires reg.Valid()
    modifies reg
    ensures reg.Valid()
    ensures RegisterAll(old(reg.cases), old(reg.names), ModuleTestFunctions) == Registration(reg.cases, reg.names, o)
  {
    ghost var expected := RegisterAll(reg.cases, reg.names, ModuleTestFunctions);
    assert ModuleTestFunctions[0..] == ModuleTestFunctions;
    o := Decorate(reg, ModuleTestFunctions, 0);
    if o.Raised? { return; }
    assert expected == RegisterAll(reg.cases, reg.names, ModuleTestFunctions[1..]);
    o := Decorate(reg, ModuleTestFunctions, 1);
    if o.Raised? { return; }
    assert expected == RegisterAll(reg.cases, reg.names, ModuleTestFunctions[2..]);
    o := Decorate(reg, ModuleTestFunctions, 2);
    if o.Raised? { return; }
    assert expected == RegisterAll(reg.cases, reg.names, ModuleTestFunctions[3..]);
    o := Decorate(reg, ModuleTestFunctions, 3);
    if o.Raised? { return; }
    assert expected == RegisterAll(reg.cases, reg.names, ModuleTestFunctions[4..]);
    o := Decorate(reg, ModuleTestFunctions, 4);
    if o.Raised? { return; }
    assert expected == RegisterAll(reg.cases, reg.names, ModuleTestFunctions[5..]);
    o := Decorate(reg, ModuleTestFunctions, 5);
    if o.Raised? { return; }
    assert ModuleTestFunctions[6..] == [];
  }

  /** What the peer does in each session, how messages encode, and the
      maximum message size. */
  datatype World = World(peer: nat -> Behaviour, toBytes: Message -> seq<byte>, maxMessageSize: int)

  /** How a scenario's function ends and what the callback receives in it. */
  datatype Effect = Effect(outcome: Outcome, notified: seq<seq<string>>)

  /** The effect of scenario s, with or without a registered callback, with
      the handshake callback flag hc and the environment's ServiceDescription
      sd. The single-session scenarios meet peer(0). */
  function ScenarioEffect(s: Scenario, w: World, hasCallback: bool, hc: bool, sd: Message): Effect {
    match s
    case ConnectDisconnectNTimes =>
      Effect(LoopOutcome(RepeatedSessions(w.peer, [], Repetitions)), [])
    case ConnectServiceDescriptionDisconnectNTimes =>
      Effect(LoopOutcome(RepeatedSessions(w.peer, ServiceDescriptionBody(), Repetitions)), [])
    case ConnectHandshakeDisconnect =>
      var r := UpstreamContextWithHandshake(w.peer(0), hasCallback, SystemUnderTestHost, SystemUnderTestPort, sd, hc, []);
      Effect(r.outcome, r.notified)
    case MaximumMessageSize =>
      Effect(UpstreamContext(w.peer(0), true, SystemUnderTestHost, SystemUnderTestPort,
                             MaximumMessageSizeBody(w.toBytes, w.maxMessageSize)).outcome, [])
    case MultipleMessagesPerPacket =>
      Effect(UpstreamContext(w.peer(0), true, SystemUnderTestHost, SystemUnderTestPort, MultipleMessagesBody(w.toBytes)).outcome, [])
  }

  /** The callback hears only from the handshake scenario, the handshake
      instruction once at most, when the flag is set and a callback is
      registered; a passing handshake scenario always sends it then. */
  lemma ScenarioNotices(s: Scenario, w: World, hasCallback: bool, hc: bool, sd: Message)
    ensures var e := ScenarioEffect(s, w, hasCallback, hc, sd);
      && (s != ConnectHandshakeDisconnect ==> e.notified == [])
      && (e.notified == [] || (hc && hasCallback && e.notified == [HandshakeInstruction]))
      && (s == ConnectHandshakeDisconnect && e.outcome.Returned? ==> e.notified == HandshakeNotices(hc))
  {
    if s == ConnectHandshakeDisconnect {
      HandshakeNotified(w.peer(0), hasCallback, BareExcept, UpstreamHandshakeFront(SystemUnderTestHost, SystemUnderTestPort, sd),
                        hc, UpstreamHandshakeBack(), []);
    }
  }

  /** The scenario's function itself: how it ends, and what the callback
      receives meanwhile. */
  method RunScenario(env: EnvironmentManager, s: Scenario, w: World, ghost hasCallback: bool, ghost hc: bool, ghost sd: Message)
    returns (o: Outcome, ghost e: Effect)
    requires hasCallback == env.callback.Some? && hc == env.executeHandshakeCallback && sd == env.ServiceDescriptionMessage()
    modifies env`callbackUsed, env`invocations
    ensures e == ScenarioEffect(s, w, hasCallback, hc, sd)
    ensures o == e.outcome
    ensures env.callbackUsed == (old(env.callbackUsed) || e.notified != [])
    ensures env.invocations == old(env.invocations) + Invocations(env.callback, e.notified)
    ensures e.notified != [] ==> env.callback.Some?
  {
    match s
    case ConnectDisconnectNTimes =>
      var runs;
      runs, o := TestConnectDisconnectNTimes(w.peer);
      e := Effect(o, []);
    case ConnectServiceDescriptionDisconnectNTimes =>
      var runs;
      runs, o := TestConnectServiceDescriptionDisconnectNTimes(w.peer);
      e := Effect(o, []);
    case ConnectHandshakeDisconnect =>
      var trace;
      trace, o := TestConnectHandshakeDisconnect(env, w.peer(0));
      e := ScenarioEffect(s, w, hasCallback, hc, sd);
      assert !hasCallback ==> e.notified == [];
    case MaximumMessageSize =>
      var trace;
      trace, o := TestMaximumMessageSize(w.peer(0), w.toBytes, w.maxMessageSize);
      e := Effect(o, []);
    case MultipleMessagesPerPacket =>
      var trace;
      trace, o := TestMultipleMessagesPerPacket(w.peer(0), w.toBytes);
      e := Effect(o, []);
    assert old(env.invocations) + [] == old(env.invocations);
  }

  /** The callback arguments a run of the wrapper adds after the function's
      own: "Done." iff the function returned after using the callback. */
  function DoneNotices(bodyOutcome: Outcome, notified: seq<seq<string>>): (n: seq<seq<string>>)
    ensures |n| <= 1 && forall i :: 0 <= i < |n| ==> n[i] == DoneInstruction
    ensures n != [] ==> bodyOutcome.Returned?
  {
    if bodyOutcome.Returned? && notified != [] then [DoneInstruction] else []
  }

  /** The wrapper after the function: the end hook runs only if the function
      returned, so a raising function passes its exception on unchanged. */
  method FinishTestCase(env: EnvironmentManager, bodyOutcome: Outcome, ghost notified: seq<seq<string>>) returns (o: Outcome)
    requires env.callbackUsed == (notified != []) && (notified != [] ==> env.callback.Some?)
    modifies env`callbackUsed, env`invocations
    ensures o == bodyOutcome && env.callbackUsed == old(env.callbackUsed)
    ensures env.invocations == old(env.invocations) + Invocations(env.callback, DoneNotices(bodyOutcome, notified))
  {
    o := bodyOutcome;
    if bodyOutcome.Returned? {
      o := env.OptionalEndOfTestCallback();
    }
  }

  /** The decorator's wrapper around scenario s: the start hook, the
      scenario's function, then the end hook only if the function returned.
      The final "Done." reaches the callback iff the scenario returned after
      using it. */
  method RunTestCase(env: EnvironmentManager, s: Scenario, w: World) returns (o: Outcome, ghost e: Effect)
    modifies env`callbackUsed, env`invocations
    ensures e == ScenarioEffect(s, w, old(env.callback.Some?), old(env.executeHandshakeCallback), old(env.ServiceDescriptionMessage()))
    ensures o == e.outcome
    ensures env.callbackUsed == (e.notified != [])
    ensures env.invocations == old(env.invocations) + Invocations(env.callback, e.notified + DoneNotices(e.outcome, e.notified))
  {
    ghost var hasCallback, hc, sd := env.callback.Some?, env.executeHandshakeCallback, env.ServiceDescriptionMessage();
    env.OptionalStartOfTestCallback();
    o, e := RunScenario(env, s, w, hasCallback, hc, sd);
    o := FinishTestCase(env, o, e.notified);
    InvocationsAppend(env.callback, old(env.invocations), e.notified, DoneNotices(e.outcome, e.notified));
  }
}
