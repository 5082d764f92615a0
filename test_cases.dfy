/**
 * The test-run machinery of the test suite: the registry the `hermes_testcase`
 * decorator fills, the process-wide environment (callback, flags and ids),
 * and the three connection sessions that scenarios run inside.
 *
 * The sessions are specified in module Sessions. The methods at the end of
 * this module are the two halves of each context manager: the part before
 * `yield` (connect and the handshake), and the part after it together with
 * the exception handler. They perform the steps on a Connection object and
 * the environment, and are proved to leave the trace, outcome and callback
 * invocations the specification gives.
 */
module TestCases {
  import opened Runtime
  import opened Hermes
  import opened Sessions

  // ---------------------------------------------------------------------
  // Registry

  /** A test function as the decorator sees it: identified by `__name__`. */
  datatype TestFunction = TestFunction(name: string)

  /** What the decorator returns in place of the function it decorates. */
  datatype Wrapper = Wrapper(func: TestFunction)

  /** The NameError raised for a name registered twice: an ordinary
      Exception, naming the function. */
  function DuplicateName(name: string): (e: Exc)
    ensures IsException(e) && e.kind == "NameError"
    ensures |name| <= |e.message| && e.message[|e.message| - |name|..] == name
  {
    Error("NameError", "Duplicate function declared: " + name)
  }

  /** The module-level dictionary of all test cases, name to function. */
  class Registry {
    var cases: map<string, TestFunction>
    /** The dictionary's keys in insertion order. */
    var names: seq<string>

    ghost predicate Valid()
      reads this
    {
      (forall i, j :: 0 <= i < j < |names| ==> names[i] != names[j]) &&
      (forall n :: n in cases <==> n in names) &&
      (forall n :: n in cases ==> cases[n].name == n)
    }

    constructor ()
      ensures Valid() && cases == map[] && names == []
    {
      cases := map[];
      names := [];
    }

    /** The decorator: registers the undecorated function under its name,
        or raises NameError and leaves the registry alone when the name is
        taken; on success it returns the wrapper. */
    method HermesTestcase(func: TestFunction) returns (r: Result<Wrapper>)
      requires Valid()
      modifies this
      ensures Valid()
      ensures func.name in old(cases) ==>
        r == Err(DuplicateName(func.name)) && cases == old(cases) && names == old(names)
      ensures func.name !in old(cases) ==>
        r == Ok(Wrapper(func)) && cases == old(cases)[func.name := func] && names == old(names) + [func.name]
    {
      if func.name in cases {
        return Err(DuplicateName(func.name));
      }
      cases := cases[func.name := func];
      names := names + [func.name];
      r := Ok(Wrapper(func));
    }

    /** The registry's contents, keyed by function name. */
    function TestDictionary(): (d: map<string, TestFunction>)
      reads this
      requires Valid()
      ensures forall n :: n in d <==> n in names
      ensures forall n :: n in d ==> d[n].name == n
    {
      cases
    }
  }

  // ---------------------------------------------------------------------
  // Environment

  /** A callback function, known only by identity. */
  datatype Callback = Callback(id: nat)

  /** One call of a callback with its positional arguments. */
  datatype Invocation = Invocation(callback: Callback, args: seq<string>)

  /** The invocations a callback receives for a list of argument lists. */
  function Invocations(callback: Option<Callback>, notified: seq<seq<string>>): (r: seq<Invocation>)
    ensures callback.None? ==> r == []
    ensures callback.Some? ==> |r| == |notified|
    ensures callback.Some? ==> forall i :: 0 <= i < |r| ==> r[i] == Invocation(callback.value, notified[i])
  {
    if callback.None? then [] else seq(|notified|, i requires 0 <= i < |notified| => Invocation(callback.value, notified[i]))
  }

  /** Invocations for two runs of argument lists, one after the other,
      recorded after earlier ones. */
  lemma InvocationsAppend(callback: Option<Callback>, earlier: seq<Invocation>, n1: seq<seq<string>>, n2: seq<seq<string>>)
    ensures earlier + Invocations(callback, n1 + n2) == earlier + Invocations(callback, n1) + Invocations(callback, n2)
  {
    assert Invocations(callback, n1 + n2) == Invocations(callback, n1) + Invocations(callback, n2);
  }

  /** The test-run state shared by the user interface and the test cases.
      Properties without a setter are read as fields. */
  class EnvironmentManager {
    var callback: Option<Callback>
    var callbackUsed: bool
    var executeHandshakeCallback: bool
    const machineId: string
    var laneId: string
    /** What the registered callbacks received, in order. */
    var invocations: seq<Invocation>

    constructor ()
      ensures callback == None && !callbackUsed && !executeHandshakeCallback
      ensures machineId == "Hermes Test API" && laneId == "1"
      ensures invocations == []
    {
      callback := None;
      callbackUsed := false;
      executeHandshakeCallback := false;
      machineId := "Hermes Test API";
      laneId := "1";
      invocations := [];
    }

    /** Installs func, replacing any earlier callback (None removes it). */
    method RegisterCallback(func: Option<Callback>)
      modifies this`callback
      ensures callback == func
    {
      callback := func;
    }

    /** No callback is registered. */
    function IsUndefined(): (r: bool)
      reads this`callback
      ensures r <==> callback == None
    {
      callback.None?
    }

    /** Runs the callback with args; without one, raises a skip and changes
        nothing. */
    method RunCallback(args: seq<string>) returns (o: Outcome)
      modifies this`callbackUsed, this`invocations
      ensures callback.None? ==>
        o == Raised(MissingCallback) && callbackUsed == old(callbackUsed) && invocations == old(invocations)
      ensures callback.Some? ==>
        o == Returned && callbackUsed && invocations == old(invocations) + [Invocation(callback.value, args)]
    {
      if callback.None? {
        return Raised(MissingCallback);
      }
      callbackUsed := true;
      invocations := invocations + [Invocation(callback.value, args)];
      o := Returned;
    }

    method SetHandshakeCallback(enabled: bool)
      modifies this`executeHandshakeCallback
      ensures executeHandshakeCallback == enabled
    {
      executeHandshakeCallback := enabled;
    }

    method SetLaneId(value: string)
      modifies this`laneId
      ensures laneId == value
      ensures ServiceDescriptionMessage() == ServiceDescription(Text(machineId), Text(value))
    {
      laneId := value;
    }

    /** The ServiceDescription carrying the current machine and lane ids. */
    function ServiceDescriptionMessage(): (m: Message)
      reads this`laneId
      ensures TagOf(m) == ServiceDescriptionTag
      ensures m.machineId == Text(machineId) && m.laneId == Text(laneId)
    {
      ServiceDescription(Text(machineId), Text(laneId))
    }

    /** Before a test: forget whether the callback was used. */
    method OptionalStartOfTestCallback()
      modifies this`callbackUsed
      ensures !callbackUsed
    {
      callbackUsed := false;
    }

    /** After a test: a final "Done." callback iff the callback was used. */
    method OptionalEndOfTestCallback() returns (o: Outcome)
      modifies this`callbackUsed, this`invocations
      ensures !old(callbackUsed) ==>
        o == Returned && callbackUsed == old(callbackUsed) && invocations == old(invocations)
      ensures old(callbackUsed) && callback.Some? ==>
        o == Returned && callbackUsed && invocations == old(invocations) + [Invocation(callback.value, DoneInstruction)]
      ensures old(callbackUsed) && callback.None? ==>
        o == Raised(MissingCallback) && callbackUsed && invocations == old(invocations)
    {
      o := Returned;
      if callbackUsed {
        o := RunCallback(DoneInstruction);
      }
    }

    /** `if env.handshake_callback: env.run_callback(__name__, 'Action
        required: Send ServiceDescription')`, as both handshake sessions
        do it. */
    method OptionalHandshakeCallback() returns (o: Outcome)
      modifies this`callbackUsed, this`invocations
      ensures executeHandshakeCallback && callback.None? ==>
        o == Raised(MissingCallback) && callbackUsed == old(callbackUsed) && invocations == old(invocations)
      ensures !(executeHandshakeCallback && callback.None?) ==>
        && o == Returned
        && invocations == old(invocations) + Invocations(callback, HandshakeNotices(executeHandshakeCallback))
        && callbackUsed == (old(callbackUsed) || executeHandshakeCallback)
    {
      o := Returned;
      if executeHandshakeCallback {
        o := RunCallback(HandshakeInstruction);
      }
    }
  }

  // ---------------------------------------------------------------------
  // Context managers

  /** `create_upstream_context` up to `yield`: connect, then start_receiving
      iff receive; a failure closes the connection and is raised again. */
  method EnterUpstreamContext(b: Behaviour, receive: bool, host: string, port: int) returns (conn: Connection, o: Outcome)
    ensures fresh(conn) && conn.role == Upstream && conn.behaviour == b
    ensures var p := Perform(b, false, [], UpstreamSetup(receive, host, port));
      o == p.outcome && conn.trace == p.trace + (if o.Raised? then [Close] else [])
  {
    ghost var ops := UpstreamOps(receive, host, port);
    conn := new Connection(Upstream, b);
    o := conn.Connect(host, port);
    assert [] + ops[..1] == [Connect(host, port)];
    if o.Raised? {
      assert ops[..0] == [];
      PerformFailing(b, false, [], ops, 0);
      conn.Close();
      return;
    }
    if receive {
      o := conn.StartReceiving();
      if o.Raised? {
        assert ops[..2] == ops;
        PerformFailing(b, false, [], ops, 1);
        conn.Close();
        return;
      }
    }
    PerformSucceeding(b, false, [], ops);
    assert [] + ops == ops;
  }

  /** A run of front calls stopped by failure: the operations called are the
      first k + 1 of front, the k-th raised and the ones before it returned. */
  ghost predicate StoppedAt(b: Behaviour, front: seq<Op>, trace: seq<Op>, o: Outcome) {
    var k := |trace| - 1;
    0 <= k < |front| && trace == front[..k + 1] && Succeeds(b, [], front[..k]) && o == b(front[..k], front[k])
  }

  /** The first three calls of `create_upstream_context_with_handshake`:
      connect, start_receiving, send the ServiceDescription, up to the first
      that raises. */
  method UpstreamHandshakeFrontCalls(b: Behaviour, host: string, port: int, sd: Message) returns (conn: Connection, o: Outcome)
    ensures fresh(conn) && conn.role == Upstream && conn.behaviour == b
    ensures o.Returned? ==> conn.trace == UpstreamHandshakeFront(host, port, sd) && Succeeds(b, [], conn.trace)
    ensures o.Raised? ==> StoppedAt(b, UpstreamHandshakeFront(host, port, sd), conn.trace, o)
  {
    ghost var front := UpstreamHandshakeFront(host, port, sd);
    conn := new Connection(Upstream, b);
    o := conn.Connect(host, port);
    assert front[..0] == [] && conn.trace == front[..1];
    if o.Raised? {
      return;
    }
    SucceedsSnoc(b, [], [], front[0]);
    o := conn.StartReceiving();
    assert front[..1] + [front[1]] == front[..2] == conn.trace;
    if o.Raised? {
      return;
    }
    assert [] + front[..1] == front[..1];
    SucceedsSnoc(b, [], front[..1], front[1]);
    o := conn.SendMsg(sd);
    assert front[..2] + [front[2]] == front == conn.trace;
    if o.Raised? {
      return;
    }
    assert [] + front[..2] == front[..2];
    SucceedsSnoc(b, [], front[..2], front[2]);
  }

  /** The first two calls of `create_downstream_context_with_handshake`:
      connect and wait for the peer, up to the first that raises. */
  method DownstreamHandshakeFrontCalls(b: Behaviour, host: string, port: int) returns (conn: Connection, o: Outcome)
    ensures fresh(conn) && conn.role == Downstream && conn.behaviour == b
    ensures o.Returned? ==> conn.trace == DownstreamHandshakeFront(host, port) && Succeeds(b, [], conn.trace)
    ensures o.Raised? ==> StoppedAt(b, DownstreamHandshakeFront(host, port), conn.trace, o)
  {
    ghost var front := DownstreamHandshakeFront(host, port);
    conn := new Connection(Downstream, b);
    o := conn.Connect(host, port);
    assert front[..0] == [] && conn.trace == front[..1];
    if o.Raised? {
      return;
    }
    SucceedsSnoc(b, [], [], front[0]);
    o := conn.WaitForConnection(AcceptTimeout);
    assert front[..1] + [front[1]] == front == conn.trace;
    if o.Raised? {
      return;
    }
    assert [] + front[..1] == front[..1];
    SucceedsSnoc(b, [], front[..1], front[1]);
  }

  /** Calls ops after the history h, stopped by failure: the operations
      called after h are the first k + 1 of ops, the k-th raised and the ones
      before it returned. */
  ghost predicate StoppedAfter(b: Behaviour, h: seq<Op>, ops: seq<Op>, trace: seq<Op>, o: Outcome) {
    var k := |trace| - |h| - 1;
    0 <= k < |ops| && trace == h + ops[..k + 1] && Succeeds(b, h, ops[..k]) && o == b(h + ops[..k], ops[k])
  }

  /** The last call of `create_upstream_context_with_handshake`: expect a
      ServiceDescription. */
  method UpstreamHandshakeBackCalls(conn: Connection) returns (o: Outcome)
    modifies conn
    ensures o.Returned? ==>
      conn.trace == old(conn.trace) + UpstreamHandshakeBack() && Succeeds(conn.behaviour, old(conn.trace), UpstreamHandshakeBack())
    ensures o.Raised? ==> StoppedAfter(conn.behaviour, old(conn.trace), UpstreamHandshakeBack(), conn.trace, o)
  {
    ghost var h, back := conn.trace, UpstreamHandshakeBack();
    o := conn.ExpectMessage(ByTag(ServiceDescriptionTag));
    assert back[..0] == [] && h + back[..0] == h && back[..1] == back && conn.trace == h + back;
    if o.Raised? {
      return;
    }
    SucceedsSnoc(conn.behaviour, h, [], back[0]);
  }

  /** The last two calls of `create_downstream_context_with_handshake`:
      expect a ServiceDescription, send sd, up to the first that raises. */
  method DownstreamHandshakeBackCalls(conn: Connection, sd: Message) returns (o: Outcome)
    modifies conn
    ensures o.Returned? ==>
      conn.trace == old(conn.trace) + DownstreamHandshakeBack(sd) && Succeeds(conn.behaviour, old(conn.trace), DownstreamHandshakeBack(sd))
    ensures o.Raised? ==> StoppedAfter(conn.behaviour, old(conn.trace), DownstreamHandshakeBack(sd), conn.trace, o)
  {
    ghost var h, back := conn.trace, DownstreamHandshakeBack(sd);
    o := conn.ExpectMessage(ByTag(ServiceDescriptionTag));
    assert back[..0] == [] && h + back[..0] == h && conn.trace == h + back[..1];
    if o.Raised? {
      return;
    }
    SucceedsSnoc(conn.behaviour, h, [], back[0]);
    o := conn.SendMsg(sd);
    assert back[..2] == back && h + back[..1] + [back[1]] == h + back == conn.trace;
    if o.Raised? {
      return;
    }
    SucceedsSnoc(conn.behaviour, h, back[..1], back[1]);
  }

  /** `create_upstream_context_with_handshake` up to `yield`: the front
      calls, the callback if the handshake callback flag is set, expect a
      ServiceDescription; a failure, or the skip of a missing callback,
      closes the connection and is raised again. */
  method EnterUpstreamContextWithHandshake(env: EnvironmentManager, b: Behaviour, host: string, port: int)
    returns (conn: Connection, o: Outcome)
    modifies env`callbackUsed, env`invocations
    ensures fresh(conn) && conn.role == Upstream && conn.behaviour == b
    ensures var p := Perform(b, env.callback.Some?, [],
                             UpstreamHandshakeSetup(host, port, old(env.ServiceDescriptionMessage()), env.executeHandshakeCallback));
      && o == p.outcome
      && conn.trace == p.trace + (if o.Raised? then [Close] else [])
      && env.invocations == old(env.invocations) + Invocations(env.callback, p.notified)
      && env.callbackUsed == (old(env.callbackUsed) || p.notified != [])
  {
    var sd := env.ServiceDescriptionMessage();
    ghost var hc := env.executeHandshakeCallback;
    ghost var hasCallback := env.callback.Some?;
    ghost var front := UpstreamHandshakeFront(host, port, sd);
    ghost var back := UpstreamHandshakeBack();
    conn, o := UpstreamHandshakeFrontCalls(b, host, port, sd);
    if o.Raised? {
      PerformFrontFails(b, hasCallback, front, hc, back, |conn.trace| - 1);
      assert old(env.invocations) + [] == old(env.invocations);
    } else {
      o := env.OptionalHandshakeCallback();
      if o.Raised? {
        PerformCallbackSkips(b, hasCallback, front, hc, back);
        assert old(env.invocations) + [] == old(env.invocations);
      } else {
        PerformPastCallback(b, hasCallback, front, hc, back);
        o := UpstreamHandshakeBackCalls(conn);
        if o.Raised? {
          PerformFailing(b, hasCallback, front, back, |conn.trace| - |front| - 1);
        } else {
          PerformSucceeding(b, hasCallback, front, back);
        }
      }
    }
    if o.Raised? {
      conn.Close();
    }
  }

  /** `create_downstream_context_with_handshake` up to `yield`: the front
      calls, the callback if the handshake callback flag is set, expect a
      ServiceDescription, send the ServiceDescription. A failure is raised
      again, after close when the handler catches it: the package's own
      handler is ExceptException. */
  method EnterDownstreamContextWithHandshake(env: EnvironmentManager, b: Behaviour, host: string, port: int, handler: Handler)
    returns (conn: Connection, o: Outcome)
    modifies env`callbackUsed, env`invocations
    ensures fresh(conn) && conn.role == Downstream && conn.behaviour == b
    ensures var p := Perform(b, env.callback.Some?, [],
                             DownstreamHandshakeSetup(host, port, old(env.ServiceDescriptionMessage()), env.executeHandshakeCallback));
      && o == p.outcome
      && conn.trace == p.trace + (if o.Raised? then CloseIf(handler, o) else [])
      && env.invocations == old(env.invocations) + Invocations(env.callback, p.notified)
      && env.callbackUsed == (old(env.callbackUsed) || p.notified != [])
  {
    ghost var hc := env.executeHandshakeCallback;
    ghost var sd := env.ServiceDescriptionMessage();
    ghost var hasCallback := env.callback.Some?;
    ghost var front := DownstreamHandshakeFront(host, port);
    ghost var back := DownstreamHandshakeBack(sd);
    conn, o := DownstreamHandshakeFrontCalls(b, host, port);
    if o.Raised? {
      PerformFrontFails(b, hasCallback, front, hc, back, |conn.trace| - 1);
      assert old(env.invocations) + [] == old(env.invocations);
    } else {
      o := env.OptionalHandshakeCallback();
      if o.Raised? {
        PerformCallbackSkips(b, hasCallback, front, hc, back);
        assert old(env.invocations) + [] == old(env.invocations);
      } else {
        PerformPastCallback(b, hasCallback, front, hc, back);
        o := DownstreamHandshakeBackCalls(conn, env.ServiceDescriptionMessage());
        if o.Raised? {
          PerformFailing(b, hasCallback, front, back, |conn.trace| - |front| - 1);
        } else {
          PerformSucceeding(b, hasCallback, front, back);
        }
      }
    }
    if o.Raised? {
      o := LeaveContext(conn, handler, o);
    }
  }

  /** A context manager's code after `yield` together with its exception
      handler: the body's outcome passes through, and close is called when the
      body returned or the handler catches what it raised. */
  method LeaveContext(conn: Connection, handler: Handler, bodyOutcome: Outcome) returns (o: Outcome)
    modifies conn
    ensures o == bodyOutcome && conn.trace == old(conn.trace) + CloseIf(handler, bodyOutcome)
  {
    if bodyOutcome.Returned? || Catches(handler, bodyOutcome.exc) {
      conn.Close();
    }
    o := bodyOutcome;
  }
}
