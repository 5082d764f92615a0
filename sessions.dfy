/**
 * The three connection sessions of the test-case package
 * (`create_upstream_context`, `create_upstream_context_with_handshake`,
 * `create_downstream_context_with_handshake`), specified as pure functions.
 *
 * A session takes setup steps, each of which calls an operation on the
 * connection or runs the environment's callback, then the operations of the
 * `with` body. The first step that raises stops the rest. The session's
 * exception handler decides whether `close` is still called before the
 * exception is raised again. The methods in TestCases perform the same steps
 * on a Connection object and are proved to leave the trace given here.
 */
module Sessions {
  import opened Runtime
  import opened Hermes

  const SystemUnderTestHost: string := "127.0.0.1"
  const SystemUnderTestPort: int := 50101

  /** The package's `__name__`, the first argument of its callbacks, as it is
      when the package is imported under its top-level name `test_cases`. */
  const ModuleName: string := "test_cases"
  const HandshakeInstruction: seq<string> := [ModuleName, "Action required: Send ServiceDescription"]
  const DoneInstruction: seq<string> := [ModuleName, "Done."]

  /** The timeout the downstream session waits for the peer with. */
  const AcceptTimeout: int := 10

  /** A step of a session: an operation on the connection, or
      `env.run_callback(*args)`. */
  datatype Step = Call(op: Op) | Notify(args: seq<string>)

  /** Where a run of steps ends: the operations called on the connection,
      the argument lists the callback received, and how it ended. */
  datatype Run = Run(trace: seq<Op>, notified: seq<seq<string>>, outcome: Outcome)

  /** The connection operations among steps, in order. */
  function Ops(steps: seq<Step>): (ops: seq<Op>)
    ensures |ops| <= |steps|
  {
    if steps == [] then []
    else if steps[0].Call? then [steps[0].op] + Ops(steps[1..])
    else Ops(steps[1..])
  }

  /** The callback argument lists among steps, in order. */
  function Notices(steps: seq<Step>): seq<seq<string>> {
    if steps == [] then []
    else if steps[0].Notify? then [steps[0].args] + Notices(steps[1..])
    else Notices(steps[1..])
  }

  /** One step per operation, calling it. */
  function Calls(ops: seq<Op>): (steps: seq<Step>)
    ensures |steps| == |ops|
    ensures Ops(steps) == ops && Notices(steps) == []
  {
    if ops == [] then [] else [Call(ops[0])] + Calls(ops[1..])
  }

  lemma {:induction false} OpsAppend(s1: seq<Step>, s2: seq<Step>)
    ensures Ops(s1 + s2) == Ops(s1) + Ops(s2)
    ensures Notices(s1 + s2) == Notices(s1) + Notices(s2)
    decreases |s1|
  {
    if s1 == [] {
      assert s1 + s2 == s2;
    } else {
      assert (s1 + s2)[0] == s1[0];
      assert (s1 + s2)[1..] == s1[1..] + s2;
      OpsAppend(s1[1..], s2);
    }
  }

  /** Takes steps in order on a connection whose trace so far is h, with or
      without a registered callback, until one raises: the trace grows by a
      prefix of the steps' operations, all of them when nothing raised. */
  function Perform(b: Behaviour, hasCallback: bool, h: seq<Op>, steps: seq<Step>): (r: Run)
    ensures h <= r.trace <= h + Ops(steps)
    ensures r.outcome.Returned? ==> r.trace == h + Ops(steps) && r.notified == Notices(steps)
    ensures !hasCallback ==> r.notified == []
    decreases |steps|
  {
    if steps == [] then Run(h, [], Returned)
    else match steps[0]
      case Call(op) =>
        assert h + Ops(steps) == (h + [op]) + Ops(steps[1..]);
        var o := b(h, op);
        if o.Raised? then Run(h + [op], [], o)
        else Perform(b, hasCallback, h + [op], steps[1..])
      case Notify(args) =>
        assert Ops(steps) == Ops(steps[1..]);
        if !hasCallback then Run(h, [], Raised(MissingCallback))
        else
          var rest := Perform(b, hasCallback, h, steps[1..]);
          rest.(notified := [args] + rest.notified)
  }

  /** A run that ended in p1, continued with steps s2. */
  function Continue(b: Behaviour, hasCallback: bool, p1: Run, s2: seq<Step>): Run {
    if p1.outcome.Raised? then p1
    else
      var p2 := Perform(b, hasCallback, p1.trace, s2);
      p2.(notified := p1.notified + p2.notified)
  }

  /** One step of Perform: a call that returns. */
  lemma UnfoldCall(b: Behaviour, hasCallback: bool, h: seq<Op>, s: seq<Step>)
    requires s != [] && s[0].Call? && b(h, s[0].op).Returned?
    ensures Perform(b, hasCallback, h, s) == Perform(b, hasCallback, h + [s[0].op], s[1..])
  {
  }

  /** One step of Perform: a call that raises. */
  lemma UnfoldCallRaises(b: Behaviour, hasCallback: bool, h: seq<Op>, s: seq<Step>)
    requires s != [] && s[0].Call? && b(h, s[0].op).Raised?
    ensures Perform(b, hasCallback, h, s) == Run(h + [s[0].op], [], b(h, s[0].op))
  {
  }

  /** One step of Perform: the callback runs. */
  lemma UnfoldNotify(b: Behaviour, hasCallback: bool, h: seq<Op>, s: seq<Step>)
    requires s != [] && s[0].Notify? && hasCallback
    ensures var rest := Perform(b, hasCallback, h, s[1..]);
      Perform(b, hasCallback, h, s) == rest.(notified := [s[0].args] + rest.notified)
  {
  }

  /** One step of Perform: no callback, so a skip. */
  lemma UnfoldNotifySkips(b: Behaviour, hasCallback: bool, h: seq<Op>, s: seq<Step>)
    requires s != [] && s[0].Notify? && !hasCallback
    ensures Perform(b, hasCallback, h, s) == Run(h, [], Raised(MissingCallback))
  {
  }

  /** Taking s1 then s2 is taking s1 and, if it returned, s2 from there. */
  lemma {:induction false} PerformAppend(b: Behaviour, hasCallback: bool, h: seq<Op>, s1: seq<Step>, s2: seq<Step>)
    ensures Perform(b, hasCallback, h, s1 + s2) == Continue(b, hasCallback, Perform(b, hasCallback, h, s1), s2)
    decreases |s1|
  {
    if s1 == [] {
      assert s1 + s2 == s2;
    } else {
      var s := s1 + s2;
      assert s[0] == s1[0];
      assert s[1..] == s1[1..] + s2;
      match s1[0]
      case Call(op) =>
        if b(h, op).Returned? {
          UnfoldCall(b, hasCallback, h, s);
          UnfoldCall(b, hasCallback, h, s1);
          PerformAppend(b, hasCallback, h + [op], s1[1..], s2);
        } else {
          UnfoldCallRaises(b, hasCallback, h, s);
          UnfoldCallRaises(b, hasCallback, h, s1);
        }
      case Notify(args) =>
        if hasCallback {
          UnfoldNotify(b, hasCallback, h, s);
          UnfoldNotify(b, hasCallback, h, s1);
          PerformAppend(b, hasCallback, h, s1[1..], s2);
          var p1 := Perform(b, hasCallback, h, s1[1..]);
          if p1.outcome.Returned? {
            var p2 := Perform(b, hasCallback, p1.trace, s2);
            assert [args] + (p1.notified + p2.notified) == ([args] + p1.notified) + p2.notified;
          }
        } else {
          UnfoldNotifySkips(b, hasCallback, h, s);
          UnfoldNotifySkips(b, hasCallback, h, s1);
        }
    }
  }

  /** The callback receives a prefix of the steps' argument lists. */
  lemma {:induction false} PerformNotifiedPrefix(b: Behaviour, hasCallback: bool, h: seq<Op>, steps: seq<Step>)
    ensures Perform(b, hasCallback, h, steps).notified <= Notices(steps)
    decreases |steps|
  {
    if steps != [] {
      match steps[0]
      case Call(op) =>
        if b(h, op).Returned? {
          PerformNotifiedPrefix(b, hasCallback, h + [op], steps[1..]);
        }
      case Notify(args) =>
        if hasCallback {
          PerformNotifiedPrefix(b, hasCallback, h, steps[1..]);
        }
    }
  }

  /** Every operation of ops returns, called in order after h. */
  predicate Succeeds(b: Behaviour, h: seq<Op>, ops: seq<Op>)
    decreases |ops|
  {
    ops == [] || (b(h, ops[0]).Returned? && Succeeds(b, h + [ops[0]], ops[1..]))
  }

  /** Operations that all return, followed by one more that returns. */
  lemma {:induction false} SucceedsSnoc(b: Behaviour, h: seq<Op>, ops: seq<Op>, x: Op)
    requires Succeeds(b, h, ops) && b(h + ops, x).Returned?
    ensures Succeeds(b, h, ops + [x])
    decreases |ops|
  {
    if ops == [] {
      assert h + ops == h;
      assert ops + [x] == [x];
    } else {
      assert h + [ops[0]] + ops[1..] == h + ops;
      SucceedsSnoc(b, h + [ops[0]], ops[1..], x);
      assert (ops + [x])[0] == ops[0];
      assert (ops + [x])[1..] == ops[1..] + [x];
    }
  }

  /** Calling operations that all return returns, having called them. */
  lemma {:induction false} PerformSucceeding(b: Behaviour, hasCallback: bool, h: seq<Op>, ops: seq<Op>)
    requires Succeeds(b, h, ops)
    ensures Perform(b, hasCallback, h, Calls(ops)) == Run(h + ops, [], Returned)
    decreases |ops|
  {
    if ops != [] {
      var s := Calls(ops);
      assert s[0] == Call(ops[0]);
      assert s[1..] == Calls(ops[1..]);
      PerformSucceeding(b, hasCallback, h + [ops[0]], ops[1..]);
    }
  }

  /** Steps that only call operations never run the callback. */
  lemma {:induction false} PerformCallsSilent(b: Behaviour, hasCallback: bool, h: seq<Op>, ops: seq<Op>)
    ensures Perform(b, hasCallback, h, Calls(ops)).notified == []
    decreases |ops|
  {
    if ops != [] {
      var s := Calls(ops);
      assert s[0] == Call(ops[0]);
      assert s[1..] == Calls(ops[1..]);
      PerformCallsSilent(b, hasCallback, h + [ops[0]], ops[1..]);
    }
  }

  /** One step per operation distributes over concatenation. */
  lemma {:induction false} CallsAppend(a: seq<Op>, c: seq<Op>)
    ensures Calls(a + c) == Calls(a) + Calls(c)
    decreases |a|
  {
    if a == [] {
      assert a + c == c;
    } else {
      assert (a + c)[0] == a[0];
      assert (a + c)[1..] == a[1..] + c;
      CallsAppend(a[1..], c);
    }
  }

  /** Calling operations whose first k return and whose k-th raises stops
      there: the trace gains the first k + 1 of them and the run ends with
      the k-th's exception. */
  lemma PerformFailing(b: Behaviour, hasCallback: bool, h: seq<Op>, ops: seq<Op>, k: nat)
    requires k < |ops| && Succeeds(b, h, ops[..k]) && b(h + ops[..k], ops[k]).Raised?
    ensures Perform(b, hasCallback, h, Calls(ops)) == Run(h + ops[..k + 1], [], b(h + ops[..k], ops[k]))
  {
    assert ops == ops[..k] + ops[k..];
    CallsAppend(ops[..k], ops[k..]);
    PerformAppend(b, hasCallback, h, Calls(ops[..k]), Calls(ops[k..]));
    PerformSucceeding(b, hasCallback, h, ops[..k]);
    var s := Calls(ops[k..]);
    assert s[0] == Call(ops[k]);
    assert h + ops[..k] + [ops[k]] == h + ops[..k + 1];
  }

  /** The argument lists the handshake callback step passes on. */
  function HandshakeNotices(handshakeCallback: bool): (n: seq<seq<string>>)
    ensures n == Notices(HandshakeCallbackStep(handshakeCallback))
    ensures |n| <= 1 && forall i :: 0 <= i < |n| ==> n[i] == HandshakeInstruction
  {
    if handshakeCallback then [HandshakeInstruction] else []
  }

  /** The optional handshake callback, then operations back. */
  lemma PerformCallbackStep(b: Behaviour, hasCallback: bool, h: seq<Op>, hc: bool, back: seq<Op>)
    ensures Perform(b, hasCallback, h, HandshakeCallbackStep(hc) + Calls(back)) ==
      if hc && !hasCallback then Run(h, [], Raised(MissingCallback))
      else Perform(b, hasCallback, h, Calls(back)).(notified := HandshakeNotices(hc))
  {
    var tail := HandshakeCallbackStep(hc) + Calls(back);
    PerformCallsSilent(b, hasCallback, h, back);
    if hc {
      assert tail[0] == Notify(HandshakeInstruction);
      assert tail[1..] == Calls(back);
    } else {
      assert tail == Calls(back);
    }
  }

  /** Operations front that all return, the optional handshake callback, then
      operations back: without a callback a requested handshake callback is
      skipped; otherwise back runs after front with the callback notified. */
  lemma PerformAroundCallback(b: Behaviour, hasCallback: bool, front: seq<Op>, hc: bool, back: seq<Op>)
    requires Succeeds(b, [], front)
    ensures Perform(b, hasCallback, [], Calls(front) + HandshakeCallbackStep(hc) + Calls(back)) ==
      if hc && !hasCallback then Run(front, [], Raised(MissingCallback))
      else Perform(b, hasCallback, front, Calls(back)).(notified := HandshakeNotices(hc))
  {
    var tail := HandshakeCallbackStep(hc) + Calls(back);
    assert Calls(front) + HandshakeCallbackStep(hc) + Calls(back) == Calls(front) + tail;
    PerformAppend(b, hasCallback, [], Calls(front), tail);
    PerformSucceeding(b, hasCallback, [], front);
    assert [] + front == front;
    PerformCallbackStep(b, hasCallback, front, hc, back);
  }

  /** The exception handler around a session: a bare `except:` or
      `except Exception:`. */
  datatype Handler = BareExcept | ExceptException

  /** Whether the handler catches e: an ordinary exception both do, a skip
      only the bare `except:`. */
  predicate Catches(handler: Handler, e: Exc)
    ensures e.Error? ==> Catches(handler, e)
    ensures e.Skipped? ==> (Catches(handler, e) <==> handler.BareExcept?)
  {
    handler.BareExcept? || IsException(e)
  }

  /** The close a session ends with: after the body returned, or when the
      handler caught the exception (which it then raises again). */
  function CloseIf(handler: Handler, o: Outcome): seq<Op> {
    if o.Returned? || Catches(handler, o.exc) then [Close] else []
  }

  /** A session: setup, then the `with` body's operations, stopping at the
      first step that raises, then the close the handler allows. */
  function Session(b: Behaviour, hasCallback: bool, handler: Handler, setup: seq<Step>, body: seq<Op>): Run {
    var p := Perform(b, hasCallback, [], setup + Calls(body));
    p.(trace := p.trace + CloseIf(handler, p.outcome))
  }

  /** A session that returns took every step of the setup and the body, in
      order, and then closed. */
  lemma SessionReturned(b: Behaviour, hasCallback: bool, handler: Handler, setup: seq<Step>, body: seq<Op>)
    ensures var r := Session(b, hasCallback, handler, setup, body);
      r.outcome.Returned? ==> r.trace == Ops(setup) + body + [Close] && r.notified == Notices(setup)
  {
    var p := Perform(b, hasCallback, [], setup + Calls(body));
    if p.outcome.Returned? {
      OpsAppend(setup, Calls(body));
      assert p.trace == Ops(setup) + body;
      assert p.notified == Notices(setup);
    }
  }

  /** Under a bare `except:` every path ends with close, after a prefix of
      the setup and body operations. */
  lemma ClosesOnEveryPath(b: Behaviour, hasCallback: bool, setup: seq<Step>, body: seq<Op>)
    ensures var r := Session(b, hasCallback, BareExcept, setup, body);
      |r.trace| > 0 && r.trace[|r.trace| - 1] == Close && r.trace[..|r.trace| - 1] <= Ops(setup) + body
  {
    OpsAppend(setup, Calls(body));
    var p := Perform(b, hasCallback, [], setup + Calls(body));
    assert [] + Ops(setup + Calls(body)) == Ops(setup) + body;
    var t := p.trace + [Close];
    assert t[..|t| - 1] == p.trace;
  }

  /** Taking the setup and then the body is the session: close follows the
      setup's failure when caught, and otherwise the body's end. */
  lemma SessionSplit(b: Behaviour, hasCallback: bool, handler: Handler, setup: seq<Step>, body: seq<Op>)
    ensures var p := Perform(b, hasCallback, [], setup);
      var r := Session(b, hasCallback, handler, setup, body);
      && (p.outcome.Raised? ==> r == p.(trace := p.trace + CloseIf(handler, p.outcome)))
      && (p.outcome.Returned? ==>
            var q := Perform(b, hasCallback, p.trace, Calls(body));
            r == Run(q.trace + CloseIf(handler, q.outcome), p.notified + q.notified, q.outcome))
  {
    PerformAppend(b, hasCallback, [], setup, Calls(body));
  }

  /** Some operation fails unless all of them return; k is the first. */
  lemma {:induction false} FirstFailure(b: Behaviour, h: seq<Op>, ops: seq<Op>) returns (k: nat)
    requires !Succeeds(b, h, ops)
    ensures k < |ops| && Succeeds(b, h, ops[..k]) && b(h + ops[..k], ops[k]).Raised?
    decreases |ops|
  {
    if b(h, ops[0]).Raised? {
      k := 0;
      assert h + ops[..0] == h;
    } else {
      var j := FirstFailure(b, h + [ops[0]], ops[1..]);
      k := j + 1;
      assert ops[..k][0] == ops[0] && ops[..k][1..] == ops[1..][..j];
      assert h + [ops[0]] + ops[1..][..j] == h + ops[..k];
      assert ops[1..][j] == ops[k];
    }
  }

  // ---------------------------------------------------------------------
  // Sessions of handshake shape: operations front, the optional handshake
  // callback, operations back, then the body

  /** A session whose setup is front, the optional handshake callback and
      back: one that returns called front, back, the body and close, and
      passed the callback the handshake instruction iff the flag was set. */
  function HandshakeSession(b: Behaviour, hasCallback: bool, handler: Handler, front: seq<Op>, hc: bool,
                            back: seq<Op>, body: seq<Op>): (r: Run)
    ensures r.outcome.Returned? ==> r.trace == front + back + body + [Close] && r.notified == HandshakeNotices(hc)
  {
    HandshakeSetupSteps(front, hc, back);
    SessionReturned(b, hasCallback, handler, Calls(front) + HandshakeCallbackStep(hc) + Calls(back), body);
    Session(b, hasCallback, handler, Calls(front) + HandshakeCallbackStep(hc) + Calls(back), body)
  }

  /** The setup of a handshake-shaped session calls front then back and
      notifies the handshake instruction iff the flag is set. */
  lemma HandshakeSetupSteps(front: seq<Op>, hc: bool, back: seq<Op>)
    ensures Ops(Calls(front) + HandshakeCallbackStep(hc) + Calls(back)) == front + back
    ensures Notices(Calls(front) + HandshakeCallbackStep(hc) + Calls(back)) == HandshakeNotices(hc)
  {
    OpsAppend(Calls(front), HandshakeCallbackStep(hc));
    OpsAppend(Calls(front) + HandshakeCallbackStep(hc), Calls(back));
  }

  /** The handshake callback step, present iff the flag is set. */
  function HandshakeCallbackStep(handshakeCallback: bool): (s: seq<Step>)
    ensures Ops(s) == []
  {
    if handshakeCallback then [Notify(HandshakeInstruction)] else []
  }

  lemma HandshakeSteps(front: seq<Op>, hc: bool, back: seq<Op>, body: seq<Op>)
    ensures Calls(front) + HandshakeCallbackStep(hc) + Calls(back) + Calls(body)
         == Calls(front) + HandshakeCallbackStep(hc) + Calls(back + body)
    ensures Calls(front) + HandshakeCallbackStep(hc) + Calls(back) + Calls(body)
         == Calls(front) + (HandshakeCallbackStep(hc) + Calls(back + body))
  {
    CallsAppend(back, body);
    Regroup(Calls(front), HandshakeCallbackStep(hc), Calls(back), Calls(body));
  }

  lemma Regroup<T>(f: seq<T>, h: seq<T>, c: seq<T>, d: seq<T>)
    ensures f + h + c + d == f + h + (c + d) == f + (h + (c + d))
    ensures f + (h + c) + d == f + h + c + d
    ensures f + h + c == f + (h + c)
  {
  }

  /** The skip of a missing callback stops the run after front. */
  lemma PerformCallbackSkips(b: Behaviour, hasCallback: bool, front: seq<Op>, hc: bool, back: seq<Op>)
    requires Succeeds(b, [], front) && hc && !hasCallback
    ensures Perform(b, hasCallback, [], Calls(front) + HandshakeCallbackStep(hc) + Calls(back))
      == Run(front, [], Raised(MissingCallback))
  {
    PerformAroundCallback(b, hasCallback, front, hc, back);
  }

  /** After front and the callback, back runs from front, the callback
      having received what the handshake asked for. */
  lemma PerformPastCallback(b: Behaviour, hasCallback: bool, front: seq<Op>, hc: bool, back: seq<Op>)
    requires Succeeds(b, [], front) && (!hc || hasCallback)
    ensures var q := Perform(b, hasCallback, front, Calls(back));
      Perform(b, hasCallback, [], Calls(front) + HandshakeCallbackStep(hc) + Calls(back))
        == Run(q.trace, HandshakeNotices(hc), q.outcome)
  {
    PerformAroundCallback(b, hasCallback, front, hc, back);
  }

  /** Operations front whose k-th fails, then the optional callback and
      operations rest: the run stops at the k-th. */
  lemma PerformFrontFails(b: Behaviour, hasCallback: bool, front: seq<Op>, hc: bool, rest: seq<Op>, k: nat)
    requires k < |front| && Succeeds(b, [], front[..k]) && b(front[..k], front[k]).Raised?
    ensures Perform(b, hasCallback, [], Calls(front) + HandshakeCallbackStep(hc) + Calls(rest))
      == Run(front[..k + 1], [], b(front[..k], front[k]))
  {
    Regroup(Calls(front), HandshakeCallbackStep(hc), Calls(rest), []);
    PerformAppend(b, hasCallback, [], Calls(front), HandshakeCallbackStep(hc) + Calls(rest));
    assert [] + front[..k] == front[..k];
    assert [] + front[..k + 1] == front[..k + 1];
    PerformFailing(b, hasCallback, [], front, k);
  }

  /** The callback receives the handshake instruction at most once, and
      only when the flag is set and a callback is registered. */
  lemma HandshakeNotified(b: Behaviour, hasCallback: bool, handler: Handler, front: seq<Op>, hc: bool,
                          back: seq<Op>, body: seq<Op>)
    ensures var r := HandshakeSession(b, hasCallback, handler, front, hc, back, body);
      && (r.notified == [] || (hc && hasCallback && r.notified == [HandshakeInstruction]))
      && (r.outcome.Returned? ==> r.notified == HandshakeNotices(hc))
  {
    var setup := Calls(front) + HandshakeCallbackStep(hc) + Calls(back);
    OpsAppend(Calls(front), HandshakeCallbackStep(hc));
    OpsAppend(Calls(front) + HandshakeCallbackStep(hc), Calls(back));
    OpsAppend(setup, Calls(body));
    assert Notices(setup + Calls(body)) == HandshakeNotices(hc);
    PerformNotifiedPrefix(b, hasCallback, [], setup + Calls(body));
  }

  /** The k-th front operation fails after the ones before it returned: the
      session stops there, closing as the handler allows. */
  lemma HandshakeFrontFails(b: Behaviour, hasCallback: bool, handler: Handler, front: seq<Op>, hc: bool,
                            back: seq<Op>, body: seq<Op>, k: nat)
    requires k < |front| && Succeeds(b, [], front[..k]) && b(front[..k], front[k]).Raised?
    ensures var e := b(front[..k], front[k]);
      HandshakeSession(b, hasCallback, handler, front, hc, back, body)
        == Run(front[..k + 1] + CloseIf(handler, e), [], e)
  {
    HandshakeSteps(front, hc, back, body);
    PerformFrontFails(b, hasCallback, front, hc, back + body, k);
  }

  /** The front returned and the handshake callback is asked for, but no
      callback is registered: the session skips before back. */
  lemma HandshakeCallbackSkips(b: Behaviour, hasCallback: bool, handler: Handler, front: seq<Op>, hc: bool,
                               back: seq<Op>, body: seq<Op>)
    requires Succeeds(b, [], front) && hc && !hasCallback
    ensures HandshakeSession(b, hasCallback, handler, front, hc, back, body)
      == Run(front + CloseIf(handler, Raised(MissingCallback)), [], Raised(MissingCallback))
  {
    HandshakeSteps(front, hc, back, body);
    PerformAroundCallback(b, hasCallback, front, hc, back + body);
  }

  /** Everything returned: every operation ran in order, then close. */
  lemma HandshakeReturned(b: Behaviour, hasCallback: bool, handler: Handler, front: seq<Op>, hc: bool,
                          back: seq<Op>, body: seq<Op>)
    requires Succeeds(b, [], front) && (!hc || hasCallback) && Succeeds(b, front, back + body)
    ensures HandshakeSession(b, hasCallback, handler, front, hc, back, body)
      == Run(front + back + body + [Close], HandshakeNotices(hc), Returned)
  {
    var steps := Calls(front) + HandshakeCallbackStep(hc) + Calls(back) + Calls(body);
    HandshakeSteps(front, hc, back, body);
    PerformAroundCallback(b, hasCallback, front, hc, back + body);
    PerformSucceeding(b, hasCallback, front, back + body);
    var p := Perform(b, hasCallback, [], steps);
    assert p == Run(front + (back + body), HandshakeNotices(hc), Returned);
    assert CloseIf(handler, p.outcome) == [Close];
    assert HandshakeSession(b, hasCallback, handler, front, hc, back, body) == p.(trace := p.trace + [Close]);
    Regroup(front, back, body, [Close]);
  }

  /** The k-th operation after the callback fails: the session stops there,
      closing as the handler allows. */
  lemma HandshakeBackFails(b: Behaviour, hasCallback: bool, handler: Handler, front: seq<Op>, hc: bool,
                           back: seq<Op>, body: seq<Op>, k: nat)
    requires Succeeds(b, [], front) && (!hc || hasCallback)
    requires k < |back + body| && Succeeds(b, front, (back + body)[..k])
    requires b(front + (back + body)[..k], (back + body)[k]).Raised?
    ensures var e := b(front + (back + body)[..k], (back + body)[k]);
      HandshakeSession(b, hasCallback, handler, front, hc, back, body)
        == Run(front + (back + body)[..k + 1] + CloseIf(handler, e), HandshakeNotices(hc), e)
  {
    HandshakeSteps(front, hc, back, body);
    PerformAroundCallback(b, hasCallback, front, hc, back + body);
    PerformFailing(b, hasCallback, front, back + body, k);
  }

  // ---------------------------------------------------------------------
  // The three context managers

  /** The operations of `create_upstream_context` before the body. */
  function UpstreamOps(receive: bool, host: string, port: int): (ops: seq<Op>)
    ensures |ops| > 0 && ops[0] == Connect(host, port)
    ensures receive <==> StartReceiving in ops
    ensures receive ==> ops == [Connect(host, port), StartReceiving]
    ensures !receive ==> ops == [Connect(host, port)]
  {
    [Connect(host, port)] + (if receive then [StartReceiving] else [])
  }

  /** Setup of `create_upstream_context`: its operations only, no callback. */
  function UpstreamSetup(receive: bool, host: string, port: int): (s: seq<Step>)
    ensures Ops(s) == UpstreamOps(receive, host, port) && Notices(s) == []
  {
    Calls(UpstreamOps(receive, host, port))
  }

  /** The operations before the handshake callback in the upstream session. */
  function UpstreamHandshakeFront(host: string, port: int, sd: Message): (ops: seq<Op>)
    ensures |ops| > 0 && ops[0] == Connect(host, port) && ops[|ops| - 1] == SendMsg(sd)
  {
    [Connect(host, port), StartReceiving, SendMsg(sd)]
  }

  /** The operations after the handshake callback in the upstream session. */
  function UpstreamHandshakeBack(): (ops: seq<Op>)
    ensures |ops| == 1 && ops[0].ExpectMessage?
  {
    [ExpectMessage(ByTag(ServiceDescriptionTag))]
  }

  /** Setup of `create_upstream_context_with_handshake`: the front and back
      operations, the handshake instruction notified iff the flag is set. */
  function UpstreamHandshakeSetup(host: string, port: int, sd: Message, hc: bool): seq<Step> {
    Calls(UpstreamHandshakeFront(host, port, sd)) + HandshakeCallbackStep(hc) + Calls(UpstreamHandshakeBack())
  }

  /** The operations before the handshake callback in the downstream session. */
  function DownstreamHandshakeFront(host: string, port: int): (ops: seq<Op>)
    ensures |ops| > 0 && ops[0] == Connect(host, port) && ops[|ops| - 1] == WaitForConnection(AcceptTimeout)
  {
    [Connect(host, port), WaitForConnection(AcceptTimeout)]
  }

  /** The operations after the handshake callback in the downstream session. */
  function DownstreamHandshakeBack(sd: Message): (ops: seq<Op>)
    ensures |ops| > 0 && ops[0].ExpectMessage? && ops[|ops| - 1] == SendMsg(sd)
  {
    [ExpectMessage(ByTag(ServiceDescriptionTag)), SendMsg(sd)]
  }

  /** Setup of `create_downstream_context_with_handshake`: the front and
      back operations, the handshake instruction notified iff the flag is
      set. */
  function DownstreamHandshakeSetup(host: string, port: int, sd: Message, hc: bool): seq<Step> {
    Calls(DownstreamHandshakeFront(host, port)) + HandshakeCallbackStep(hc) + Calls(DownstreamHandshakeBack(sd))
  }

  /** `create_upstream_context(receive, host, port)` around a body. */
  function UpstreamContext(b: Behaviour, receive: bool, host: string, port: int, body: seq<Op>): Run {
    Session(b, false, BareExcept, UpstreamSetup(receive, host, port), body)
  }

  /** `create_upstream_context_with_handshake(host, port)` around a body,
      with a callback registered or not, sending sd, with the handshake
      callback flag hc. */
  function UpstreamContextWithHandshake(b: Behaviour, hasCallback: bool, host: string, port: int,
                                        sd: Message, hc: bool, body: seq<Op>): Run {
    Session(b, hasCallback, BareExcept, UpstreamHandshakeSetup(host, port, sd, hc), body)
  }

  /** `create_downstream_context_with_handshake(host, port)` as written:
      only `except Exception` closes the connection. */
  function DownstreamContextWithHandshake(b: Behaviour, hasCallback: bool, host: string, port: int,
                                          sd: Message, hc: bool, body: seq<Op>): Run {
    Session(b, hasCallback, ExceptException, DownstreamHandshakeSetup(host, port, sd, hc), body)
  }

  /** The downstream session with the bare `except:` of the two upstream
      sessions, so that a skip also closes the connection. */
  function DownstreamContextWithHandshakeCorrected(b: Behaviour, hasCallback: bool, host: string, port: int,
                                                   sd: Message, hc: bool, body: seq<Op>): Run {
    Session(b, hasCallback, BareExcept, DownstreamHandshakeSetup(host, port, sd, hc), body)
  }

  // Plain upstream session

  /** Everything returned: connect, start_receiving iff receive, the body,
      then close. */
  lemma UpstreamContextReturned(b: Behaviour, receive: bool, host: string, port: int, body: seq<Op>)
    requires Succeeds(b, [], UpstreamOps(receive, host, port) + body)
    ensures UpstreamContext(b, receive, host, port, body)
      == Run(UpstreamOps(receive, host, port) + body + [Close], [], Returned)
  {
    var ops := UpstreamOps(receive, host, port) + body;
    CallsAppend(UpstreamOps(receive, host, port), body);
    PerformSucceeding(b, false, [], ops);
    assert [] + ops == ops;
  }

  /** The k-th operation fails, even with a skip: the ones after it are not
      called, close is, and the exception is raised again. */
  lemma UpstreamContextFails(b: Behaviour, receive: bool, host: string, port: int, body: seq<Op>, k: nat)
    requires var ops := UpstreamOps(receive, host, port) + body;
      k < |ops| && Succeeds(b, [], ops[..k]) && b(ops[..k], ops[k]).Raised?
    ensures var ops := UpstreamOps(receive, host, port) + body;
      UpstreamContext(b, receive, host, port, body) == Run(ops[..k + 1] + [Close], [], b(ops[..k], ops[k]))
  {
    var ops := UpstreamOps(receive, host, port) + body;
    CallsAppend(UpstreamOps(receive, host, port), body);
    assert [] + ops[..k] == ops[..k];
    assert [] + ops[..k + 1] == ops[..k + 1];
    PerformFailing(b, false, [], ops, k);
  }

  /** On every path: connect first, close last, start_receiving second when
      asked for and connect returned, and never called otherwise unless the
      body calls it; the callback is not used. */
  lemma UpstreamContextOrder(b: Behaviour, receive: bool, host: string, port: int, body: seq<Op>)
    ensures var r := UpstreamContext(b, receive, host, port, body);
      && r.notified == []
      && |r.trace| >= 2 && r.trace[0] == Connect(host, port) && r.trace[|r.trace| - 1] == Close
      && (receive && b([], Connect(host, port)).Returned? ==> r.trace[1] == StartReceiving)
      && (!receive && StartReceiving !in body ==> StartReceiving !in r.trace)
  {
    var ops := UpstreamOps(receive, host, port) + body;
    var r := UpstreamContext(b, receive, host, port, body);
    if Succeeds(b, [], ops) {
      UpstreamContextReturned(b, receive, host, port, body);
      assert r.trace == ops + [Close];
    } else {
      var k := FirstFailure(b, [], ops);
      assert [] + ops[..k] == ops[..k];
      UpstreamContextFails(b, receive, host, port, body, k);
      assert r.trace == ops[..k + 1] + [Close];
      if receive && b([], Connect(host, port)).Returned? {
        assert k != 0;
      }
      if !receive && StartReceiving !in body {
        assert StartReceiving !in ops;
        assert forall i :: 0 <= i < k + 1 ==> ops[..k + 1][i] == ops[i];
      }
    }
  }

  // Upstream handshake session

  /** Everything returned: connect, start_receiving, send ServiceDescription,
      the callback iff asked for, expect ServiceDescription, the body, close. */
  lemma UpstreamHandshakeReturned(b: Behaviour, hasCallback: bool, host: string, port: int, sd: Message, hc: bool, body: seq<Op>)
    requires Succeeds(b, [], UpstreamHandshakeFront(host, port, sd)) && (!hc || hasCallback)
    requires Succeeds(b, UpstreamHandshakeFront(host, port, sd), UpstreamHandshakeBack() + body)
    ensures UpstreamContextWithHandshake(b, hasCallback, host, port, sd, hc, body)
      == Run(UpstreamHandshakeFront(host, port, sd) + UpstreamHandshakeBack() + body + [Close], HandshakeNotices(hc), Returned)
  {
    HandshakeReturned(b, hasCallback, BareExcept, UpstreamHandshakeFront(host, port, sd), hc, UpstreamHandshakeBack(), body);
  }

  /** Connect, start_receiving or the send fails: the later steps are not
      taken, close is. */
  lemma UpstreamHandshakeFrontFails(b: Behaviour, hasCallback: bool, host: string, port: int, sd: Message, hc: bool,
                                    body: seq<Op>, k: nat)
    requires var front := UpstreamHandshakeFront(host, port, sd);
      k < |front| && Succeeds(b, [], front[..k]) && b(front[..k], front[k]).Raised?
    ensures var front := UpstreamHandshakeFront(host, port, sd);
      UpstreamContextWithHandshake(b, hasCallback, host, port, sd, hc, body)
        == Run(front[..k + 1] + [Close], [], b(front[..k], front[k]))
  {
    HandshakeFrontFails(b, hasCallback, BareExcept, UpstreamHandshakeFront(host, port, sd), hc, UpstreamHandshakeBack(), body, k);
  }

  /** The handshake callback is asked for but none is registered: the skip
      is caught, close is called, nothing is expected. */
  lemma UpstreamHandshakeSkips(b: Behaviour, hasCallback: bool, host: string, port: int, sd: Message, hc: bool, body: seq<Op>)
    requires Succeeds(b, [], UpstreamHandshakeFront(host, port, sd)) && hc && !hasCallback
    ensures UpstreamContextWithHandshake(b, hasCallback, host, port, sd, hc, body)
      == Run(UpstreamHandshakeFront(host, port, sd) + [Close], [], Raised(MissingCallback))
  {
    HandshakeCallbackSkips(b, hasCallback, BareExcept, UpstreamHandshakeFront(host, port, sd), hc, UpstreamHandshakeBack(), body);
  }

  /** The expect or the k-th operation after it fails: the later ones are
      not called, close is. */
  lemma UpstreamHandshakeBackFails(b: Behaviour, hasCallback: bool, host: string, port: int, sd: Message, hc: bool,
                                   body: seq<Op>, k: nat)
    requires Succeeds(b, [], UpstreamHandshakeFront(host, port, sd)) && (!hc || hasCallback)
    requires var front, rest := UpstreamHandshakeFront(host, port, sd), UpstreamHandshakeBack() + body;
      k < |rest| && Succeeds(b, front, rest[..k]) && b(front + rest[..k], rest[k]).Raised?
    ensures var front, rest := UpstreamHandshakeFront(host, port, sd), UpstreamHandshakeBack() + body;
      UpstreamContextWithHandshake(b, hasCallback, host, port, sd, hc, body)
        == Run(front + rest[..k + 1] + [Close], HandshakeNotices(hc), b(front + rest[..k], rest[k]))
  {
    HandshakeBackFails(b, hasCallback, BareExcept, UpstreamHandshakeFront(host, port, sd), hc, UpstreamHandshakeBack(), body, k);
  }

  // Downstream handshake session, as written

  /** Everything returned: connect, wait_for_connection(10), the callback
      iff asked for, expect ServiceDescription, send ServiceDescription, the
      body, close. */
  lemma DownstreamHandshakeReturned(b: Behaviour, hasCallback: bool, host: string, port: int, sd: Message, hc: bool, body: seq<Op>)
    requires Succeeds(b, [], DownstreamHandshakeFront(host, port)) && (!hc || hasCallback)
    requires Succeeds(b, DownstreamHandshakeFront(host, port), DownstreamHandshakeBack(sd) + body)
    ensures DownstreamContextWithHandshake(b, hasCallback, host, port, sd, hc, body)
      == Run(DownstreamHandshakeFront(host, port) + DownstreamHandshakeBack(sd) + body + [Close], HandshakeNotices(hc), Returned)
  {
    HandshakeReturned(b, hasCallback, ExceptException, DownstreamHandshakeFront(host, port), hc, DownstreamHandshakeBack(sd), body);
  }

  /** Connect or the wait fails: the later steps are not taken, and close
      is called iff the exception is an Exception. */
  lemma DownstreamHandshakeFrontFails(b: Behaviour, hasCallback: bool, host: string, port: int, sd: Message, hc: bool,
                                      body: seq<Op>, k: nat)
    requires var front := DownstreamHandshakeFront(host, port);
      k < |front| && Succeeds(b, [], front[..k]) && b(front[..k], front[k]).Raised?
    ensures var front, e := DownstreamHandshakeFront(host, port), b(DownstreamHandshakeFront(host, port)[..k], DownstreamHandshakeFront(host, port)[k]);
      DownstreamContextWithHandshake(b, hasCallback, host, port, sd, hc, body)
        == Run(front[..k + 1] + (if IsException(e.exc) then [Close] else []), [], e)
  {
    HandshakeFrontFails(b, hasCallback, ExceptException, DownstreamHandshakeFront(host, port), hc, DownstreamHandshakeBack(sd), body, k);
  }

  /** The expect, the send or the k-th operation after them fails: the later
      ones are not called, and close is called iff the exception is an
      Exception. */
  lemma DownstreamHandshakeBackFails(b: Behaviour, hasCallback: bool, host: string, port: int, sd: Message, hc: bool,
                                     body: seq<Op>, k: nat)
    requires Succeeds(b, [], DownstreamHandshakeFront(host, port)) && (!hc || hasCallback)
    requires var front, rest := DownstreamHandshakeFront(host, port), DownstreamHandshakeBack(sd) + body;
      k < |rest| && Succeeds(b, front, rest[..k]) && b(front + rest[..k], rest[k]).Raised?
    ensures var front, rest := DownstreamHandshakeFront(host, port), DownstreamHandshakeBack(sd) + body;
      var e := b(front + rest[..k], rest[k]);
      DownstreamContextWithHandshake(b, hasCallback, host, port, sd, hc, body)
        == Run(front + rest[..k + 1] + (if IsException(e.exc) then [Close] else []), HandshakeNotices(hc), e)
  {
    HandshakeBackFails(b, hasCallback, ExceptException, DownstreamHandshakeFront(host, port), hc, DownstreamHandshakeBack(sd), body, k);
  }

  /** The handshake callback is asked for but none is registered: the skip
      passes `except Exception` and the connection is left open. */
  lemma DownstreamHandshakeSkipLeaks(b: Behaviour, hasCallback: bool, host: string, port: int, sd: Message, hc: bool, body: seq<Op>)
    requires Succeeds(b, [], DownstreamHandshakeFront(host, port)) && hc && !hasCallback
    ensures var r := DownstreamContextWithHandshake(b, hasCallback, host, port, sd, hc, body);
      && r == Run(DownstreamHandshakeFront(host, port), [], Raised(MissingCallback))
      && Close !in r.trace
  {
    HandshakeCallbackSkips(b, hasCallback, ExceptException, DownstreamHandshakeFront(host, port), hc, DownstreamHandshakeBack(sd), body);
    assert DownstreamHandshakeFront(host, port) + [] == DownstreamHandshakeFront(host, port);
  }

  /** With a bare `except:` the same skip closes the connection. */
  lemma DownstreamHandshakeCorrectedSkipCloses(b: Behaviour, hasCallback: bool, host: string, port: int, sd: Message, hc: bool,
                                               body: seq<Op>)
    requires Succeeds(b, [], DownstreamHandshakeFront(host, port)) && hc && !hasCallback
    ensures DownstreamContextWithHandshakeCorrected(b, hasCallback, host, port, sd, hc, body)
      == Run(DownstreamHandshakeFront(host, port) + [Close], [], Raised(MissingCallback))
  {
    HandshakeCallbackSkips(b, hasCallback, BareExcept, DownstreamHandshakeFront(host, port), hc, DownstreamHandshakeBack(sd), body);
  }
}
