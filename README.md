# Hermes acceptance tests: test-case machinery and downstream-interface scenarios

This project models the core of an acceptance-test suite for IPC-Hermes-9852.
IPC-Hermes-9852 is the machine-to-machine protocol that lets SMT line machines
pass boards downstream. The model covers two files:

- **The test-case package** (`test_cases/__init__.py`):
  - the `hermes_testcase` decorator and the registry it fills;
  - the wrapper the decorator returns, which runs the start-of-test and
    end-of-test callbacks around the test function;
  - the process-wide `EnvironmentManager`, which holds the user-interface
    callback, its `callback_used` flag, the handshake-callback flag and the
    machine and lane ids;
  - the three connection context managers `create_upstream_context`,
    `create_upstream_context_with_handshake` and
    `create_downstream_context_with_handshake`.
- **The downstream-interface scenarios** (`test_cases/test_downstream_ifc.py`):
  - which functions are registered;
  - the two loops of ten sessions;
  - the handshake session;
  - how the maximum-size payload and the three-frame packet are built.

## Modules

- `runtime.dfy`, module `Runtime`. The Python semantics the code relies on:
  - a call returns or raises;
  - `pytest.skip` raises a `BaseException` that is not an `Exception`, so
    `except Exception:` misses it and a bare `except:` catches it;
  - byte strings;
  - slicing, with negative bounds counting from the end and bounds clamped;
  - `bytes.find`, which gives -1 when the pattern is absent;
  - `n * b"x"`, which is empty for `n <= 0`.
- `hermes.dfy`, module `Hermes`. The protocol library as the test cases see
  it: the message and tag values they build, and a `Connection` class.
  - A connection records every operation called on it, in order.
  - A behaviour decides how each operation ends. It receives the operations
    called before. It stands for the network, the system under test and the
    timeouts together.
- `sessions.dfy`, module `Sessions`. The sessions as pure functions.
  - A session takes setup steps (operations, or a run of the callback),
    then the body's operations, stopping at the first step that raises.
  - The handler then decides whether `close` is called before the exception
    propagates.
- `test_cases.dfy`, module `TestCases`.
  - The `Registry` and `EnvironmentManager` classes, whose methods update
    their fields.
  - The context managers as imperative methods on a `Connection`: the part
    before `yield`, and the part after it together with the handler. These
    are proved to leave the trace, outcome and callback invocations that
    module `Sessions` gives.
- `downstream_ifc.dfy`, module `DownstreamIfc`.
  - Payload crafting and the scenario bodies.
  - The scenarios as methods. Each loop is a `while` loop, proved against a
    function of the sessions it has run.
  - The module's registrations, and the decorator's wrapper run around a
    scenario.

## Parameters

These are parameters because the code they come from is not part of this model:

- the peer's behaviour, one `Behaviour` per session of a scenario;
- `Message.to_bytes()`, an arbitrary function from messages to bytes;
- `MAX_MESSAGE_SIZE`, an integer.

## Model

| member | source | states |
|---|---|---|
| Runtime.Ascii | src/mgr/hermes_test_manager/test_cases/test_downstream_ifc.py:82-83 | a bytes literal has one byte per character, each the character's code |
| Runtime.SliceBound | src/mgr/hermes_test_manager/test_cases/test_downstream_ifc.py:84 | a slice bound is counted from the end when negative and clamped to [0, len] |
| Runtime.SliceTo | src/mgr/hermes_test_manager/test_cases/test_downstream_ifc.py:84 | definition, no contract of its own: Python's `s[:i]`, the elements before position SliceBound(i, len); SliceSplit is its partner |
| Runtime.SliceFrom | src/mgr/hermes_test_manager/test_cases/test_downstream_ifc.py:84 | definition, no contract of its own: Python's `s[i:]`, the elements from position SliceBound(i, len) on; SliceSplit is its partner |
| Runtime.SliceSplit | src/mgr/hermes_test_manager/test_cases/test_downstream_ifc.py:84 | `s[:i] + s[i:] == s` for every bound i, negative and out of range included |
| Runtime.Find | src/mgr/hermes_test_manager/test_cases/test_downstream_ifc.py:82 | `find` gives -1 iff the pattern occurs nowhere; otherwise it gives the lowest index where the pattern occurs |
| Runtime.FindFrom | src/mgr/hermes_test_manager/test_cases/test_downstream_ifc.py:82 | the same search, starting at a position before which the pattern does not occur |
| Runtime.Repeat | src/mgr/hermes_test_manager/test_cases/test_downstream_ifc.py:87 | `n * b"x"` has max(n, 0) bytes, all of them `x` |
| Hermes.Connection.Call | src/mgr/hermes_test_manager/test_cases/__init__.py:136-138 | an operation is appended to the trace; it ends as the behaviour decides, given the earlier trace |
| Hermes.Connection.Connect | src/mgr/hermes_test_manager/test_cases/__init__.py:136 | appends `connect(host, port)` and ends as the behaviour says |
| Hermes.Connection.StartReceiving | src/mgr/hermes_test_manager/test_cases/__init__.py:137-138 | appends `start_receiving` and ends as the behaviour says |
| Hermes.Connection.WaitForConnection | src/mgr/hermes_test_manager/test_cases/__init__.py:180 | appends `wait_for_connection(timeout)` and ends as the behaviour says |
| Hermes.Connection.SendMsg | src/mgr/hermes_test_manager/test_cases/__init__.py:158 | appends `send_msg(msg)` and ends as the behaviour says |
| Hermes.Connection.SendTagAndBytes | src/mgr/hermes_test_manager/test_cases/test_downstream_ifc.py:88 | appends `send_tag_and_bytes(tag, bytes)` and ends as the behaviour says |
| Hermes.Connection.ExpectMessage | src/mgr/hermes_test_manager/test_cases/__init__.py:161 | appends `expect_message(tag)` and ends as the behaviour says |
| Hermes.Connection.ReceiveData | src/mgr/hermes_test_manager/test_cases/test_downstream_ifc.py:116 | appends `receive_data` and ends as the behaviour says |
| Hermes.Connection.Close | src/mgr/hermes_test_manager/test_cases/__init__.py:142-144 | appends `close`, which never raises |
| Sessions.Ops | src/mgr/hermes_test_manager/test_cases/__init__.py:135-140 | definition of the connection operations among a run of steps, in order; its own contract only bounds their number, and Calls, OpsAppend and Perform state what it contains |
| Sessions.Notices | src/mgr/hermes_test_manager/test_cases/__init__.py:159-160 | definition, no contract of its own: the callback argument lists among a run of steps, in order; Calls, OpsAppend and HandshakeNotices state what it contains |
| Sessions.Calls | src/mgr/hermes_test_manager/test_cases/__init__.py:135-140 | a run of calls has one step per operation, calls exactly those operations and never runs the callback |
| Sessions.OpsAppend | src/mgr/hermes_test_manager/test_cases/__init__.py:155-161 | the operations and the callback arguments of two runs of steps, one after the other, are those of each run in order |
| Sessions.Perform | src/mgr/hermes_test_manager/test_cases/__init__.py:155-161 | steps stop at the first that raises; the trace grows by a prefix of the steps' operations, and by all of them when nothing raised; a run that returned passed every callback argument list; without a callback nothing is notified |
| Sessions.PerformAppend | src/mgr/hermes_test_manager/test_cases/__init__.py:155-163 | taking two runs of steps, one after the other, is taking the first and, only if it returned, the second from where it ended |
| Sessions.PerformNotifiedPrefix | src/mgr/hermes_test_manager/test_cases/__init__.py:159-160 | the callback receives a prefix of the steps' argument lists, in order |
| Sessions.SucceedsSnoc | src/mgr/hermes_test_manager/test_cases/__init__.py:155-161 | operations that all returned, followed by one more that returns, all returned |
| Sessions.PerformSucceeding | src/mgr/hermes_test_manager/test_cases/__init__.py:155-161 | operations that all return are all called, and the run returns |
| Sessions.PerformCallsSilent | src/mgr/hermes_test_manager/test_cases/__init__.py:136-138 | calling operations never runs the callback |
| Sessions.CallsAppend | src/mgr/hermes_test_manager/test_cases/__init__.py:155-161 | one step per operation distributes over concatenation |
| Sessions.PerformFailing | src/mgr/hermes_test_manager/test_cases/__init__.py:155-161 | when the k-th operation raises after the ones before it returned, exactly the first k + 1 are called and the run raises the k-th's exception |
| Sessions.HandshakeNotices | src/mgr/hermes_test_manager/test_cases/__init__.py:159-160 | the handshake callback step passes the instruction once if the flag is set and never otherwise |
| Sessions.HandshakeCallbackStep | src/mgr/hermes_test_manager/test_cases/__init__.py:159-160 | the handshake callback step calls no connection operation |
| Sessions.PerformCallbackStep | src/mgr/hermes_test_manager/test_cases/__init__.py:159-161 | the optional handshake callback skips when it is asked for and none is registered; otherwise the later operations run with the instruction notified |
| Sessions.PerformAroundCallback | src/mgr/hermes_test_manager/test_cases/__init__.py:156-161 | after front operations that all return, the callback step either skips with the trace at front, or lets the back operations run from front |
| Sessions.Catches | src/mgr/hermes_test_manager/test_cases/__init__.py:189 | an ordinary Exception is caught by both handlers; the skip only by the bare `except:` of lines 143 and 166, not by `except Exception:` |
| Sessions.CloseIf | src/mgr/hermes_test_manager/test_cases/__init__.py:140-145 | definition, no contract of its own: one close after a body that returned or an exception the handler caught, none otherwise |
| Sessions.Session | src/mgr/hermes_test_manager/test_cases/__init__.py:133-145 | definition, no contract of its own: the setup steps and then the body's operations, from a fresh connection, stopping at the first that raises, followed by CloseIf of the outcome; SessionReturned, ClosesOnEveryPath and SessionSplit state its properties |
| Sessions.SessionReturned | src/mgr/hermes_test_manager/test_cases/__init__.py:135-142 | a session that returns called every setup and body operation in order and then close, and notified every setup argument list |
| Sessions.ClosesOnEveryPath | src/mgr/hermes_test_manager/test_cases/__init__.py:135-145 | under a bare `except:` every path ends with close, after a prefix of the setup and body operations |
| Sessions.SessionSplit | src/mgr/hermes_test_manager/test_cases/__init__.py:135-145 | a session is its setup followed, only if the setup returned, by the body; close comes after the first failure if the handler catches it, and after the body otherwise |
| Sessions.FirstFailure | src/mgr/hermes_test_manager/test_cases/__init__.py:155-161 | unless every operation returns, there is a first one that raises after all the earlier ones returned |
| Sessions.HandshakeSession | src/mgr/hermes_test_manager/test_cases/__init__.py:155-168 | a session whose setup is front operations, the optional handshake callback and back operations: when it returns it called front, back, the body and close, and notified the handshake instruction iff the flag is set |
| Sessions.HandshakeSetupSteps | src/mgr/hermes_test_manager/test_cases/__init__.py:156-161 | such a setup calls the front and then the back operations, and notifies the handshake instruction iff the flag is set |
| Sessions.PerformCallbackSkips | src/mgr/hermes_test_manager/test_cases/__init__.py:159-160 | with the flag set and no callback, the run stops right after the front operations with the skip |
| Sessions.PerformPastCallback | src/mgr/hermes_test_manager/test_cases/__init__.py:159-161 | otherwise the back operations run from front, with the handshake instruction notified iff the flag is set |
| Sessions.PerformFrontFails | src/mgr/hermes_test_manager/test_cases/__init__.py:156-158 | a failing front operation stops the run before the callback and the back operations |
| Sessions.HandshakeNotified | src/mgr/hermes_test_manager/test_cases/__init__.py:159-160 | in a handshake session the callback receives the instruction at most once, only when the flag is set and a callback is registered, and always when such a session returns |
| Sessions.HandshakeFrontFails | src/mgr/hermes_test_manager/test_cases/__init__.py:155-158 | the k-th front operation failing ends the session there, closing as the handler allows |
| Sessions.HandshakeCallbackSkips | src/mgr/hermes_test_manager/test_cases/__init__.py:159-160 | the skip of a missing callback ends the session after front, closing as the handler allows |
| Sessions.HandshakeReturned | src/mgr/hermes_test_manager/test_cases/__init__.py:155-165 | when everything returns, the trace is front, back, body, close, and the handshake instruction was notified iff the flag is set |
| Sessions.HandshakeBackFails | src/mgr/hermes_test_manager/test_cases/__init__.py:161-168 | the k-th operation after the callback failing ends the session there, closing as the handler allows |
| Sessions.UpstreamOps | src/mgr/hermes_test_manager/test_cases/__init__.py:136-138 | connect comes first, and start_receiving second iff receive |
| Sessions.UpstreamSetup | src/mgr/hermes_test_manager/test_cases/__init__.py:136-138 | the setup of `create_upstream_context` calls exactly connect and, iff receive, start_receiving, and never runs the callback |
| Sessions.UpstreamHandshakeFront | src/mgr/hermes_test_manager/test_cases/__init__.py:156-158 | before the handshake callback: connect first and the ServiceDescription send last |
| Sessions.UpstreamHandshakeBack | src/mgr/hermes_test_manager/test_cases/__init__.py:161 | after the handshake callback: one operation, the expect |
| Sessions.UpstreamHandshakeSetup | src/mgr/hermes_test_manager/test_cases/__init__.py:155-161 | definition, no contract of its own: the front calls, the optional callback step, the back calls; HandshakeSetupSteps states its operations and notices |
| Sessions.DownstreamHandshakeFront | src/mgr/hermes_test_manager/test_cases/__init__.py:179-180 | before the handshake callback: connect first and `wait_for_connection(10)` last |
| Sessions.DownstreamHandshakeBack | src/mgr/hermes_test_manager/test_cases/__init__.py:183-184 | after the handshake callback: the expect first and the ServiceDescription send last |
| Sessions.DownstreamHandshakeSetup | src/mgr/hermes_test_manager/test_cases/__init__.py:178-184 | definition, no contract of its own: the front calls, the optional callback step, the back calls; HandshakeSetupSteps states its operations and notices |
| Sessions.UpstreamContext | src/mgr/hermes_test_manager/test_cases/__init__.py:128-145 | definition, no contract of its own: a session with no callback use, the bare `except:` handler and the setup of `create_upstream_context`; UpstreamContextReturned, UpstreamContextFails and UpstreamContextOrder state its properties |
| Sessions.UpstreamContextWithHandshake | src/mgr/hermes_test_manager/test_cases/__init__.py:147-168 | definition, no contract of its own: a session with the bare `except:` handler and the handshake setup of lines 156-161; the UpstreamHandshake lemmas state its properties |
| Sessions.DownstreamContextWithHandshake | src/mgr/hermes_test_manager/test_cases/__init__.py:170-191 | definition, no contract of its own: a session with the `except Exception:` handler and the handshake setup of lines 179-184; the DownstreamHandshake lemmas state its properties, the skip leak among them |
| Sessions.DownstreamContextWithHandshakeCorrected | src/mgr/hermes_test_manager/test_cases/__init__.py:189 | definition, no contract of its own: the downstream session with a bare `except:` instead, the corrected half of the finding below |
| Sessions.UpstreamContextReturned | src/mgr/hermes_test_manager/test_cases/__init__.py:128-142 | when everything returns, the trace is connect, start_receiving iff receive, the body, close |
| Sessions.UpstreamContextFails | src/mgr/hermes_test_manager/test_cases/__init__.py:135-145 | when an operation fails, with an Exception or a skip, the later ones are not called, close is, and the same exception is raised |
| Sessions.UpstreamContextOrder | src/mgr/hermes_test_manager/test_cases/__init__.py:128-145 | on every path: connect first, close last, start_receiving second if asked for and connect returned, never otherwise unless the body calls it; the callback is not used |
| Sessions.UpstreamHandshakeReturned | src/mgr/hermes_test_manager/test_cases/__init__.py:147-165 | when everything returns: connect, start_receiving, send ServiceDescription, the callback iff the flag is set, expect ServiceDescription, the body, close |
| Sessions.UpstreamHandshakeFrontFails | src/mgr/hermes_test_manager/test_cases/__init__.py:155-158 | connect, start_receiving or the send failing stops there; close is called and the exception raised |
| Sessions.UpstreamHandshakeSkips | src/mgr/hermes_test_manager/test_cases/__init__.py:159-160 | the flag set without a callback raises the skip after the send; close is called and nothing is expected |
| Sessions.UpstreamHandshakeBackFails | src/mgr/hermes_test_manager/test_cases/__init__.py:161-168 | the expect or a body operation failing stops there; close is called and the exception raised |
| Sessions.DownstreamHandshakeReturned | src/mgr/hermes_test_manager/test_cases/__init__.py:170-188 | when everything returns: connect, wait_for_connection(10), the callback iff the flag is set, expect ServiceDescription, send ServiceDescription, the body, close |
| Sessions.DownstreamHandshakeFrontFails | src/mgr/hermes_test_manager/test_cases/__init__.py:178-180 | connect or the wait failing stops there; close is called iff the exception is an Exception |
| Sessions.DownstreamHandshakeBackFails | src/mgr/hermes_test_manager/test_cases/__init__.py:183-191 | the expect, the send or a body operation failing stops there; close is called iff the exception is an Exception |
| Sessions.DownstreamHandshakeSkipLeaks | src/mgr/hermes_test_manager/test_cases/__init__.py:181-182 | the flag set without a callback raises the skip after the wait, and close is never called |
| Sessions.DownstreamHandshakeCorrectedSkipCloses | src/mgr/hermes_test_manager/test_cases/__init__.py:189 | with a bare `except:`, as in the two upstream sessions, the same skip closes the connection |
| TestCases.Registry.constructor | src/mgr/hermes_test_manager/test_cases/__init__.py:13 | the registry starts empty |
| TestCases.DuplicateName | src/mgr/hermes_test_manager/test_cases/__init__.py:32-33 | the duplicate-name error is an ordinary Exception of kind NameError whose message ends with the function's name |
| TestCases.Registry.HermesTestcase | src/mgr/hermes_test_manager/test_cases/__init__.py:31-35 | a name already registered raises NameError and leaves the registry unchanged; otherwise the undecorated function is added under its name and the wrapper is returned |
| TestCases.Registry.TestDictionary | src/mgr/hermes_test_manager/test_cases/__init__.py:37-43 | the dictionary holds exactly the registered names, each mapped to the function of that name |
| TestCases.Invocations | src/mgr/hermes_test_manager/test_cases/__init__.py:76-77 | a registered callback receives every argument list in order; without one nothing is received |
| TestCases.InvocationsAppend | src/mgr/hermes_test_manager/test_cases/__init__.py:76-77 | the invocations of two runs of argument lists are those of each run in order |
| TestCases.EnvironmentManager.constructor | src/mgr/hermes_test_manager/test_cases/__init__.py:48-53 | no callback, both flags clear, machine id "Hermes Test API", lane id "1" |
| TestCases.EnvironmentManager.RegisterCallback | src/mgr/hermes_test_manager/test_cases/__init__.py:61-63 | the callback is replaced |
| TestCases.EnvironmentManager.IsUndefined | src/mgr/hermes_test_manager/test_cases/__init__.py:65-67 | true iff no callback is registered |
| TestCases.EnvironmentManager.RunCallback | src/mgr/hermes_test_manager/test_cases/__init__.py:69-77 | without a callback: the skip, and nothing changes; with one: it receives the arguments and `callback_used` is set |
| TestCases.EnvironmentManager.SetHandshakeCallback | src/mgr/hermes_test_manager/test_cases/__init__.py:91-93 | sets the handshake callback flag |
| TestCases.EnvironmentManager.SetLaneId | src/mgr/hermes_test_manager/test_cases/__init__.py:100-102 | sets the lane id, which the next ServiceDescription carries |
| TestCases.EnvironmentManager.ServiceDescriptionMessage | src/mgr/hermes_test_manager/test_cases/__init__.py:109-111 | a ServiceDescription carrying the current machine id and lane id |
| TestCases.EnvironmentManager.OptionalStartOfTestCallback | src/mgr/hermes_test_manager/test_cases/__init__.py:113-117 | clears `callback_used`, and nothing else |
| TestCases.EnvironmentManager.OptionalEndOfTestCallback | src/mgr/hermes_test_manager/test_cases/__init__.py:119-122 | "Done." is delivered iff the callback was used; a used flag without a callback raises the skip |
| TestCases.EnvironmentManager.OptionalHandshakeCallback | src/mgr/hermes_test_manager/test_cases/__init__.py:159-160 | the handshake instruction is delivered iff the flag is set; with the flag set and no callback, the skip |
| TestCases.EnterUpstreamContext | src/mgr/hermes_test_manager/test_cases/__init__.py:133-145 | the connection's trace and the outcome are the setup run's; a failure has already closed the connection |
| TestCases.UpstreamHandshakeFrontCalls | src/mgr/hermes_test_manager/test_cases/__init__.py:156-158 | connect, start_receiving, send, up to the first that raises |
| TestCases.DownstreamHandshakeFrontCalls | src/mgr/hermes_test_manager/test_cases/__init__.py:179-180 | connect, wait_for_connection(10), up to the first that raises |
| TestCases.UpstreamHandshakeBackCalls | src/mgr/hermes_test_manager/test_cases/__init__.py:161 | expect ServiceDescription |
| TestCases.DownstreamHandshakeBackCalls | src/mgr/hermes_test_manager/test_cases/__init__.py:183-184 | expect ServiceDescription, then send it, up to the first that raises |
| TestCases.EnterUpstreamContextWithHandshake | src/mgr/hermes_test_manager/test_cases/__init__.py:153-168 | the trace, the outcome and the callback invocations are the setup run's; a failure or skip closes the connection |
| TestCases.EnterDownstreamContextWithHandshake | src/mgr/hermes_test_manager/test_cases/__init__.py:176-191 | the same for the downstream setup, closing on failure only as the handler allows |
| TestCases.LeaveContext | src/mgr/hermes_test_manager/test_cases/__init__.py:140-145 | the body's outcome passes through; close is called iff the body returned or the handler catches its exception |
| DownstreamIfc.DummyAttributeBytes | src/mgr/hermes_test_manager/test_cases/test_downstream_ifc.py:83 | the dummy attribute is 40 bytes, with its two quotes at offsets 37 and 38 |
| DownstreamIfc.InsertDummy | src/mgr/hermes_test_manager/test_cases/test_downstream_ifc.py:82-84 | inserting the attribute adds its 40 bytes: the message before the split point is kept, the attribute follows, then the rest of the message; the split point is where `find` puts it under Python's slicing, -1 included |
| DownstreamIfc.CraftMaximumSizePayload | src/mgr/hermes_test_manager/test_cases/test_downstream_ifc.py:81-87 | the crafted payload is the message, the 40 attribute bytes and PaddingLength bytes of padding long |
| DownstreamIfc.PaddingLength | src/mgr/hermes_test_manager/test_cases/test_downstream_ifc.py:86-87 | the padding is positive only when message and attribute fall short of MAX_MESSAGE_SIZE, and then tops them up to exactly that size |
| DownstreamIfc.PayloadLength | src/mgr/hermes_test_manager/test_cases/test_downstream_ifc.py:80-87 | the payload is exactly MAX_MESSAGE_SIZE bytes when the message plus attribute fit; otherwise it is the message with the attribute and no padding |
| DownstreamIfc.Padded | src/mgr/hermes_test_manager/test_cases/test_downstream_ifc.py:87 | padding n bytes in lengthens by max(n, 0), and n <= 0 changes nothing |
| DownstreamIfc.PayloadShape | src/mgr/hermes_test_manager/test_cases/test_downstream_ifc.py:82-87 | where `LaneId=` occurs, the payload is: the bytes before it, the attribute up to its opening quote, the padding, the closing quote and space, the rest of the message |
| DownstreamIfc.PayloadKeepsMessage | src/mgr/hermes_test_manager/test_cases/test_downstream_ifc.py:82-87 | the message's prefix and suffix around `LaneId=` are kept; all padding sits between the attribute's two quotes and is `x` |
| DownstreamIfc.PayloadWithoutMarker | src/mgr/hermes_test_manager/test_cases/test_downstream_ifc.py:82-87 | without `LaneId=`, find gives -1, so the attribute goes before the last byte and the padding after the first 37 bytes |
| DownstreamIfc.MultiMessagePacket | src/mgr/hermes_test_manager/test_cases/test_downstream_ifc.py:100-102 | the packet is CheckAlive, ServiceDescription, CheckAlive frames, back to back |
| DownstreamIfc.SendAndExpectBody | src/mgr/hermes_test_manager/test_cases/test_downstream_ifc.py:88-89 | definition, no contract of its own: `send_tag_and_bytes` with the ServiceDescription tag, then `expect_message("ServiceDescription")` |
| DownstreamIfc.MaximumMessageSizeBody | src/mgr/hermes_test_manager/test_cases/test_downstream_ifc.py:80-89 | definition, no contract of its own: that body around the crafted payload of the encoded ServiceDescription("DownstreamId", 1) |
| DownstreamIfc.MultipleMessagesBody | src/mgr/hermes_test_manager/test_cases/test_downstream_ifc.py:100-104 | definition, no contract of its own: that body around the three-frame packet |
| DownstreamIfc.ServiceDescriptionBody | src/mgr/hermes_test_manager/test_cases/test_downstream_ifc.py:38 | definition, no contract of its own: the one `send_msg` of ServiceDescription("AcceptanceTest", 2) |
| DownstreamIfc.UpstreamSessionPrefix | src/mgr/hermes_test_manager/test_cases/test_downstream_ifc.py:27 | a default upstream session calls a prefix of connect, start_receiving and the body, then close, and all of them when it returns |
| DownstreamIfc.ConnectDisconnectTrace | src/mgr/hermes_test_manager/test_cases/test_downstream_ifc.py:27-28 | an empty session is connect, close or connect, start_receiving, close; the latter when it returns |
| DownstreamIfc.ServiceDescriptionSessionTrace | src/mgr/hermes_test_manager/test_cases/test_downstream_ifc.py:37-38 | the session sends the ServiceDescription at most once, third, expects nothing, and closes |
| DownstreamIfc.SendAndExpectSessionTrace | src/mgr/hermes_test_manager/test_cases/test_downstream_ifc.py:88-89 | the payload sessions send the bytes once, tagged ServiceDescription, then expect one ServiceDescription, then close |
| DownstreamIfc.Stopped | src/mgr/hermes_test_manager/test_cases/test_downstream_ifc.py:26-27 | definition, no contract of its own: the last session raised, which ends the `for` loop |
| DownstreamIfc.LoopOutcome | src/mgr/hermes_test_manager/test_cases/test_downstream_ifc.py:26-29 | definition, no contract of its own: the loop raises the last session's exception when it stopped, and returns otherwise; LoopOutcomeShape states its meaning |
| DownstreamIfc.RepeatedSessions | src/mgr/hermes_test_manager/test_cases/test_downstream_ifc.py:26-28 | definition, no contract of its own: the first n iterations of the loop (lines 26-28 and 36-38), the i-th session meeting peer(i), up to the first that raises; RepeatedSessionsShape and StoppedStays state its properties |
| DownstreamIfc.RepeatedSessionsShape | src/mgr/hermes_test_manager/test_cases/test_downstream_ifc.py:26-27 | the loop runs sessions in order, the i-th against peer(i), every one but the last returning; it runs all n unless one raised |
| DownstreamIfc.LoopOutcomeShape | src/mgr/hermes_test_manager/test_cases/test_downstream_ifc.py:26-29 | the loop returns iff all n sessions ran and returned; otherwise it raises the last session's exception |
| DownstreamIfc.RepeatedSessionsStep | src/mgr/hermes_test_manager/test_cases/test_downstream_ifc.py:26-27 | while no session raised, one more iteration runs one more session, whose outcome is then the loop's |
| DownstreamIfc.StoppedStays | src/mgr/hermes_test_manager/test_cases/test_downstream_ifc.py:26-27 | after a session raised, no later session runs |
| DownstreamIfc.ConnectDisconnectLoop | src/mgr/hermes_test_manager/test_cases/test_downstream_ifc.py:23-29 | every session of the first loop connects first and closes last; when the loop returns, each was connect, start_receiving, close |
| DownstreamIfc.ServiceDescriptionLoop | src/mgr/hermes_test_manager/test_cases/test_downstream_ifc.py:31-39 | no session of the second loop waits for an answer, and each closes; when the loop returns, each was connect, start_receiving, send, close |
| DownstreamIfc.ConnectDisconnectOnce | src/mgr/hermes_test_manager/test_cases/test_downstream_ifc.py:27-28 | the imperative session leaves the trace and outcome of the upstream session with an empty body |
| DownstreamIfc.ConnectServiceDescriptionDisconnectOnce | src/mgr/hermes_test_manager/test_cases/test_downstream_ifc.py:37-38 | the same with the ServiceDescription sent in the body |
| DownstreamIfc.SendAndExpectServiceDescription | src/mgr/hermes_test_manager/test_cases/test_downstream_ifc.py:88-89 | the send, then the expect, stopping at the first that raises |
| DownstreamIfc.TestMaximumMessageSize | src/mgr/hermes_test_manager/test_cases/test_downstream_ifc.py:74-90 | the trace and outcome are those of the upstream session around the crafted payload's body |
| DownstreamIfc.TestMultipleMessagesPerPacket | src/mgr/hermes_test_manager/test_cases/test_downstream_ifc.py:92-105 | the trace and outcome are those of the upstream session around the three-frame packet's body |
| DownstreamIfc.TestConnectDisconnectNTimes | src/mgr/hermes_test_manager/test_cases/test_downstream_ifc.py:23-29 | the loop's sessions and outcome are the first ten iterations of the empty-body session, up to the first that raises |
| DownstreamIfc.TestConnectServiceDescriptionDisconnectNTimes | src/mgr/hermes_test_manager/test_cases/test_downstream_ifc.py:31-39 | the same for the session that sends a ServiceDescription |
| DownstreamIfc.TestConnectHandshakeDisconnect | src/mgr/hermes_test_manager/test_cases/test_downstream_ifc.py:41-47 | the trace, the outcome and the callback invocations of the upstream handshake session with an empty body |
| DownstreamIfc.NamesOf | src/mgr/hermes_test_manager/test_cases/__init__.py:31 | the names of the functions, in order |
| DownstreamIfc.RegisterAll | src/mgr/hermes_test_manager/test_cases/__init__.py:31-35 | decorating functions in order can fail only with NameError; RegisterAllFresh and RegisterAllDuplicate state what it registers |
| DownstreamIfc.RegisterAllFresh | src/mgr/hermes_test_manager/test_cases/__init__.py:31-35 | decorating functions with distinct, unregistered names adds each under its name, in order, and keeps the earlier entries |
| DownstreamIfc.RegisterAllDuplicate | src/mgr/hermes_test_manager/test_cases/__init__.py:32-33 | a taken name raises NameError for that name, with the registry as the functions before it left it |
| DownstreamIfc.ModuleRegistration | src/mgr/hermes_test_manager/test_cases/test_downstream_ifc.py:23-107 | the module registers exactly its six decorated functions, `xtest_terminate_on_illegal_message` among them; `test_connect_2_times` is not registered |
| DownstreamIfc.Decorate | src/mgr/hermes_test_manager/test_cases/__init__.py:31-35 | one decoration is one step of the registration function |
| DownstreamIfc.ImportModule | src/mgr/hermes_test_manager/test_cases/test_downstream_ifc.py:23-107 | importing the module leaves the registry and the outcome of the six decorations in order |
| DownstreamIfc.ScenarioEffect | src/mgr/hermes_test_manager/test_cases/test_downstream_ifc.py:23-105 | definition, no contract of its own: how each scenario's function ends and what the callback receives in it, from the session functions, the single sessions meeting peer(0); ScenarioNotices and RunScenario state its properties |
| DownstreamIfc.ScenarioNotices | src/mgr/hermes_test_manager/test_cases/test_downstream_ifc.py:41-47 | only the handshake scenario uses the callback, with the instruction at most once, and always when it returns with the flag set |
| DownstreamIfc.RunScenario | src/mgr/hermes_test_manager/test_cases/__init__.py:27 | the decorated function's outcome and callback invocations are the scenario's |
| DownstreamIfc.FinishTestCase | src/mgr/hermes_test_manager/test_cases/__init__.py:27-29 | the end hook runs only when the function returned, so an exception passes through without "Done." |
| DownstreamIfc.DoneNotices | src/mgr/hermes_test_manager/test_cases/__init__.py:119-122 | what the end hook adds: at most one "Done.", and only after a function that returned |
| DownstreamIfc.RunTestCase | src/mgr/hermes_test_manager/test_cases/__init__.py:25-29 | the wrapper ends as the scenario does; the callback receives the scenario's invocations, then "Done." iff the scenario returned after using it |

## Left out

- Sockets, the protocol framer and message serialisation. The `ipc_hermes` library is not part of this model. A behaviour function decides each operation's outcome from the connection's earlier trace.
- `Message.to_bytes()` is modelled as an arbitrary deterministic function. A timestamp that differs between calls is not modelled.
- `MAX_MESSAGE_SIZE` is defined in `ipc_hermes` and is a parameter here.
- Hermes.Connection.Close: close is modelled as never raising. A close that raises inside the handler is not modelled.
- Logging (`env.log.debug`), and the `log` property, are left out because they have no effect on traces or outcomes.
- The singleton `__new__` is left out. Every `EnvironmentManager()` call denotes the one object that the model's methods receive.
- TestCases.Registry.TestDictionary returns the contents by value. That the caller and the module share one dictionary object is not modelled.
- A callback that raises is not modelled: a registered callback always returns.
- TestCases.EnvironmentManager.RunCallback takes the positional arguments only. The `**kwargs` of `run_callback` (lines 69 and 77) are left out because no call site passes any.
- The callback's first argument, the package's `__name__`, is the constant `test_cases`, its value when the package is imported under that top-level name, as line 17 of `test_downstream_ifc.py` does. Imported as part of `mgr.hermes_test_manager`, the name would be the dotted one, which the model does not capture.
- DownstreamIfc.ImportModule: `test_downstream_ifc.py` line 19 imports `SYSTEM_UNDER_TEST_DOWNSTREAM_PORT`, which `__init__.py` does not define. As written, importing the module raises ImportError before any decoration runs. The model assumes the import succeeds.
- The body of `xtest_terminate_on_illegal_message` (lines 108-133) is left out. Its registration is modelled.
- Hermes.Connection.ReceiveData is kept as part of the connection interface. Its only caller, the body of `xtest_terminate_on_illegal_message`, is left out.
- `test_connect_2_times` (lines 52-72) is not decorated, so it is never registered. Its body is left out.
- `src/app/hitmanager.py`, the user interface that sets the callback and the flags, is not part of this model.
- DownstreamIfc.ConnectDisconnectLoop and DownstreamIfc.ServiceDescriptionLoop state the trace of each session separately. Each session meets its own behaviour `peer(i)`. What a peer remembers across sessions is that function's business.
- The trailing `assert True` in each scenario is left out because it cannot fail.

## Findings

| source | as written | input that shows it | evidently intended | confidence | as-written member | corrected member |
|---|---|---|---|---|---|---|
| src/mgr/hermes_test_manager/test_cases/__init__.py:189 | `create_downstream_context_with_handshake` catches only `except Exception:` | the handshake callback flag is set, no callback is registered, and connect and `wait_for_connection` return: `pytest.skip` raises a BaseException that passes the handler, so the connection is never closed | a bare `except:`, as in the two upstream sessions (lines 143 and 166), so that every path closes the connection | medium, not executed | Sessions.DownstreamHandshakeSkipLeaks | Sessions.DownstreamHandshakeCorrectedSkipCloses |
