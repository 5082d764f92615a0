/**
 * The protocol engine the test cases drive, seen only through the interface
 * they call. Its implementation (sockets, serialisation, the stream framer)
 * is not part of this model: a connection here records the operations called
 * on it, in order, and a behaviour chosen by the caller decides how each of
 * them ends, given what was called before it. That behaviour stands for the
 * transport, the system under test and the timeouts together.
 */
module Hermes {
  import opened Runtime

  /** The message tags the test cases refer to. */
  datatype Tag = ServiceDescriptionTag | CheckAliveTag

  /** An argument handed to a message constructor; the scenarios pass both
      strings (the environment's ids) and integers (a literal lane id). */
  datatype Arg = Text(s: string) | Number(n: int)

  /** The messages the test cases build. */
  datatype Message =
    | ServiceDescription(machineId: Arg, laneId: Arg)
    | CheckAlive

  /** The tag a message carries (`msg.tag`). */
  function TagOf(m: Message): Tag {
    match m
    case ServiceDescription(_, _) => ServiceDescriptionTag
    case CheckAlive => CheckAliveTag
  }

  /** `expect_message` is called with a tag member or with a tag's name. */
  datatype TagRef = ByTag(tag: Tag) | ByName(name: string)

  /** An operation called on a connection, with its arguments. */
  datatype Op =
    | Connect(host: string, port: int)
    | StartReceiving
    | WaitForConnection(timeout: int)
    | SendMsg(msg: Message)
    | SendTagAndBytes(hint: Option<Tag>, bytes: seq<byte>)
    | ExpectMessage(expected: TagRef)
    | ReceiveData
    | Close

  /** How the outside world answers an operation, given the operations
      already called on the same connection. */
  type Behaviour = (seq<Op>, Op) -> Outcome

  /** The two connection classes: upstream connects out, downstream also
      waits for the peer to connect. */
  datatype Role = Upstream | Downstream

  class Connection {
    const role: Role
    const behaviour: Behaviour
    /** The operations called on this connection, in order, including the
        one that raised. */
    var trace: seq<Op>

    constructor (role: Role, behaviour: Behaviour)
      ensures this.role == role && this.behaviour == behaviour
      ensures trace == []
    {
      this.role := role;
      this.behaviour := behaviour;
      trace := [];
    }

    /** Calls an operation other than close: it is recorded and ends as the
        behaviour says. */
    method Call(op: Op) returns (o: Outcome)
      requires !op.Close?
      modifies this
      ensures trace == old(trace) + [op]
      ensures o == behaviour(old(trace), op)
    {
      o := behaviour(trace, op);
      trace := trace + [op];
    }

    method Connect(host: string, port: int) returns (o: Outcome)
      modifies this
      ensures trace == old(trace) + [Op.Connect(host, port)]
      ensures o == behaviour(old(trace), Op.Connect(host, port))
    {
      o := Call(Op.Connect(host, port));
    }

    method StartReceiving() returns (o: Outcome)
      modifies this
      ensures trace == old(trace) + [Op.StartReceiving]
      ensures o == behaviour(old(trace), Op.StartReceiving)
    {
      o := Call(Op.StartReceiving);
    }

    method WaitForConnection(timeout: int) returns (o: Outcome)
      modifies this
      ensures trace == old(trace) + [Op.WaitForConnection(timeout)]
      ensures o == behaviour(old(trace), Op.WaitForConnection(timeout))
    {
      o := Call(Op.WaitForConnection(timeout));
    }

    method SendMsg(msg: Message) returns (o: Outcome)
      modifies this
      ensures trace == old(trace) + [Op.SendMsg(msg)]
      ensures o == behaviour(old(trace), Op.SendMsg(msg))
    {
      o := Call(Op.SendMsg(msg));
    }

    method SendTagAndBytes(tag: Option<Tag>, bytes: seq<byte>) returns (o: Outcome)
      modifies this
      ensures trace == old(trace) + [Op.SendTagAndBytes(tag, bytes)]
      ensures o == behaviour(old(trace), Op.SendTagAndBytes(tag, bytes))
    {
      o := Call(Op.SendTagAndBytes(tag, bytes));
    }

    method ExpectMessage(tag: TagRef) returns (o: Outcome)
      modifies this
      ensures trace == old(trace) + [Op.ExpectMessage(tag)]
      ensures o == behaviour(old(trace), Op.ExpectMessage(tag))
    {
      o := Call(Op.ExpectMessage(tag));
    }

    method ReceiveData() returns (o: Outcome)
      modifies this
      ensures trace == old(trace) + [Op.ReceiveData]
      ensures o == behaviour(old(trace), Op.ReceiveData)
    {
      o := Call(Op.ReceiveData);
    }

    /** Closing is always safe, also after a failure or a previous close. */
    method Close()
      modifies this
      ensures trace == old(trace) + [Op.Close]
    {
      trace := trace + [Op.Close];
    }
  }
}
