/** Publishing todo commands to Kafka: the message key, the payload, the
    lazily built writer and the topic bootstrap guard. The writer's outgoing
    stream is a sequence of messages; the log of one key is the subsequence
    of messages carrying that key, in publication order. */
module Queue {
  import opened Wire
  import opened Models

  /** The message key: the user id, a colon, then the action. */
  function MessageKey(userId: string, action: string): string {
    userId + ":" + action
  }

  /** A user's actions of equal length never share a key with another user's or
      another action's; "create", "update" and "delete" all have six letters. */
  lemma MessageKeyInjective(u1: string, a1: string, u2: string, a2: string)
    requires |a1| == |a2|
    requires MessageKey(u1, a1) == MessageKey(u2, a2)
    ensures u1 == u2 && a1 == a2
  {
    var k := MessageKey(u1, a1);
    assert |u1| == |u2|;
    assert u1 == k[..|u1|] && u2 == k[..|u2|];
    assert a1 == k[|u1| + 1..] && a2 == k[|u2| + 1..];
  }

  /** The same user with two different actions gets two different keys, so a
      user's create and later update are not in the same key's log. */
  lemma ActionsOfOneUserSplit(u: string, a1: string, a2: string)
    requires a1 != a2
    ensures MessageKey(u, a1) != MessageKey(u, a2)
  {
    if |a1| == |a2| {
      if MessageKey(u, a1) == MessageKey(u, a2) {
        MessageKeyInjective(u, a1, u, a2);
      }
    }
  }

  datatype Message = Message(key: string, value: Bytes)

  /** The settings kafka.Writer is built with. */
  datatype Writer = Writer(brokers: seq<string>, topic: string, batchSize: nat, async: bool, requiredAcks: int)

  const RequireOne := 1

  /** The log of one key: the values of the messages with that key, oldest first. */
  function KeyLog(stream: seq<Message>, key: string): (log: seq<Bytes>)
    ensures |log| <= |stream|
  {
    if stream == [] then []
    else (if stream[0].key == key then [stream[0].value] else []) + KeyLog(stream[1..], key)
  }

  /** Appending a message extends its own key's log at the end and no other. */
  lemma {:induction false} KeyLogSnoc(stream: seq<Message>, m: Message, key: string)
    ensures KeyLog(stream + [m], key) == KeyLog(stream, key) + (if m.key == key then [m.value] else [])
    decreases |stream|
  {
    if stream == [] {
      assert stream + [m] == [m];
      assert [m][1..] == [];
    } else {
      assert (stream + [m])[0] == stream[0];
      assert (stream + [m])[1..] == stream[1..] + [m];
      KeyLogSnoc(stream[1..], m, key);
    }
  }

  /** EnsureTopic's request: none without brokers, otherwise a topic creation
      sent via the first broker, with the configured partition count and a
      replication factor of one. Dialling and the controller lookup are network
      steps and are not modelled. */
  datatype TopicRequest = TopicRequest(bootstrap: string, topic: string, numPartitions: int, replicationFactor: int)

  function EnsureTopic(brokers: seq<string>, topic: string, partitions: int): (r: Option<TopicRequest>)
    ensures r.None? <==> brokers == []
    ensures r.Some? ==> r.value.bootstrap == brokers[0] && r.value.topic == topic
                        && r.value.numPartitions == partitions && r.value.replicationFactor == 1
  {
    if |brokers| == 0 then None else Some(TopicRequest(brokers[0], topic, partitions, 1))
  }

  class CommandQueue {
    const brokers: seq<string>
    const topic: string
    /** The global writer; None until Producer first runs. */
    var writer: Option<Writer>
    /** Every message the writer has accepted, in order. */
    var outgoing: seq<Message>

    constructor (brokers: seq<string>, topic: string)
      ensures this.brokers == brokers && this.topic == topic
      ensures writer == None && outgoing == []
    {
      this.brokers := brokers;
      this.topic := topic;
      writer := None;
      outgoing := [];
    }

    /** Producer: builds the writer on the first call only; every call returns it. */
    method Producer() returns (w: Writer)
      modifies this
      ensures old(writer).Some? ==> w == old(writer).value
      ensures old(writer).None? ==> w == Writer(brokers, topic, 100, true, RequireOne)
      ensures writer == Some(w) && outgoing == old(outgoing)
    {
      if writer.None? {
        writer := Some(Writer(brokers, topic, 100, true, RequireOne));
      }
      w := writer.value;
    }

    /** PublishTodoCommand: the encoded command under key user:action. An
        encoding error or a writer error (`writerFault`) is returned and
        nothing is appended; otherwise the message is appended and nil returned. */
    method PublishTodoCommand(cmd: TodoCommand, writerFault: Option<Error>) returns (err: Option<Error>)
      modifies this
      ensures old(writer).Some? ==> writer == old(writer)
      ensures old(writer).None? ==> writer == Some(Writer(brokers, topic, 100, true, RequireOne))
      ensures EncodeCommand(cmd).Failure? ==> err == Some(EncodeCommand(cmd).error) && outgoing == old(outgoing)
      ensures EncodeCommand(cmd).Success? ==> err == writerFault
      ensures EncodeCommand(cmd).Success? && writerFault.None? ==>
                outgoing == old(outgoing) + [Message(MessageKey(cmd.userId, cmd.action), EncodeCommand(cmd).value)]
      ensures writerFault.Some? ==> outgoing == old(outgoing)
    {
      var w := Producer();
      match EncodeCommand(cmd)
      case Failure(e) =>
        return Some(e);
      case Success(payload) =>
        if writerFault.Some? {
          return writerFault;
        }
        outgoing := outgoing + [Message(MessageKey(cmd.userId, cmd.action), payload)];
        return None;
    }
  }

  /** A published command is read back intact from the end of its key's log. */
  lemma PublishedCommandReadsBack(stream: seq<Message>, cmd: TodoCommand)
    requires EncodeCommand(cmd).Success?
    ensures var log := KeyLog(stream + [Message(MessageKey(cmd.userId, cmd.action), EncodeCommand(cmd).value)],
                              MessageKey(cmd.userId, cmd.action));
            |log| > 0 && DecodeCommand(log[|log| - 1]) == Success(cmd)
  {
    var m := Message(MessageKey(cmd.userId, cmd.action), EncodeCommand(cmd).value);
    KeyLogSnoc(stream, m, m.key);
    CommandRoundTrip(cmd);
  }
}
