/**
  The fan-out of one pane's output to its subscribers. Every method of `TerminalPTY` is one
  critical section of the pane's lock.
 */
module TerminalPanes {
  import opened Collections
  import opened ByteRings

  const BACKLOG_LIMIT := 1024 * 1024
  const CLIENT_BUFFER := 256

  type Chunk = seq<Byte>

  /** A buffered channel. Sending on a closed channel, or closing it twice, would panic. */
  class Channel {
    var buffer: seq<Chunk>
    var closed: bool
    /** Everything sent so far, and the part of it that was received. */
    ghost var sent: seq<Byte>
    ghost var received: seq<Byte>
    /** What the subscriber was given when it attached, and how much output there was then. */
    ghost const replay: seq<Byte>
    ghost const start: nat

    ghost predicate Valid()
      reads this
    {
      |buffer| <= CLIENT_BUFFER && received + Flatten(buffer) == sent
    }

    constructor (ghost replay: seq<Byte>, ghost start: nat)
      ensures Valid() && buffer == [] && !closed && sent == [] && received == []
      ensures this.replay == replay && this.start == start
    {
      this.replay, this.start := replay, start;
      buffer, closed, sent, received := [], false, [], [];
    }

    method Send(data: Chunk)
      requires Valid() && !closed && |buffer| < CLIENT_BUFFER
      modifies `buffer, `sent
      ensures Valid() && buffer == old(buffer) + [data] && sent == old(sent) + data
    {
      FlattenSnoc(buffer, data);
      buffer := buffer + [data];
      sent := sent + data;
    }

    method Close()
      requires !closed
      modifies `closed
      ensures closed
    {
      closed := true;
    }

    /** The next chunk, or none once the channel is closed and drained. On an open and empty
        channel the subscriber would block. */
    method Receive() returns (chunk: Option<Chunk>)
      requires Valid() && (buffer != [] || closed)
      modifies `buffer, `received
      ensures Valid()
      ensures chunk == if old(buffer) == [] then None else Some(old(buffer)[0])
      ensures chunk.Some? ==> buffer == old(buffer)[1..] && received == old(received) + chunk.value
      ensures chunk.None? ==> buffer == [] && received == sent
    {
      if buffer == [] {
        return None;
      }
      chunk := Some(buffer[0]);
      FlattenCons(buffer[0], buffer[1..]);
      assert buffer == [buffer[0]] + buffer[1..];
      received := received + buffer[0];
      buffer := buffer[1..];
    }
  }

  /** `sent` is the output from position `start` on, and `replay` the tail retained before it. */
  ghost predicate Slice(output: seq<Byte>, limit: nat, replay: seq<Byte>, start: nat, sent: seq<Byte>) {
    && start + |sent| <= |output|
    && sent == output[start..start + |sent|]
    && replay == Suffix(output[..start], limit)
  }

  lemma SliceStays(output: seq<Byte>, limit: nat, replay: seq<Byte>, start: nat, sent: seq<Byte>, data: Chunk)
    requires Slice(output, limit, replay, start, sent)
    ensures Slice(output + data, limit, replay, start, sent)
  {
    assert (output + data)[..start] == output[..start];
  }

  lemma SliceGrows(output: seq<Byte>, limit: nat, replay: seq<Byte>, start: nat, sent: seq<Byte>, data: Chunk)
    requires Slice(output, limit, replay, start, sent) && start + |sent| == |output|
    ensures Slice(output + data, limit, replay, start, sent + data)
  {
    assert (output + data)[..start] == output[..start];
  }

  lemma SliceJoins(output: seq<Byte>, limit: nat, replay: seq<Byte>, start: nat, sent: seq<Byte>)
    requires Slice(output, limit, replay, start, sent)
    ensures |replay| <= start && replay + sent == output[start - |replay|..start + |sent|]
  {
    var before := output[..start];
    assert before[start - |replay|..] == replay;
    assert output[start - |replay|..start] == before[start - |replay|..];
  }

  lemma SliceStarts(output: seq<Byte>, limit: nat)
    ensures Slice(output, limit, Suffix(output, limit), |output|, [])
  {
    assert output[..|output|] == output;
  }

  /** `ch` was sent the output from where it started without a gap. While it is `live` it is open
      and up to date; afterwards it is closed, unless it was given back. */
  ghost predicate InStep(ch: Channel, output: seq<Byte>, limit: nat, live: bool, givenBack: bool)
    reads ch
  {
    && ch.Valid()
    && Slice(output, limit, ch.replay, ch.start, ch.sent)
    && (live ==> !ch.closed && ch.start + |ch.sent| == |output|)
    && (!live && !givenBack ==> ch.closed)
  }

  /** A channel that was just sent `data`, or that will be sent nothing more, is in step. */
  lemma Onward(ch: Channel, output: seq<Byte>, limit: nat, live: bool, givenBack: bool, sent: seq<Byte>, data: Chunk)
    requires Slice(output, limit, ch.replay, ch.start, sent) && ch.Valid()
    requires if live then ch.start + |sent| == |output| && ch.sent == sent + data && !ch.closed
             else ch.sent == sent && (ch.closed || givenBack)
    ensures InStep(ch, output + data, limit, live, givenBack)
  {
    if live {
      SliceGrows(output, limit, ch.replay, ch.start, sent, data);
    } else {
      SliceStays(output, limit, ch.replay, ch.start, sent, data);
    }
  }

  class TerminalPTY {
    /** The subscribers; none at all, not even an empty set, once the pane is done. */
    var clients: Option<set<Channel>>
    const backlog: ByteRing
    var done: bool
    /** Every channel handed out, and those given back by `Detach`. */
    ghost var issued: set<Channel>
    ghost var detached: set<Channel>

    ghost function Output(): seq<Byte>
      reads backlog
    {
      backlog.written
    }

    function Live(): set<Channel>
      reads `clients
    {
      if clients.Some? then clients.value else {}
    }

    predicate Registered(ch: Channel)
      reads `clients
    {
      ch in Live()
    }

    ghost predicate Following(ch: Channel)
      reads this, backlog, ch
    {
      InStep(ch, Output(), backlog.buf.Length, Registered(ch), ch in detached)
    }

    ghost predicate Valid()
      reads this, backlog, backlog.buf, issued
    {
      && backlog.Valid()
      && (done <==> clients.None?)
      && (clients.Some? ==> clients.value <= issued)
      && forall ch | ch in issued :: Following(ch)
    }

    constructor ()
      ensures Valid() && fresh(backlog) && fresh(backlog.buf) && backlog.buf.Length == BACKLOG_LIMIT
      ensures Output() == [] && !done && clients == Some({}) && issued == {} && detached == {}
    {
      backlog := new ByteRing(BACKLOG_LIMIT);
      clients, done, issued, detached := Some({}), false, {}, {};
    }

    /** What a broadcast does to one registered channel. */
    twostate predicate Served(ch: Channel, data: Chunk)
      reads ch
    {
      && ch.received == old(ch.received)
      && (|old(ch.buffer)| < CLIENT_BUFFER ==>
            ch.buffer == old(ch.buffer) + [data] && ch.sent == old(ch.sent) + data && ch.closed == old(ch.closed))
      && (|old(ch.buffer)| >= CLIENT_BUFFER ==>
            ch.buffer == old(ch.buffer) && ch.sent == old(ch.sent) && ch.closed)
    }

    /** Records the output and passes it to every subscriber with room; the others are cut off. */
    method Broadcast(data: Chunk)
      requires Valid()
      modifies `clients, backlog, backlog.buf, Live()
      ensures Valid() && Output() == old(Output()) + data
      ensures clients.None? == old(clients).None?
      ensures forall ch | ch in old(Live()) :: Served(ch, data)
      ensures Live() == set ch | ch in old(Live()) && |old(ch.buffer)| < CLIENT_BUFFER
    {
      backlog.Write(data);
      if clients.Some? {
        Deliver(data);
      }
      forall ch | ch in issued ensures Following(ch) {
        assert old(Following(ch));
        if ch in old(Live()) {
          assert Served(ch, data);
        } else {
          assert unchanged(ch);
        }
        Onward(ch, old(Output()), backlog.buf.Length, Registered(ch), ch in detached, old(ch.sent), data);
      }
    }

    /** The loop over the subscribers. */
    method Deliver(data: Chunk)
      requires clients.Some? && forall ch | ch in clients.value :: ch.Valid() && !ch.closed
      modifies `clients, clients.value
      ensures clients.Some?
      ensures forall ch | ch in old(clients).value :: Served(ch, data) && ch.Valid()
      ensures forall ch :: ch in clients.value <==> ch in old(clients).value && |old(ch.buffer)| < CLIENT_BUFFER
    {
      var todo := clients.value;
      while todo != {}
        invariant clients.Some? && todo <= clients.value <= old(clients).value
        invariant forall ch | ch in todo :: unchanged(ch)
        invariant forall ch | ch in old(clients).value && ch !in todo :: Served(ch, data) && ch.Valid()
        invariant forall ch | ch in old(clients).value && ch !in todo ::
                    ch in clients.value <==> |old(ch.buffer)| < CLIENT_BUFFER
        decreases |todo|
      {
        var ch :| ch in todo;
        todo := todo - {ch};
        if |ch.buffer| < CLIENT_BUFFER {
          ch.Send(data);
        } else {
          clients := Some(clients.value - {ch});
          ch.Close();
        }
      }
    }

    /** Subscribes: the retained tail, and a channel for everything that follows. */
    method Attach() returns (ch: Channel, replay: seq<Byte>)
      requires Valid()
      modifies `clients, `issued
      ensures Valid() && fresh(ch) && issued == old(issued) + {ch}
      ensures replay == ch.replay == Suffix(Output(), backlog.buf.Length)
      ensures ch.start == |Output()| && ch.buffer == []
      ensures if done then clients == old(clients) && ch.closed else clients == Some(old(clients).value + {ch})
    {
      replay := backlog.Bytes();
      ch := new Channel(replay, |Output()|);
      SliceStarts(Output(), backlog.buf.Length);
      if done {
        ch.Close();
      } else {
        clients := Some(clients.value + {ch});
      }
      issued := issued + {ch};
      forall c | c in issued ensures Following(c) {
        assert c != ch ==> old(Following(c));
      }
    }

    method Detach(ch: Channel)
      requires Valid()
      modifies `clients, `detached
      ensures Valid() && clients == if old(clients).None? then None else Some(old(clients).value - {ch})
      ensures detached == old(detached) + {ch}
    {
      detached := detached + {ch};
      if clients.Some? {
        clients := Some(clients.value - {ch});
      }
      forall c | c in issued ensures Following(c) {
        assert old(Following(c));
      }
    }

    /** Ends the pane. Only the first call answers true: its caller reaps the child. */
    method Finish() returns (first: bool)
      requires Valid()
      modifies `clients, `done, Live()
      ensures Valid() && done && first == !old(done)
      ensures forall ch | ch in old(Live()) :: ch.closed && ch.buffer == old(ch.buffer) && ch.sent == old(ch.sent)
    {
      if done {
        return false;
      }
      done := true;
      CloseAll();
      clients := None;
      forall c | c in issued ensures Following(c) {
        assert old(Following(c));
        assert c !in old(Live()) ==> unchanged(c);
      }
      return true;
    }

    method CloseAll()
      requires forall ch | ch in Live() :: !ch.closed
      modifies Live()
      ensures forall ch | ch in Live() :: ch.closed && ch.buffer == old(ch.buffer)
                && ch.sent == old(ch.sent) && ch.received == old(ch.received)
    {
      var todo := Live();
      while todo != {}
        invariant todo <= Live()
        invariant forall ch | ch in todo :: !ch.closed
        invariant forall ch | ch in Live() :: ch.closed == (ch !in todo) && ch.buffer == old(ch.buffer)
                    && ch.sent == old(ch.sent) && ch.received == old(ch.received)
        decreases |todo|
      {
        var ch :| ch in todo;
        todo := todo - {ch};
        ch.Close();
      }
    }

    /** One receive by the subscriber that holds `ch`. */
    method Take(ch: Channel) returns (chunk: Option<Chunk>)
      requires Valid() && ch in issued && (ch.buffer != [] || ch.closed)
      modifies ch`buffer, ch`received
      ensures Valid()
      ensures chunk == if old(ch.buffer) == [] then None else Some(old(ch.buffer)[0])
      ensures chunk.Some? ==> ch.received == old(ch.received) + chunk.value
      ensures chunk.None? ==> ch.received == ch.sent
    {
      assert Following(ch);
      chunk := ch.Receive();
      forall c | c in issued ensures Following(c) {
        assert old(Following(c));
      }
    }

    /** Replay, received chunks and queued chunks are one contiguous slice of the pane's output. It
        reaches the end of the output while the channel is registered. A subscriber that reads
        the end of its channel has seen the whole slice. */
    lemma Gapless(ch: Channel)
      requires Valid() && ch in issued
      ensures var first, end := ch.start - |ch.replay|, ch.start + |ch.sent|;
              && 0 <= first <= ch.start <= end <= |Output()|
              && ch.replay + ch.received + Flatten(ch.buffer) == Output()[first..end]
              && (Registered(ch) ==> end == |Output()|)
              && (ch.buffer == [] ==> ch.replay + ch.received == Output()[first..end])
    {
      assert Following(ch);
      SliceJoins(Output(), backlog.buf.Length, ch.replay, ch.start, ch.sent);
      assert ch.replay + ch.received + Flatten(ch.buffer) == ch.replay + ch.sent;
    }

    /** The client set is gone exactly when the pane is done; an open channel is one that is
        still served, or was given back. */
    lemma OpenMeansServed(ch: Channel)
      requires Valid() && ch in issued && ch !in detached
      ensures !ch.closed <==> clients.Some? && ch in clients.value
      ensures done ==> ch.closed
    {
      assert Following(ch);
    }
  }
}
