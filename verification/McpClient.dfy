/** The client object: its fields, and one method per atomic step of a caller or of the reader.
    Each method takes the step of the same name in McpProtocol and keeps its invariant. */
module McpClient {
  import opened Options
  import opened McpProtocol
  import opened McpProofs

  class Client {
    var nextId: nat
    var callers: map<nat, Caller>
    var responses: set<nat>
    var connected: bool
    var reader: Reader
    ghost var started: bool
    ghost var late: bool
    ghost var heard: set<Response>

    ghost function Abs(): State
      reads this
    {
      State(nextId, callers, responses, started, connected, late, reader, heard)
    }

    constructor ()
      ensures Abs() == INIT && Inv(Abs())
    {
      nextId, callers, responses, connected, reader := 0, map[], {}, false, Reading;
      started, late, heard := false, false, {};
    }

    /** Start, under the lock, once the reader runs. */
    method Connect()
      requires Inv(Abs()) && Enabled(Abs(), Action.Connect)
      modifies this`connected, this`started, this`late
      ensures Inv(Abs()) && Abs() == Next(old(Abs()), Action.Connect)
    {
      StepKeepsInv(Abs(), Action.Connect);
      late := late || !Live(reader);
      connected, started := true, true;
    }

    method Stop()
      requires Inv(Abs())
      modifies this`connected
      ensures Inv(Abs()) && Abs() == Next(old(Abs()), Action.Stop)
    {
      StepKeepsInv(Abs(), Action.Stop);
      connected := false;
    }

    /** call: take the next id and make a channel ... */
    method Alloc() returns (id: nat)
      requires Inv(Abs())
      modifies this`nextId, this`callers
      ensures Inv(Abs()) && Abs() == Next(old(Abs()), Action.Alloc)
      ensures id !in old(callers) && At(Abs(), id, Allocated)
    {
      assert forall k :: k in callers ==> CallerInv(Abs(), k);
      StepKeepsInv(Abs(), Action.Alloc);
      nextId := nextId + 1;
      id := nextId;
      callers := callers[id := Caller(Allocated, [], 0)];
    }

    /** ... store it under the id ... */
    method Register(id: nat)
      requires Inv(Abs()) && Enabled(Abs(), Action.Register(id))
      modifies this`callers, this`responses, this`reader
      ensures Inv(Abs()) && Abs() == Next(old(Abs()), Action.Register(id))
    {
      StepKeepsInv(Abs(), Action.Register(id));
      callers := callers[id := callers[id].(pc := Registered)];
      responses := responses + {id};
      reader := Appear(reader, id);
    }

    /** ... and, under the lock, write the request if the client is connected. */
    method CheckAndWrite(id: nat, writeOk: bool)
      requires Inv(Abs()) && Enabled(Abs(), Action.CheckAndWrite(id, writeOk))
      modifies this`callers
      ensures Inv(Abs()) && Abs() == Next(old(Abs()), Action.CheckAndWrite(id, writeOk))
    {
      StepKeepsInv(Abs(), Action.CheckAndWrite(id, writeOk));
      if !connected {
        callers := callers[id := callers[id].(pc := Leaving(Disconnected, None))];
      } else if !writeOk {
        callers := callers[id := callers[id].(pc := Leaving(WriteFailed, None))];
      } else {
        callers := callers[id := callers[id].(pc := Waiting)];
      }
    }

    /** The select: a signal arrived ... */
    method Receive(id: nat) returns (outcome: Outcome)
      requires Inv(Abs()) && Enabled(Abs(), Action.Receive(id))
      modifies this`callers
      ensures Inv(Abs()) && Abs() == Next(old(Abs()), Action.Receive(id))
      ensures outcome == Decode(Payload(old(callers[id].chan[0])))
    {
      StepKeepsInv(Abs(), Action.Receive(id));
      var c := callers[id];
      outcome := Decode(Payload(c.chan[0]));
      callers := callers[id := c.(pc := Leaving(outcome, Some(c.chan[0])), chan := c.chan[1..])];
    }

    /** ... or the caller's context ended. */
    method Cancel(id: nat)
      requires Inv(Abs()) && Enabled(Abs(), Action.Cancel(id))
      modifies this`callers
      ensures Inv(Abs()) && Abs() == Next(old(Abs()), Action.Cancel(id))
    {
      StepKeepsInv(Abs(), Action.Cancel(id));
      callers := callers[id := callers[id].(pc := Leaving(Cancelled, None))];
    }

    /** The request could not be encoded. */
    method MarshalFail(id: nat)
      requires Inv(Abs()) && Enabled(Abs(), Action.MarshalFail(id))
      modifies this`callers
      ensures Inv(Abs()) && Abs() == Next(old(Abs()), Action.MarshalFail(id))
    {
      StepKeepsInv(Abs(), Action.MarshalFail(id));
      callers := callers[id := callers[id].(pc := Leaving(MarshalFailed, None))];
    }

    /** The deferred removal of the channel. */
    method Unregister(id: nat)
      requires Inv(Abs()) && Enabled(Abs(), Action.Unregister(id))
      modifies this`callers, this`responses, this`reader
      ensures Inv(Abs()) && Abs() == Next(old(Abs()), Action.Unregister(id))
    {
      StepKeepsInv(Abs(), Action.Unregister(id));
      var pc := callers[id].pc;
      callers := callers[id := callers[id].(pc := Returned(pc.outcome, pc.got))];
      responses := responses - {id};
      reader := Disappear(reader, id);
    }

    /** readLoop: one parsed line; its id is looked up and removed in one step ... */
    method Line(response: Response)
      requires Inv(Abs()) && Enabled(Abs(), Action.Line(response))
      modifies this`responses, this`reader, this`heard
      ensures Inv(Abs()) && Abs() == Next(old(Abs()), Action.Line(response))
    {
      StepKeepsInv(Abs(), Action.Line(response));
      heard := heard + {response};
      if 0 <= response.id && response.id in responses {
        responses := responses - {response.id};
        reader := Routing(response);
      }
    }

    /** ... and the reply is sent, into a channel that is empty. */
    method Send()
      requires Inv(Abs()) && reader.Routing?
      modifies this`callers, this`reader
      ensures Inv(Abs()) && Abs() == Next(old(Abs()), Action.Send)
      ensures Enabled(old(Abs()), Action.Send) && old(callers[reader.response.id].chan) == []
    {
      StepKeepsInv(Abs(), Action.Send);
      var id := reader.response.id;
      var c := callers[id];
      assert CallerInv(Abs(), id);
      callers := callers[id := c.(chan := c.chan + [Reply(reader.response)], sends := c.sends + 1)];
      reader := Reading;
    }

    method EndOfStream()
      requires Inv(Abs()) && Enabled(Abs(), Action.EndOfStream)
      modifies this`reader
      ensures Inv(Abs()) && Abs() == Next(old(Abs()), Action.EndOfStream)
    {
      StepKeepsInv(Abs(), Action.EndOfStream);
      reader := Ended;
    }

    method Clear()
      requires Inv(Abs()) && Enabled(Abs(), Action.Clear)
      modifies this`reader, this`connected
      ensures Inv(Abs()) && Abs() == Next(old(Abs()), Action.Clear)
    {
      StepKeepsInv(Abs(), Action.Clear);
      reader, connected := Cleared, false;
    }

    method DrainStart()
      requires Inv(Abs()) && Enabled(Abs(), Action.DrainStart)
      modifies this`reader
      ensures Inv(Abs()) && Abs() == Next(old(Abs()), Action.DrainStart)
    {
      StepKeepsInv(Abs(), Action.DrainStart);
      reader := Draining(responses, responses, {});
    }

    /** The drain signals one waiter, again into an empty channel ... */
    method DrainVisit(k: nat)
      requires Inv(Abs()) && Enabled(Abs(), Action.DrainVisit(k))
      modifies this`callers, this`reader
      ensures Inv(Abs()) && Abs() == Next(old(Abs()), Action.DrainVisit(k))
      ensures old(callers[k].chan) == []
    {
      StepKeepsInv(Abs(), Action.DrainVisit(k));
      assert CallerInv(Abs(), k) && Unsent(Abs(), k);
      var c := callers[k];
      callers := callers[k := c.(chan := c.chan + [Disconnect], sends := c.sends + 1)];
      reader := Deleting(k, reader.must, reader.may, reader.visited + {k});
    }

    /** ... and then removes it. */
    method DrainDelete()
      requires Inv(Abs()) && Enabled(Abs(), Action.DrainDelete)
      modifies this`responses, this`reader
      ensures Inv(Abs()) && Abs() == Next(old(Abs()), Action.DrainDelete)
    {
      StepKeepsInv(Abs(), Action.DrainDelete);
      responses := responses - {reader.key};
      reader := Draining(reader.must, reader.may, reader.visited);
    }

    method DrainEnd()
      requires Inv(Abs()) && Enabled(Abs(), Action.DrainEnd)
      modifies this`reader
      ensures Inv(Abs()) && Abs() == Next(old(Abs()), Action.DrainEnd)
      ensures !late ==> forall id :: At(Abs(), id, Waiting) ==> callers[id].chan != []
    {
      StepKeepsInv(Abs(), Action.DrainEnd);
      reader := Finished;
    }
  }
}
