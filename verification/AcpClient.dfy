/** The client object behind the protocol: its fields, and each piece of its code that runs without
    giving way (under its lock, or between two channel operations), changing them in place. */
module AcpClient {
  import opened Text
  import opened AcpProtocol

  class Client {
    var nextID: nat
    var pending: map<string, nat>
    var exited: bool
    var calls: map<nat, Call>
    var reader: Reader
    var finisher: Finisher
    var waiting: seq<Message>
    var messagesClosed: bool
    var panicked: bool
    ghost var frames: seq<Frame>
    ghost var posted: seq<Post>
    ghost var answered: set<nat>

    constructor ()
      ensures View() == START
    {
      nextID, pending, exited, calls := 0, map[], false, map[];
      reader, finisher := Reading, AwaitDone;
      waiting, messagesClosed, panicked := [], false, false;
      frames, posted, answered := [], [], {};
    }

    ghost function View(): State
      reads this
    {
      State(nextID, pending, exited, calls, reader, finisher, waiting, messagesClosed, panicked, frames, posted,
            answered)
    }

    /** call: a fresh id and an empty reply channel. */
    method BeginCall(prompt: bool) returns (k: nat)
      modifies this
      ensures View() == Next(old(View()), Begin(prompt)) && k == nextID
    {
      nextID := nextID + 1;
      k := nextID;
      calls := calls[k := Call(prompt, Allocated, None, false)];
    }

    /** call: registered under the lock, unless the agent is gone. */
    method RegisterCall(k: nat)
      requires k in calls && calls[k].stage == Allocated
      modifies this
      ensures View() == Next(old(View()), Register(k))
    {
      if exited {
        calls := calls[k := calls[k].(stage := Ended(NotRunning))];
        return;
      }
      pending := pending[Decimal(k) := k];
      calls := calls[k := calls[k].(stage := Writing)];
    }

    /** call: the request written to the agent. */
    method WriteCall(k: nat, ok: bool)
      requires k in calls && calls[k].stage == Writing
      modifies this
      ensures View() == Next(old(View()), Write(k, ok))
    {
      calls := calls[k := calls[k].(stage := if ok then Waiting else Leaving(WriteFailed))];
    }

    /** call: the wait for the reply or the context, as one of its arms that is ready. */
    method SelectCall(k: nat, done: bool)
      requires k in calls && calls[k].stage == Waiting
      modifies this
      ensures View() == Next(old(View()), if done then Cancel(k) else Receive(k))
    {
      var c := calls[k];
      if done {
        calls := calls[k := c.(stage := Leaving(Cancelled))];
      } else if c.reply.Some? {
        calls := calls[k := c.(stage := Leaving(Answered(c.reply.value)), reply := None)];
      } else if c.closed {
        calls := calls[k := c.(stage := Leaving(AgentExited))];
      }
    }

    /** call: the deferred removal, and the return. */
    method LeaveCall(k: nat)
      requires k in calls && calls[k].stage.Leaving?
      modifies this
      ensures View() == Next(old(View()), Leave(k))
    {
      pending := pending - {Decimal(k)};
      calls := calls[k := calls[k].(stage := Ended(calls[k].stage.outcome))];
    }

    /** dispatch, up to its first send: a reply's call is looked up under the lock. */
    method DispatchFrame(f: Frame)
      requires reader == Reading
      modifies this
      ensures View() == Next(old(View()), Read(f))
    {
      frames := frames + [f];
      match f
      case Reply(id, failed, _) =>
        if NormalizeID(id) in pending {
          var k := pending[NormalizeID(id)];
          if k in calls && calls[k].prompt && !failed {
            reader := Found(k, f);
          } else {
            reader := Answering(k, f);
          }
        }
      case Says(m) => reader := Posting(m);
      case Silent =>
      case Unknown(_) =>
    }

    /** A send on the message stream; false when it blocks. */
    method Send(msg: Message, ghost at: nat) returns (sent: bool)
      modifies this`waiting, this`posted, this`panicked
      ensures sent == Sent(old(View()), msg, at).Some?
      ensures View() == if sent then Sent(old(View()), msg, at).value else old(View())
    {
      if messagesClosed {
        panicked := true;
        return true;
      }
      if |waiting| >= MESSAGES_CAPACITY {
        return false;
      }
      waiting := waiting + [msg];
      posted := posted + [Post(msg, at)];
      return true;
    }

    /** dispatch: a message of the stream. */
    method DispatchMessage()
      requires reader.Posting?
      modifies this
      ensures View() == Next(old(View()), PostMessage)
    {
      var sent := Send(Said(reader.msg), |frames|);
      if sent {
        reader := Reading;
      }
    }

    /** dispatch: the end of a turn, in the same stream. */
    method DispatchTurnEnd()
      requires reader.Found? && reader.frame.Reply?
      modifies this
      ensures View() == Next(old(View()), PostTurnEnd)
    {
      var sent := Send(TurnEnded(reader.frame.stop), |frames|);
      if sent {
        reader := Answering(reader.k, reader.frame);
      }
    }

    /** dispatch: the reply passed to the call. */
    method DispatchReply()
      requires reader.Answering? && reader.k in calls
      modifies this
      ensures View() == Next(old(View()), SendReply)
    {
      var k, c := reader.k, calls[reader.k];
      if c.closed {
        panicked := true;
      } else if c.reply.None? {
        calls := calls[k := c.(reply := Some(reader.frame))];
        answered := answered + {k};
        reader := Reading;
      }
    }

    method ReadEnded()
      requires reader == Reading
      modifies this
      ensures View() == Next(old(View()), EndOfOutput)
    {
      reader := Done;
    }

    /** finish: every registered call's channel is closed and its entry removed. */
    method CloseRegistered()
      requires forall id :: id in pending ==> pending[id] in calls && id == Decimal(pending[id])
      modifies this`calls, this`pending, this`panicked
      ensures calls == Shut(old(calls), old(pending).Values) && pending == map[]
      ensures panicked == (old(panicked) || AnyShut(old(calls), old(pending).Values))
    {
      hide Shut, AnyShut, Unclosed;
      ghost var shut: set<nat> := {};
      NothingShut(calls);
      FirstUnclosed(calls, pending);
      while pending != map[]
        invariant Unclosed(old(calls), old(pending).Values, shut, pending)
        invariant calls == Shut(old(calls), shut)
        invariant panicked == (old(panicked) || AnyShut(old(calls), shut))
        decreases |pending|
      {
        var id :| id in pending;
        var k := pending[id];
        OneClosed(old(calls), old(pending).Values, shut, pending, id);
        ShutOne(old(calls), shut, k);
        panicked := panicked || calls[k].closed;
        calls := calls[k := calls[k].(closed := true)];
        shut := shut + {k};
        pending := pending - {id};
      }
      AllClosed(old(calls), old(pending).Values, shut);
    }

    /** finish, under the lock: no call may register any more, and every registered one is told. */
    method FinishCalls()
      requires reader == Done && finisher == AwaitDone
      requires forall id :: id in pending ==> pending[id] in calls && id == Decimal(pending[id])
      modifies this
      ensures View() == Next(old(View()), Finish)
    {
      exited := true;
      CloseRegistered();
      finisher := Announcing;
    }

    /** finish: the last message. */
    method AnnounceExit()
      requires finisher == Announcing
      modifies this
      ensures View() == Next(old(View()), Announce)
    {
      var sent := Send(Exited, |frames| + 1);
      if sent {
        finisher := Closing;
      }
    }

    method CloseStream()
      requires finisher == Closing
      modifies this
      ensures View() == Next(old(View()), CloseMessages)
    {
      panicked := panicked || messagesClosed;
      messagesClosed, finisher := true, Closed;
    }

    method TakeMessage() returns (msg: Option<Message>)
      modifies this`waiting
      ensures View() == Next(old(View()), Consume)
      ensures msg == if old(waiting) == [] then None else Some(old(waiting)[0])
    {
      if waiting == [] {
        return None;
      }
      msg := Some(waiting[0]);
      waiting := waiting[1..];
    }
  }

  lemma NothingShut(calls: map<nat, Call>)
    ensures Shut(calls, {}) == calls && !AnyShut(calls, {})
  {
  }

  lemma ShutOne(calls: map<nat, Call>, ks: set<nat>, k: nat)
    requires k in calls && k !in ks
    ensures Shut(calls, ks).Keys == calls.Keys && Shut(calls, ks)[k] == calls[k]
    ensures Shut(calls, ks + {k}) == Shut(calls, ks)[k := calls[k].(closed := true)]
    ensures AnyShut(calls, ks + {k}) <==> AnyShut(calls, ks) || calls[k].closed
  {
  }

  /** Of all the calls registered at first, shut are closed and pending are not. */
  ghost predicate Unclosed(calls: map<nat, Call>, all: set<nat>, shut: set<nat>, pending: map<string, nat>) {
    && (forall id :: id in pending ==> pending[id] in calls && id == Decimal(pending[id]) && pending[id] !in shut)
    && shut + pending.Values == all
  }

  lemma FirstUnclosed(calls: map<nat, Call>, pending: map<string, nat>)
    requires forall id :: id in pending ==> pending[id] in calls && id == Decimal(pending[id])
    ensures Unclosed(calls, pending.Values, {}, pending)
  {
    hide Decimal;
  }

  lemma AllClosed(calls: map<nat, Call>, all: set<nat>, shut: set<nat>)
    requires Unclosed(calls, all, shut, map[])
    ensures shut == all
  {
  }

  lemma OneClosed(calls: map<nat, Call>, all: set<nat>, shut: set<nat>, pending: map<string, nat>, id: string)
    requires Unclosed(calls, all, shut, pending) && id in pending
    ensures pending[id] in calls && pending[id] !in shut
    ensures Unclosed(calls, all, shut + {pending[id]}, pending - {id})
    ensures |pending - {id}| < |pending|
  {
    hide Decimal;
    SizeWithout(pending, id);
    ValuesWithout(pending, id);
    Regroup(shut, (pending - {id}).Values, pending[id]);
    OthersDiffer(pending, id);
  }

  lemma Regroup(shut: set<nat>, rest: set<nat>, k: nat)
    ensures (shut + {k}) + rest == shut + (rest + {k})
  {
  }

  lemma OthersDiffer(pending: map<string, nat>, id: string)
    requires id in pending && forall i :: i in pending ==> i == Decimal(pending[i])
    ensures forall i :: i in pending - {id} ==> i in pending && (pending - {id})[i] == pending[i] != pending[id]
  {
    hide Decimal;
  }

  lemma SizeWithout(m: map<string, nat>, id: string)
    requires id in m
    ensures |m - {id}| < |m|
  {
    assert (m - {id}).Keys == m.Keys - {id};
    assert |m.Keys - {id}| < |m.Keys|;
  }

  lemma ValuesWithout(m: map<string, nat>, id: string)
    requires id in m
    ensures m.Values == (m - {id}).Values + {m[id]}
  {
    forall k | k in m.Values
      ensures k in (m - {id}).Values + {m[id]}
    {
      var i :| i in m && m[i] == k;
      assert i != id ==> i in m - {id} && (m - {id})[i] == k;
    }
  }
}
