/**
 The connection and client objects. Their methods compute the client part of
 the step protocol of module Pipeline.
 */
module Clients {
  import opened Commands
  import opened Pipeline
  import opened ReplyBuilders
  import opened ReplyStream
  import opened Resp
  import opened Wrappers

  class RedisConnection {
    const builder: ReplyBuilder
    var buffer: string
    var connected: bool

    ghost predicate Valid()
      reads this, builder, builder.Repr
    {
      this !in builder.Repr && builder.Valid()
    }

    constructor ()
      ensures Valid() && fresh(builder) && fresh(builder.Repr)
      ensures !connected && buffer == "" && builder.Now() == INITIAL
    {
      builder := new ReplyBuilder();
      buffer, connected := "", false;
    }

    // Only buffered: nothing goes to the network before commit.
    method Send(command: Command)
      modifies this`buffer
      ensures buffer == old(buffer) + BuildCommand(command)
    {
      buffer := buffer + BuildCommand(command);
    }

    // Flush the buffer to the network; it is emptied even when that fails.
    method Flush() returns (ok: bool, written: string)
      modifies this`buffer
      ensures ok == connected && written == (if connected then old(buffer) else "") && buffer == ""
    {
      ok, written := connected, if connected then buffer else "";
      buffer := "";
    }

    // A connection is made: replies start afresh, what is buffered stays.
    method Open()
      requires Valid()
      modifies this`connected, builder
      ensures Valid() && fresh(builder.Repr - {builder}) && builder.Now() == INITIAL
      ensures connected
    {
      builder.Reset();
      connected := true;
    }

    // The connection is gone, or replaced by a new one.
    method Restart(up: bool)
      requires Valid()
      modifies this`buffer, this`connected, builder
      ensures Valid() && fresh(builder.Repr - {builder}) && builder.Now() == INITIAL
      ensures connected == up && buffer == ""
    {
      builder.Reset();
      buffer, connected := "", up;
    }
  }

  lemma BuildSnoc(ps: seq<Pending>, p: Pending)
    ensures BuildAll(CommandsOf(ps + [p])) == BuildAll(CommandsOf(ps)) + BuildCommand(p.command)
  {
    BuildAppend(CommandsOf(ps), p.command);
    assert CommandsOf(ps + [p]) == CommandsOf(ps) + [p.command];
  }

  class RedisClient {
    const connection: RedisConnection
    var commands: seq<Pending>
    var callbacksRunning: nat
    var reconnecting: bool
    var cancel: bool
    var currentReconnectAttempts: int
    var maxReconnects: int

    ghost function Repr(): set<object>
      reads this, connection, connection.builder
    {
      {this, connection} + connection.builder.Repr
    }

    ghost predicate Valid()
      reads this, connection, connection.builder, connection.builder.Repr
    {
      this !in connection.builder.Repr && connection.Valid()
    }

    ghost function Now(): Client
      requires Valid()
      reads this, connection, connection.builder, connection.builder.Repr
    {
      Client(connection.builder.Now(), connection.buffer, connection.connected, reconnecting, cancel,
             currentReconnectAttempts, maxReconnects, commands, callbacksRunning)
    }

    constructor (maxReconnects: int)
      ensures Valid() && fresh(Repr()) && Now() == Initial(maxReconnects).client
    {
      connection := new RedisConnection();
      commands, callbacksRunning, reconnecting, cancel, currentReconnectAttempts := [], 0, false, false, 0;
      this.maxReconnects := maxReconnects;
    }

    method Connect(maxReconnects: int)
      requires Valid() && !connection.connected && !reconnecting
      modifies this`maxReconnects, connection`connected, connection.builder
      ensures Valid() && fresh(connection.builder.Repr - {connection.builder})
      ensures Now() == Pipeline.Connected(old(Now()), maxReconnects)
    {
      this.maxReconnects := maxReconnects;
      connection.Open();
    }

    method UnprotectedSend(p: Pending)
      requires Valid()
      modifies this`commands, connection`buffer
      ensures Valid() && Now() == Pipeline.Send(old(Now()), p)
    {
      connection.Send(p.command);
      commands := commands + [p];
    }

    method ClearCallbacks()
      requires Valid()
      modifies this`commands
      ensures Valid() && Now() == old(Now()).(commands := [])
    {
      commands := [];
    }

    // Fails, and clears the pending callbacks, without a connection.
    method TryCommit() returns (ok: bool, written: string)
      requires Valid() && !reconnecting
      modifies this`commands, connection`buffer
      ensures Valid() && Now() == Pipeline.Commit(old(Now()))
      ensures ok == old(Now()).connected && written == if ok then old(Now()).buffer else ""
    {
      ok, written := connection.Flush();
      if !ok {
        ClearCallbacks();
      }
    }

    // While reconnecting, the reconnection flow commits instead.
    method Commit() returns (ok: bool, written: string)
      requires Valid()
      modifies this`commands, connection`buffer
      ensures Valid() && Now() == Pipeline.Commit(old(Now()))
      ensures ok == (old(Now()).reconnecting || old(Now()).connected)
      ensures written == if old(Now()).connected && !old(Now()).reconnecting then old(Now()).buffer else ""
    {
      ok, written := true, "";
      if !reconnecting {
        ok, written := TryCommit();
      }
    }

    // Bytes from the network go to the reply builder; refused bytes drop the connection.
    method Receive(data: string) returns (ok: bool)
      requires Valid()
      modifies this, connection, connection.builder, connection.builder.Repr
      ensures Valid() && fresh(Repr() - old(Repr()))
      ensures ok == Feed(old(Now()).parser, data).Fine?
      ensures ok ==> Now() == old(Now()).(parser := Feed(old(Now()).parser, data).state)
      ensures !ok ==> Now() == Pipeline.Drop(old(Now()))
    {
      ok := connection.builder.Append(data);
      if !ok {
        connection.builder.Reset();
        ConnectionLost();
      }
    }

    // The receive handler, up to the user's callback.
    method TakeReply() returns (callback: Option<Pending>, reply: Reply)
      requires Valid() && connection.builder.ReplyAvailable()
      modifies this`commands, this`callbacksRunning, connection.builder`availableReplies
      ensures Valid() && Now() == Pipeline.StartCallback(old(Now()))
      ensures reply == old(Now()).parser.replies[0]
      ensures callback == if old(commands) == [] then None else Some(old(commands)[0])
    {
      reply := connection.builder.GetFront();
      connection.builder.PopFront();
      callbacksRunning := callbacksRunning + 1;
      callback := None;
      if commands != [] {
        callback := Some(commands[0]);
        commands := commands[1..];
      }
    }

    method CallbackDone()
      requires Valid() && callbacksRunning > 0
      modifies this`callbacksRunning
      ensures Valid() && Now() == Pipeline.FinishCallback(old(Now()))
    {
      callbacksRunning := callbacksRunning - 1;
    }

    // The disconnection handler.
    method ConnectionLost()
      requires Valid()
      modifies this`commands, this`reconnecting, this`currentReconnectAttempts, connection, connection.builder
      ensures Valid() && fresh(connection.builder.Repr - {connection.builder})
      ensures Now() == Pipeline.Drop(old(Now()))
    {
      connection.Restart(false);
      currentReconnectAttempts := 0;
      reconnecting := !cancel && currentReconnectAttempts < maxReconnects;
      if !reconnecting {
        ClearCallbacks();
      }
    }

    // One successful attempt: send every pending command again, then commit.
    method Reconnect() returns (written: string)
      requires Valid() && reconnecting && ShouldReconnect(Now())
      modifies this`commands, this`reconnecting, this`currentReconnectAttempts, connection, connection.builder
      ensures Valid() && fresh(connection.builder.Repr - {connection.builder})
      ensures Now() == Pipeline.Reconnected(old(Now()))
      ensures written == BuildAll(CommandsOf(old(commands)))
    {
      currentReconnectAttempts := currentReconnectAttempts + 1;
      connection.Restart(true);
      reconnecting := false;
      ResendFailedCommands();
      var ok;
      ok, written := connection.Flush();
    }

    // Take every pending command off the queue and send it anew.
    method ResendFailedCommands()
      requires Valid() && connection.buffer == ""
      modifies this`commands, connection`buffer
      ensures Valid() && Now() == old(Now()).(buffer := BuildAll(CommandsOf(old(commands))))
    {
      var pending := commands;
      commands := [];
      assert CommandsOf([]) == [];
      while pending != []
        invariant Valid() && commands + pending == old(commands)
        invariant connection.buffer == BuildAll(CommandsOf(commands))
      {
        BuildSnoc(commands, pending[0]);
        UnprotectedSend(pending[0]);
        pending := pending[1..];
      }
      assert commands + [] == commands;
    }

    method AttemptFailed()
      requires Valid() && reconnecting && ShouldReconnect(Now())
      modifies this`currentReconnectAttempts
      ensures Valid() && Now() == old(Now()).(attempts := old(Now()).attempts + 1)
    {
      currentReconnectAttempts := currentReconnectAttempts + 1;
    }

    method StopReconnecting()
      requires Valid() && reconnecting && !ShouldReconnect(Now())
      modifies this`commands, this`reconnecting
      ensures Valid() && Now() == Pipeline.Abandon(old(Now()))
    {
      ClearCallbacks();
      reconnecting := false;
    }

    method CancelReconnect()
      requires Valid()
      modifies this`cancel
      ensures Valid() && Now() == old(Now()).(cancel := true)
    {
      cancel := true;
    }

    // Commits, unless the reconnection does it, and says whether there is nothing left to wait for.
    method SyncCommit() returns (ok: bool, written: string, quiet: bool)
      requires Valid()
      modifies this`commands, connection`buffer
      ensures Valid() && Now() == Pipeline.Commit(old(Now()))
      ensures ok == (old(Now()).reconnecting || old(Now()).connected)
      ensures written == if old(Now()).connected && !old(Now()).reconnecting then old(Now()).buffer else ""
      ensures quiet == Pipeline.Quiet(Now())
    {
      ok, written := Commit();
      quiet := NothingPending(callbacksRunning, commands);
    }
  }
}
