/**
 What failures lead to, over whole runs: when a lost connection is made again, how
 often that is tried, and what happens to the commands that wait.
 */
module PipelineFailures {
  import opened Commands
  import opened Pipeline
  import opened PipelineProofs
  import opened ReplyStream
  import opened Wrappers

  // The limit the last connection set, and before any the given one.
  function LastLimit(es: seq<Event>, before: int): int {
    if es == [] then before
    else LastLimit(es[1..], if es[0].Connect? then es[0].maxReconnects else before)
  }

  lemma {:induction false} RunKeepsLimit(s: System, es: seq<Event>)
    requires Exec(s, es).Some?
    ensures Exec(s, es).value.client.maxReconnects == LastLimit(es, s.client.maxReconnects)
    ensures Exec(s, es).value.client.cancel <==> s.client.cancel || Cancel in es
    decreases |es|
  {
    if es != [] {
      assert es == [es[0]] + es[1..];
      LimitStep(s, es[0]);
      hide Apply, Enabled;
      RunKeepsLimit(Apply(s, es[0]), es[1..]);
    }
  }

  lemma LimitStep(s: System, e: Event)
    requires Enabled(s, e)
    ensures Apply(s, e).client.maxReconnects == if e.Connect? then e.maxReconnects else s.client.maxReconnects
    ensures Apply(s, e).client.cancel <==> s.client.cancel || e.Cancel?
  {
    hide Take, BuildAll, BuildCommand, CommandsOf;
  }

  // Reconnecting is allowed at all.
  predicate MayReconnect(es: seq<Event>, max: int) {
    LastLimit(es, max) > 0 && Cancel !in es
  }

  /**
   A lost connection: if the last connect allowed attempts and none was cancelled, every
   waiting command goes on waiting, in order, and an attempt can be made at once;
   otherwise all of them are cleared, in order, and none will be made.
   */
  lemma LossIsRepairedIff(max: int, es: seq<Event>, s: System)
    requires Exec(Initial(max), es) == Some(s) && s.client.connected
    ensures Enabled(s, Lose)
    ensures var t := Apply(s, Lose);
            && !t.client.connected && t.client.buffer == "" && t.sent == s.sent && t.started == s.started
            && (Enabled(t, AttemptSucceeds) <==> MayReconnect(es, max))
            && (Enabled(t, AttemptFails) <==> MayReconnect(es, max)) && !Enabled(t, GiveUp)
            && t.client.commands == (if MayReconnect(es, max) then s.client.commands else [])
            && t.cleared == s.cleared + (if MayReconnect(es, max) then [] else IdsOf(s.client.commands))
  {
    hide Exec, LastLimit;
    RunKeepsLimit(Initial(max), es);
    LossOutcome(s);
  }

  lemma LossOutcome(s: System)
    requires s.client.connected
    ensures Enabled(s, Lose)
    ensures var t := Apply(s, Lose); var again := s.client.maxReconnects > 0 && !s.client.cancel;
            && !t.client.connected && t.client.buffer == "" && t.sent == s.sent && t.started == s.started
            && (Enabled(t, AttemptSucceeds) <==> again)
            && (Enabled(t, AttemptFails) <==> again) && !Enabled(t, GiveUp)
            && t.client.commands == (if again then s.client.commands else [])
            && t.cleared == s.cleared + (if again then [] else IdsOf(s.client.commands))
  {
    hide Take, BuildAll, BuildCommand, CommandsOf, IdsOf;
    assert s.cleared + [] == s.cleared;
  }

  function Failures(es: seq<Event>): nat {
    if es == [] then 0 else (if es[0].AttemptFails? then 1 else 0) + Failures(es[1..])
  }

  // Trying to reconnect, after k attempts that failed.
  ghost predicate Trying(s: System, k: nat, waiting: seq<Pending>) {
    && s.client.reconnecting && !s.client.connected && s.client.attempts == k
    && s.client.commands == waiting && s.client.parser == INITIAL
  }

  lemma TryingStep(s: System, e: Event, k: nat, waiting: seq<Pending>)
    requires Trying(s, k, waiting) && Enabled(s, e) && !e.AttemptSucceeds? && !e.GiveUp?
    ensures Trying(Apply(s, e), k + if e.AttemptFails? then 1 else 0, waiting)
  {
    hide Take, BuildAll, BuildCommand, CommandsOf;
  }

  lemma {:induction false} TryingRun(s: System, es: seq<Event>, k: nat, waiting: seq<Pending>)
    requires Trying(s, k, waiting) && Exec(s, es).Some? && AttemptSucceeds !in es && GiveUp !in es
    ensures Trying(Exec(s, es).value, k + Failures(es), waiting)
    decreases |es|
  {
    if es != [] {
      TryingStep(s, es[0], k, waiting);
      hide Apply, Enabled, Trying;
      TryingRun(Apply(s, es[0]), es[1..], k + if es[0].AttemptFails? then 1 else 0, waiting);
    }
  }

  /**
   After a loss that may be repaired, as long as no attempt succeeded and none gave up:
   the commands wait, and trying ends exactly when as many attempts failed as the last
   connect allowed, or somebody cancelled; until then the next attempt may succeed.
   */
  lemma AttemptsUpToTheLimit(max: int, es: seq<Event>, s: System, fs: seq<Event>, t: System)
    requires Exec(Initial(max), es) == Some(s) && s.client.connected && MayReconnect(es, max)
    requires Exec(s, [Lose] + fs) == Some(t) && AttemptSucceeds !in fs && GiveUp !in fs
    ensures t.client.commands == s.client.commands
    ensures var over := Failures(fs) >= LastLimit(es, max) || Cancel in fs;
            && (Enabled(t, GiveUp) <==> over)
            && (Enabled(t, AttemptSucceeds) <==> !over) && (Enabled(t, AttemptFails) <==> !over)
  {
    hide Trying, Apply, Exec, Enabled, LastLimit, Failures;
    RunKeepsLimit(Initial(max), es);
    LossStep(s);
    FirstStep(s, Lose, fs);
    var u := Apply(s, Lose);
    TryingRun(u, fs, 0, s.client.commands);
    RunKeepsLimit(u, fs);
    NoConnectWhileTrying(u, fs, 0, s.client.commands);
    TryingEnds(t, Failures(fs), s.client.commands);
  }

  lemma FirstStep(s: System, e: Event, es: seq<Event>)
    requires Enabled(s, e)
    ensures Exec(s, [e] + es) == Exec(Apply(s, e), es)
  {
    hide Apply, Enabled;
    assert ([e] + es)[1..] == es;
  }

  lemma LossStep(s: System)
    requires s.client.connected && s.client.maxReconnects > 0 && !s.client.cancel
    ensures Enabled(s, Lose) && Trying(Apply(s, Lose), 0, s.client.commands)
    ensures Apply(s, Lose).client.maxReconnects == s.client.maxReconnects && !Apply(s, Lose).client.cancel
  {
    hide Take, BuildAll, BuildCommand, CommandsOf;
  }

  lemma TryingEnds(s: System, k: nat, waiting: seq<Pending>)
    requires Trying(s, k, waiting)
    ensures s.client.commands == waiting
    ensures var over := k >= s.client.maxReconnects || s.client.cancel;
            && (Enabled(s, GiveUp) <==> over)
            && (Enabled(s, AttemptSucceeds) <==> !over) && (Enabled(s, AttemptFails) <==> !over)
  {
  }

  lemma {:induction false} NoConnectWhileTrying(s: System, es: seq<Event>, k: nat, waiting: seq<Pending>)
    requires Trying(s, k, waiting) && Exec(s, es).Some? && AttemptSucceeds !in es && GiveUp !in es
    ensures LastLimit(es, s.client.maxReconnects) == s.client.maxReconnects
    decreases |es|
  {
    if es != [] {
      TryingStep(s, es[0], k, waiting);
      LimitStep(s, es[0]);
      assert !es[0].Connect?;
      hide Apply, Enabled, Trying;
      NoConnectWhileTrying(Apply(s, es[0]), es[1..], k + if es[0].AttemptFails? then 1 else 0, waiting);
    }
  }

  /** An attempt counts whether it succeeds or fails. */
  lemma AttemptsCount(s: System, e: Event)
    requires Enabled(s, e) && (e.AttemptSucceeds? || e.AttemptFails?)
    ensures Apply(s, e).client.attempts == s.client.attempts + 1
    ensures Apply(s, e).client.connected == e.AttemptSucceeds? && Apply(s, e).client.reconnecting == e.AttemptFails?
  {
    hide Take, BuildAll, BuildCommand, CommandsOf;
  }

  /** Giving up clears every waiting command, in order, and ends reconnecting. */
  lemma GivingUpClears(max: int, es: seq<Event>, s: System)
    requires Exec(Initial(max), es) == Some(s) && Enabled(s, GiveUp)
    ensures var t := Apply(s, GiveUp);
            && t.client.commands == [] && !t.client.reconnecting && !t.client.connected
            && t.cleared == s.cleared + IdsOf(s.client.commands)
            && !Enabled(t, AttemptSucceeds) && !Enabled(t, AttemptFails)
  {
    EveryRun(max, es);
    assert !s.client.connected;
    hide Inv, Exec;
    Abandoned(s);
  }

  lemma Abandoned(s: System)
    requires Enabled(s, GiveUp) && !s.client.connected
    ensures var t := Apply(s, GiveUp);
            && t.client.commands == [] && !t.client.reconnecting && !t.client.connected
            && t.cleared == s.cleared + IdsOf(s.client.commands)
            && !Enabled(t, AttemptSucceeds) && !Enabled(t, AttemptFails)
  {
    hide Take, BuildAll, BuildCommand, CommandsOf, IdsOf;
  }

  /**
   A commit writes the whole buffer behind what is in flight if there is a connection;
   while reconnecting it does nothing; otherwise it clears every waiting command, in
   order, and empties the buffer all the same.
   */
  lemma CommitByConnection(max: int, es: seq<Event>, s: System)
    requires Exec(Initial(max), es) == Some(s)
    ensures var t := Apply(s, CommitBuffer);
            if s.client.connected then
              && t.toServer == s.toServer + s.client.buffer && t.client.buffer == ""
              && t.client.commands == s.client.commands && t.cleared == s.cleared
            else if s.client.reconnecting then t == s
            else
              && t.toServer == s.toServer && t.client.buffer == ""
              && t.client.commands == [] && t.cleared == s.cleared + IdsOf(s.client.commands)
  {
    EveryRun(max, es);
    hide Ledger, Ordered, Wired;
  }
}
