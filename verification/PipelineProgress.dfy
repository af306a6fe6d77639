/**
 The client is never stuck: from every reachable state some continuation of the
 run leads to the condition sync_commit waits for.
 */
module PipelineProgress {
  import opened Pipeline
  import opened PipelineProofs
  import opened Resp
  import opened Wrappers

  ghost predicate Leads(s: System, es: seq<Event>, t: System) {
    Exec(s, es) == Some(t)
  }

  lemma {:induction false} LeadsOn(s: System, es: seq<Event>, t: System, fs: seq<Event>, u: System)
    requires Leads(s, es, t) && Leads(t, fs, u)
    ensures Leads(s, es + fs, u)
    decreases |es|
  {
    hide Apply, Enabled;
    if es == [] {
      assert es + fs == fs;
    } else {
      assert (es + fs)[1..] == es[1..] + fs;
      LeadsOn(Apply(s, es[0]), es[1..], t, fs, u);
    }
  }

  lemma OneStep(s: System, e: Event)
    requires Inv(s) && Enabled(s, e)
    ensures Leads(s, [e], Apply(s, e)) && Inv(Apply(s, e))
  {
    hide Inv, Apply, Enabled;
    assert [e][1..] == [] && Exec(Apply(s, e), []) == Some(Apply(s, e));
    RunsKeepInv(s, [e]);
  }

  // The stages of a connected client on its way.
  ghost predicate Up(s: System) {
    Inv(s) && s.client.connected
  }

  ghost predicate Written(s: System) {
    Up(s) && s.client.buffer == "" && s.toServer == ""
  }

  ghost predicate Answered(s: System) {
    Written(s) && s.server.replies == []
  }

  ghost predicate Delivered(s: System) {
    Answered(s) && s.toClient == ""
  }

  lemma Write(s: System) returns (es: seq<Event>, t: System)
    requires Up(s)
    ensures Leads(s, es, t) && Written(t)
  {
    assert !s.client.reconnecting;
    hide Inv, Leads;
    OneStep(s, CommitBuffer);
    var u := Apply(s, CommitBuffer);
    var n := |u.toServer|;
    OneStep(u, ServerReads(n));
    t := Apply(u, ServerReads(n));
    assert u.toServer[n..] == "";
    es := [CommitBuffer] + [ServerReads(n)];
    LeadsOn(s, [CommitBuffer], u, [ServerReads(n)], t);
  }

  lemma {:induction false} AnswerAll(s: System) returns (es: seq<Event>, t: System)
    requires Written(s)
    ensures Leads(s, es, t) && Answered(t)
    decreases |s.server.replies|
  {
    if s.server.replies == [] {
      es, t := [], s;
    } else {
      hide Inv, Leads;
      var e := ServerAnswers(Null);
      OneStep(s, e);
      es, t := AnswerAll(Apply(s, e));
      LeadsOn(s, [e], Apply(s, e), es, t);
      es := [e] + es;
    }
  }

  lemma DeliverAll(s: System) returns (es: seq<Event>, t: System)
    requires Answered(s)
    ensures Leads(s, es, t) && Delivered(t)
  {
    hide Inv, Leads;
    var e := Deliver(|s.toClient|);
    OneStep(s, e);
    es, t := [e], Apply(s, e);
    assert s.toClient[|s.toClient|..] == "";
  }

  lemma StartOne(s: System) returns (t: System)
    requires Delivered(s) && s.client.parser.replies != []
    ensures Leads(s, [Start], t) && Delivered(t)
    ensures t.client.parser.replies == s.client.parser.replies[1..]
  {
    hide Inv, Leads;
    OneStep(s, Start);
    t := StartStep(s);
  }

  lemma {:induction false} StartAll(s: System) returns (es: seq<Event>, t: System)
    requires Delivered(s)
    ensures Leads(s, es, t) && Delivered(t) && t.client.parser.replies == []
    decreases |s.client.parser.replies|
  {
    hide Inv, Delivered;
    if s.client.parser.replies == [] {
      es, t := [], s;
    } else {
      hide Leads;
      var u := StartOne(s);
      es, t := StartAll(u);
      LeadsOn(s, [Start], u, es, t);
      es := [Start] + es;
    }
  }

  lemma {:induction false} FinishAll(s: System) returns (es: seq<Event>, t: System)
    requires Inv(s) && s.client.commands == []
    ensures Leads(s, es, t) && Quiet(t.client)
    decreases |s.runningIds|
  {
    if s.runningIds == [] {
      es, t := [], s;
    } else {
      var e := Finish(0);
      OneStep(s, e);
      hide Inv, Leads;
      es, t := FinishAll(Apply(s, e));
      LeadsOn(s, [e], Apply(s, e), es, t);
      es := [e] + es;
    }
  }

  lemma FromConnected(s: System) returns (es: seq<Event>, t: System)
    requires Up(s)
    ensures Leads(s, es, t) && Quiet(t.client)
  {
    var es1, s1 := Write(s);
    var es2, s2 := AnswerAll(s1);
    var es3, s3 := DeliverAll(s2);
    var es4, s4 := StartAll(s3);
    NothingWaits(s4);
    var es5, s5 := FinishAll(s4);
    hide Leads, Inv;
    LeadsOn(s, es1, s1, es2, s2);
    LeadsOn(s, es1 + es2, s2, es3, s3);
    LeadsOn(s, es1 + es2 + es3, s3, es4, s4);
    LeadsOn(s, es1 + es2 + es3 + es4, s4, es5, s5);
    es, t := es1 + es2 + es3 + es4 + es5, s5;
  }

  // Without a connection one step either makes one or settles the pending commands.
  function WayOut(s: System): Event {
    if !s.client.reconnecting then CommitBuffer
    else if ShouldReconnect(s.client) then AttemptSucceeds
    else GiveUp
  }

  lemma FromDisconnected(s: System) returns (es: seq<Event>, t: System)
    requires Inv(s) && !s.client.connected
    ensures Leads(s, es, t) && Quiet(t.client)
  {
    hide Inv, Leads;
    var e := WayOut(s);
    OneStep(s, e);
    var u := Apply(s, e);
    if e.AttemptSucceeds? {
      es, t := FromConnected(u);
    } else {
      es, t := FinishAll(u);
    }
    hide Apply;
    LeadsOn(s, [e], u, es, t);
    es := [e] + es;
  }

  /**
   No deadlock: every reachable state, connected, disconnected or reconnecting, has a
   continuation after which no command is pending and no callback runs.
   */
  lemma NeverStuck(max: int, es: seq<Event>, s: System) returns (fs: seq<Event>, t: System)
    requires Exec(Initial(max), es) == Some(s)
    ensures Exec(Initial(max), es + fs) == Some(t) && Quiet(t.client)
  {
    EveryRun(max, es);
    hide Inv, Exec;
    if s.client.connected {
      fs, t := FromConnected(s);
    } else {
      fs, t := FromDisconnected(s);
    }
    LeadsOn(Initial(max), es, s, fs, t);
  }

  // --- Every run gets there -----------------------------------------------------------

  // A step that brings what was sent closer to its callback.
  predicate Serves(e: Event) {
    || (e.ServerReads? && e.n > 0) || e.ServerAnswers? || (e.Deliver? && e.n > 0) || e.Start? || e.Finish?
  }

  lemma ServingKeepsUp(s: System, e: Event)
    requires Up(s) && Enabled(s, e) && Serves(e)
    ensures Up(Apply(s, e)) && Apply(s, e).client.buffer == s.client.buffer
  {
    hide Inv;
    OneStep(s, e);
    hide Take, Encode, Fits, Leads;
    match e
    case ServerReads(n) => assert Apply(s, e) == ReadStep(s, n);
    case ServerAnswers(r) => assert Apply(s, e) == AnswerStep(s, r);
    case Deliver(n) => assert Apply(s, e) == DeliverStep(s, n);
    case Start => assert Apply(s, e) == StartStep(s);
    case Finish(i) => assert Apply(s, e) == FinishStep(s, i);
  }

  // Commands without an answer: what answering lowers and no other step raises.
  function Unanswered(s: System): int {
    |s.client.commands| + |s.started| - s.base - |s.served|
  }

  lemma UnansweredNat(s: System)
    requires Up(s)
    ensures Unanswered(s) >= 0
  {
    assert |Due(s)| <= |s.client.commands|;
  }

  // Lexicographically less, by the number of answers missing and by what is on its way.
  predicate Lower(t: System, s: System) {
    || Unanswered(t) < Unanswered(s)
    || (Unanswered(t) == Unanswered(s) && |t.toServer| < |s.toServer|)
    || (Unanswered(t) == Unanswered(s) && t.toServer == s.toServer && |t.toClient| < |s.toClient|)
    || (Unanswered(t) == Unanswered(s) && t.toServer == s.toServer && t.toClient == s.toClient
        && (|t.client.parser.replies| < |s.client.parser.replies|
            || (t.client.parser == s.client.parser && |t.runningIds| < |s.runningIds|)))
  }

  lemma ServingLowers(s: System, e: Event)
    requires Up(s) && Enabled(s, e) && Serves(e)
    ensures Lower(Apply(s, e), s)
  {
    hide Lower, Take, Encode;
    if e.Start? {
      LinkedStart(s);
    }
    hide Inv;
    match e
    case ServerReads(n) => ReadLowers(s, n);
    case ServerAnswers(r) => AnswerLowers(s, r);
    case Deliver(n) => DeliverLowers(s, n);
    case Start => StartLowers(s);
    case Finish(i) => FinishLowers(s, i);
  }

  lemma ReadLowers(s: System, n: nat)
    requires 0 < n <= |s.toServer|
    ensures Lower(ReadStep(s, n), s)
  {
    hide Take;
  }

  lemma AnswerLowers(s: System, r: Reply)
    requires s.server.replies != []
    ensures Lower(AnswerStep(s, r), s)
  {
    hide Encode;
  }

  lemma DeliverLowers(s: System, n: nat)
    requires 0 < n <= |s.toClient|
    ensures Lower(DeliverStep(s, n), s)
  {
    hide Take;
  }

  lemma StartLowers(s: System)
    requires s.client.parser.replies != [] && s.client.commands != []
    ensures Lower(StartStep(s), s)
  {
  }

  lemma FinishLowers(s: System, i: nat)
    requires i < |s.runningIds|
    ensures Lower(FinishStep(s, i), s)
  {
  }

  // The i-th state of an endless run serves on to the next one.
  ghost predicate ServesAt(run: nat -> System, steps: nat -> Event, i: nat) {
    Enabled(run(i), steps(i)) && Serves(steps(i)) && run(i + 1) == Apply(run(i), steps(i))
  }

  lemma {:induction false} ServingEnds(run: nat -> System, steps: nat -> Event, i: nat) returns (j: nat)
    requires Up(run(i))
    ensures !ServesAt(run, steps, j)
    decreases Unanswered(run(i)), |run(i).toServer|, |run(i).toClient|,
              |run(i).client.parser.replies|, |run(i).runningIds|
  {
    j := i;
    UnansweredNat(run(i));
    if ServesAt(run, steps, i) {
      ServingKeepsUp(run(i), steps(i));
      ServingLowers(run(i), steps(i));
      hide Inv, Up, Unanswered, Enabled, Apply, Serves;
      j := ServingEnds(run, steps, i + 1);
    }
  }

  /** Serving does not go on for ever: no endless sequence of such steps starts from a reachable connected state. */
  lemma EveryServingRunEnds(max: int, before: seq<Event>, run: nat -> System, steps: nat -> Event) returns (j: nat)
    requires Exec(Initial(max), before) == Some(run(0)) && run(0).client.connected
    ensures !ServesAt(run, steps, j)
  {
    EveryRun(max, before);
    j := ServingEnds(run, steps, 0);
  }

  lemma {:induction false} ServingStaysUp(s: System, es: seq<Event>, t: System)
    requires Up(s) && Leads(s, es, t) && forall e :: e in es ==> Serves(e)
    ensures Up(t) && t.client.buffer == s.client.buffer
    decreases |es|
  {
    hide Inv, Apply, Enabled;
    if es != [] {
      ServingKeepsUp(s, es[0]);
      ServingStaysUp(Apply(s, es[0]), es[1..], t);
    }
  }

  lemma NothingLeftToServe(s: System)
    requires Up(s) && s.client.buffer == "" && forall e :: Serves(e) ==> !Enabled(s, e)
    ensures Quiet(s.client)
  {
    var read, answer, deliver := ServerReads(|s.toServer|), ServerAnswers(Null), Deliver(|s.toClient|);
    assert (Serves(read) ==> !Enabled(s, read)) && (Serves(answer) ==> !Enabled(s, answer));
    assert (Serves(deliver) ==> !Enabled(s, deliver)) && !Enabled(s, Start);
    assert Serves(Finish(0)) ==> !Enabled(s, Finish(0));
    assert s.toServer == "" && s.toClient == "" && s.server.replies == [] && s.client.parser.replies == [];
    assert s.runningIds == [];
    NothingWaits(s);
  }

  /**
   And when everything is committed, a run of such steps that can go no further has
   brought about what sync_commit waits for, whichever steps it took.
   */
  lemma EveryServingRunSettles(max: int, before: seq<Event>, s: System, es: seq<Event>, t: System)
    requires Exec(Initial(max), before) == Some(s) && s.client.connected && s.client.buffer == ""
    requires Leads(s, es, t) && (forall e :: e in es ==> Serves(e)) && forall e :: Serves(e) ==> !Enabled(t, e)
    ensures Quiet(t.client)
  {
    EveryRun(max, before);
    hide Inv, Leads, Enabled;
    ServingStaysUp(s, es, t);
    NothingLeftToServe(t);
  }
}
