/**
 Progress of the peer update protocol: steps other than new broadcasts cannot go on forever, they
 are never stuck before everything is drained, an undisturbed broadcast is what the hub does, and a
 lost publication does leave gateways apart.
 */
module PeerDrain {
  import opened PeerPropagation

  // ---- Every run without new broadcasts ends -------------------------------------

  function PendingSends(s: State): set<(int, GatewayId)> {
    set i, g | 0 <= i < |s.inflight| && g in s.inflight[i].todo :: (i, g)
  }

  function Unread(s: State): set<(CoreId, int)> {
    set c, n | c in s.subscribers && s.subscribers[c].taken <= n < |s.log| :: (c, n)
  }

  function PendingRelays(s: State): set<(CoreId, GatewayId)> {
    set c, g | c in s.subscribers && g in s.subscribers[c].todo :: (c, g)
  }

  function Undelivered(s: State): set<(GatewayId, int)> {
    set g, n | g in s.gateways && 0 <= n < |s.gateways[g].queue| :: (g, n)
  }

  /** `a` has less work left than `b`: fewer broadcasts, else fewer sends, else fewer messages to read, and so on. */
  predicate Less(a: State, b: State) {
    || |a.inflight| < |b.inflight|
    || (|a.inflight| == |b.inflight| && LessSending(a, b))
  }

  predicate LessSending(a: State, b: State) {
    || PendingSends(a) < PendingSends(b)
    || (PendingSends(a) == PendingSends(b) && LessRelaying(a, b))
  }

  predicate LessRelaying(a: State, b: State) {
    || Unread(a) < Unread(b)
    || (Unread(a) == Unread(b) && PendingRelays(a) < PendingRelays(b))
    || (Unread(a) == Unread(b) && PendingRelays(a) == PendingRelays(b) && Undelivered(a) < Undelivered(b))
  }

  lemma {:induction false} LocalSendDescends(p: Parsers, s: State, i: nat, g: GatewayId)
    requires Enabled(s, LocalSend(i, g))
    ensures Less(Do(p, s, LocalSend(i, g)), s)
  {
    var s' := Do(p, s, LocalSend(i, g));
    assert (i, g) in PendingSends(s) && (i, g) !in PendingSends(s');
    assert PendingSends(s') <= PendingSends(s);
  }

  lemma {:induction false} ReceiveDescends(p: Parsers, s: State, c: CoreId)
    requires Enabled(s, Receive(c))
    ensures Less(Do(p, s, Receive(c)), s)
  {
    var s' := Do(p, s, Receive(c));
    var n := s.subscribers[c].taken;
    assert (c, n) in Unread(s) && (c, n) !in Unread(s');
    assert Unread(s') <= Unread(s);
    assert s'.inflight == s.inflight;
  }

  lemma {:induction false} RelayDescends(p: Parsers, s: State, c: CoreId, g: GatewayId)
    requires Enabled(s, Relay(c, g))
    ensures Less(Do(p, s, Relay(c, g)), s)
  {
    var s' := Do(p, s, Relay(c, g));
    assert s'.inflight == s.inflight && Unread(s') == Unread(s);
    assert (c, g) in PendingRelays(s) && (c, g) !in PendingRelays(s');
    assert PendingRelays(s') <= PendingRelays(s);
  }

  lemma {:induction false} DeliverDescends(p: Parsers, s: State, g: GatewayId)
    requires Enabled(s, Deliver(g))
    ensures Less(Do(p, s, Deliver(g)), s)
  {
    var s' := Do(p, s, Deliver(g));
    var last := |s.gateways[g].queue| - 1;
    assert s'.inflight == s.inflight && s'.log == s.log && s'.subscribers == s.subscribers;
    assert (g, last) in Undelivered(s) && (g, last) !in Undelivered(s');
    assert Undelivered(s') <= Undelivered(s);
  }

  /** Whatever the schedule, every step other than a new broadcast leaves less work. */
  lemma {:induction false} StepDescends(p: Parsers, s: State, step: Step)
    requires Enabled(s, step) && !step.Start?
    ensures Less(Do(p, s, step), s)
  {
    match step
    case LocalSend(i, g) => LocalSendDescends(p, s, i, g);
    case Publish(_) =>
    case PublishFails(_) =>
    case Receive(c) => ReceiveDescends(p, s, c);
    case Relay(c, g) => RelayDescends(p, s, c, g);
    case Deliver(g) => DeliverDescends(p, s, g);
  }

  // ---- No run is stuck before it is drained --------------------------------------

  /** Steps that neither start a broadcast nor lose one. */
  predicate Working(steps: seq<Step>) {
    forall step <- steps :: !step.Start? && !step.PublishFails?
  }

  lemma {:induction false} BroadcastNotStuck(s: State) returns (step: Step)
    requires WellFormed(s) && s.inflight != []
    ensures Enabled(s, step) && !step.Start? && !step.PublishFails?
  {
    var b := s.inflight[0];
    assert b in s.inflight;
    if b.todo == {} {
      step := Publish(0);
    } else {
      var g :| g in b.todo;
      assert g in LocalGateways(s, b.core);
      step := LocalSend(0, g);
    }
  }

  lemma {:induction false} SubscriberNotStuck(s: State, c: CoreId) returns (step: Step)
    requires WellFormed(s) && c in s.subscribers && s.subscribers[c] != Subscriber(|s.log|, {})
    ensures Enabled(s, step) && !step.Start? && !step.PublishFails?
  {
    var sub := s.subscribers[c];
    if sub.todo == {} {
      step := Receive(c);
    } else {
      var g :| g in sub.todo;
      assert g in LocalGateways(s, c);
      step := Relay(c, g);
    }
  }

  lemma {:induction false} NotStuck(s: State) returns (step: Step)
    requires WellFormed(s) && !Quiescent(s)
    ensures Enabled(s, step) && !step.Start? && !step.PublishFails?
  {
    if s.inflight != [] {
      step := BroadcastNotStuck(s);
    } else if c :| c in s.subscribers && s.subscribers[c] != Subscriber(|s.log|, {}) {
      step := SubscriberNotStuck(s, c);
    } else {
      var g :| g in s.gateways && s.gateways[g].queue != [];
      step := Deliver(g);
    }
  }

  lemma {:induction false} WorkLosesNothing(p: Parsers, s: State, step: Step)
    requires Enabled(s, step) && !step.PublishFails?
    ensures Do(p, s, step).lost == s.lost
  {
  }

  /** From every well-formed state, work already begun can be finished, losing nothing. */
  lemma {:induction false} Drain(p: Parsers, s: State) returns (steps: seq<Step>)
    requires WellFormed(s)
    ensures CanRun(p, s, steps) && Working(steps)
    ensures Quiescent(Run(p, s, steps)) && Run(p, s, steps).lost == s.lost
    decreases |s.inflight|, PendingSends(s), Unread(s), PendingRelays(s), Undelivered(s)
  {
    if Quiescent(s) {
      steps := [];
    } else {
      var step := NotStuck(s);
      var s' := Do(p, s, step);
      StepWellFormed(p, s, step);
      StepDescends(p, s, step);
      WorkLosesNothing(p, s, step);
      var rest := Drain(p, s');
      steps := [step] + rest;
      assert steps[0] == step && steps[1..] == rest;
    }
  }

  lemma {:induction false} RunOne(p: Parsers, s: State, step: Step)
    requires Enabled(s, step)
    ensures CanRun(p, s, [step]) && Run(p, s, [step]) == Do(p, s, step)
  {
    var steps, s' := [step], Do(p, s, step);
    assert steps[1..] == [];
    assert CanRun(p, s', []) && Run(p, s', []) == s';
    assert CanRun(p, s', steps[1..]) && Run(p, s', steps[1..]) == s';
  }

  lemma {:induction false} RunAppend(p: Parsers, s: State, first: seq<Step>, second: seq<Step>)
    requires CanRun(p, s, first) && CanRun(p, Run(p, s, first), second)
    ensures CanRun(p, s, first + second)
    ensures Run(p, s, first + second) == Run(p, Run(p, s, first), second)
    decreases |first|
  {
    if first == [] {
      assert first + second == second;
    } else {
      assert (first + second)[1..] == first[1..] + second;
      RunAppend(p, Do(p, s, first[0]), first[1..], second);
    }
  }

  lemma {:induction false} StartedAppend(first: seq<Step>, second: seq<Step>)
    requires Working(second)
    ensures Started(first + second) == Started(first)
  {
    if first == [] {
      assert first + second == second;
      if second != [] {
        assert second[0] in second;
        StartedAppend([], second[1..]);
        assert [] + second[1..] == second[1..];
      }
    } else {
      assert (first + second)[1..] == first[1..] + second;
      StartedAppend(first[1..], second);
    }
  }

  /**
   Every run that lost no publication can be finished, and all gateways then hold their starting
   table with exactly the events of that run applied in one common order.
   */
  lemma {:induction false} CanConverge(p: Parsers, init: State, steps: seq<Step>) returns (more: seq<Step>)
    requires Initial(init) && CanRun(p, init, steps) && Run(p, init, steps).lost == []
    ensures Working(more) && CanRun(p, init, steps + more)
    ensures Quiescent(Run(p, init, steps + more)) && Converged(p, init, Run(p, init, steps + more))
    ensures multiset(Run(p, init, steps + more).log) == multiset(Started(steps))
  {
    InitialInv(p, init);
    RunKeeps(p, init, init, steps);
    more := Drain(p, Run(p, init, steps));
    RunAppend(p, init, steps, more);
    Convergence(p, init, steps + more);
    StartedAppend(steps, more);
  }

  // ---- An undisturbed broadcast ---------------------------------------------------

  /** Everything sent: each gateway of `to` has `e` at the end of its stream. */
  function Queued(s: State, to: set<GatewayId>, e: PeerUpdate): map<GatewayId, Gateway> {
    map g | g in s.gateways ::
      if g in to then s.gateways[g].(queue := s.gateways[g].queue + [e]) else s.gateways[g]
  }

  /** The last broadcast in progress sends to everyone it still has to, in any order. */
  lemma {:induction false} SendAll(p: Parsers, s: State) returns (steps: seq<Step>)
    requires s.inflight != [] && s.inflight[|s.inflight| - 1].todo <= s.gateways.Keys
    ensures CanRun(p, s, steps)
    ensures var last := |s.inflight| - 1;
            Run(p, s, steps) == s.(inflight := s.inflight[last := s.inflight[last].(todo := {})],
                                   gateways := Queued(s, s.inflight[last].todo, s.inflight[last].event))
    decreases s.inflight[|s.inflight| - 1].todo
  {
    var last := |s.inflight| - 1;
    var b := s.inflight[last];
    if b.todo == {} {
      steps := [];
      assert s.inflight[last := b.(todo := {})] == s.inflight;
      assert Queued(s, {}, b.event) == s.gateways;
    } else {
      var g :| g in b.todo;
      var s' := Do(p, s, LocalSend(last, g));
      var rest := SendAll(p, s');
      steps := [LocalSend(last, g)] + rest;
      assert steps[0] == LocalSend(last, g) && steps[1..] == rest;
      SentFirst(s, b.todo, g, b.event);
    }
  }

  lemma {:induction false} SentFirst(s: State, to: set<GatewayId>, g: GatewayId, e: PeerUpdate)
    requires g in to && g in s.gateways
    ensures Queued(Send(s, g, e), to - {g}, e) == Queued(s, to, e)
  {
  }

  /**
   The steps of one broadcast, undisturbed, do what the hub's own method does: one more event on the
   stream of each gateway of the core, and one more on the channel.
   */
  lemma {:induction false} BroadcastIsRun(p: Parsers, s: State, c: CoreId, e: PeerUpdate) returns (steps: seq<Step>)
    requires WellFormed(s) && c in s.subscribers
    ensures CanRun(p, s, steps)
    ensures Run(p, s, steps) == s.(log := s.log + [e], gateways := Queued(s, LocalGateways(s, c), e))
  {
    var s1 := Do(p, s, Start(c, e));
    var sends := SendAll(p, s1);
    var s2 := Run(p, s1, sends);
    var last := |s.inflight|;
    assert s2.inflight[..last] + s2.inflight[last + 1..] == s.inflight;
    var end := [Publish(last)];
    RunOne(p, s2, Publish(last));
    RunAppend(p, s1, sends, end);
    steps := [Start(c, e)] + (sends + end);
    assert steps[0] == Start(c, e) && steps[1..] == sends + end;
    assert Queued(s1, LocalGateways(s, c), e) == Queued(s, LocalGateways(s, c), e);
  }

  // ---- A lost publication ----------------------------------------------------------

  /** With no broadcast in progress, finishing the work leads every gateway where it was going anyway. */
  lemma {:induction false} OutlookStays(p: Parsers, s: State, steps: seq<Step>, g: GatewayId)
    requires WellFormed(s) && s.inflight == [] && g in s.gateways && CanRun(p, s, steps) && Working(steps)
    ensures var s' := Run(p, s, steps);
            && WellFormed(s') && s'.log == s.log && g in s'.gateways
            && Outlook(p, s', g) == Outlook(p, s, g)
    decreases |steps|
  {
    if steps != [] {
      assert steps[0] in steps;
      StepWellFormed(p, s, steps[0]);
      SameOutlook(p, s, steps[0], g);
      OutlookStays(p, Do(p, s, steps[0]), steps[1..], g);
    }
  }

  /** The steps of a broadcast whose publication fails: only the core's own gateways get the event. */
  lemma {:induction false} LostBroadcast(p: Parsers, s: State, c: CoreId, e: PeerUpdate) returns (steps: seq<Step>)
    requires WellFormed(s) && c in s.subscribers
    ensures CanRun(p, s, steps)
    ensures Run(p, s, steps) == s.(lost := s.lost + [Lost(c, e, |s.log|)],
                                   gateways := Queued(s, LocalGateways(s, c), e))
  {
    var s1 := Do(p, s, Start(c, e));
    var sends := SendAll(p, s1);
    var s2 := Run(p, s1, sends);
    var last := |s.inflight|;
    assert s2.inflight[..last] + s2.inflight[last + 1..] == s.inflight;
    var end := [PublishFails(last)];
    RunOne(p, s2, PublishFails(last));
    RunAppend(p, s1, sends, end);
    steps := [Start(c, e)] + (sends + end);
    assert steps[0] == Start(c, e) && steps[1..] == sends + end;
    assert Queued(s1, LocalGateways(s, c), e) == Queued(s, LocalGateways(s, c), e);
  }

  /**
   Losing a publication does leave gateways apart, in every system: the gateways of the core have
   the update for good, the channel has nothing, and the gateways of other cores are as before.
   */
  lemma {:induction false} LostPublicationDiverges(p: Parsers, init: State, g: GatewayId, h: GatewayId,
                                                   u: PeerUpdate, k: Key) returns (steps: seq<Step>)
    requires Initial(init) && g in init.gateways && h in init.gateways && Writes(p, u, k)
    ensures CanRun(p, init, steps) && Quiescent(Run(p, init, steps)) && Run(p, init, steps).log == []
    ensures g in Run(p, init, steps).gateways && h in Run(p, init, steps).gateways
    ensures At(Run(p, init, steps).gateways[g].table, k) == Effect(p, u)
    ensures init.home[h] != init.home[g] ==> Run(p, init, steps).gateways[h].table == init.gateways[h].table
  {
    InitialInv(p, init);
    var broadcast := LostBroadcast(p, init, init.home[g], u);
    var s := Run(p, init, broadcast);
    RunKeeps(p, init, init, broadcast);
    var rest := Drain(p, s);
    OutlookStays(p, s, rest, g);
    OutlookStays(p, s, rest, h);
    RunAppend(p, init, broadcast, rest);
    steps := broadcast + rest;
    FinalTable(p, Run(p, s, rest), g);
    FinalTable(p, Run(p, s, rest), h);
    QueuedOutlook(p, s, g, init.gateways[g].table, u);
    ApplyMeaning(p, init.gateways[g].table, u, k);
  }

  lemma {:induction false} FinalTable(p: Parsers, s: State, g: GatewayId)
    requires WellFormed(s) && Quiescent(s) && g in s.gateways
    ensures Outlook(p, s, g) == s.gateways[g].table
  {
    assert s.subscribers[s.home[g]] == Subscriber(|s.log|, {});
    assert s.log[Relayed(s, g)..] == [];
  }

  lemma {:induction false} QueuedOutlook(p: Parsers, s: State, g: GatewayId, t: PeerTable, u: PeerUpdate)
    requires WellFormed(s) && g in s.gateways && s.log == [] && s.gateways[g] == Gateway([u], t)
    ensures Outlook(p, s, g) == Apply(p, t, u)
  {
    FoldSnoc(p, t, [], u);
    assert [] + [u] == [u];
  }
}
