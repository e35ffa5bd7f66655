/** What a forwarding lane does for its listeners: every packet read while the lane is open is
    delivered, loops end only for a reason, hand-overs go on, and an abandoned lane closes. */
module AudioDelivery {
  import opened Collections
  import opened AudioBus

  // ---------------------------------------------------------------- delivery

  /** The generation of the packet that a running loop reads in this step while the lane is not
      shut, if any. */
  function ReadAt(s: State, a: Action): Option<nat> {
    if a.Packet? && At(s, a.g, Running) && !s.door.Shut? then Some(a.g) else None
  }

  function Read(run: seq<State>, actions: seq<Action>, n: nat): seq<nat>
    requires n <= |actions| < |run|
  {
    if n == 0 then [] else Read(run, actions, n - 1) + Listed(ReadAt(run[n - 1], actions[n - 1]))
  }

  /** Everything read was delivered, but for the one packet in the hands of a delivering loop. */
  predicate Accounted(read: seq<nat>, s: State) {
    || (read == s.delivered && forall g :: 0 <= g < |s.stages| ==> s.stages[g] != Delivering)
    || exists g :: 0 <= g < |s.stages| && s.stages[g] == Delivering && read == s.delivered + [g]
  }

  lemma DeliveryUntouched(s: State, a: Action)
    requires !a.Packet? && !a.Deliver?
    ensures var t := Next(s, a);
      && t.delivered == s.delivered && |t.stages| >= |s.stages|
      && forall g :: 0 <= g < |t.stages| ==> (t.stages[g] == Delivering <==> g < |s.stages| && s.stages[g] == Delivering)
  {
  }

  lemma AccountedPacket(read: seq<nat>, s: State, g: nat)
    requires Chained(s) && Accounted(read, s)
    ensures Accounted(read + Listed(ReadAt(s, Packet(g))), Next(s, Packet(g)))
  {
    var t := Next(s, Packet(g));
    assert read + [] == read;
    if ReadAt(s, Packet(g)).Some? {
      assert t.stages[g] == Delivering;
    } else if h :| 0 <= h < |s.stages| && s.stages[h] == Delivering && read == s.delivered + [h] {
      assert t.stages[h] == Delivering;
    }
  }

  lemma AccountedDeliver(read: seq<nat>, s: State, g: nat)
    requires Chained(s) && Accounted(read, s)
    ensures Accounted(read, Next(s, Deliver(g)))
  {
  }

  lemma AccountedStep(read: seq<nat>, s: State, a: Action)
    requires Chained(s) && Accounted(read, s)
    ensures Accounted(read + Listed(ReadAt(s, a)), Next(s, a))
  {
    assert read + [] == read;
    if a.Packet? {
      AccountedPacket(read, s, a.g);
    } else if a.Deliver? {
      AccountedDeliver(read, s, a.g);
    } else {
      DeliveryUntouched(s, a);
      if g :| 0 <= g < |s.stages| && s.stages[g] == Delivering && read == s.delivered + [g] {
        assert Next(s, a).stages[g] == Delivering;
      }
    }
  }

  lemma {:induction false} ReadIsAccounted(run: seq<State>, actions: seq<Action>, n: nat)
    requires IsRun(run, actions) && n < |run|
    ensures Accounted(Read(run, actions, n), run[n])
  {
    if n > 0 {
      ReadIsAccounted(run, actions, n - 1);
      RunInv(run, actions, n - 1);
      AccountedStep(Read(run, actions, n - 1), run[n - 1], actions[n - 1]);
    }
  }

  /** Delivery is exact: the generations delivered, followed by the one packet that a delivering
      loop holds, are those of the packets read while the lane was not shut, in that order. */
  lemma ReadIsDelivered(run: seq<State>, actions: seq<Action>, n: nat, g: nat)
    requires IsRun(run, actions) && n < |run|
    ensures At(run[n], g, Delivering) ==> Read(run, actions, n) == run[n].delivered + [g]
    ensures (forall h :: 0 <= h < |run[n].stages| ==> run[n].stages[h] != Delivering) ==> Read(run, actions, n) == run[n].delivered
  {
    ReadIsAccounted(run, actions, n);
    RunInv(run, actions, n);
  }

  /** A running loop ends if and only if its source fails or it reads a packet when the lane is
      shut; any other step leaves it forwarding. */
  lemma LoopEndsIff(run: seq<State>, actions: seq<Action>, n: nat, g: nat)
    requires IsRun(run, actions) && n < |actions| && At(run[n], g, Running)
    ensures g < |run[n + 1].stages|
    ensures run[n + 1].stages[g] == Detaching <==> actions[n] == ReadFails(g) || (actions[n] == Packet(g) && run[n].door.Shut?)
    ensures run[n + 1].stages[g] != Detaching ==> Live(run[n + 1].stages[g])
  {
  }

  // ---------------------------------------------------------------- going on

  /** The own next step of a call and its loop; a running loop's last one is a failing read. */
  function OwnStep(stage: Stage, g: nat): Action {
    match stage
    case Waiting => StopTimers(g)
    case Starting => Start(g)
    case Running => ReadFails(g)
    case Delivering => Deliver(g)
    case Detaching => Detach(g)
    case Deciding => Decide(g)
    case Arming => Arm(g)
    case Closing => CloseDone(g)
    case Done => CloseDone(g)
  }

  function Left(stage: Stage): nat {
    match stage
    case Waiting => 8
    case Starting => 7
    case Delivering => 6
    case Running => 5
    case Detaching => 4
    case Deciding => 3
    case Arming => 2
    case Closing => 1
    case Done => 0
  }

  /** A hand-over never gets stuck: a call waits only for the loop before it, its own next step
      brings its end nearer, and nobody else's step moves it. */
  lemma HandOverGoesOn(run: seq<State>, actions: seq<Action>, n: nat, g: nat)
    requires IsRun(run, actions) && n < |actions| && g < |run[n].stages|
    ensures g < |run[n + 1].stages|
    ensures actions[n] == OwnStep(run[n].stages[g], g) && run[n].stages[g] != Done
            && (run[n].stages[g] == Waiting && g > 0 ==> run[n].stages[g - 1] == Done)
      ==> Left(run[n + 1].stages[g]) < Left(run[n].stages[g])
    ensures run[n + 1].stages[g] != run[n].stages[g] ==> actions[n] == OwnStep(run[n].stages[g], g) || actions[n] == Packet(g)
  {
    OnlyOwnSteps(run[n], actions[n], g);
    if actions[n] == OwnStep(run[n].stages[g], g) {
      OwnStepProceeds(run[n], g);
    }
  }

  lemma OnlyOwnSteps(s: State, a: Action, g: nat)
    requires g < |s.stages|
    ensures g < |Next(s, a).stages|
    ensures Next(s, a).stages[g] != s.stages[g] ==> a == OwnStep(s.stages[g], g) || a == Packet(g)
  {
  }

  lemma OwnStepProceeds(s: State, g: nat)
    requires g < |s.stages|
    ensures g < |Next(s, OwnStep(s.stages[g], g)).stages|
    ensures s.stages[g] != Done && (s.stages[g] == Waiting && g > 0 ==> s.stages[g - 1] == Done) ==>
              Left(Next(s, OwnStep(s.stages[g], g)).stages[g]) < Left(s.stages[g])
  {
    var stage := s.stages[g];
    assert At(s, g, stage);
    match stage
    case Waiting => assert OwnStep(stage, g) == StopTimers(g);
    case Starting => assert OwnStep(stage, g) == Start(g);
    case Running => assert OwnStep(stage, g) == ReadFails(g);
    case Delivering => assert OwnStep(stage, g) == Deliver(g);
    case Detaching => assert OwnStep(stage, g) == Detach(g);
    case Deciding => assert OwnStep(stage, g) == Decide(g);
    case Arming => assert OwnStep(stage, g) == Arm(g);
    case Closing => assert OwnStep(stage, g) == CloseDone(g);
    case Done =>
  }

  // ------------------------------------------------------------- abandoned lanes

  /** A loop that has ended arms its reconnect timer unless the lane is shut by then. */
  lemma EndArmsTimerIff(run: seq<State>, actions: seq<Action>, n: nat, g: nat)
    requires IsRun(run, actions) && n < |actions|
    ensures At(run[n], g, Deciding) && actions[n] == Decide(g) ==>
      g < |run[n + 1].stages| && run[n + 1].stages[g] == if run[n].door.Shut? then Closing else Arming
    ensures At(run[n], g, Arming) && actions[n] == Arm(g) ==>
      g in run[n + 1].armed && run[n + 1].timer == Some(g) && At(run[n + 1], g, Closing)
  {
    assert run[n + 1] == Next(run[n], actions[n]);
  }

  /** A reconnect timer that is not stopped in time closes the lane. */
  lemma AbandonedLaneCloses(run: seq<State>, actions: seq<Action>, n: nat, g: nat)
    requires IsRun(run, actions) && n + 1 < |actions| && g in run[n].armed
    requires actions[n] == TimerExpires(g) && actions[n + 1] == TimerCallback(g)
    ensures !run[n + 2].door.Open?
  {
    assert run[n + 1] == Next(run[n], actions[n]);
    assert run[n + 1 + 1] == Next(run[n + 1], actions[n + 1]);
  }

  predicate NeverExpired(actions: seq<Action>, n: nat)
    requires n <= |actions|
  {
    forall k :: 0 <= k < n ==> !actions[k].InactivityExpires?
  }

  predicate AllWaiting(s: State) {
    forall g :: 0 <= g < |s.stages| ==> s.stages[g] == Waiting
  }

  lemma InactivityStep(s: State, a: Action, quiet: bool)
    requires s.inactivity <==> s.door.Open? && AllWaiting(s) && quiet
    ensures Next(s, a).inactivity <==> Next(s, a).door.Open? && AllWaiting(Next(s, a)) && quiet && !a.InactivityExpires?
  {
    var t := Next(s, a);
    if g :| 0 <= g < |s.stages| && s.stages[g] != Waiting {
      assert t.stages[g] != Waiting;
    } else if a.StopTimers? && a.g < |s.stages| {
      assert t.stages[a.g] == Starting || t == s;
    }
  }

  /** The inactivity timer can expire exactly as long as the lane is open, no call has got past
      waiting, and it has not expired before. */
  lemma {:induction false} InactivityUntilFirstSource(run: seq<State>, actions: seq<Action>, n: nat)
    requires IsRun(run, actions) && n < |run|
    ensures run[n].inactivity <==> run[n].door.Open? && AllWaiting(run[n]) && NeverExpired(actions, n)
  {
    if n > 0 {
      InactivityUntilFirstSource(run, actions, n - 1);
      InactivityStep(run[n - 1], actions[n - 1], NeverExpired(actions, n - 1));
      assert run[n] == Next(run[n - 1], actions[n - 1]);
    }
  }

  /** A lane to which nobody publishes closes once that timer has expired. */
  lemma SilentLaneCloses(run: seq<State>, actions: seq<Action>, n: nat)
    requires IsRun(run, actions) && n + 1 < |actions| && run[n].inactivity
    requires actions[n] == InactivityExpires && actions[n + 1] == InactivityCallback
    ensures !run[n + 2].door.Open?
  {
    assert run[n + 1] == Next(run[n], actions[n]);
    assert run[n + 1 + 1] == Next(run[n + 1], actions[n + 1]);
  }

  /** Closing the lane shuts it in two steps, whatever happens in between. */
  lemma CloseShuts(run: seq<State>, actions: seq<Action>, n: nat)
    requires IsRun(run, actions) && n < |actions|
    ensures actions[n] == Close ==> !run[n + 1].door.Open?
    ensures actions[n] == FinishClose && !run[n].door.Open? ==> run[n + 1].door.Shut?
    ensures !run[n].door.Open? ==> !run[n + 1].door.Open?
    ensures run[n].door.Shut? ==> run[n + 1].door.Shut?
  {
    assert run[n + 1] == Next(run[n], actions[n]);
  }
}
