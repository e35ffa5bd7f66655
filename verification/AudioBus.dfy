/** Replacing the source of one forwarding lane: concurrent SetSource calls hand over from one
    forward loop to the next through the channel each loop closes when it is done. */
module AudioBus {
  import opened Collections

  /** How far one SetSource call and the forward loop it starts have come. A call registers
      itself under the mutex and then waits for its predecessor's loop, stops the timers and
      starts its own loop. A loop that ends detaches its source, decides whether to arm the
      reconnect timer, arms it, and finally closes its channel. */
  datatype Stage = Waiting | Starting | Running | Delivering | Detaching | Deciding | Arming | Closing | Done

  /** Closing the bus first stops its timers and then closes its channel, once. */
  datatype Door = Open | Shutting | Shut

  /** Calls are numbered by generation. `armed` are the generations whose reconnect timer may
      still expire, and `expired` those whose timer has expired but whose callback has not closed
      the bus yet; stopping a timer does not stop such a callback. `timer` is the one the bus
      remembers; `delivered` is the generation of every packet handed to subscribers, in order.
      The inactivity timer of the bus has the same two phases. */
  datatype State = State(stages: seq<Stage>, sources: seq<nat>, source: Option<nat>, door: Door,
                         inactivity: bool, inactivityExpired: bool, armed: set<nat>, expired: set<nat>,
                         timer: Option<nat>, delivered: seq<nat>)

  datatype Action =
    | SetSource(source: nat)
    | StopTimers(g: nat)
    | Start(g: nat)
    | Packet(g: nat)
    | Deliver(g: nat)
    | ReadFails(g: nat)
    | Detach(g: nat)
    | Decide(g: nat)
    | Arm(g: nat)
    | CloseDone(g: nat)
    | TimerExpires(g: nat)
    | TimerCallback(g: nat)
    | InactivityExpires
    | InactivityCallback
    | Close
    | FinishClose

  function Initial(): State {
    State([], [], None, Open, true, false, {}, {}, None, [])
  }

  predicate At(s: State, g: nat, stage: Stage) {
    g < |s.stages| && s.stages[g] == stage
  }

  function Move(s: State, g: nat, stage: Stage): State
    requires g < |s.stages|
  {
    s.(stages := s.stages[g := stage])
  }

  function TimerStopped(s: State): State {
    s.(inactivity := false, armed := if s.timer.Some? then s.armed - {s.timer.value} else s.armed)
  }

  /** Whoever closes the bus first stops its timers; later closers do nothing. */
  function Closed(s: State): State {
    if s.door.Open? then TimerStopped(s).(door := Shutting) else s
  }

  predicate DetachClears(s: State, g: nat) {
    g < |s.sources| && s.source == Some(s.sources[g])
  }

  /** One atomic step; a step whose guard does not hold changes nothing. */
  function Next(s: State, a: Action): State {
    match a
    case SetSource(source) =>
      s.(stages := s.stages + [Waiting], sources := s.sources + [source], source := Some(source))
    case StopTimers(g) =>
      if At(s, g, Waiting) && (g == 0 || s.stages[g - 1] == Done) then Move(TimerStopped(s), g, Starting) else s
    case Start(g) => if At(s, g, Starting) then Move(s, g, Running) else s
    case Packet(g) => if At(s, g, Running) then Move(s, g, if s.door.Shut? then Detaching else Delivering) else s
    case Deliver(g) => if At(s, g, Delivering) then Move(s, g, Running).(delivered := s.delivered + [g]) else s
    case ReadFails(g) => if At(s, g, Running) then Move(s, g, Detaching) else s
    case Detach(g) =>
      if At(s, g, Detaching) then Move(s, g, Deciding).(source := if DetachClears(s, g) then None else s.source) else s
    case Decide(g) => if At(s, g, Deciding) then Move(s, g, if s.door.Shut? then Closing else Arming) else s
    case Arm(g) => if At(s, g, Arming) then Move(s, g, Closing).(armed := s.armed + {g}, timer := Some(g)) else s
    case CloseDone(g) => if At(s, g, Closing) then Move(s, g, Done) else s
    case TimerExpires(g) => if g in s.armed then s.(armed := s.armed - {g}, expired := s.expired + {g}) else s
    case TimerCallback(g) => if g in s.expired then Closed(s.(expired := s.expired - {g})) else s
    case InactivityExpires => if s.inactivity then s.(inactivity := false, inactivityExpired := true) else s
    case InactivityCallback => if s.inactivityExpired then Closed(s.(inactivityExpired := false)) else s
    case Close => Closed(s)
    case FinishClose => if s.door.Shutting? then s.(door := Shut) else s
  }

  ghost predicate IsRun(run: seq<State>, actions: seq<Action>) {
    && |run| == |actions| + 1 && run[0] == Initial()
    && forall i {:trigger actions[i]} :: 0 <= i < |actions| ==> run[i + 1] == Next(run[i], actions[i])
  }

  // ---------------------------------------------------------------- invariant

  /** A call that is past waiting has seen every earlier loop finish. */
  predicate Chained(s: State) {
    forall g, h :: 0 <= h < g < |s.stages| && s.stages[g] != Waiting ==> s.stages[h] == Done
  }

  /** A loop that may still forward. */
  predicate Live(stage: Stage) {
    stage.Running? || stage.Delivering?
  }

  predicate Begun(stage: Stage) {
    !stage.Waiting? && !stage.Starting?
  }

  predicate DeliveredInOrder(s: State) {
    && (forall i :: 0 <= i < |s.delivered| ==> s.delivered[i] < |s.stages| && Begun(s.stages[s.delivered[i]]))
    && (forall i, j :: 0 <= i < j < |s.delivered| ==> s.delivered[i] <= s.delivered[j])
  }

  /** An armed timer is the one the bus remembers, its loop is over, and no later call has got
      past waiting. */
  predicate TimerInv(s: State) {
    forall t :: t in s.armed ==>
      && s.timer == Some(t) && t < |s.stages| && (s.stages[t] == Closing || s.stages[t] == Done)
      && forall g :: t < g < |s.stages| ==> s.stages[g] == Waiting
  }

  /** The attached source is the newest one, or none. */
  predicate SourceInv(s: State) {
    && |s.sources| == |s.stages|
    && (s.source.Some? ==> |s.sources| > 0 && s.source.value == s.sources[|s.sources| - 1])
  }

  predicate Inv(s: State) {
    Chained(s) && DeliveredInOrder(s) && TimerInv(s) && SourceInv(s)
  }

  lemma ChainedStep(s: State, a: Action)
    requires Chained(s)
    ensures Chained(Next(s, a))
  {
  }

  lemma DeliveredStep(s: State, a: Action)
    requires Chained(s) && DeliveredInOrder(s)
    ensures DeliveredInOrder(Next(s, a))
  {
  }

  lemma TimerStep(s: State, a: Action)
    requires Chained(s) && TimerInv(s)
    ensures TimerInv(Next(s, a))
  {
  }

  lemma SourceStep(s: State, a: Action)
    requires SourceInv(s)
    ensures SourceInv(Next(s, a))
  {
  }

  lemma {:induction false} RunInv(run: seq<State>, actions: seq<Action>, n: nat)
    requires IsRun(run, actions) && n < |run|
    ensures Inv(run[n])
  {
    if n > 0 {
      RunInv(run, actions, n - 1);
      ChainedStep(run[n - 1], actions[n - 1]);
      DeliveredStep(run[n - 1], actions[n - 1]);
      TimerStep(run[n - 1], actions[n - 1]);
      SourceStep(run[n - 1], actions[n - 1]);
    }
  }

  // ----------------------------------------------------------------- theorems

  /** Forward loops never overlap and start in generation order: while one runs, every earlier
      one has finished and every later one waits. */
  lemma LoopsNeverOverlap(run: seq<State>, actions: seq<Action>, n: nat, g: nat, h: nat)
    requires IsRun(run, actions) && n < |run| && g < |run[n].stages| && h < |run[n].stages| && g != h
    requires run[n].stages[g] != Waiting && run[n].stages[g] != Done
    ensures run[n].stages[h] == if h < g then Done else Waiting
  {
    RunInv(run, actions, n);
  }

  /** The generations of delivered packets never decrease. */
  lemma GenerationsNeverDecrease(run: seq<State>, actions: seq<Action>, n: nat, i: nat, j: nat)
    requires IsRun(run, actions) && n < |run| && i <= j < |run[n].delivered|
    ensures run[n].delivered[i] <= run[n].delivered[j]
  {
    RunInv(run, actions, n);
  }

  /** While a loop runs, no reconnect timer can expire any more, neither an earlier one's nor its own. */
  lemma NoTimerWhileForwarding(run: seq<State>, actions: seq<Action>, n: nat, g: nat)
    requires IsRun(run, actions) && n < |run| && g < |run[n].stages| && Live(run[n].stages[g])
    ensures run[n].armed == {}
  {
    RunInv(run, actions, n);
  }

  // ------------------------------------------------ callbacks that come too late

  /** The step at which call `g` stops the timers. */
  predicate StopsTimers(s: State, a: Action, g: nat) {
    a == StopTimers(g) && At(s, g, Waiting) && At(Next(s, a), g, Starting)
  }

  ghost predicate CallbackBetween(actions: seq<Action>, i: nat, j: nat, t: nat)
    requires i <= j <= |actions|
  {
    exists k :: i <= k < j && actions[k] == TimerCallback(t)
  }

  /** Once a call is past waiting, the timers of earlier generations expire no more. */
  lemma NoLateExpiry(s: State, a: Action, g: nat, t: nat)
    requires Chained(s) && TimerInv(s) && t < g < |s.stages| && s.stages[g] != Waiting
    ensures g < |Next(s, a).stages| && Next(s, a).stages[g] != Waiting
    ensures t in Next(s, a).expired <==> t in s.expired && a != TimerCallback(t)
  {
  }

  lemma {:induction false} PendingSince(run: seq<State>, actions: seq<Action>, m: nat, n: nat, g: nat, t: nat)
    requires IsRun(run, actions) && m < n < |run| && t < g && StopsTimers(run[m], actions[m], g)
    ensures g < |run[n].stages| && run[n].stages[g] != Waiting
    ensures t in run[n].expired <==> t in run[m].expired && !CallbackBetween(actions, m, n, t)
    decreases n
  {
    assert run[m + 1] == Next(run[m], actions[m]);
    if m + 1 < n {
      PendingSince(run, actions, m, n - 1, g, t);
      RunInv(run, actions, n - 1);
      assert run[n] == Next(run[n - 1], actions[n - 1]);
      NoLateExpiry(run[n - 1], actions[n - 1], g, t);
      CallbackGrows(actions, m, n, t);
    } else {
      CallbackGrows(actions, m, n, t);
    }
  }

  lemma CallbackGrows(actions: seq<Action>, m: nat, n: nat, t: nat)
    requires m < n <= |actions|
    ensures CallbackBetween(actions, m, n, t) <==> CallbackBetween(actions, m, n - 1, t) || actions[n - 1] == TimerCallback(t)
  {
  }

  /** The reconnect timer of an earlier source closes the bus under a later call exactly if it
      had expired before that call stopped the timers, its callback is still to run, and the bus
      is open: then running it closes the bus, and otherwise it does nothing. */
  lemma EarlierTimerClosesBusIff(run: seq<State>, actions: seq<Action>, m: nat, n: nat, g: nat, t: nat)
    requires IsRun(run, actions) && m < n < |run| && t < g && StopsTimers(run[m], actions[m], g) && run[n].door.Open?
    ensures Next(run[n], TimerCallback(t)).door.Shutting? <==> t in run[m].expired && !CallbackBetween(actions, m, n, t)
  {
    PendingSince(run, actions, m, n, g, t);
  }

  /** So a call that finds no expired timer is never closed by an earlier source's timer. */
  lemma QuietHandOverIsSafe(run: seq<State>, actions: seq<Action>, m: nat, n: nat, g: nat, t: nat)
    requires IsRun(run, actions) && m < n < |run| && t < g && StopsTimers(run[m], actions[m], g) && t !in run[m].expired
    ensures Next(run[n], TimerCallback(t)) == run[n]
  {
    PendingSince(run, actions, m, n, g, t);
  }

  /** A run goes on with one more step. */
  lemma GoesOn(run: seq<State>, actions: seq<Action>, a: Action, t: State)
    requires IsRun(run, actions) && t == Next(run[|actions|], a)
    ensures IsRun(run + [t], actions + [a])
  {
    var longer, all := run + [t], actions + [a];
    forall i | 0 <= i < |all|
      ensures longer[i + 1] == Next(longer[i], all[i])
    {
      if i < |actions| {
        assert all[i] == actions[i];
      }
    }
  }

  lemma FirstSourceRuns() returns (run: seq<State>, actions: seq<Action>)
    ensures IsRun(run, actions) && run[|actions|] == State([Detaching], [7], Some(7), Open, false, false, {}, {}, None, [])
  {
    var s1 := Initial().(stages := [Waiting], sources := [7], source := Some(7));
    var s2 := s1.(stages := [Starting], inactivity := false);
    run, actions := [Initial()], [];
    GoesOn(run, actions, SetSource(7), s1);
    run, actions := run + [s1], actions + [SetSource(7)];
    GoesOn(run, actions, StopTimers(0), s2);
    run, actions := run + [s2], actions + [StopTimers(0)];
    GoesOn(run, actions, Start(0), s2.(stages := [Running]));
    run, actions := run + [s2.(stages := [Running])], actions + [Start(0)];
    GoesOn(run, actions, ReadFails(0), s2.(stages := [Detaching]));
    run, actions := run + [s2.(stages := [Detaching])], actions + [ReadFails(0)];
  }

  lemma FirstTimerExpires() returns (run: seq<State>, actions: seq<Action>)
    ensures IsRun(run, actions) && run[|actions|] == State([Done], [7], None, Open, false, false, {}, {0}, Some(0), [])
  {
    run, actions := FirstSourceRuns();
    var s1 := run[|actions|].(stages := [Deciding], source := None);
    var s3 := s1.(stages := [Closing], armed := {0}, timer := Some(0));
    var s4 := s3.(armed := {}, expired := {0});
    GoesOn(run, actions, Detach(0), s1);
    run, actions := run + [s1], actions + [Detach(0)];
    GoesOn(run, actions, Decide(0), s1.(stages := [Arming]));
    run, actions := run + [s1.(stages := [Arming])], actions + [Decide(0)];
    GoesOn(run, actions, Arm(0), s3);
    run, actions := run + [s3], actions + [Arm(0)];
    GoesOn(run, actions, TimerExpires(0), s4);
    run, actions := run + [s4], actions + [TimerExpires(0)];
    GoesOn(run, actions, CloseDone(0), s4.(stages := [Done]));
    run, actions := run + [s4.(stages := [Done])], actions + [CloseDone(0)];
  }

  /** It does happen: the first source's timer expires just before the second source takes over,
      and its callback closes the bus under the second one's running loop. */
  lemma ExpiredTimerEndsLaterLoop() returns (run: seq<State>, actions: seq<Action>)
    ensures IsRun(run, actions) && |actions| > 2 && actions[|actions| - 3] == TimerCallback(0)
    ensures At(run[|actions| - 3], 1, Running) && run[|actions| - 3].door.Open?
    ensures run[|actions|].stages == [Done, Detaching] && run[|actions|].door.Shut? && run[|actions|].delivered == []
  {
    run, actions := FirstTimerExpires();
    var s1 := run[|actions|].(stages := [Done, Waiting], sources := [7, 8], source := Some(8));
    var s4 := s1.(stages := [Done, Running], expired := {}, door := Shutting);
    var s5 := s4.(door := Shut);
    GoesOn(run, actions, SetSource(8), s1);
    run, actions := run + [s1], actions + [SetSource(8)];
    GoesOn(run, actions, StopTimers(1), s1.(stages := [Done, Starting]));
    run, actions := run + [s1.(stages := [Done, Starting])], actions + [StopTimers(1)];
    GoesOn(run, actions, Start(1), s1.(stages := [Done, Running]));
    run, actions := run + [s1.(stages := [Done, Running])], actions + [Start(1)];
    GoesOn(run, actions, TimerCallback(0), s4);
    run, actions := run + [s4], actions + [TimerCallback(0)];
    GoesOn(run, actions, FinishClose, s5);
    run, actions := run + [s5], actions + [FinishClose];
    GoesOn(run, actions, Packet(1), s5.(stages := [Done, Detaching]));
    run, actions := run + [s5.(stages := [Done, Detaching])], actions + [Packet(1)];
  }

  // ----------------------------------------------- detaching and the successor's source

  predicate Distinct(sources: seq<nat>) {
    forall i, j :: 0 <= i < j < |sources| ==> sources[i] != sources[j]
  }

  /** A loop that ends leaves a successor's source alone exactly if that is a different source. */
  lemma DetachKeepsSuccessor(run: seq<State>, actions: seq<Action>, n: nat, g: nat)
    requires IsRun(run, actions) && n < |run| && At(run[n], g, Detaching) && g + 1 < |run[n].stages|
    requires run[n].source.Some?
    ensures |run[n].sources| == |run[n].stages|
    ensures Next(run[n], Detach(g)).source == run[n].source
       <==> run[n].sources[g] != run[n].sources[|run[n].sources| - 1]
  {
    RunInv(run, actions, n);
  }

  /** The same source attached twice in a row is lost when the first loop ends. */
  lemma SharedSourceIsLost()
    ensures var a := [SetSource(7), StopTimers(0), Start(0), SetSource(7), ReadFails(0), Detach(0)];
      var s1 := Next(Initial(), a[0]);
      var s2 := Next(Next(s1, a[1]), a[2]);
      var s3 := Next(s2, a[3]);
      var s4 := Next(Next(s3, a[4]), a[5]);
      s3.source == Some(7) && s4.source == None && s4.stages == [Deciding, Waiting]
  {
  }

  /** The newest call still holds its source. */
  predicate Attached(stage: Stage) {
    stage in {Waiting, Starting, Running, Delivering, Detaching}
  }

  predicate NewestAttached(s: State) {
    |s.sources| == |s.stages| && Distinct(s.sources) ==>
      (s.source.Some? <==> |s.stages| > 0 && Attached(s.stages[|s.stages| - 1]))
  }

  lemma NewestStep(s: State, a: Action)
    requires SourceInv(s) && NewestAttached(s)
    ensures NewestAttached(Next(s, a))
  {
  }

  lemma {:induction false} RunNewest(run: seq<State>, actions: seq<Action>, n: nat)
    requires IsRun(run, actions) && n < |run|
    ensures NewestAttached(run[n])
  {
    if n > 0 {
      RunNewest(run, actions, n - 1);
      RunInv(run, actions, n - 1);
      NewestStep(run[n - 1], actions[n - 1]);
    }
  }

  /** With distinct sources the bus reports an active source exactly while the newest call has
      not detached, and then it is that call's source. */
  lemma ActiveIsNewest(run: seq<State>, actions: seq<Action>, n: nat)
    requires IsRun(run, actions) && n < |run| && Distinct(run[n].sources)
    ensures |run[n].sources| == |run[n].stages|
    ensures run[n].source == if |run[n].stages| > 0 && Attached(run[n].stages[|run[n].stages| - 1])
                             then Some(run[n].sources[|run[n].sources| - 1]) else None
  {
    RunInv(run, actions, n);
    RunNewest(run, actions, n);
  }
}
