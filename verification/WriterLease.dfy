/** The leased control-writer term over a whole namespace: how a Service instance becomes
    the writer, how every transaction is fenced, and what a reset to a fresh incarnation does. */
module WriterLease {
  import opened Collections

  const SCHEMA_VERSION := 1

  /** `None` is the zero time, which lies before every other time. */
  type Instant = Option<int>

  datatype Namespace = Namespace(schemaVersion: int, incarnation: string, term: nat, writerId: string, leaseExpires: Instant)

  /** A Service instance: its writer group and the term and incarnation it started under. */
  datatype Instance = Instance(writerId: string, term: nat, incarnation: string)

  predicate After(t: Instant, now: int) {
    t.Some? && t.value > now
  }

  // ------------------------------------------------------------- specification

  /** The writer group of a Service; an unnamed one is "default". */
  function Group(configuredId: string): string {
    if configuredId == "" then "default" else configuredId
  }

  /** What taking over does to the namespace, or `None` if a different group's lease is
      still running or the schema is too new. `randomId` is the random identifier drawn. */
  function Started(ns: Namespace, writerId: string, randomId: string, now: int, lease: nat): Option<Namespace> {
    if ns.schemaVersion > SCHEMA_VERSION then None else
    var named := if ns.incarnation == "" then Namespace(SCHEMA_VERSION, randomId, 1, writerId, None) else ns;
    var adopted := if named.writerId != "" then named
                   else named.(writerId := writerId, term := if named.term == 0 then 1 else named.term);
    if adopted.writerId == writerId then Some(adopted.(leaseExpires := Some(now + lease)))
    else if After(adopted.leaseExpires, now) then None
    else Some(adopted.(term := adopted.term + 1, writerId := writerId, leaseExpires := Some(now + lease)))
  }

  /** Whether instance `x` may still act on the namespace. */
  predicate IsWriter(ns: Namespace, x: Instance) {
    ns.term == x.term && ns.writerId == x.writerId && ns.incarnation == x.incarnation
  }

  function Reset(randomId: string): Namespace {
    Namespace(SCHEMA_VERSION, randomId, 0, "", None)
  }

  // --------------------------------------------------------- the imperative form

  class ControlStore {
    var namespace: Namespace

    constructor ()
      ensures namespace == Namespace(0, "", 0, "", None)
    {
      namespace := Namespace(0, "", 0, "", None);
    }

    /** Starting a Service: the namespace part of its first transaction. */
    method NewService(configuredId: string, randomId: string, now: int, lease: nat) returns (x: Option<Instance>)
      modifies this
      ensures x.None? <==> Started(old(namespace), Group(configuredId), randomId, now, lease).None?
      ensures x.None? ==> namespace == old(namespace)
      ensures x.Some? ==> Some(namespace) == Started(old(namespace), Group(configuredId), randomId, now, lease)
      ensures x.Some? ==> IsWriter(namespace, x.value) && x.value.writerId == Group(configuredId)
      ensures var writerId := if configuredId == "" then "default" else configuredId;
        && (x.None? <==> Refused(old(namespace), writerId, now))
        && (x.Some? ==> x.value.writerId == writerId && namespace.leaseExpires == Some(now + lease))
    {
      var writerId := configuredId;
      if writerId == "" {
        writerId := "default";
      }
      var ns := namespace;
      if ns.schemaVersion > SCHEMA_VERSION {
        return None;
      }
      if ns.incarnation == "" {
        ns := Namespace(SCHEMA_VERSION, randomId, 1, writerId, None);
      }
      if ns.writerId == "" {
        ns := ns.(writerId := writerId);
        if ns.term == 0 {
          ns := ns.(term := 1);
        }
      }
      if ns.writerId != writerId {
        if After(ns.leaseExpires, now) {
          return None;
        }
        ns := ns.(term := ns.term + 1, writerId := writerId);
      }
      namespace := ns.(leaseExpires := Some(now + lease));
      return Some(Instance(writerId, namespace.term, namespace.incarnation));
    }

    /** The fence in front of every update; a writer also renews its lease. */
    method Update(x: Instance, now: int, lease: nat) returns (admitted: bool)
      modifies this
      ensures admitted <==> IsWriter(old(namespace), x)
      ensures namespace == if admitted then old(namespace).(leaseExpires := Some(now + lease)) else old(namespace)
    {
      if namespace.term != x.term || namespace.writerId != x.writerId || namespace.incarnation != x.incarnation {
        return false;
      }
      namespace := namespace.(leaseExpires := Some(now + lease));
      return true;
    }

    /** No instance of another incarnation remains the writer, and any group may start at once. */
    method ResetRestoredStore(randomId: string)
      modifies this
      ensures namespace == Reset(randomId)
      ensures forall x: Instance :: x.incarnation != randomId ==> !IsWriter(namespace, x)
      ensures randomId != "" ==> forall writerId, other, now, lease: nat :: writerId != "" ==>
                Started(namespace, writerId, other, now, lease) == Some(Namespace(SCHEMA_VERSION, randomId, 1, writerId, Some(now + lease)))
    {
      namespace := Namespace(SCHEMA_VERSION, randomId, 0, "", None);
    }
  }

  // ----------------------------------------------------------------- whole runs

  /** The namespace, every instance that ever started, every update admitted (by which
      instance), and the random identifiers drawn so far. */
  datatype System = System(namespace: Namespace, instances: seq<Instance>, commits: seq<nat>, drawn: set<string>)

  datatype Action =
    | Start(writerId: string, randomId: string, now: int, lease: nat)
    | Commit(x: nat, now: int, lease: nat)
    | Restore(randomId: string)

  /** Random identifiers never repeat and are never empty. */
  predicate Drawable(s: System, a: Action) {
    match a
    case Start(writerId, randomId, _, _) => writerId != "" && randomId != "" && randomId !in s.drawn
    case Restore(randomId) => randomId != "" && randomId !in s.drawn
    case Commit(_, _, _) => true
  }

  function Next(s: System, a: Action): System {
    match a
    case Start(writerId, randomId, now, lease) =>
      (match Started(s.namespace, writerId, randomId, now, lease)
       case None => s.(drawn := s.drawn + {randomId})
       case Some(ns) => s.(namespace := ns, instances := s.instances + [Instance(writerId, ns.term, ns.incarnation)],
                           drawn := s.drawn + {randomId}))
    case Commit(x, now, lease) =>
      if x < |s.instances| && IsWriter(s.namespace, s.instances[x])
      then s.(namespace := s.namespace.(leaseExpires := Some(now + lease)), commits := s.commits + [x]) else s
    case Restore(randomId) => s.(namespace := Reset(randomId), drawn := s.drawn + {randomId})
  }

  /** A run may start from any stored namespace, without any running instance. */
  ghost predicate IsRun(run: seq<System>, actions: seq<Action>) {
    && |run| == |actions| + 1
    && run[0].instances == [] && run[0].commits == [] && run[0].namespace.incarnation in run[0].drawn
    && forall i {:trigger actions[i]} :: 0 <= i < |actions| ==> Drawable(run[i], actions[i]) && run[i + 1] == Next(run[i], actions[i])
  }

  /** Instances belong to known incarnations; in the current one their terms lie at or
      below the current term, and the current term belongs to the current group. */
  predicate Inv(s: System) {
    && s.namespace.incarnation in s.drawn
    && (forall x :: x in s.instances ==> x.incarnation in s.drawn && x.incarnation != "" && x.writerId != "")
    && (forall x :: x in s.instances && x.incarnation == s.namespace.incarnation ==>
          x.term <= s.namespace.term && (x.term == s.namespace.term ==> x.writerId == s.namespace.writerId))
    && (forall x, y :: x in s.instances && y in s.instances && x.incarnation == y.incarnation && x.term == y.term ==>
          x.writerId == y.writerId)
  }

  lemma InvStep(s: System, a: Action)
    requires Inv(s) && Drawable(s, a)
    ensures Inv(Next(s, a))
  {
  }

  lemma {:induction false} RunInv(run: seq<System>, actions: seq<Action>, n: nat)
    requires IsRun(run, actions) && n < |run|
    ensures Inv(run[n])
  {
    if n > 0 {
      RunInv(run, actions, n - 1);
      InvStep(run[n - 1], actions[n - 1]);
    }
  }

  /** Within one incarnation a term determines the writer group. */
  lemma TermDeterminesWriter(run: seq<System>, actions: seq<Action>, n: nat, x: Instance, y: Instance)
    requires IsRun(run, actions) && n < |run| && x in run[n].instances && y in run[n].instances
    requires x.incarnation == y.incarnation && x.term == y.term
    ensures x.writerId == y.writerId
  {
    RunInv(run, actions, n);
  }

  /** `t` may follow `s`: the term has not fallen within the incarnation, or the incarnation
      is one that had never been used before; nothing drawn or started is forgotten. */
  predicate Follows(s: System, t: System) {
    && s.drawn <= t.drawn && s.instances <= t.instances
    && (if s.namespace.incarnation == t.namespace.incarnation then s.namespace.term <= t.namespace.term
        else t.namespace.incarnation !in s.drawn)
  }

  lemma FollowsStep(s: System, a: Action)
    requires Drawable(s, a) && s.namespace.incarnation in s.drawn
    ensures Follows(s, Next(s, a))
  {
  }

  /** Over a whole run: within one incarnation the term only grows, and an incarnation that
      has been left never comes back. */
  lemma {:induction false} TermGrows(run: seq<System>, actions: seq<Action>, i: nat, j: nat)
    requires IsRun(run, actions) && i <= j < |run|
    ensures Follows(run[i], run[j])
    decreases j
  {
    RunInv(run, actions, i);
    if i < j {
      TermGrows(run, actions, i, j - 1);
      RunInv(run, actions, j - 1);
      FollowsStep(run[j - 1], actions[j - 1]);
    }
  }

  /** The writer group holds a lease that runs at least until `until`. */
  predicate Leased(s: System, writerId: string, until: int) {
    && s.namespace.incarnation != "" && s.namespace.writerId == writerId && writerId != ""
    && After(s.namespace.leaseExpires, until - 1)
  }

  /** From `i` before `j` the clock stays below `until`, the store is not reset, and whoever
      renews the stored lease renews it at least until then. Instances may have any lease durations;
      one with a shorter duration can shorten the stored lease (`RenewalCanShorten`), and then
      `TakeoverOnlyAfterExpiry` still holds. */
  ghost predicate WithinLease(run: seq<System>, actions: seq<Action>, i: nat, j: nat, until: int)
    requires i <= j <= |actions| && |run| == |actions| + 1
  {
    forall k {:trigger actions[k]} :: i <= k < j ==>
      && !actions[k].Restore? && actions[k].now < until
      && (run[k + 1].namespace.leaseExpires != run[k].namespace.leaseExpires ==> until <= actions[k].now + actions[k].lease)
  }

  /** Committing or starting at time `from` leases the namespace until `from + lease`. */
  lemma ActingLeases(s: System, a: Action)
    requires Inv(s) && Drawable(s, a) && !a.Restore?
    requires Next(s, a).commits != s.commits || Next(s, a).instances != s.instances
    ensures var x := if a.Commit? then s.instances[a.x].writerId else a.writerId;
      Leased(Next(s, a), x, a.now + a.lease)
  {
  }

  lemma LeaseStep(s: System, a: Action, writerId: string, until: int)
    requires Drawable(s, a) && Leased(s, writerId, until) && !a.Restore? && a.now < until
    requires Next(s, a).namespace.leaseExpires != s.namespace.leaseExpires ==> until <= a.now + a.lease
    ensures Leased(Next(s, a), writerId, until)
    ensures a.Start? && a.writerId != writerId ==>
              Next(s, a).namespace == s.namespace && Next(s, a).instances == s.instances
  {
  }

  /** Until a lease runs out no other group becomes the writer: every start by another group
      fails without touching the namespace. */
  lemma {:induction false} LeaseProtects(run: seq<System>, actions: seq<Action>, i: nat, j: nat, writerId: string, until: int)
    requires IsRun(run, actions) && i <= j <= |actions| && WithinLease(run, actions, i, j, until)
    requires Leased(run[i], writerId, until)
    ensures Leased(run[j], writerId, until)
    ensures forall k :: i <= k < j && actions[k].Start? && actions[k].writerId != writerId ==>
              run[k + 1].namespace == run[k].namespace && run[k + 1].instances == run[k].instances
    decreases j
  {
    if i < j {
      LeaseProtects(run, actions, i, j - 1, writerId, until);
      LeaseStep(run[j - 1], actions[j - 1], writerId, until);
    }
  }

  /** Whenever the writer group changes within an incarnation, it changes by a start of the new
      group, at a time when the stored lease had run out, and the term rises by one. */
  lemma TakeoverOnlyAfterExpiry(run: seq<System>, actions: seq<Action>, k: nat)
    requires IsRun(run, actions) && k < |actions|
    requires run[k].namespace.incarnation == run[k + 1].namespace.incarnation
    requires run[k].namespace.writerId != "" && run[k].namespace.writerId != run[k + 1].namespace.writerId
    ensures actions[k].Start? && actions[k].writerId == run[k + 1].namespace.writerId
    ensures !After(run[k].namespace.leaseExpires, actions[k].now)
    ensures run[k + 1].namespace.term == run[k].namespace.term + 1
  {
    RunInv(run, actions, k);
    assert run[k + 1] == Next(run[k], actions[k]);
  }

  /** A second instance of the same group with a shorter lease duration shortens the stored lease:
      another group takes over at 20, although the group was leased until 100. */
  lemma RenewalCanShorten() returns (run: seq<System>, actions: seq<Action>)
    ensures IsRun(run, actions) && |actions| == 3 && actions[2] == Start("b", "y", 20, 100)
    ensures Leased(run[1], "a", 100) && Leased(run[2], "a", 11) && !Leased(run[2], "a", 12)
    ensures run[3].namespace.writerId == "b" && run[3].namespace.term == run[1].namespace.term + 1
  {
    var s0 := System(Namespace(SCHEMA_VERSION, "i", 0, "", None), [], [], {"i"});
    actions := [Start("a", "x", 0, 100), Start("a", "z", 1, 10), Start("b", "y", 20, 100)];
    var s1 := Next(s0, actions[0]);
    var s2 := Next(s1, actions[1]);
    run := [s0, s1, s2, Next(s2, actions[2])];
  }

  /** An instance that has once lost the fence never commits again: not when its group comes
      back under a later term, and not after a reset to a fresh incarnation. */
  lemma DisplacedForGood(run: seq<System>, actions: seq<Action>, i: nat, j: nat, x: nat)
    requires IsRun(run, actions) && i <= j < |run| && x < |run[i].instances|
    requires !IsWriter(run[i].namespace, run[i].instances[x])
    ensures x < |run[j].instances| && run[j].instances[x] == run[i].instances[x]
    ensures !IsWriter(run[j].namespace, run[j].instances[x])
  {
    TermGrows(run, actions, i, j);
    RunInv(run, actions, i);
    RunInv(run, actions, j);
    assert run[i].instances[x] in run[i].instances;
  }

  /** So the admitted updates of a run never return to an instance that was fenced once. */
  lemma NoCommitAfterFence(run: seq<System>, actions: seq<Action>, i: nat, j: nat, x: nat)
    requires IsRun(run, actions) && i <= j < |actions| && x < |run[i].instances|
    requires !IsWriter(run[i].namespace, run[i].instances[x])
    ensures |run[j + 1].commits| > |run[j].commits| ==> run[j + 1].commits[|run[j].commits|] != x
  {
    DisplacedForGood(run, actions, i, j, x);
    assert run[j + 1] == Next(run[j], actions[j]);
  }

  // ------------------------------------------------------------ who may start and commit

  /** A start is refused by a newer schema, or by another group whose lease is still running. */
  predicate Refused(ns: Namespace, writerId: string, now: int) {
    || ns.schemaVersion > SCHEMA_VERSION
    || (ns.incarnation != "" && ns.writerId != "" && ns.writerId != writerId && After(ns.leaseExpires, now))
  }

  /** Exactly what a start does: refused, it changes nothing; otherwise the caller's group holds a
      lease, under the next term if it takes over from another group, under the term it has if it
      was the writer already, and under term 1 of the incarnation it drew on a new store. */
  lemma StartsIff(run: seq<System>, actions: seq<Action>, n: nat)
    requires IsRun(run, actions) && n < |actions| && actions[n].Start?
    ensures var s, t, a := run[n], run[n + 1], actions[n];
      var ns, ns' := s.namespace, t.namespace;
      && (Refused(ns, a.writerId, a.now) ==> ns' == ns && t.instances == s.instances)
      && (!Refused(ns, a.writerId, a.now) ==>
            && t.instances == s.instances + [Instance(a.writerId, ns'.term, ns'.incarnation)]
            && ns'.writerId == a.writerId && ns'.leaseExpires == Some(a.now + a.lease)
            && (ns.incarnation == "" ==> ns'.incarnation == a.randomId && ns'.term == 1)
            && (ns.incarnation != "" ==> ns'.incarnation == ns.incarnation)
            && (ns.incarnation != "" && ns.writerId == "" ==> ns'.term == if ns.term == 0 then 1 else ns.term)
            && (ns.incarnation != "" && ns.writerId == a.writerId ==> ns'.term == ns.term)
            && (ns.incarnation != "" && ns.writerId != "" && ns.writerId != a.writerId ==> ns'.term == ns.term + 1))
  {
    assert run[n + 1] == Next(run[n], actions[n]);
  }

  /** This step displaces the group: a reset, or a start of another group that succeeds. */
  predicate Displaces(s: System, a: Action, t: System, writerId: string) {
    a.Restore? || (a.Start? && a.writerId != writerId && |t.instances| > |s.instances|)
  }

  lemma StaysWriterIff(s: System, a: Action, x: Instance)
    requires Inv(s) && Drawable(s, a) && x in s.instances && IsWriter(s.namespace, x)
    ensures IsWriter(Next(s, a).namespace, x) <==> !Displaces(s, a, Next(s, a), x.writerId)
  {
  }

  lemma WriterAt(run: seq<System>, actions: seq<Action>, m: nat, x: nat)
    requires IsRun(run, actions) && m < |actions| && x < |run[m].instances|
    ensures x < |run[m + 1].instances| && run[m + 1].instances[x] == run[m].instances[x]
    ensures IsWriter(run[m + 1].namespace, run[m + 1].instances[x]) <==>
              IsWriter(run[m].namespace, run[m].instances[x])
              && !Displaces(run[m], actions[m], run[m + 1], run[m].instances[x].writerId)
  {
    RunInv(run, actions, m);
    assert run[m + 1] == Next(run[m], actions[m]);
    if IsWriter(run[m].namespace, run[m].instances[x]) {
      StaysWriterIff(run[m], actions[m], run[m].instances[x]);
    } else {
      DisplacedForGood(run, actions, m, m + 1, x);
    }
  }

  lemma {:induction false} WriterSince(run: seq<System>, actions: seq<Action>, k: nat, j: nat)
    requires IsRun(run, actions) && k < j < |run| && actions[k].Start? && |run[k + 1].instances| > |run[k].instances|
    ensures |run[k].instances| < |run[j].instances|
    ensures IsWriter(run[j].namespace, run[j].instances[|run[k].instances|]) <==>
              forall m :: k < m < j ==> !Displaces(run[m], actions[m], run[m + 1], actions[k].writerId)
    ensures run[j].instances[|run[k].instances|].writerId == actions[k].writerId
    decreases j
  {
    var x := |run[k].instances|;
    if j == k + 1 {
      assert run[k + 1] == Next(run[k], actions[k]);
    } else {
      WriterSince(run, actions, k, j - 1);
      WriterAt(run, actions, j - 1, x);
    }
  }

  /** An instance commits if and only if, since it started, there was no reset and no other group
      took over. */
  lemma CommitsIff(run: seq<System>, actions: seq<Action>, k: nat, j: nat)
    requires IsRun(run, actions) && k < j < |actions| && actions[k].Start? && |run[k + 1].instances| > |run[k].instances|
    requires actions[j].Commit? && actions[j].x == |run[k].instances|
    ensures run[j + 1].commits == run[j].commits + [actions[j].x] <==>
              forall m :: k < m < j ==> !Displaces(run[m], actions[m], run[m + 1], actions[k].writerId)
  {
    WriterSince(run, actions, k, j);
    assert run[j + 1] == Next(run[j], actions[j]);
  }
}
