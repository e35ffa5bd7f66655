/** One-use grants over whole runs: invitations are created, Sessions come and go, and keyed,
    unkeyed, repeated and aborted redemptions interleave in any order. */
module RedemptionRuns {
  import opened Collections
  import opened MemoryStore
  import opened Redemption

  /** A response some caller was given: by spending a grant, or by the receipt that the
      `of`-th response left behind. */
  datatype Response =
    | First(req: Request, grant: Grant, bytes: string)
    | Again(req: Request, bytes: string, of: nat)

  /** The store, the grant identifiers and join codes drawn so far, every response given, and
      which response each receipt key last stood for. */
  datatype System = System(store: Records, ids: set<string>, codes: set<string>, log: seq<Response>, origin: map<string, nat>)

  /** Every action is one transaction. `committed` is false if it was cancelled or fenced. */
  datatype Action =
    | Create(grant: Grant, bytes: nat, now: int)
    | Attempt(req: Request, now: int, foreign: Foreign, committed: bool)
    | KeepSession(session: Session, now: int)
    | EndSession(id: string, now: int)

  /** Identifiers and join codes are drawn at random and never repeat. */
  predicate Drawable(s: System, a: Action) {
    a.Create? ==> a.grant.id !in s.ids && a.grant.joinCode !in s.codes
  }

  function Created(s: System, grant: Grant, bytes: nat, now: int): System {
    var d := Pruned(s.store, now);
    var drawn := s.(ids := s.ids + {grant.id}, codes := s.codes + {grant.joinCode});
    if GrantRefusal(d, grant, bytes).Some? then drawn else drawn.(store := WithGrant(d, grant))
  }

  /** What a first redemption leaves behind. */
  function AfterFirst(s: System, req: Request, grant: Grant, bytes: string, receipt: Option<Receipt>): System {
    s.(store := Spent(s.store, grant, receipt), log := s.log + [First(req, grant, bytes)],
       origin := if receipt.Some? then s.origin[ReceiptKey(req.key) := |s.log|] else s.origin)
  }

  function Attempted(s: System, req: Request, now: int, foreign: Foreign, config: Config): System {
    var d := Pruned(s.store, now);
    var out := Decided(d, req, now, config, foreign);
    match out
    case Rejected(_) => s
    case Replayed(bytes) =>
      s.(store := d, log := s.log + [Again(req, bytes, Origin(s, ReceiptKey(req.key)))])
    case Redeemed(grant, bytes, receipt) => AfterFirst(s.(store := d), req, grant, bytes, receipt)
  }

  function Origin(s: System, key: string): nat {
    if key in s.origin then s.origin[key] else 0
  }

  function Next(s: System, a: Action, config: Config): System {
    match a
    case Create(grant, bytes, now) => Created(s, grant, bytes, now)
    case Attempt(req, now, foreign, committed) =>
      if !committed || Malformed(req).Some? then s else Attempted(s, req, now, foreign, config)
    case KeepSession(session, now) =>
      var d := Pruned(s.store, now);
      s.(store := d.(sessions := d.sessions[session.id := session]))
    case EndSession(id, now) => s.(store := Without(Pruned(s.store, now), {id}, {}, {}))
  }

  ghost predicate IsRun(run: seq<System>, actions: seq<Action>, config: Config) {
    && |run| == |actions| + 1
    && run[0] == System(Records(map[], map[], map[], map[]), {}, {}, [], map[])
    && forall i {:trigger actions[i]} :: 0 <= i < |actions| ==> Drawable(run[i], actions[i]) && run[i + 1] == Next(run[i], actions[i], config)
  }

  // ---------------------------------------------------------------- invariant

  predicate SameRequest(a: Request, b: Request) {
    a.key == b.key && a.locator == b.locator && CodeOf(a) == CodeOf(b)
  }

  predicate Known(s: System) {
    forall id :: id in s.store.grants ==> id in s.ids && s.store.grants[id].joinCode in s.codes
  }

  /** A grant that has answered is gone, and its code with it. */
  predicate SpentForGood(s: System, i: nat)
    requires i < |s.log|
  {
    s.log[i].First? ==>
      && s.log[i].grant.id in s.ids && s.log[i].grant.joinCode in s.codes
      && CodeOf(s.log[i].req) == s.log[i].grant.joinCode
      && s.log[i].grant.id !in s.store.grants
      && forall id :: id in s.store.grants ==> s.store.grants[id].joinCode != s.log[i].grant.joinCode
  }

  predicate Different(a: Response, b: Response) {
    a.First? && b.First? ==> a.grant.id != b.grant.id && a.grant.joinCode != b.grant.joinCode
  }

  /** A receipt repeats what its response said. */
  predicate Remembers(r: Receipt, e: Response) {
    && e.First? && e.req.key != "" && r.key == ReceiptKey(e.req.key)
    && Answers(r, e.req) && r.response == e.bytes
  }

  predicate ReceiptKnown(s: System, k: string)
    requires k in s.store.receipts
  {
    k in s.origin && s.origin[k] < |s.log| && Remembers(s.store.receipts[k], s.log[s.origin[k]])
  }

  predicate Repeats(log: seq<Response>, i: nat)
    requires i < |log|
  {
    log[i].Again? ==>
      && log[i].of < i && log[log[i].of].First?
      && log[i].bytes == log[log[i].of].bytes && SameRequest(log[i].req, log[log[i].of].req)
  }

  predicate Inv(s: System) {
    && Consistent(s.store) && Known(s)
    && (forall i :: 0 <= i < |s.log| ==> SpentForGood(s, i) && Repeats(s.log, i))
    && (forall i, j :: 0 <= i < j < |s.log| ==> Different(s.log[i], s.log[j]))
    && (forall k :: k in s.store.receipts ==> ReceiptKnown(s, k))
  }

  /** `e` has only grants and receipts that `d` has. */
  predicate Within(e: Records, d: Records) {
    && (forall id :: id in e.grants ==> id in d.grants && e.grants[id] == d.grants[id])
    && (forall k :: k in e.receipts ==> k in d.receipts && e.receipts[k] == d.receipts[k])
  }

  /** Forgetting records keeps the invariant. */
  lemma ForgettingKeeps(s: System, store: Records)
    requires Inv(s) && Consistent(store) && Within(store, s.store)
    ensures Inv(s.(store := store))
  {
    var t := s.(store := store);
    assert forall i :: 0 <= i < |s.log| ==> SpentForGood(s, i) ==> SpentForGood(t, i);
    forall k | k in store.receipts
      ensures ReceiptKnown(t, k)
    {
      assert ReceiptKnown(s, k);
    }
  }

  lemma PruningIsWithin(d: Records, now: int)
    requires Consistent(d)
    ensures Consistent(Pruned(d, now)) && Within(Pruned(d, now), d)
  {
  }

  lemma PrunedKeeps(s: System, now: int)
    requires Inv(s)
    ensures Inv(s.(store := Pruned(s.store, now)))
  {
    PruningIsWithin(s.store, now);
    ForgettingKeeps(s, Pruned(s.store, now));
  }

  lemma CreateKeeps(s: System, grant: Grant, bytes: nat)
    requires Inv(s) && grant.id !in s.ids && grant.joinCode !in s.codes && GrantRefusal(s.store, grant, bytes).None?
    ensures Inv(s.(store := WithGrant(s.store, grant), ids := s.ids + {grant.id}, codes := s.codes + {grant.joinCode}))
  {
    var t := s.(store := WithGrant(s.store, grant), ids := s.ids + {grant.id}, codes := s.codes + {grant.joinCode});
    WithGrantIsConsistent(s.store, grant, bytes);
    forall i | 0 <= i < |s.log|
      ensures SpentForGood(t, i)
    {
      assert SpentForGood(s, i);
    }
    forall k | k in t.store.receipts
      ensures ReceiptKnown(t, k)
    {
      assert ReceiptKnown(s, k);
    }
  }

  lemma DrawingKeeps(s: System, id: string, code: string)
    requires Inv(s)
    ensures Inv(s.(ids := s.ids + {id}, codes := s.codes + {code}))
  {
    var t := s.(ids := s.ids + {id}, codes := s.codes + {code});
    assert forall i :: 0 <= i < |s.log| ==> SpentForGood(s, i) ==> SpentForGood(t, i);
    assert forall k :: k in s.store.receipts ==> ReceiptKnown(s, k) ==> ReceiptKnown(t, k);
  }

  /** Two requests that the same receipt answers are the same request. */
  lemma AnswersOne(r: Receipt, a: Request, b: Request)
    requires Answers(r, a) && Answers(r, b)
    ensures a.locator == b.locator && CodeOf(a) == CodeOf(b)
  {
    PrefixedAlike("redeem\0", a.locator, b.locator);
    PrefixedAlike("join\0", CodeOf(a), CodeOf(b));
  }

  lemma ReplayKeeps(s: System, req: Request, r: Receipt)
    requires Inv(s) && req.key != "" && ReceiptKey(req.key) in s.store.receipts && r == s.store.receipts[ReceiptKey(req.key)]
    requires Answers(r, req)
    ensures Inv(s.(log := s.log + [Again(req, r.response, Origin(s, ReceiptKey(req.key)))]))
  {
    var t := s.(log := s.log + [Again(req, r.response, Origin(s, ReceiptKey(req.key)))]);
    assert ReceiptKnown(s, ReceiptKey(req.key));
    var e := s.log[s.origin[ReceiptKey(req.key)]];
    AnswersOne(r, req, e.req);
    PrefixedAlike("redeem\0", req.key, e.req.key);
    assert Repeats(t.log, |s.log|);
    forall i | 0 <= i < |s.log|
      ensures SpentForGood(t, i) && Repeats(t.log, i)
    {
      assert SpentForGood(s, i) && Repeats(s.log, i);
    }
    forall k | k in t.store.receipts
      ensures ReceiptKnown(t, k)
    {
      assert ReceiptKnown(s, k);
    }
  }

  /** Spending removes exactly the one grant and adds at most its receipt. */
  lemma SpendingIs(d: Records, grant: Grant, receipt: Option<Receipt>)
    requires Consistent(d) && grant.id in d.grants && d.grants[grant.id] == grant
    requires receipt.Some? ==> receipt.value.sessionId in d.sessions
    ensures Consistent(Spent(d, grant, receipt))
    ensures Spent(d, grant, receipt).grants == d.grants - {grant.id}
    ensures Spent(d, grant, receipt).receipts == if receipt.Some? then d.receipts[receipt.value.key := receipt.value] else d.receipts
  {
  }

  lemma SpendKeepsLog(s: System, t: System, req: Request, grant: Grant, bytes: string, i: nat)
    requires Inv(s) && grant.id in s.store.grants && s.store.grants[grant.id] == grant && CodeOf(req) == grant.joinCode
    requires t.log == s.log + [First(req, grant, bytes)] && t.ids == s.ids && t.codes == s.codes
    requires t.store.grants == s.store.grants - {grant.id}
    requires i < |t.log|
    ensures SpentForGood(t, i) && Repeats(t.log, i)
    ensures forall j :: 0 <= j < i ==> Different(t.log[j], t.log[i])
  {
    if i < |s.log| {
      assert SpentForGood(s, i) && Repeats(s.log, i);
    } else {
      forall j | 0 <= j < i
        ensures Different(t.log[j], t.log[i])
      {
        assert SpentForGood(s, j);
      }
    }
  }

  lemma SpendKeepsReceipt(s: System, req: Request, grant: Grant, bytes: string, receipt: Option<Receipt>, k: string)
    requires forall x :: x in s.store.receipts ==> ReceiptKnown(s, x)
    requires receipt.Some? ==> req.key != "" && Remembers(receipt.value, First(req, grant, bytes))
    requires var t := AfterFirst(s, req, grant, bytes, receipt);
      k in t.store.receipts
      && t.store.receipts == if receipt.Some? then s.store.receipts[receipt.value.key := receipt.value] else s.store.receipts
    ensures ReceiptKnown(AfterFirst(s, req, grant, bytes, receipt), k)
  {
  }

  lemma SpendKeeps(s: System, req: Request, grant: Grant, bytes: string, receipt: Option<Receipt>)
    requires Inv(s) && grant.id in s.store.grants && s.store.grants[grant.id] == grant && CodeOf(req) == grant.joinCode
    requires receipt.Some? ==> receipt.value.sessionId in s.store.sessions && req.key != ""
                               && Remembers(receipt.value, First(req, grant, bytes))
    ensures Inv(AfterFirst(s, req, grant, bytes, receipt))
  {
    var t := AfterFirst(s, req, grant, bytes, receipt);
    SpendingIs(s.store, grant, receipt);
    forall i | 0 <= i < |t.log|
      ensures SpentForGood(t, i) && Repeats(t.log, i) && forall j :: 0 <= j < i ==> Different(t.log[j], t.log[i])
    {
      SpendKeepsLog(s, t, req, grant, bytes, i);
    }
    forall k | k in t.store.receipts
      ensures ReceiptKnown(t, k)
    {
      SpendKeepsReceipt(s, req, grant, bytes, receipt, k);
    }
  }

  /** What a first redemption implies about the records it was decided on. */
  lemma RedeemedMeans(d: Records, req: Request, now: int, config: Config, foreign: Foreign, out: Outcome)
    requires Consistent(d) && out == Decided(d, req, now, config, foreign) && out.Redeemed?
    ensures out.grant.id in d.grants && d.grants[out.grant.id] == out.grant && CodeOf(req) == out.grant.joinCode
    ensures out.receipt.Some? <==> req.key != ""
    ensures out.receipt.Some? ==> out.receipt.value.sessionId in d.sessions && out.receipt.value.key !in d.receipts
    ensures out.receipt.Some? ==> Remembers(out.receipt.value, First(req, out.grant, out.bytes))
  {
  }

  lemma AttemptKeeps(s: System, req: Request, now: int, foreign: Foreign, config: Config)
    requires Inv(s)
    ensures Inv(Attempted(s, req, now, foreign, config))
  {
    PrunedKeeps(s, now);
    var p := s.(store := Pruned(s.store, now));
    var out := Decided(p.store, req, now, config, foreign);
    match out
    case Rejected(_) =>
    case Replayed(bytes) => ReplayKeeps(p, req, p.store.receipts[ReceiptKey(req.key)]);
    case Redeemed(grant, bytes, receipt) =>
      RedeemedMeans(p.store, req, now, config, foreign, out);
      SpendKeeps(p, req, grant, bytes, receipt);
  }

  lemma InvStep(s: System, a: Action, config: Config)
    requires Inv(s) && Drawable(s, a)
    ensures Inv(Next(s, a, config))
  {
    PrunedKeeps(s, a.now);
    var p := s.(store := Pruned(s.store, a.now));
    match a
    case Create(grant, bytes, now) =>
      if GrantRefusal(p.store, grant, bytes).Some? {
        DrawingKeeps(s, grant.id, grant.joinCode);
      } else {
        CreateKeeps(p, grant, bytes);
      }
    case Attempt(req, now, foreign, _) => AttemptKeeps(s, req, now, foreign, config);
    case KeepSession(session, now) =>
      ForgettingKeeps(p, p.store.(sessions := p.store.sessions[session.id := session]));
    case EndSession(id, now) =>
      WithoutIsConsistent(p.store, {id}, {}, {});
      ForgettingKeeps(p, Without(p.store, {id}, {}, {}));
  }

  lemma {:induction false} RunInv(run: seq<System>, actions: seq<Action>, config: Config, n: nat)
    requires IsRun(run, actions, config) && n < |run|
    ensures Inv(run[n])
  {
    if n > 0 {
      RunInv(run, actions, config, n - 1);
      InvStep(run[n - 1], actions[n - 1], config);
    }
  }

  // ----------------------------------------------------------------- theorems

  /** No grant and no join code is ever spent twice. */
  lemma EachGrantAnswersOnce(run: seq<System>, actions: seq<Action>, config: Config, n: nat, i: nat, j: nat)
    requires IsRun(run, actions, config) && n < |run| && i < j < |run[n].log|
    requires run[n].log[i].First? && run[n].log[j].First?
    ensures run[n].log[i].grant.id != run[n].log[j].grant.id
    ensures CodeOf(run[n].log[i].req) != CodeOf(run[n].log[j].req)
  {
    RunInv(run, actions, config, n);
    assert SpentForGood(run[n], i) && SpentForGood(run[n], j) && Different(run[n].log[i], run[n].log[j]);
  }

  /** Any other response repeats, byte for byte, an earlier response to the same request. */
  lemma RepeatsAreIdentical(run: seq<System>, actions: seq<Action>, config: Config, n: nat, i: nat)
    requires IsRun(run, actions, config) && n < |run| && i < |run[n].log| && run[n].log[i].Again?
    ensures exists j :: 0 <= j < i && run[n].log[j].First? && run[n].log[j].bytes == run[n].log[i].bytes
                        && SameRequest(run[n].log[j].req, run[n].log[i].req)
  {
    RunInv(run, actions, config, n);
    assert Repeats(run[n].log, i);
  }

  /** All responses obtained with one join code carry the same bytes. */
  lemma OneAnswerPerCode(run: seq<System>, actions: seq<Action>, config: Config, n: nat, i: nat, j: nat)
    requires IsRun(run, actions, config) && n < |run| && i < |run[n].log| && j < |run[n].log|
    requires CodeOf(run[n].log[i].req) == CodeOf(run[n].log[j].req)
    ensures run[n].log[i].bytes == run[n].log[j].bytes
  {
    RunInv(run, actions, config, n);
    var log := run[n].log;
    assert Repeats(log, i) && Repeats(log, j);
    var a := if log[i].First? then i else log[i].of;
    var b := if log[j].First? then j else log[j].of;
    if a != b {
      EachGrantAnswersOnce(run, actions, config, n, if a < b then a else b, if a < b then b else a);
    }
  }

  /** A request that reuses a live key for another locator or code conflicts; nothing is spent. */
  lemma MismatchConsumesNothing(s: System, req: Request, now: int, foreign: Foreign, config: Config)
    requires Inv(s) && req.key != ""
    requires var d := Pruned(s.store, now);
      ReceiptKey(req.key) in d.receipts && !Answers(d.receipts[ReceiptKey(req.key)], req)
    ensures Decided(Pruned(s.store, now), req, now, config, foreign) == Rejected(RetryConflict)
    ensures Next(s, Action.Attempt(req, now, foreign, true), config) == s
  {
  }

  /** Across this step the receipt has not expired and its Session is there. */
  predicate LivesThrough(s: System, a: Action, t: System, r: Receipt) {
    && a.now < r.expires && r.sessionId in s.store.sessions && s.store.sessions[r.sessionId].expires > a.now
    && r.sessionId in t.store.sessions
  }

  predicate Holds(s: System, r: Receipt) {
    r.key in s.store.receipts && s.store.receipts[r.key] == r
  }

  lemma RunConsistent(run: seq<System>, actions: seq<Action>, config: Config, n: nat)
    requires IsRun(run, actions, config) && n < |run|
    ensures Consistent(run[n].store)
  {
    RunInv(run, actions, config, n);
  }

  lemma HoldsAt(run: seq<System>, actions: seq<Action>, config: Config, r: Receipt, k: nat)
    requires IsRun(run, actions, config) && k < |actions| && Holds(run[k], r)
    requires LivesThrough(run[k], actions[k], run[k + 1], r)
    ensures Holds(run[k + 1], r)
  {
  }

  lemma {:induction false} Carried(run: seq<System>, r: Receipt, i: nat, j: nat)
    requires i <= j < |run| && Holds(run[i], r)
    requires forall k :: i <= k < j && Holds(run[k], r) ==> Holds(run[k + 1], r)
    ensures Holds(run[j], r)
    decreases j
  {
    if i < j {
      Carried(run, r, i, j - 1);
    }
  }

  ghost predicate Alive(run: seq<System>, actions: seq<Action>, r: Receipt, i: nat, j: nat)
    requires i <= j < |run| == |actions| + 1
  {
    forall k :: i <= k < j ==> LivesThrough(run[k], actions[k], run[k + 1], r)
  }

  /** While its Session lives, a receipt stays in the store until it expires. */
  lemma ReceiptStays(run: seq<System>, actions: seq<Action>, config: Config, r: Receipt, i: nat, j: nat)
    requires IsRun(run, actions, config) && i <= j < |run| && Holds(run[i], r) && Alive(run, actions, r, i, j)
    ensures Holds(run[j], r)
  {
    forall k | i <= k < j && Holds(run[k], r)
      ensures Holds(run[k + 1], r)
    {
      HoldsAt(run, actions, config, r, k);
    }
    Carried(run, r, i, j);
  }

  /** What the callback of this attempt decides. */
  function OutcomeOf(s: System, a: Action, config: Config): Outcome
    requires a.Attempt?
  {
    Decided(Pruned(s.store, a.now), a.req, a.now, config, a.foreign)
  }

  /** A committed first use under a retry key, leaving the receipt `r`. */
  predicate LeavesReceipt(s: System, a: Action, config: Config, r: Receipt) {
    && a.Attempt? && a.committed && Malformed(a.req).None? && a.req.key != ""
    && OutcomeOf(s, a, config).Redeemed? && OutcomeOf(s, a, config).receipt == Some(r)
  }

  /** A keyed first use that commits leaves its receipt exactly if its grant can be spent and there
      is room for the receipt. */
  lemma LeavesReceiptIff(s: System, a: Action, config: Config, g: Grant)
    requires Consistent(s.store) && a.Attempt? && a.committed && Malformed(a.req).None? && a.req.key != ""
    ensures var d := Pruned(s.store, a.now);
      (exists r :: LeavesReceipt(s, a, config, r) && OutcomeOf(s, a, config).grant == g) <==>
        Spendable(d, g, a.req, a.now, config) && Mintable(a.foreign) && RoomForReceipt(d, a.req, config, a.foreign)
  {
    var d, out := Pruned(s.store, a.now), OutcomeOf(s, a, config);
    PruningIsWithin(s.store, a.now);
    RedeemedIff(d, a.req, a.now, config, a.foreign, g);
    if out.Redeemed? {
      RedeemedReceipt(d, a.req, a.now, config, a.foreign);
      assert LeavesReceipt(s, a, config, out.receipt.value);
    }
  }

  lemma ReceiptIsLeft(s: System, a: Action, config: Config, r: Receipt)
    requires Consistent(s.store) && LeavesReceipt(s, a, config, r)
    ensures Holds(Next(s, a, config), r) && Answers(r, a.req) && r.key == ReceiptKey(a.req.key)
    ensures r.response == OutcomeOf(s, a, config).bytes
  {
    PruningIsWithin(s.store, a.now);
    var d, out := Pruned(s.store, a.now), OutcomeOf(s, a, config);
    RedeemedMeans(d, a.req, a.now, config, a.foreign, out);
    SpendingIs(d, out.grant, out.receipt);
  }

  /** As long as the store holds the receipt, the same request is answered from it. */
  lemma HeldIsReplayed(s: System, first: Request, a: Action, config: Config, r: Receipt)
    requires Consistent(s.store) && Holds(s, r) && Answers(r, first) && r.key == ReceiptKey(first.key)
    requires a.Attempt? && SameRequest(first, a.req) && first.key != ""
    requires a.now < r.expires && Active(s.store, r.sessionId, a.now, config)
    ensures OutcomeOf(s, a, config) == Replayed(r.response)
  {
  }

  /** However much happens in between, repeating a keyed request before its receipt expires
      gives the same bytes as the first time, as long as its Session stays active. */
  lemma RetryGivesSameBytes(run: seq<System>, actions: seq<Action>, config: Config, i: nat, j: nat, r: Receipt)
    requires IsRun(run, actions, config) && i < j < |actions| && actions[j].Attempt?
    requires LeavesReceipt(run[i], actions[i], config, r) && SameRequest(actions[i].req, actions[j].req)
    requires Alive(run, actions, r, i + 1, j)
    requires actions[j].now < r.expires && Active(run[j].store, r.sessionId, actions[j].now, config)
    ensures OutcomeOf(run[j], actions[j], config) == Replayed(OutcomeOf(run[i], actions[i], config).bytes)
  {
    RunConsistent(run, actions, config, i);
    ReceiptIsLeft(run[i], actions[i], config, r);
    assert Holds(run[i + 1], r);
    ReceiptStays(run, actions, config, r, i + 1, j);
    RunConsistent(run, actions, config, j);
    HeldIsReplayed(run[j], actions[i].req, actions[j], config, r);
  }

  // ------------------------------------------------------------ invitations work

  predicate HoldsGrant(s: System, g: Grant) {
    g.id in s.store.grants && s.store.grants[g.id] == g
  }

  /** A new invitation is stored exactly if it fits, is complete, belongs to a live Session, and
      nothing live has its identifier, code or name. */
  lemma CreatedIff(run: seq<System>, actions: seq<Action>, config: Config, n: nat)
    requires IsRun(run, actions, config) && n < |actions| && actions[n].Create?
    ensures var a, d := actions[n], Pruned(run[n].store, actions[n].now);
      HoldsGrant(run[n + 1], a.grant) <==>
        && a.bytes <= MAX_RECORD_BYTES && a.grant.id != "" && a.grant.joinCode != "" && a.grant.alias != ""
        && a.grant.joinCode != a.grant.alias && a.grant.sessionId in d.sessions
        && forall id :: id in d.grants ==> !Names(d.grants[id], a.grant.joinCode) && !Names(d.grants[id], a.grant.alias)
  {
    RunInv(run, actions, config, n);
    var a, d := actions[n], Pruned(run[n].store, actions[n].now);
    assert run[n + 1] == Next(run[n], a, config);
    PruningIsWithin(run[n].store, a.now);
    StorableIff(d, a.grant, a.bytes);
  }

  /** A kept Session is stored as given; an ended one takes exactly its grants and receipts along. */
  lemma SessionSteps(run: seq<System>, actions: seq<Action>, config: Config, n: nat)
    requires IsRun(run, actions, config) && n < |actions|
    ensures actions[n].KeepSession? ==>
      var a, d, e := actions[n], Pruned(run[n].store, actions[n].now), run[n + 1].store;
      e.sessions == d.sessions[a.session.id := a.session] && e.grants == d.grants && e.receipts == d.receipts && e.locators == d.locators
    ensures actions[n].EndSession? ==>
      var a, d, e := actions[n], Pruned(run[n].store, actions[n].now), run[n + 1].store;
      && e.sessions == d.sessions - {a.id}
      && (forall k :: k in e.grants <==> k in d.grants && d.grants[k].sessionId != a.id)
      && (forall k :: k in e.receipts <==> k in d.receipts && d.receipts[k].sessionId != a.id)
  {
    assert run[n + 1] == Next(run[n], actions[n], config);
  }

  /** Every committed, well-formed attempt is answered exactly if it is not rejected, with the
      bytes it decided on. */
  lemma AttemptIsAnswered(run: seq<System>, actions: seq<Action>, config: Config, n: nat)
    requires IsRun(run, actions, config) && n < |actions| && actions[n].Attempt?
    ensures var a, s, t := actions[n], run[n], run[n + 1];
      var out := OutcomeOf(s, a, config);
      if !a.committed || Malformed(a.req).Some? || out.Rejected? then t == s
      else |t.log| == |s.log| + 1 && t.log[..|s.log|] == s.log && t.log[|s.log|].req == a.req && t.log[|s.log|].bytes == out.bytes
           && (t.log[|s.log|].First? <==> out.Redeemed?)
  {
    assert run[n + 1] == Next(run[n], actions[n], config);
  }

  /** Across this step the invitation has not expired, its Session is there, and nobody spends it. */
  predicate GrantLives(s: System, a: Action, t: System, g: Grant) {
    && a.now < g.expires && g.sessionId in s.store.sessions && s.store.sessions[g.sessionId].expires > a.now
    && g.sessionId in t.store.sessions
    && forall i :: |s.log| <= i < |t.log| && t.log[i].First? ==> t.log[i].grant != g
  }

  lemma GrantSurvivesPruning(d: Records, g: Grant, now: int)
    requires Consistent(d) && g.id in d.grants && d.grants[g.id] == g && now < g.expires
    requires g.sessionId in d.sessions && d.sessions[g.sessionId].expires > now
    ensures g.id in Pruned(d, now).grants && Pruned(d, now).grants[g.id] == g
  {
  }

  lemma GrantStaysAttempt(s: System, a: Action, config: Config, g: Grant)
    requires Consistent(s.store) && HoldsGrant(s, g) && a.Attempt? && GrantLives(s, a, Next(s, a, config), g)
    ensures HoldsGrant(Next(s, a, config), g)
  {
    var d, out, t := Pruned(s.store, a.now), OutcomeOf(s, a, config), Next(s, a, config);
    GrantSurvivesPruning(s.store, g, a.now);
    PruningIsWithin(s.store, a.now);
    if a.committed && Malformed(a.req).None? && out.Redeemed? {
      RedeemedMeans(d, a.req, a.now, config, a.foreign, out);
      SpendingIs(d, out.grant, out.receipt);
      assert t.log[|s.log|] == First(a.req, out.grant, out.bytes);
    }
  }

  lemma GrantStaysStep(s: System, a: Action, config: Config, g: Grant)
    requires Inv(s) && Drawable(s, a) && HoldsGrant(s, g) && GrantLives(s, a, Next(s, a, config), g)
    ensures HoldsGrant(Next(s, a, config), g)
  {
    GrantSurvivesPruning(s.store, g, a.now);
    match a
    case Attempt(_, _, _, _) => GrantStaysAttempt(s, a, config, g);
    case _ =>
  }

  lemma GrantStaysAt(run: seq<System>, actions: seq<Action>, config: Config, g: Grant, k: nat)
    requires IsRun(run, actions, config) && k < |actions| && HoldsGrant(run[k], g) && GrantLives(run[k], actions[k], run[k + 1], g)
    ensures HoldsGrant(run[k + 1], g)
  {
    RunInv(run, actions, config, k);
    assert run[k + 1] == Next(run[k], actions[k], config);
    GrantStaysStep(run[k], actions[k], config, g);
  }

  lemma {:induction false} GrantCarried(run: seq<System>, g: Grant, i: nat, j: nat)
    requires i <= j < |run| && HoldsGrant(run[i], g)
    requires forall k :: i <= k < j && HoldsGrant(run[k], g) ==> HoldsGrant(run[k + 1], g)
    ensures HoldsGrant(run[j], g)
    decreases j
  {
    if i < j {
      GrantCarried(run, g, i, j - 1);
    }
  }

  /** However much happens in between, an invitation that has not expired, whose Session lives and
      that nobody has spent is still spent by a committed request for it: with no key, or with an
      unused key and room for its receipt. */
  lemma LiveInvitationIsRedeemed(run: seq<System>, actions: seq<Action>, config: Config, g: Grant, i: nat, j: nat)
    requires IsRun(run, actions, config) && i <= j < |actions| && HoldsGrant(run[i], g)
    requires forall k :: i <= k < j ==> GrantLives(run[k], actions[k], run[k + 1], g)
    requires actions[j].Attempt? && actions[j].committed && Malformed(actions[j].req).None?
    requires actions[j].now < g.expires && Active(run[j].store, g.sessionId, actions[j].now, config)
    requires Names(g, actions[j].req.locator) && CodeOf(actions[j].req) == g.joinCode && Mintable(actions[j].foreign)
    requires var a := actions[j]; a.req.key != "" ==> RoomForReceipt(Pruned(run[j].store, a.now), a.req, config, a.foreign)
    ensures run[j + 1].log == run[j].log + [First(actions[j].req, g, actions[j].foreign.minted.value)]
  {
    forall k | i <= k < j && HoldsGrant(run[k], g)
      ensures HoldsGrant(run[k + 1], g)
    {
      GrantStaysAt(run, actions, config, g, k);
    }
    GrantCarried(run, g, i, j);
    RunConsistent(run, actions, config, j);
    RedeemedAt(run[j], actions[j], config, g);
    assert run[j + 1] == Next(run[j], actions[j], config);
  }

  lemma RedeemedAt(s: System, a: Action, config: Config, g: Grant)
    requires Consistent(s.store) && HoldsGrant(s, g) && a.Attempt? && a.committed && Malformed(a.req).None?
    requires a.now < g.expires && Active(s.store, g.sessionId, a.now, config)
    requires Names(g, a.req.locator) && CodeOf(a.req) == g.joinCode && Mintable(a.foreign)
    requires a.req.key != "" ==> RoomForReceipt(Pruned(s.store, a.now), a.req, config, a.foreign)
    ensures Next(s, a, config).log == s.log + [First(a.req, g, a.foreign.minted.value)]
  {
    var d := Pruned(s.store, a.now);
    PruningIsWithin(s.store, a.now);
    GrantSurvivesPruning(s.store, g, a.now);
    RedeemedIff(d, a.req, a.now, config, a.foreign, g);
    RedeemedReceipt(d, a.req, a.now, config, a.foreign);
  }
}
