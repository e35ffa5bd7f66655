/** Process-local transactional storage: records with a locator index, cascading deletes,
    expiry, and a commit that happens only if neither the callback nor its context failed. */
module MemoryStore {
  import opened Collections

  const MAX_RECORD_BYTES := 262144

  datatype Session = Session(id: string, incarnation: string, body: string, expires: int)

  datatype Grant = Grant(id: string, joinCode: string, alias: string, sessionId: string, busId: string, expires: int)

  datatype Receipt = Receipt(key: string, operation: string, sessionId: string, requestDigest: string,
                             credentialDigest: string, response: string, expires: int)

  datatype Records = Records(sessions: map<string, Session>, grants: map<string, Grant>,
                             locators: map<string, string>, receipts: map<string, Receipt>)

  datatype Error = Conflict | ReadOnly | Closed | Capacity | Cancelled | Callback

  // ----------------------------------------------------------------- invariant

  predicate Names(g: Grant, locator: string) {
    g.joinCode == locator || g.alias == locator
  }

  predicate Indexed(d: Records) {
    && (forall id :: id in d.grants ==>
          && d.grants[id].id == id && d.grants[id].joinCode != d.grants[id].alias
          && d.grants[id].joinCode in d.locators && d.locators[d.grants[id].joinCode] == id
          && d.grants[id].alias in d.locators && d.locators[d.grants[id].alias] == id)
    && (forall l :: l in d.locators ==> d.locators[l] in d.grants && Names(d.grants[d.locators[l]], l))
  }

  predicate Owned(d: Records) {
    && (forall id :: id in d.grants ==> d.grants[id].sessionId in d.sessions)
    && (forall k :: k in d.receipts ==> d.receipts[k].key == k && d.receipts[k].sessionId in d.sessions)
  }

  /** The index holds exactly the two locators of every grant, and every grant and receipt has
      its Session. */
  predicate Consistent(d: Records) {
    Indexed(d) && Owned(d)
  }

  // ------------------------------------------------------------- specification

  function Lookup(d: Records, locator: string): Option<Grant> {
    if locator in d.locators && d.locators[locator] in d.grants then Some(d.grants[d.locators[locator]]) else None
  }

  predicate KeepsGrant(g: Grant, sessions: set<string>, grants: set<string>) {
    g.id !in grants && g.sessionId !in sessions
  }

  function KeptGrants(grants: map<string, Grant>, sessions: set<string>, doomed: set<string>): map<string, Grant> {
    map id | id in grants && KeepsGrant(grants[id], sessions, doomed) :: grants[id]
  }

  /** The locators whose grant is still there. */
  function KeptLocators(locators: map<string, string>, grants: map<string, Grant>): map<string, string> {
    map l | l in locators && locators[l] in grants :: locators[l]
  }

  function KeptReceipts(receipts: map<string, Receipt>, sessions: set<string>, doomed: set<string>): map<string, Receipt> {
    map k | k in receipts && k !in doomed && receipts[k].sessionId !in sessions :: receipts[k]
  }

  /** The records that remain when these Sessions, grants and receipts go, and with each Session
      whatever belongs to it. */
  function Without(d: Records, sessions: set<string>, grants: set<string>, receipts: set<string>): Records {
    var kept := KeptGrants(d.grants, sessions, grants);
    Records(d.sessions - sessions, kept, KeptLocators(d.locators, kept), KeptReceipts(d.receipts, sessions, receipts))
  }

  function ExpiredSessions(d: Records, now: int): set<string> {
    set id | id in d.sessions && d.sessions[id].expires <= now
  }

  function ExpiredGrants(d: Records, now: int): set<string> {
    set id | id in d.grants && d.grants[id].expires <= now
  }

  function ExpiredReceipts(d: Records, now: int): set<string> {
    set k | k in d.receipts && d.receipts[k].expires <= now
  }

  function Pruned(d: Records, now: int): Records {
    Without(d, ExpiredSessions(d, now), ExpiredGrants(d, now), ExpiredReceipts(d, now))
  }

  /** Why a grant cannot be stored, if it cannot. `bytes` is the size of its serialized form. */
  function GrantRefusal(d: Records, g: Grant, bytes: nat): Option<Error> {
    if bytes > MAX_RECORD_BYTES then Some(Capacity)
    else if g.id == "" || g.joinCode == "" || g.alias == "" || g.joinCode == g.alias
            || g.sessionId !in d.sessions || g.id in d.grants
            || g.joinCode in d.locators || g.alias in d.locators then Some(Conflict)
    else None
  }

  function WithGrant(d: Records, g: Grant): Records {
    d.(grants := d.grants[g.id := g], locators := d.locators[g.joinCode := g.id][g.alias := g.id])
  }

  function ReceiptRefusal(d: Records, r: Receipt, bytes: nat): Option<Error> {
    if bytes > MAX_RECORD_BYTES then Some(Capacity)
    else if r.sessionId !in d.sessions || r.key in d.receipts then Some(Conflict)
    else None
  }

  function WithReceipt(d: Records, r: Receipt): Records {
    d.(receipts := d.receipts[r.key := r])
  }

  /** A write a callback may ask for. */
  datatype Op =
    | PutSession(session: Session, bytes: nat)
    | DeleteSession(id: string)
    | PutGrant(grant: Grant, bytes: nat)
    | DeleteGrant(id: string)
    | PutReceipt(receipt: Receipt, bytes: nat)
    | PruneExpired

  function Refusal(d: Records, op: Op): Option<Error> {
    match op
    case PutSession(_, bytes) => if bytes > MAX_RECORD_BYTES then Some(Capacity) else None
    case PutGrant(g, bytes) => GrantRefusal(d, g, bytes)
    case PutReceipt(r, bytes) => ReceiptRefusal(d, r, bytes)
    case _ => None
  }

  function Done(d: Records, op: Op, now: int): Records {
    if Refusal(d, op).Some? then d else
    match op
    case PutSession(s, _) => d.(sessions := d.sessions[s.id := s])
    case DeleteSession(id) => Without(d, {id}, {}, {})
    case PutGrant(g, _) => WithGrant(d, g)
    case DeleteGrant(id) => Without(d, {}, {id}, {})
    case PutReceipt(r, _) => WithReceipt(d, r)
    case PruneExpired => Pruned(d, now)
  }

  predicate Oversized(op: Op) {
    match op
    case PutSession(_, bytes) => bytes > MAX_RECORD_BYTES
    case PutGrant(_, bytes) => bytes > MAX_RECORD_BYTES
    case PutReceipt(_, bytes) => bytes > MAX_RECORD_BYTES
    case _ => false
  }

  /** What a write reports to the callback if nothing is cancelled. */
  function Answer(d: Records, op: Op, writable: bool): Option<Error> {
    if Oversized(op) then Some(Capacity) else if !writable then Some(ReadOnly) else Refusal(d, op)
  }

  /** The records after the first `n` writes of a callback. */
  function Replay(d: Records, ops: seq<Op>, n: nat, now: int): Records
    requires n <= |ops|
  {
    if n == 0 then d else Done(Replay(d, ops, n - 1, now), ops[n - 1], now)
  }

  /** Each of these replies is what the corresponding write reports at its place in the callback. */
  predicate Answered(d: Records, ops: seq<Op>, replies: seq<Option<Error>>, now: int) {
    && |replies| <= |ops|
    && forall i :: 0 <= i < |replies| ==> replies[i] == Refusal(Replay(d, ops, i, now), ops[i])
  }

  // --------------------------------------------------------- laws of the records

  /** In a consistent store the index finds a grant exactly if a scan of all grants would. */
  lemma LookupIsScan(d: Records, locator: string, g: Grant)
    requires Consistent(d)
    ensures Lookup(d, locator) == Some(g) <==> g.id in d.grants && d.grants[g.id] == g && Names(g, locator)
  {
  }

  /** No two grants, of whatever Sessions, share a locator. */
  lemma LocatorsAreUnique(d: Records, locator: string, g: Grant, h: Grant)
    requires Consistent(d) && g.id in d.grants && d.grants[g.id] == g && h.id in d.grants && d.grants[h.id] == h
    requires Names(g, locator) && Names(h, locator)
    ensures g == h
  {
  }

  /** A grant can be stored exactly if it fits, is complete, has its Session, and no stored grant
      has its identifier or can be found under either of its locators. */
  lemma StorableIff(d: Records, g: Grant, bytes: nat)
    requires Consistent(d)
    ensures GrantRefusal(d, g, bytes).None? <==>
      && bytes <= MAX_RECORD_BYTES && g.id != "" && g.joinCode != "" && g.alias != "" && g.joinCode != g.alias
      && g.sessionId in d.sessions && g.id !in d.grants
      && forall id :: id in d.grants ==> !Names(d.grants[id], g.joinCode) && !Names(d.grants[id], g.alias)
  {
  }

  /** A stored grant is found under both its locators, and nothing else changes. */
  lemma StoredIsFound(d: Records, g: Grant, bytes: nat, locator: string)
    requires Consistent(d) && GrantRefusal(d, g, bytes).None?
    ensures Lookup(WithGrant(d, g), locator) == if Names(g, locator) then Some(g) else Lookup(d, locator)
    ensures WithGrant(d, g).grants == d.grants[g.id := g] && WithGrant(d, g).sessions == d.sessions
    ensures WithGrant(d, g).receipts == d.receipts
  {
  }

  /** A receipt can be stored exactly if it fits, has its Session, and its key is unused. */
  lemma ReceiptStorableIff(d: Records, r: Receipt, bytes: nat)
    ensures ReceiptRefusal(d, r, bytes).None? <==> bytes <= MAX_RECORD_BYTES && r.sessionId in d.sessions && r.key !in d.receipts
    ensures WithReceipt(d, r) == Records(d.sessions, d.grants, d.locators, d.receipts[r.key := r])
  {
  }

  lemma WithoutIsIndexed(d: Records, sessions: set<string>, grants: set<string>, receipts: set<string>)
    requires Indexed(d)
    ensures Indexed(Without(d, sessions, grants, receipts))
  {
  }

  lemma WithoutIsConsistent(d: Records, sessions: set<string>, grants: set<string>, receipts: set<string>)
    requires Consistent(d)
    ensures Consistent(Without(d, sessions, grants, receipts))
  {
  }

  lemma KeptLocatorsTwice(m: map<string, string>, g: map<string, Grant>, h: map<string, Grant>)
    requires h.Keys <= g.Keys
    ensures KeptLocators(KeptLocators(m, g), h) == KeptLocators(m, h)
  {
  }

  lemma WithoutNothing(d: Records)
    requires Indexed(d)
    ensures Without(d, {}, {}, {}) == d
  {
  }

  /** One more grant of those to be removed. */
  lemma OneGrantMore(d: Records, doomed: set<string>, todo: set<string>, id: string)
    requires id in todo && todo <= doomed
    ensures Without(Without(d, {}, doomed - todo, {}), {}, {id}, {}) == Without(d, {}, doomed - (todo - {id}), {})
  {
  }

  /** One more Session of those to be removed. */
  lemma OneSessionMore(d: Records, doomed: set<string>, todo: set<string>, id: string)
    requires id in todo && todo <= doomed
    ensures Without(Without(d, doomed - todo, {}, {}), {id}, {}, {}) == Without(d, doomed - (todo - {id}), {}, {})
  {
  }

  function GrantsOf(d: Records, sessionId: string): set<string> {
    set id | id in d.grants && d.grants[id].sessionId == sessionId
  }

  function ReceiptsOf(d: Records, sessionId: string): set<string> {
    set k | k in d.receipts && d.receipts[k].sessionId == sessionId
  }

  /** Deleting the Session row, then its grants, then its receipts, is one removal. */
  lemma SessionCascade(d: Records, id: string)
    requires Consistent(d)
    ensures var bare := d.(sessions := d.sessions - {id});
      var fewer := Without(bare, {}, GrantsOf(d, id), {});
      Without(d, {id}, {}, {}) == fewer.(receipts := fewer.receipts - ReceiptsOf(d, id))
  {
  }

  /** Pruning Sessions first, then grants, then receipts, is one removal. */
  lemma PruneCascade(d: Records, now: int)
    requires Consistent(d)
    ensures var live := Without(d, ExpiredSessions(d, now), {}, {});
      var fewer := Without(live, {}, ExpiredGrants(live, now), {});
      Pruned(d, now) == fewer.(receipts := fewer.receipts - ExpiredReceipts(fewer, now))
  {
    var s := ExpiredSessions(d, now);
    var live := Without(d, s, {}, {});
    var fewer := Without(live, {}, ExpiredGrants(live, now), {});
    assert fewer.grants == KeptGrants(d.grants, s, ExpiredGrants(d, now));
    KeptLocatorsTwice(d.locators, live.grants, fewer.grants);
    assert fewer.receipts == KeptReceipts(d.receipts, s, {});
    assert fewer.receipts - ExpiredReceipts(fewer, now) == KeptReceipts(d.receipts, s, ExpiredReceipts(d, now));
    assert fewer.sessions == d.sessions - s;
  }

  /** Removing one grant together with its two locators. */
  lemma RemovingOneGrant(d: Records, id: string)
    requires Indexed(d) && id in d.grants
    ensures Without(d, {}, {id}, {})
         == d.(locators := d.locators - {d.grants[id].joinCode, d.grants[id].alias}, grants := d.grants - {id})
  {
  }

  lemma WithGrantIsConsistent(d: Records, g: Grant, bytes: nat)
    requires Consistent(d) && GrantRefusal(d, g, bytes).None?
    ensures Consistent(WithGrant(d, g))
  {
  }

  /** Every write keeps the records consistent. */
  lemma DoneIsConsistent(d: Records, op: Op, now: int)
    requires Consistent(d)
    ensures Consistent(Done(d, op, now))
  {
    match op
    case PutGrant(g, bytes) =>
      if GrantRefusal(d, g, bytes).None? {
        WithGrantIsConsistent(d, g, bytes);
      }
    case DeleteSession(id) => WithoutIsConsistent(d, {id}, {}, {});
    case DeleteGrant(id) => WithoutIsConsistent(d, {}, {id}, {});
    case PruneExpired =>
      WithoutIsConsistent(d, ExpiredSessions(d, now), ExpiredGrants(d, now), ExpiredReceipts(d, now));
    case _ =>
  }

  lemma {:induction false} ReplayIsConsistent(d: Records, ops: seq<Op>, n: nat, now: int)
    requires Consistent(d) && n <= |ops|
    ensures Consistent(Replay(d, ops, n, now))
  {
    if n > 0 {
      ReplayIsConsistent(d, ops, n - 1, now);
      DoneIsConsistent(Replay(d, ops, n - 1, now), ops[n - 1], now);
    }
  }

  /** Pruning keeps exactly what is unexpired and belongs to an unexpired Session, unchanged,
      and the locators of exactly the kept grants. */
  lemma PruneKeepsExactly(d: Records, now: int)
    requires Consistent(d)
    ensures var p := Pruned(d, now);
      && (forall id :: id in p.sessions <==> id in d.sessions && d.sessions[id].expires > now)
      && (forall id :: id in p.grants <==>
            id in d.grants && d.grants[id].expires > now && d.sessions[d.grants[id].sessionId].expires > now)
      && (forall k :: k in p.receipts <==>
            k in d.receipts && d.receipts[k].expires > now && d.sessions[d.receipts[k].sessionId].expires > now)
      && (forall l :: l in p.locators <==> l in d.locators && d.locators[l] in p.grants)
      && (forall id :: id in p.sessions ==> p.sessions[id] == d.sessions[id])
      && (forall id :: id in p.grants ==> p.grants[id] == d.grants[id])
      && (forall k :: k in p.receipts ==> p.receipts[k] == d.receipts[k])
  {
  }

  // --------------------------------------------------------- the imperative form

  /** A context that may be cancelled at any moment and never recovers. */
  class Context {
    var done: bool

    constructor (cancelled: bool)
      ensures done == cancelled
    {
      done := cancelled;
    }

    /** Whether the context has been cancelled by now. */
    method Err() returns (cancelled: bool)
      modifies this
      ensures old(done) ==> done
      ensures cancelled == done
    {
      var now: bool := *;
      done := done || now;
      cancelled := done;
    }
  }

  class Transaction {
    const ctx: Context
    const writable: bool
    const now: int
    var data: Records

    constructor (ctx: Context, writable: bool, now: int, data: Records)
      ensures this.ctx == ctx && this.writable == writable && this.now == now && this.data == data
    {
      this.ctx, this.writable, this.now, this.data := ctx, writable, now, data;
    }

    method Write() returns (error: Option<Error>)
      modifies ctx
      ensures old(ctx.done) ==> ctx.done
      ensures error == if ctx.done then Some(Cancelled) else if writable then None else Some(ReadOnly)
    {
      var cancelled := ctx.Err();
      error := if cancelled then Some(Cancelled) else if !writable then Some(ReadOnly) else None;
    }

    method DeleteGrant(id: string) returns (error: Option<Error>)
      requires ctx.done || Indexed(data)
      modifies this, ctx
      ensures old(ctx.done) ==> ctx.done
      ensures error == if ctx.done then Some(Cancelled) else if writable then None else Some(ReadOnly)
      ensures data == if error.None? then Without(old(data), {}, {id}, {}) else old(data)
    {
      error := Write();
      if error.Some? {
        return;
      }
      if id in data.grants {
        RemovingOneGrant(data, id);
        var g := data.grants[id];
        data := data.(locators := data.locators - {g.joinCode, g.alias}, grants := data.grants - {id});
      }
    }

    /** Removes the grants in `doomed` one after another, ignoring what each removal reports. */
    method DeleteGrants(doomed: set<string>)
      requires ctx.done || Indexed(data)
      requires writable
      modifies this, ctx
      ensures old(ctx.done) ==> ctx.done
      ensures !ctx.done ==> data == Without(old(data), {}, doomed, {})
    {
      var todo := doomed;
      if !ctx.done {
        WithoutNothing(data);
        assert doomed - todo == {};
      }
      while todo != {}
        invariant old(ctx.done) ==> ctx.done
        invariant todo <= doomed
        invariant ctx.done || (Indexed(data) && data == Without(old(data), {}, doomed - todo, {}))
        decreases todo
      {
        var id :| id in todo;
        if !ctx.done {
          OneGrantMore(old(data), doomed, todo, id);
          WithoutIsIndexed(data, {}, {id}, {});
        }
        var _ := DeleteGrant(id);
        todo := todo - {id};
      }
      assert doomed - todo == doomed;
    }

    /** Removes the receipts in `doomed` one after another. */
    method DeleteReceipts(doomed: set<string>)
      modifies this
      ensures data == old(data).(receipts := old(data).receipts - doomed)
    {
      var todo := doomed;
      while todo != {}
        invariant todo <= doomed
        invariant data == old(data).(receipts := old(data).receipts - (doomed - todo))
        decreases todo
      {
        var k :| k in todo;
        data := data.(receipts := data.receipts - {k});
        todo := todo - {k};
      }
      assert doomed - todo == doomed;
    }

    /** The Session row goes first, then whatever belongs to it. A cancellation in between may
        leave this working copy half done; such a copy is never committed. */
    method DeleteSession(id: string) returns (error: Option<Error>)
      requires ctx.done || Consistent(data)
      modifies this, ctx
      ensures old(ctx.done) ==> ctx.done
      ensures !ctx.done ==> error == if writable then None else Some(ReadOnly)
      ensures !ctx.done ==> data == if writable then Without(old(data), {id}, {}, {}) else old(data)
      ensures !writable ==> error.Some? && data == old(data)
    {
      error := Write();
      if error.Some? {
        return;
      }
      SessionCascade(data, id);
      data := data.(sessions := data.sessions - {id});
      DeleteGrants(GrantsOf(data, id));
      DeleteReceipts(ReceiptsOf(data, id));
    }

    method DeleteSessions(doomed: set<string>)
      requires ctx.done || Consistent(data)
      requires writable
      modifies this, ctx
      ensures old(ctx.done) ==> ctx.done
      ensures !ctx.done ==> data == Without(old(data), doomed, {}, {})
    {
      var todo := doomed;
      if !ctx.done {
        WithoutNothing(data);
        assert doomed - todo == {};
      }
      while todo != {}
        invariant old(ctx.done) ==> ctx.done
        invariant todo <= doomed
        invariant ctx.done || (Consistent(data) && data == Without(old(data), doomed - todo, {}, {}))
        decreases todo
      {
        var id :| id in todo;
        if !ctx.done {
          OneSessionMore(old(data), doomed, todo, id);
          WithoutIsConsistent(data, {id}, {}, {});
        }
        var _ := DeleteSession(id);
        todo := todo - {id};
      }
      assert doomed - todo == doomed;
    }

    method PruneExpired() returns (error: Option<Error>)
      requires ctx.done || Consistent(data)
      modifies this, ctx
      ensures old(ctx.done) ==> ctx.done
      ensures !ctx.done ==> error == if writable then None else Some(ReadOnly)
      ensures !ctx.done ==> data == if writable then Pruned(old(data), now) else old(data)
      ensures !writable ==> error.Some? && data == old(data)
    {
      error := Write();
      if error.Some? {
        return;
      }
      PruneCascade(data, now);
      WithoutIsIndexed(data, ExpiredSessions(data, now), {}, {});
      DeleteSessions(ExpiredSessions(data, now));
      DeleteGrants(ExpiredGrants(data, now));
      DeleteReceipts(ExpiredReceipts(data, now));
    }

    method PutSession(session: Session, bytes: nat) returns (error: Option<Error>)
      modifies this, ctx
      ensures old(ctx.done) ==> ctx.done
      ensures error == if ctx.done && bytes <= MAX_RECORD_BYTES then Some(Cancelled) else Answer(old(data), Op.PutSession(session, bytes), writable)
      ensures data == if error.None? then Done(old(data), Op.PutSession(session, bytes), now) else old(data)
      ensures error.None? ==> data == old(data).(sessions := old(data).sessions[session.id := session])
      ensures !writable ==> error.Some?
    {
      if bytes > MAX_RECORD_BYTES {
        return Some(Capacity);
      }
      error := Write();
      if error.None? {
        data := data.(sessions := data.sessions[session.id := session]);
      }
    }

    method PutGrant(g: Grant, bytes: nat) returns (error: Option<Error>)
      modifies this, ctx
      ensures old(ctx.done) ==> ctx.done
      ensures error == if ctx.done && bytes <= MAX_RECORD_BYTES then Some(Cancelled) else Answer(old(data), Op.PutGrant(g, bytes), writable)
      ensures data == if error.None? then Done(old(data), Op.PutGrant(g, bytes), now) else old(data)
      ensures !writable ==> error.Some?
    {
      if bytes > MAX_RECORD_BYTES {
        return Some(Capacity);
      }
      error := Write();
      if error.Some? {
        return;
      }
      if g.id == "" || g.joinCode == "" || g.alias == "" || g.joinCode == g.alias {
        return Some(Conflict);
      }
      if g.sessionId !in data.sessions || g.id in data.grants {
        return Some(Conflict);
      }
      if g.joinCode in data.locators || g.alias in data.locators {
        return Some(Conflict);
      }
      data := data.(grants := data.grants[g.id := g],
                    locators := data.locators[g.joinCode := g.id][g.alias := g.id]);
    }

    method PutReceipt(r: Receipt, bytes: nat) returns (error: Option<Error>)
      modifies this, ctx
      ensures old(ctx.done) ==> ctx.done
      ensures error == if ctx.done && bytes <= MAX_RECORD_BYTES then Some(Cancelled) else Answer(old(data), Op.PutReceipt(r, bytes), writable)
      ensures data == if error.None? then Done(old(data), Op.PutReceipt(r, bytes), now) else old(data)
      ensures !writable ==> error.Some?
    {
      if bytes > MAX_RECORD_BYTES {
        return Some(Capacity);
      }
      error := Write();
      if error.Some? {
        return;
      }
      if r.sessionId !in data.sessions || r.key in data.receipts {
        return Some(Conflict);
      }
      data := data.(receipts := data.receipts[r.key := r]);
    }

    /** Whatever write the callback asks for next. */
    method Apply(op: Op) returns (error: Option<Error>)
      requires ctx.done || Consistent(data)
      modifies this, ctx
      ensures old(ctx.done) ==> ctx.done
      ensures !ctx.done ==> error == Answer(old(data), op, writable)
      ensures !ctx.done && writable ==> data == Done(old(data), op, now)
      ensures !writable ==> error.Some? && data == old(data)
    {
      match op
      case PutSession(session, bytes) => error := PutSession(session, bytes);
      case DeleteSession(id) => error := DeleteSession(id);
      case PutGrant(g, bytes) => error := PutGrant(g, bytes);
      case DeleteGrant(id) => error := DeleteGrant(id);
      case PutReceipt(r, bytes) => error := PutReceipt(r, bytes);
      case PruneExpired => error := PruneExpired();
    }
  }

  class Store {
    var data: Records
    var closed: bool

    constructor ()
      ensures data == Records(map[], map[], map[], map[]) && !closed && Consistent(data)
    {
      data, closed := Records(map[], map[], map[], map[]), false;
    }

    /** Runs a callback that issues the writes `ops` and then returns, with an error if `failed`.
        It commits all of them or nothing. */
    method Update(ctx: Context, now: int, ops: seq<Op>, failed: bool)
      returns (error: Option<Error>, replies: seq<Option<Error>>)
      requires Consistent(data)
      modifies this, ctx
      ensures Consistent(data) && closed == old(closed)
      ensures error.Some? ==> data == old(data)
      ensures error.None? ==> data == Replay(old(data), ops, |ops|, now)
      ensures error.None? ==> |replies| == |ops| && Answered(old(data), ops, replies, now)
      ensures error.None? <==> !ctx.done && !old(closed) && !failed
    {
      replies := [];
      var cancelled := ctx.Err();
      if cancelled {
        return Some(Cancelled), replies;
      }
      if closed {
        return Some(Closed), replies;
      }
      var tx := new Transaction(ctx, true, now, data);
      for i := 0 to |ops|
        invariant data == old(data) && closed == old(closed) && |replies| == i
        invariant ctx.done || (Consistent(tx.data) && tx.data == Replay(old(data), ops, i, now))
        invariant ctx.done || Answered(old(data), ops, replies, now)
      {
        if !ctx.done {
          DoneIsConsistent(tx.data, ops[i], now);
        }
        var reply := tx.Apply(ops[i]);
        replies := replies + [reply];
      }
      if failed {
        return Some(Callback), replies;
      }
      cancelled := ctx.Err();
      if cancelled {
        return Some(Cancelled), replies;
      }
      data := tx.data;
      return None, replies;
    }

    /** A snapshot transaction: every write is refused, nothing changes, and it fails exactly like
        an update. */
    method View(ctx: Context, now: int, ops: seq<Op>, failed: bool)
      returns (error: Option<Error>, replies: seq<Option<Error>>)
      requires Consistent(data)
      modifies ctx
      ensures forall i :: 0 <= i < |replies| ==> replies[i].Some?
      ensures error.None? <==> !ctx.done && !closed && !failed
      ensures error.None? ==> |replies| == |ops| && forall i :: 0 <= i < |ops| ==> replies[i] == Answer(data, ops[i], false)
    {
      replies := [];
      var cancelled := ctx.Err();
      if cancelled {
        return Some(Cancelled), replies;
      }
      if closed {
        return Some(Closed), replies;
      }
      var tx := new Transaction(ctx, false, now, data);
      for i := 0 to |ops|
        invariant tx.data == data && |replies| == i
        invariant forall k :: 0 <= k < i ==> replies[k].Some?
        invariant ctx.done || forall k :: 0 <= k < i ==> replies[k] == Answer(data, ops[k], false)
      {
        var reply := tx.Apply(ops[i]);
        replies := replies + [reply];
      }
      if failed {
        return Some(Callback), replies;
      }
      cancelled := ctx.Err();
      error := if cancelled then Some(Cancelled) else None;
    }
  }

  // ----------------------------------------------------------------- whole runs

  /** One transaction as committed or not: its time, its writes, and whether it was acknowledged. */
  datatype Attempt = Attempt(now: int, ops: seq<Op>, committed: bool)

  ghost predicate IsRun(run: seq<Records>, attempts: seq<Attempt>) {
    && |run| == |attempts| + 1
    && run[0] == Records(map[], map[], map[], map[])
    && forall i :: 0 <= i < |attempts| ==> run[i + 1] == After(run[i], attempts[i])
  }

  function After(d: Records, a: Attempt): Records {
    if a.committed then Replay(d, a.ops, |a.ops|, a.now) else d
  }

  /** Every store state that transactions can reach is consistent, so its index answers like a scan. */
  lemma {:induction false} ReachableIsConsistent(run: seq<Records>, attempts: seq<Attempt>, n: nat)
    requires IsRun(run, attempts) && n < |run|
    ensures Consistent(run[n])
  {
    if n > 0 {
      ReachableIsConsistent(run, attempts, n - 1);
      var a := attempts[n - 1];
      ReplayIsConsistent(run[n - 1], a.ops, |a.ops|, a.now);
    }
  }
}
