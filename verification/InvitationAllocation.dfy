/** Reserving a readable name for a new invitation: up to 32 random draws, growing from two to
    three words once eight two-word names have turned out to be taken. */
module InvitationAllocation {
  import opened Collections
  import opened MemoryStore

  const ATTEMPTS := 32
  const SHORT_COLLISIONS := 8
  const INVITATION_TTL := 900_000_000_000

  /** A service either fixes the word count or starts short and grows. */
  datatype Policy = Fixed(words: nat) | Growing

  /** One attempt's random values: a name of the policy's first word count, a three-word name in
      case the attempt has grown, a join code and a grant identifier. */
  datatype Draw = Draw(name: string, longer: string, code: string, id: string)

  datatype Allocation = Allocation(attempt: nat, words: nat, grant: Grant)

  predicate Taken(d: Records, name: string) {
    Lookup(d, name).Some?
  }

  // ------------------------------------------------------------- specification

  /** How many of the first `k` draws' names are taken. */
  function TakenAmong(d: Records, draws: seq<Draw>, k: nat): nat
    requires k <= |draws|
  {
    if k == 0 then 0 else TakenAmong(d, draws, k - 1) + if Taken(d, draws[k - 1].name) then 1 else 0
  }

  predicate Grown(d: Records, draws: seq<Draw>, policy: Policy, k: nat)
    requires k <= |draws|
  {
    policy.Growing? && TakenAmong(d, draws, k) >= SHORT_COLLISIONS
  }

  function WordsAt(d: Records, draws: seq<Draw>, policy: Policy, k: nat): nat
    requires k <= |draws|
  {
    if policy.Fixed? then policy.words else if Grown(d, draws, policy, k) then 3 else 2
  }

  function GrantAt(d: Records, draws: seq<Draw>, policy: Policy, k: nat, session: Session, bus: string, now: int): Grant
    requires k < |draws|
  {
    Grant(draws[k].id, draws[k].code, if Grown(d, draws, policy, k) then draws[k].longer else draws[k].name, session.id, bus,
          if session.expires < now + INVITATION_TTL then session.expires else now + INVITATION_TTL)
  }

  /** The `k`-th attempt finds its name taken, or its code or identifier in conflict. */
  predicate Collides(d: Records, draws: seq<Draw>, policy: Policy, k: nat, session: Session, bus: string, now: int, bytes: nat)
    requires k < |draws|
  {
    var g := GrantAt(d, draws, policy, k, session, bus, now);
    Taken(d, g.alias) || GrantRefusal(d, g, bytes) == Some(Conflict)
  }

  // --------------------------------------------------------- the imperative form

  /** Takes the first draw that collides with nothing. `bytes` is the size of a serialized grant. */
  method Allocate(tx: Transaction, draws: seq<Draw>, policy: Policy, session: Session, bus: string, bytes: nat)
    returns (a: Option<Allocation>)
    requires tx.writable && |draws| == ATTEMPTS
    modifies tx, tx.ctx
    ensures old(tx.ctx.done) ==> tx.ctx.done
    ensures a.None? ==> tx.data == old(tx.data)
    ensures a.Some? ==>
      && a.value.attempt < ATTEMPTS
      && a.value.words == WordsAt(old(tx.data), draws, policy, a.value.attempt)
      && a.value.grant == GrantAt(old(tx.data), draws, policy, a.value.attempt, session, bus, tx.now)
      && !Collides(old(tx.data), draws, policy, a.value.attempt, session, bus, tx.now, bytes)
      && (forall k :: 0 <= k < a.value.attempt ==> Collides(old(tx.data), draws, policy, k, session, bus, tx.now, bytes))
      && tx.data == WithGrant(old(tx.data), a.value.grant)
    ensures a.Some? ==>
      var g, draw := a.value.grant, draws[a.value.attempt];
      && g.id == draw.id && g.joinCode == draw.code && g.sessionId == session.id && g.busId == bus
      && Lookup(old(tx.data), g.alias).None?
      && (policy.Fixed? ==> a.value.words == policy.words && g.alias == draw.name)
      && (policy.Growing? ==> a.value.words == if TakenAmong(old(tx.data), draws, a.value.attempt) >= 8 then 3 else 2)
      && (policy.Growing? ==> g.alias == if a.value.words == 3 then draw.longer else draw.name)
      && g.expires <= session.expires && g.expires <= tx.now + INVITATION_TTL
      && (g.expires == session.expires || g.expires == tx.now + INVITATION_TTL)
    ensures a.None? && !tx.ctx.done && bytes <= MAX_RECORD_BYTES ==>
      forall k :: 0 <= k < ATTEMPTS ==> Collides(old(tx.data), draws, policy, k, session, bus, tx.now, bytes)
  {
    ghost var d := tx.data;
    var shortCollisions: nat := 0;
    for attempt := 0 to ATTEMPTS
      invariant tx.data == d && (old(tx.ctx.done) ==> tx.ctx.done)
      invariant policy.Growing? ==> shortCollisions == Capped(TakenAmong(d, draws, attempt))
      invariant forall k :: 0 <= k < attempt ==> Collides(d, draws, policy, k, session, bus, tx.now, bytes)
    {
      var words := if policy.Fixed? then policy.words else if shortCollisions >= SHORT_COLLISIONS then 3 else 2;
      var grown := policy.Growing? && words == 3;
      var name := if grown then draws[attempt].longer else draws[attempt].name;
      if Lookup(tx.data, name).Some? {
        if words == 2 {
          shortCollisions := shortCollisions + 1;
        }
      } else {
        var end := tx.now + INVITATION_TTL;
        var expires := if session.expires < end then session.expires else end;
        var grant := Grant(draws[attempt].id, draws[attempt].code, name, session.id, bus, expires);
        var error := tx.PutGrant(grant, bytes);
        if error.None? {
          return Some(Allocation(attempt, words, grant));
        }
        if error != Some(Conflict) {
          return None;
        }
      }
    }
    return None;
  }

  function Capped(n: nat): nat {
    if n < SHORT_COLLISIONS then n else SHORT_COLLISIONS
  }
}
