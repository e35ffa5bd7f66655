/** Redeeming one-use invitations over the transactional store, with optional retry keys whose
    receipts make a repeated request return the first answer. Hashes stand for the text they
    cover, and whatever signing and encoding produce is an arbitrary given string. */
module Redemption {
  import opened Collections
  import opened MemoryStore
  import RelayState

  const MAX_NAME_BYTES := 134
  const MAX_RESPONSE_BYTES := 16384
  const MIN_KEY := 16
  const MAX_KEY := 128
  const SECOND := 1_000_000_000

  datatype Config = Config(incarnation: string, maxReceipts: nat, receiptTtl: int, tokenTtl: int)

  datatype Request = Request(locator: string, code: string, key: string)

  /** What code outside this model decides: whether the stored name parses, the response that
      signing and encoding give (if they succeed), and the size of a serialized receipt. */
  datatype Foreign = Foreign(wellNamed: bool, minted: Option<string>, receiptBytes: nat)

  datatype Rejection = NotFound | RetryConflict | ReceiptCapacity | Storage | Failed

  datatype Outcome =
    | Redeemed(grant: Grant, bytes: string, receipt: Option<Receipt>)
    | Replayed(bytes: string)
    | Rejected(why: Rejection)

  // ------------------------------------------------------------- specification

  predicate Hex(c: char) {
    '0' <= c <= '9' || 'a' <= c <= 'f' || 'A' <= c <= 'F'
  }

  predicate OpaqueCode(value: string) {
    && |value| == 36
    && forall i :: 0 <= i < 36 ==> if i == 8 || i == 13 || i == 18 || i == 23 then value[i] == '-' else Hex(value[i])
  }

  lemma HexDigits(c: char)
    ensures Hex(c) <==> c in "0123456789abcdefABCDEF"
  {
  }

  /** A code is 36 characters long: hexadecimal digits in groups of 8, 4, 4, 4 and 12 with hyphens
      in between. */
  lemma CodeIff(code: string)
    ensures OpaqueCode(code) <==>
      && |code| == 36 && code[8] == code[13] == code[18] == code[23] == '-'
      && forall i :: 0 <= i < 36 && i !in {8, 13, 18, 23} ==> code[i] in "0123456789abcdefABCDEF"
  {
    if |code| == 36 {
      forall i | 0 <= i < 36
        ensures Hex(code[i]) <==> code[i] in "0123456789abcdefABCDEF"
      {
        HexDigits(code[i]);
      }
    }
  }

  /** A bare code stands for itself. */
  function CodeOf(req: Request): string {
    if req.code == "" && OpaqueCode(req.locator) then req.locator else req.code
  }

  function Malformed(req: Request): Option<Rejection> {
    if !OpaqueCode(CodeOf(req)) || |req.locator| > MAX_NAME_BYTES || req.locator == "" then Some(NotFound)
    else if req.key != "" && (|req.key| < MIN_KEY || |req.key| > MAX_KEY || !RelayState.Identifier(req.key, MAX_KEY))
    then Some(RetryConflict)
    else None
  }

  /** Exactly the requests that are looked at. */
  lemma WellFormedIff(req: Request)
    ensures Malformed(req).None? <==>
      && OpaqueCode(CodeOf(req)) && 0 < |req.locator| <= MAX_NAME_BYTES
      && (req.key == "" || (MIN_KEY <= |req.key| <= MAX_KEY && RelayState.Identifier(req.key, MAX_KEY)))
    ensures CodeOf(req) == if req.code != "" || !OpaqueCode(req.locator) then req.code else req.locator
  {
  }

  function ReceiptKey(key: string): string { "redeem\0" + key }

  function RequestDigest(locator: string): string { "redeem\0" + locator }

  function CredentialDigest(code: string): string { "join\0" + code }

  lemma PrefixedAlike(p: string, a: string, b: string)
    requires p + a == p + b
    ensures a == b
  {
    assert a == (p + a)[|p|..];
    assert b == (p + b)[|p|..];
  }

  predicate Active(d: Records, id: string, now: int, config: Config) {
    id in d.sessions && d.sessions[id].expires > now && d.sessions[id].incarnation == config.incarnation
  }

  function Min(a: int, b: int): int {
    if b < a then b else a
  }

  /** The end of the token's last whole second. */
  function TokenEnd(now: int, config: Config): int {
    now + config.tokenTtl - (now + config.tokenTtl) % SECOND
  }

  function ReceiptEnd(grant: Grant, session: Session, now: int, config: Config): int {
    Min(Min(Min(now + config.receiptTtl, grant.expires), session.expires), TokenEnd(now, config))
  }

  function ReceiptFor(req: Request, grant: Grant, session: Session, bytes: string, now: int, config: Config): Receipt {
    Receipt(ReceiptKey(req.key), "redeem", grant.sessionId, RequestDigest(req.locator),
            CredentialDigest(CodeOf(req)), bytes, ReceiptEnd(grant, session, now, config))
  }

  /** Whether a receipt answers this very request. */
  predicate Answers(r: Receipt, req: Request) {
    r.operation == "redeem" && r.requestDigest == RequestDigest(req.locator)
    && r.credentialDigest == CredentialDigest(CodeOf(req))
  }

  function FromReceipt(d: Records, r: Receipt, req: Request, now: int, config: Config): Outcome {
    if !Answers(r, req) then Rejected(RetryConflict)
    else if r.expires <= now || !Active(d, r.sessionId, now, config) then Rejected(NotFound)
    else Replayed(r.response)
  }

  function FromGrant(d: Records, req: Request, now: int, config: Config, foreign: Foreign): Outcome {
    var found := Lookup(d, req.locator);
    if found.None? || found.value.expires <= now || found.value.joinCode != CodeOf(req) then Rejected(NotFound)
    else if !foreign.wellNamed then Rejected(Failed)
    else if !Active(d, found.value.sessionId, now, config) then Rejected(NotFound)
    else if req.key != "" && |d.receipts| >= config.maxReceipts then Rejected(ReceiptCapacity)
    else if foreign.minted.None? then Rejected(Failed)
    else if |foreign.minted.value| > MAX_RESPONSE_BYTES then Rejected(Storage)
    else if req.key == "" then Redeemed(found.value, foreign.minted.value, None)
    else
      var r := ReceiptFor(req, found.value, d.sessions[found.value.sessionId], foreign.minted.value, now, config);
      if ReceiptRefusal(d, r, foreign.receiptBytes).Some? then Rejected(Storage)
      else Redeemed(found.value, foreign.minted.value, Some(r))
  }

  /** What the callback decides on the pruned records. */
  function Decided(d: Records, req: Request, now: int, config: Config, foreign: Foreign): Outcome {
    if req.key != "" && ReceiptKey(req.key) in d.receipts
    then FromReceipt(d, d.receipts[ReceiptKey(req.key)], req, now, config)
    else FromGrant(d, req, now, config, foreign)
  }

  /** The grant is gone and its receipt, if any, is there. */
  function Spent(d: Records, grant: Grant, receipt: Option<Receipt>): Records {
    Without(if receipt.Some? then WithReceipt(d, receipt.value) else d, {}, {grant.id}, {})
  }

  /** The records once that decision has been carried out. */
  function CarriedOut(d: Records, out: Outcome): Records {
    match out
    case Redeemed(grant, _, receipt) => Spent(d, grant, receipt)
    case _ => d
  }

  // --------------------------------------------------------- the imperative form

  /** The transaction callback. */
  method RedeemIn(tx: Transaction, req: Request, config: Config, foreign: Foreign) returns (out: Outcome)
    requires Consistent(tx.data) && tx.writable && Malformed(req).None?
    modifies tx, tx.ctx
    ensures old(tx.ctx.done) ==> tx.ctx.done
    ensures !tx.ctx.done ==> out == Decided(Pruned(old(tx.data), tx.now), req, tx.now, config, foreign)
    ensures !tx.ctx.done && !out.Rejected? ==> tx.data == CarriedOut(Pruned(old(tx.data), tx.now), out)
  {
    DoneIsConsistent(tx.data, PruneExpired, tx.now);
    var error := tx.PruneExpired();
    if error.Some? || tx.ctx.done {
      return Rejected(Failed);
    }
    var code := CodeOf(req);
    if req.key != "" && ReceiptKey(req.key) in tx.data.receipts {
      var receipt := tx.data.receipts[ReceiptKey(req.key)];
      if receipt.operation != "redeem" || receipt.requestDigest != RequestDigest(req.locator)
         || receipt.credentialDigest != CredentialDigest(code) {
        return Rejected(RetryConflict);
      }
      if receipt.expires <= tx.now || !Active(tx.data, receipt.sessionId, tx.now, config) {
        return Rejected(NotFound);
      }
      return Replayed(receipt.response);
    }
    out := Spend(tx, req, config, foreign);
  }

  /** The first use of a grant: answer, remember the answer under the key, delete the grant. */
  method Spend(tx: Transaction, req: Request, config: Config, foreign: Foreign) returns (out: Outcome)
    requires Consistent(tx.data) && tx.writable && !tx.ctx.done
    requires req.key != "" ==> ReceiptKey(req.key) !in tx.data.receipts
    modifies tx, tx.ctx
    ensures !tx.ctx.done ==> out == FromGrant(old(tx.data), req, tx.now, config, foreign)
    ensures !tx.ctx.done && !out.Rejected? ==> tx.data == CarriedOut(old(tx.data), out)
  {
    var found := Lookup(tx.data, req.locator);
    if found.None? || found.value.expires <= tx.now || found.value.joinCode != CodeOf(req) {
      return Rejected(NotFound);
    }
    var grant := found.value;
    if !foreign.wellNamed {
      return Rejected(Failed);
    }
    if !Active(tx.data, grant.sessionId, tx.now, config) {
      return Rejected(NotFound);
    }
    var session := tx.data.sessions[grant.sessionId];
    if req.key != "" && |tx.data.receipts| >= config.maxReceipts {
      return Rejected(ReceiptCapacity);
    }
    if foreign.minted.None? {
      return Rejected(Failed);
    }
    var result := foreign.minted.value;
    if |result| > MAX_RESPONSE_BYTES {
      return Rejected(Storage);
    }
    var receipt: Option<Receipt> := None;
    if req.key != "" {
      var bounds := [grant.expires, session.expires, TokenEnd(tx.now, config)];
      var expires := Earliest(tx.now + config.receiptTtl, bounds);
      assert expires <= bounds[0] && expires <= bounds[1] && expires <= bounds[2];
      assert expires == ReceiptEnd(grant, session, tx.now, config);
      receipt := Some(Receipt(ReceiptKey(req.key), "redeem", grant.sessionId, RequestDigest(req.locator),
                              CredentialDigest(CodeOf(req)), result, expires));
    }
    var refused := Consume(tx, grant, receipt, foreign.receiptBytes);
    out := if refused then Rejected(Storage) else Redeemed(grant, result, receipt);
  }

  /** The smallest of these times. */
  method Earliest(first: int, bounds: seq<int>) returns (expires: int)
    ensures expires == first || expires in bounds
    ensures expires <= first && forall i :: 0 <= i < |bounds| ==> expires <= bounds[i]
  {
    expires := first;
    for i := 0 to |bounds|
      invariant expires == first || expires in bounds
      invariant expires <= first && forall k :: 0 <= k < i ==> expires <= bounds[k]
    {
      if bounds[i] < expires {
        expires := bounds[i];
      }
    }
  }

  /** Stores the receipt, if there is one, and then deletes the grant. */
  method Consume(tx: Transaction, grant: Grant, receipt: Option<Receipt>, bytes: nat) returns (refused: bool)
    requires Consistent(tx.data) && tx.writable && !tx.ctx.done
    modifies tx, tx.ctx
    ensures !tx.ctx.done ==> (refused <==> receipt.Some? && ReceiptRefusal(old(tx.data), receipt.value, bytes).Some?)
    ensures !tx.ctx.done && !refused ==> tx.data == Spent(old(tx.data), grant, receipt)
  {
    if receipt.Some? {
      var error := tx.PutReceipt(receipt.value, bytes);
      if error.Some? {
        return true;
      }
    }
    var error := tx.DeleteGrant(grant.id);
    return error.Some?;
  }

  /** A whole redemption: the caller sees a response only if the transaction committed. */
  method Redeem(store: Store, ctx: Context, req: Request, now: int, config: Config, foreign: Foreign)
    returns (response: Option<string>)
    requires Consistent(store.data)
    modifies store, ctx
    ensures Consistent(store.data)
    ensures response.None? ==> store.data == old(store.data)
    ensures response.Some? ==>
      var pruned := Pruned(old(store.data), now);
      var out := Decided(pruned, req, now, config, foreign);
      !out.Rejected? && response.value == out.bytes && store.data == CarriedOut(pruned, out)
    ensures !ctx.done && !old(store.closed) && Malformed(req).None? ==>
      (response.None? <==> Decided(Pruned(old(store.data), now), req, now, config, foreign).Rejected?)
  {
    if Malformed(req).Some? {
      return None;
    }
    var cancelled := ctx.Err();
    if cancelled || store.closed {
      return None;
    }
    var tx := new Transaction(ctx, true, now, store.data);
    var out := RedeemIn(tx, req, config, foreign);
    if out.Rejected? {
      return None;
    }
    cancelled := ctx.Err();
    if cancelled {
      return None;
    }
    CarriedOutIsConsistent(Pruned(store.data, now), req, now, config, foreign);
    store.data := tx.data;
    return Some(out.bytes);
  }

  /** A live grant of an active Session can be spent with its code under either of its locators,
      or with the bare code alone. */
  lemma EitherLocatorRedeems(d: Records, g: Grant, req: Request, now: int, config: Config, foreign: Foreign)
    requires Consistent(d) && g.id in d.grants && d.grants[g.id] == g && g.expires > now
    requires Active(d, g.sessionId, now, config) && foreign.wellNamed
    requires foreign.minted.Some? && |foreign.minted.value| <= MAX_RESPONSE_BYTES
    requires OpaqueCode(g.joinCode)
    requires req.key == "" && (req.locator == g.alias || req.locator == g.joinCode)
    requires req.code == g.joinCode || (req.code == "" && req.locator == g.joinCode)
    ensures Decided(d, req, now, config, foreign) == Redeemed(g, foreign.minted.value, None)
  {
    LookupIsScan(d, req.locator, g);
  }

  /** The grant that a request spends: live, found under the locator by its alias or code, with
      the request's code, and belonging to an active Session. */
  predicate Spendable(d: Records, g: Grant, req: Request, now: int, config: Config) {
    && g.id in d.grants && d.grants[g.id] == g && Names(g, req.locator)
    && g.expires > now && g.joinCode == CodeOf(req)
    && g.sessionId in d.sessions && d.sessions[g.sessionId].expires > now && d.sessions[g.sessionId].incarnation == config.incarnation
  }

  /** Whoever has the code of an invitation can ask for it: under either locator, and with any key
      of 16 to 128 identifier characters or none. */
  lemma InvitedCanAsk(g: Grant, req: Request)
    requires OpaqueCode(g.joinCode) && 0 < |g.alias| <= MAX_NAME_BYTES
    requires Names(g, req.locator) && CodeOf(req) == g.joinCode
    requires req.key == "" || (MIN_KEY <= |req.key| <= MAX_KEY && RelayState.Identifier(req.key, MAX_KEY))
    ensures Malformed(req).None?
  {
  }

  /** What signing and encoding gave is fit to be sent. */
  predicate Mintable(foreign: Foreign) {
    foreign.wellNamed && foreign.minted.Some? && |foreign.minted.value| <= MAX_RESPONSE_BYTES
  }

  /** A keyed request finds its key unused and room for its receipt. */
  predicate RoomForReceipt(d: Records, req: Request, config: Config, foreign: Foreign) {
    ReceiptKey(req.key) !in d.receipts && |d.receipts| < config.maxReceipts && foreign.receiptBytes <= MAX_RECORD_BYTES
  }

  /** Exactly when a grant is spent, whether or not the request carries a key. */
  lemma RedeemedIff(d: Records, req: Request, now: int, config: Config, foreign: Foreign, g: Grant)
    requires Consistent(d)
    ensures var out := Decided(d, req, now, config, foreign);
      out.Redeemed? && out.grant == g <==>
        Spendable(d, g, req, now, config) && Mintable(foreign) && (req.key != "" ==> RoomForReceipt(d, req, config, foreign))
  {
    LookupIsScan(d, req.locator, g);
  }

  /** What a first use answers, and the receipt it leaves: for this very request, with the answer's
      bytes, and ending at the earliest of its four bounds. */
  lemma RedeemedReceipt(d: Records, req: Request, now: int, config: Config, foreign: Foreign)
    requires Consistent(d) && Decided(d, req, now, config, foreign).Redeemed?
    ensures var out := Decided(d, req, now, config, foreign);
      && foreign.minted == Some(out.bytes) && (out.receipt.Some? <==> req.key != "")
      && out.grant.sessionId in d.sessions
      && (out.receipt.Some? ==>
            var r, whole := out.receipt.value, now + config.tokenTtl;
            && r.key == ReceiptKey(req.key) && Answers(r, req) && r.response == out.bytes && r.sessionId == out.grant.sessionId
            && r.expires <= now + config.receiptTtl && r.expires <= out.grant.expires
            && r.expires <= d.sessions[out.grant.sessionId].expires && r.expires <= whole - whole % SECOND
            && (|| r.expires == now + config.receiptTtl || r.expires == out.grant.expires
                || r.expires == d.sessions[out.grant.sessionId].expires || r.expires == whole - whole % SECOND))
  {
  }

  /** Why a request with a key is turned away although its grant could be spent. */
  lemma KeyedRefusal(d: Records, req: Request, now: int, config: Config, foreign: Foreign, g: Grant)
    requires Consistent(d) && Spendable(d, g, req, now, config) && Mintable(foreign) && req.key != ""
    requires ReceiptKey(req.key) !in d.receipts
    ensures var out := Decided(d, req, now, config, foreign);
      && (out == Rejected(ReceiptCapacity) <==> |d.receipts| >= config.maxReceipts)
      && (out == Rejected(Storage) <==> |d.receipts| < config.maxReceipts && foreign.receiptBytes > MAX_RECORD_BYTES)
  {
    LookupIsScan(d, req.locator, g);
  }

  /** Exactly when a receipt answers: it is stored under the request's key, was left by the same
      locator and code, has not expired, and its Session is active. */
  lemma ReplayedIff(d: Records, req: Request, now: int, config: Config, foreign: Foreign, bytes: string)
    ensures Decided(d, req, now, config, foreign) == Replayed(bytes) <==>
      && req.key != "" && ReceiptKey(req.key) in d.receipts
      && var r := d.receipts[ReceiptKey(req.key)];
         && r.response == bytes && r.operation == "redeem" && r.requestDigest == RequestDigest(req.locator)
         && r.credentialDigest == CredentialDigest(CodeOf(req)) && r.expires > now
         && r.sessionId in d.sessions && d.sessions[r.sessionId].expires > now
         && d.sessions[r.sessionId].incarnation == config.incarnation
  {
  }

  lemma CarriedOutIsConsistent(d: Records, req: Request, now: int, config: Config, foreign: Foreign)
    requires Consistent(d)
    ensures Consistent(CarriedOut(d, Decided(d, req, now, config, foreign)))
  {
    var out := Decided(d, req, now, config, foreign);
    if out.Redeemed? {
      var mid := if out.receipt.Some? then WithReceipt(d, out.receipt.value) else d;
      WithoutIsConsistent(mid, {}, {out.grant.id}, {});
    }
  }
}
