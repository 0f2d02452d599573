/**
 * The credential tables of the connector (ADR 0020) and its symbolic
 * cryptography: a hash is injective, and a wrap opens under exactly the key it
 * was made with, which is a label, a secret and a pepper.
 */
module Credentials {
  import opened Options

  type Secret = string
  type ClientId = string
  type Dek = string
  type Pepper = nat

  datatype Label = ConnectorToken | PairingCode | AuthCode | TokenLabel
  /** `deriveKek`. */
  datatype Kek = Kek(tag: Label, secret: Secret, pepper: Pepper)
  /** `wrapDek`. */
  datatype Wrap = Wrap(dek: Dek, kek: Kek, nonce: nat)
  /** `sha256hex`. */
  datatype Hash = Hash(secret: Secret)
  /** One running instance: its pepper, and the previous one during a rotation. */
  datatype Server = Server(pepper: Pepper, previous: Option<Pepper>)

  /** `unwrapDek`. */
  function Unwrap(w: Wrap, kek: Kek): Option<Dek> { if w.kek == kek then Some(w.dek) else None }

  datatype Opened = Opened(dek: Dek, usedPrevious: bool)

  /** `unwrapDekRotating`. */
  function UnwrapRotating(w: Wrap, tag: Label, secret: Secret, srv: Server): Option<Opened> {
    var now := Unwrap(w, Kek(tag, secret, srv.pepper));
    if now.Some? then Some(Opened(now.value, false))
    else if srv.previous.None? then None
    else
      var before := Unwrap(w, Kek(tag, secret, srv.previous.value));
      if before.Some? then Some(Opened(before.value, true)) else None
  }

  /** The peppers an instance can open. */
  predicate Holds(srv: Server, p: Pepper) { p == srv.pepper || srv.previous == Some(p) }

  /** A wrap opens under exactly its own label and secret, on the instances that hold its pepper; to the key it wraps. */
  lemma OpensIff(w: Wrap, tag: Label, secret: Secret, srv: Server)
    ensures UnwrapRotating(w, tag, secret, srv).Some? <==> w.kek.tag == tag && w.kek.secret == secret && Holds(srv, w.kek.pepper)
    ensures UnwrapRotating(w, tag, secret, srv).Some? ==>
      UnwrapRotating(w, tag, secret, srv).value == Opened(w.dek, w.kek.pepper != srv.pepper)
  {
  }

  // ---- the tables ----------------------------------------------------------

  datatype PairRow = PairRow(account: Hash, expiresAt: int, wrap: Wrap)
  datatype CodeRow = CodeRow(client: ClientId, account: Hash, expiresAt: int, wrap: Wrap, consumed: bool)
  datatype TokenRow = TokenRow(client: ClientId, account: Hash, refresh: bool, expiresAt: int, wrap: Wrap)

  datatype Tables = Tables(accounts: map<Hash, Option<Wrap>>, pairings: map<Hash, PairRow>, codes: map<Hash, CodeRow>, tokens: map<Hash, TokenRow>)

  function Upserted(s: Tables, a: Hash): Tables { if a in s.accounts then s else s.(accounts := s.accounts[a := None]) }

  /** First write wins; the row must exist. */
  function Ensured(s: Tables, a: Hash, candidate: Wrap): (Tables, Wrap)
    requires a in s.accounts
  {
    if s.accounts[a].Some? then (s, s.accounts[a].value) else (s.(accounts := s.accounts[a := Some(candidate)]), candidate)
  }

  function WrapOf(s: Tables, a: Hash): Option<Wrap> { if a in s.accounts then s.accounts[a] else None }

  /** Only over the wrap that was read. */
  function Relocked(s: Tables, a: Hash, expected: Wrap, next: Wrap): Tables {
    if a in s.accounts && s.accounts[a] == Some(expected) then s.(accounts := s.accounts[a := Some(next)]) else s
  }

  function LivePairings(m: map<Hash, PairRow>, now: int): map<Hash, PairRow> { map k | k in m && m[k].expiresAt > now :: m[k] }

  /** A pairing code goes when it is presented, and every expired one with it. */
  function PairingTaken(s: Tables, code: Hash, now: int): (Tables, Option<PairRow>) {
    var live := LivePairings(s.pairings, now);
    (s.(pairings := live - {code}), if code in live then Some(live[code]) else None)
  }

  /** An authorization code is marked when it is presented. */
  function CodeTaken(s: Tables, code: Hash, now: int): (Tables, Option<CodeRow>) {
    if code !in s.codes || s.codes[code].consumed || s.codes[code].expiresAt <= now then (s, None)
    else (s.(codes := s.codes[code := s.codes[code].(consumed := true)]), Some(s.codes[code]))
  }

  /** A refresh token goes when it is presented. */
  function TokenTaken(s: Tables, token: Hash, nowSec: int): (Tables, Option<TokenRow>) {
    if token !in s.tokens || !s.tokens[token].refresh || s.tokens[token].expiresAt <= nowSec then (s, None)
    else (s.(tokens := s.tokens - {token}), Some(s.tokens[token]))
  }

  // ---- the store -----------------------------------------------------------

  class CredentialStorage {
    var accounts: map<Hash, Option<Wrap>>
    var pairings: map<Hash, PairRow>
    var codes: map<Hash, CodeRow>
    var tokens: map<Hash, TokenRow>

    constructor ()
      ensures Value() == Tables(map[], map[], map[], map[])
    {
      accounts, pairings, codes, tokens := map[], map[], map[], map[];
    }

    function Value(): Tables
      reads this
    {
      Tables(accounts, pairings, codes, tokens)
    }

    method UpsertAccount(a: Hash)
      modifies this`accounts
      ensures Value() == Upserted(old(Value()), a)
    {
      if a !in accounts { accounts := accounts[a := None]; }
    }

    /** None when the account is unknown, which the code refuses. */
    method EnsureAccountDekWrap(a: Hash, candidate: Wrap) returns (r: Option<Wrap>)
      modifies this`accounts
      ensures if a in old(accounts) then (Value(), r) == (Ensured(old(Value()), a, candidate).0, Some(Ensured(old(Value()), a, candidate).1))
              else Value() == old(Value()) && r == None
    {
      if a !in accounts { return None; }
      if accounts[a].Some? { return accounts[a]; }
      accounts := accounts[a := Some(candidate)];
      r := Some(candidate);
    }

    method ReplaceAccountDekWrap(a: Hash, expected: Wrap, next: Wrap)
      modifies this`accounts
      ensures Value() == Relocked(old(Value()), a, expected, next)
    {
      if a in accounts && accounts[a] == Some(expected) { accounts := accounts[a := Some(next)]; }
    }

    method DropExpiredPairings(now: int)
      modifies this`pairings
      ensures pairings == LivePairings(old(pairings), now)
    {
      ghost var was := pairings;
      var keys := pairings.Keys;
      while keys != {}
        invariant keys <= was.Keys && pairings.Keys <= was.Keys
        invariant forall k :: k in pairings ==> pairings[k] == was[k]
        invariant forall k :: k in was ==> (k in pairings <==> k in keys || was[k].expiresAt > now)
        decreases keys
      {
        var k :| k in keys;
        if pairings[k].expiresAt <= now { pairings := pairings - {k}; }
        keys := keys - {k};
      }
    }

    method ConsumePairingCode(code: Hash, now: int) returns (r: Option<PairRow>)
      modifies this`pairings
      ensures Value() == PairingTaken(old(Value()), code, now).0 && r == PairingTaken(old(Value()), code, now).1
    {
      var row := if code in pairings then Some(pairings[code]) else None;
      DropExpiredPairings(now);
      pairings := pairings - {code};
      r := if row.None? || row.value.expiresAt <= now then None else row;
    }

    method ConsumeCode(code: Hash, now: int) returns (r: Option<CodeRow>)
      modifies this`codes
      ensures Value() == CodeTaken(old(Value()), code, now).0 && r == CodeTaken(old(Value()), code, now).1
    {
      if code !in codes || codes[code].consumed || codes[code].expiresAt <= now { return None; }
      r := Some(codes[code]);
      codes := codes[code := codes[code].(consumed := true)];
    }

    method ConsumeToken(token: Hash, nowSec: int) returns (r: Option<TokenRow>)
      modifies this`tokens
      ensures Value() == TokenTaken(old(Value()), token, nowSec).0 && r == TokenTaken(old(Value()), token, nowSec).1
    {
      if token !in tokens || !tokens[token].refresh || tokens[token].expiresAt <= nowSec { return None; }
      r := Some(tokens[token]);
      tokens := tokens - {token};
    }

    method PutPairingCode(code: Hash, row: PairRow)
      modifies this`pairings
      ensures Value() == old(Value()).(pairings := old(pairings)[code := row])
    {
      pairings := pairings[code := row];
    }

    method PutCode(code: Hash, row: CodeRow)
      modifies this`codes
      ensures Value() == old(Value()).(codes := old(codes)[code := row.(consumed := false)])
    {
      codes := codes[code := row.(consumed := false)];
    }

    method PutToken(token: Hash, row: TokenRow)
      modifies this`tokens
      ensures Value() == old(Value()).(tokens := old(tokens)[token := row])
    {
      tokens := tokens[token := row];
    }

    method DeleteToken(token: Hash)
      modifies this`tokens
      ensures Value() == old(Value()).(tokens := old(tokens) - {token})
    {
      tokens := tokens - {token};
    }
  }
}
