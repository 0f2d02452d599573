/**
 * The chain of custody of an account's key (ADR 0020): connector token, pairing
 * code, authorization code, token pair, each request a program whose awaits are
 * steps, on any instances, in any interleaving.
 */
module CredentialRuns {
  import opened Options
  import opened Credentials

  /** One request between two awaits. `root` is what the chain of the presented secret started from. */
  datatype Call =
    | PairAsked(srv: Server, token: Secret)
    | PushAsked(srv: Server, token: Secret)
    | ResolveRead(srv: Server, token: Secret, pair: bool)
    | ResolveRelock(srv: Server, token: Secret, pair: bool, existing: Wrap, dek: Dek)
    | ResolveCreate(srv: Server, token: Secret, pair: bool, candidate: Wrap)
    | PairReady(srv: Server, token: Secret, dek: Dek)
    | ConsentAsked(srv: Server, code: Secret, client: ClientId)
    | ConsentReady(srv: Server, client: ClientId, account: Hash, dek: Dek, root: Hash)
    | ExchangeAsked(srv: Server, code: Secret, client: ClientId)
    | RefreshAsked(srv: Server, token: Secret, client: ClientId)
    | IssueAccess(srv: Server, client: ClientId, account: Hash, dek: Dek, root: Hash)
    | IssueRefresh(srv: Server, client: ClientId, account: Hash, dek: Dek, root: Hash)
    | BearerAsked(srv: Server, token: Secret)
    | Served(account: Hash, dek: Dek)
    | Ended

  type Credential = (Label, Secret)

  datatype World = World(
    tables: Tables,
    calls: map<nat, Call>,
    deks: map<Hash, Dek>,           // the key each account got first
    origin: map<Credential, Hash>,  // the account at the root of each credential's chain
    issued: set<Credential>,        // every code and token ever stored
    spent: set<Credential>)         // every code and refresh token ever taken

  /** What a step leaves open: the clock, a refusal, and random values. */
  datatype Pick = Pick(now: int, refuse: bool, secret: Secret, newDek: Dek, nonce: nat, expiresAt: int)

  datatype Step =
    | Begin(c: nat, call: Call)
    | Go(c: nat, pick: Pick)
    | DropCode(code: Hash)
    | DropToken(token: Hash)

  // ---- effects -------------------------------------------------------------

  function With(w: World, c: nat, call: Call): World { w.(calls := w.calls[c := call]) }

  function OriginOf(w: World, k: Credential): Hash { if k in w.origin then w.origin[k] else Hash("") }

  /** A key resolved from a connector token: for a pairing code, or for a push. */
  function Ready(srv: Server, token: Secret, pair: bool, dek: Dek): Call {
    if pair then PairReady(srv, token, dek) else Served(Hash(token), dek)
  }

  function Fresh(dek: Dek, tag: Label, secret: Secret, srv: Server, nonce: nat): Wrap { Wrap(dek, Kek(tag, secret, srv.pepper), nonce) }

  function AfterRead(call: Call, stored: Option<Wrap>, p: Pick): Call
    requires call.ResolveRead?
  {
    if stored.None? then ResolveCreate(call.srv, call.token, call.pair, Fresh(p.newDek, ConnectorToken, call.token, call.srv, p.nonce))
    else
      var o := UnwrapRotating(stored.value, ConnectorToken, call.token, call.srv);
      if o.None? then Ended
      else if o.value.usedPrevious then ResolveRelock(call.srv, call.token, call.pair, stored.value, o.value.dek)
      else Ready(call.srv, call.token, call.pair, o.value.dek)
  }

  /** The first writer's wrap is the account's, and its key the account's key. */
  function Create(w: World, c: nat, call: Call): World
    requires call.ResolveCreate?
  {
    var a := Hash(call.token);
    if a !in w.tables.accounts then With(w, c, Ended)
    else
      var (tables, winner) := Ensured(w.tables, a, call.candidate);
      var o := UnwrapRotating(winner, ConnectorToken, call.token, call.srv);
      With(w, c, if o.None? then Ended else Ready(call.srv, call.token, call.pair, o.value.dek))
        .(tables := tables, deks := if a in w.deks then w.deks else w.deks[a := winner.dek])
  }

  function PutPairing(w: World, c: nat, call: Call, p: Pick): World
    requires call.PairReady?
  {
    var row := PairRow(Hash(call.token), p.expiresAt, Fresh(call.dek, PairingCode, p.secret, call.srv, p.nonce));
    With(w, c, Ended).(tables := w.tables.(pairings := w.tables.pairings[Hash(p.secret) := row]),
                       origin := w.origin[(PairingCode, p.secret) := Hash(call.token)])
  }

  function Consent(w: World, c: nat, call: Call, p: Pick): World
    requires call.ConsentAsked?
  {
    var (tables, row) := PairingTaken(w.tables, Hash(call.code), p.now);
    var o := if row.None? then None else UnwrapRotating(row.value.wrap, PairingCode, call.code, call.srv);
    With(w, c, if o.None? then Ended
               else ConsentReady(call.srv, call.client, row.value.account, o.value.dek, OriginOf(w, (PairingCode, call.code))))
      .(tables := tables)
  }

  function Mint(w: World, c: nat, call: Call, p: Pick): World
    requires call.ConsentReady?
  {
    var row := CodeRow(call.client, call.account, p.expiresAt, Fresh(call.dek, AuthCode, p.secret, call.srv, p.nonce), false);
    With(w, c, Ended).(tables := w.tables.(codes := w.tables.codes[Hash(p.secret) := row]),
                       origin := w.origin[(AuthCode, p.secret) := call.root], issued := w.issued + {(AuthCode, p.secret)})
  }

  function Exchange(w: World, c: nat, call: Call, p: Pick): World
    requires call.ExchangeAsked?
  {
    var (tables, row) := CodeTaken(w.tables, Hash(call.code), p.now);
    if row.None? then With(w, c, Ended)
    else
      var o := if row.value.client != call.client || p.refuse then None else UnwrapRotating(row.value.wrap, AuthCode, call.code, call.srv);
      With(w, c, if o.None? then Ended
                 else IssueAccess(call.srv, call.client, row.value.account, o.value.dek, OriginOf(w, (AuthCode, call.code))))
        .(tables := tables, spent := w.spent + {(AuthCode, call.code)})
  }

  function Refresh(w: World, c: nat, call: Call, p: Pick): World
    requires call.RefreshAsked?
  {
    var (tables, row) := TokenTaken(w.tables, Hash(call.token), p.now);
    if row.None? then With(w, c, Ended)
    else
      var o := if row.value.client != call.client || p.refuse then None else UnwrapRotating(row.value.wrap, TokenLabel, call.token, call.srv);
      With(w, c, if o.None? then Ended
                 else IssueAccess(call.srv, call.client, row.value.account, o.value.dek, OriginOf(w, (TokenLabel, call.token))))
        .(tables := tables, spent := w.spent + {(TokenLabel, call.token)})
  }

  /** One token of a pair. */
  function PutToken(w: World, c: nat, call: Call, p: Pick): World
    requires call.IssueAccess? || call.IssueRefresh?
  {
    var row := TokenRow(call.client, call.account, call.IssueRefresh?, p.expiresAt, Fresh(call.dek, TokenLabel, p.secret, call.srv, p.nonce));
    With(w, c, if call.IssueRefresh? then Ended else IssueRefresh(call.srv, call.client, call.account, call.dek, call.root))
      .(tables := w.tables.(tokens := w.tables.tokens[Hash(p.secret) := row]),
        origin := w.origin[(TokenLabel, p.secret) := call.root], issued := w.issued + {(TokenLabel, p.secret)})
  }

  function AfterBearer(call: Call, s: Tables, p: Pick): Call
    requires call.BearerAsked?
  {
    var h := Hash(call.token);
    if p.refuse || h !in s.tokens || s.tokens[h].refresh then Ended
    else
      var o := UnwrapRotating(s.tokens[h].wrap, TokenLabel, call.token, call.srv);
      if o.None? then Ended else Served(s.tokens[h].account, o.value.dek)
  }

  function Advance(w: World, c: nat, p: Pick): World
    requires c in w.calls
  {
    var call := w.calls[c];
    match call
    case PairAsked(srv, t) => if p.refuse then With(w, c, Ended) else With(w, c, ResolveRead(srv, t, true)).(tables := Upserted(w.tables, Hash(t)))
    case PushAsked(srv, t) => if p.refuse then With(w, c, Ended) else With(w, c, ResolveRead(srv, t, false)).(tables := Upserted(w.tables, Hash(t)))
    case ResolveRead(_, t, _) => With(w, c, AfterRead(call, WrapOf(w.tables, Hash(t)), p))
    case ResolveRelock(srv, t, pair, existing, dek) =>
      With(w, c, Ready(srv, t, pair, dek)).(tables := Relocked(w.tables, Hash(t), existing, Fresh(dek, ConnectorToken, t, srv, p.nonce)))
    case ResolveCreate(_, _, _, _) => Create(w, c, call)
    case PairReady(_, _, _) => PutPairing(w, c, call, p)
    case ConsentAsked(_, _, _) => if p.refuse then With(w, c, Ended) else Consent(w, c, call, p)
    case ConsentReady(_, _, _, _, _) => if p.refuse then With(w, c, Ended) else Mint(w, c, call, p)
    case ExchangeAsked(_, _, _) => Exchange(w, c, call, p)
    case RefreshAsked(_, _, _) => Refresh(w, c, call, p)
    case IssueAccess(_, _, _, _, _) => PutToken(w, c, call, p)
    case IssueRefresh(_, _, _, _, _) => PutToken(w, c, call, p)
    case BearerAsked(_, _) => With(w, c, AfterBearer(call, w.tables, p))
    case Served(_, _) => w
    case Ended => w
  }

  function Effect(w: World, st: Step): World
    requires st.Go? ==> st.c in w.calls
  {
    match st
    case Begin(c, call) => With(w, c, call)
    case Go(c, pick) => Advance(w, c, pick)
    case DropCode(h) => w.(tables := w.tables.(codes := w.tables.codes - {h}))
    case DropToken(h) => w.(tables := w.tables.(tokens := w.tables.tokens - {h}))
  }

  predicate Starts(call: Call) {
    call.PairAsked? || call.PushAsked? || call.ConsentAsked? || call.ExchangeAsked? || call.RefreshAsked? || call.BearerAsked?
  }

  /** Random codes and tokens are new; pairing codes need not be. */
  predicate FreshSecret(w: World, call: Call, p: Pick) {
    && (call.ConsentReady? ==> (AuthCode, p.secret) !in w.issued)
    && ((call.IssueAccess? || call.IssueRefresh?) ==> (TokenLabel, p.secret) !in w.issued)
  }

  predicate Legal(w: World, st: Step) {
    match st
    case Begin(c, call) => c !in w.calls && Starts(call)
    case Go(c, pick) => c in w.calls && FreshSecret(w, w.calls[c], pick)
    case _ => true
  }

  // ---- what every state keeps ----------------------------------------------

  /** The wrap opens under this label and secret, to this key. */
  predicate Good(w: Wrap, tag: Label, secret: Secret, dek: Dek) { w.dek == dek && w.kek.tag == tag && w.kek.secret == secret }

  predicate AccountAt(w: World, a: Hash)
    requires a in w.tables.accounts
  {
    w.tables.accounts[a].Some? ==> a in w.deks && Good(w.tables.accounts[a].value, ConnectorToken, a.secret, w.deks[a])
  }

  ghost predicate AccountsOk(w: World) {
    && (forall a :: a in w.tables.accounts ==> AccountAt(w, a))
    && (forall a :: a in w.deks ==> a in w.tables.accounts && w.tables.accounts[a].Some?)
  }

  /** A stored credential: its wrap opens under the secret its key hashes to its account's key, and its account is the root of its chain. */
  predicate Custody(w: World, tag: Label, key: Hash, account: Hash, wrap: Wrap) {
    account in w.deks && Good(wrap, tag, key.secret, w.deks[account]) && (tag, key.secret) in w.origin && w.origin[(tag, key.secret)] == account
  }

  ghost predicate PairingsOk(w: World) { forall h :: h in w.tables.pairings ==> Custody(w, PairingCode, h, w.tables.pairings[h].account, w.tables.pairings[h].wrap) }

  ghost predicate CodesOk(w: World) { forall h :: h in w.tables.codes ==> Custody(w, AuthCode, h, w.tables.codes[h].account, w.tables.codes[h].wrap) }

  ghost predicate TokensOk(w: World) { forall h :: h in w.tables.tokens ==> Custody(w, TokenLabel, h, w.tables.tokens[h].account, w.tables.tokens[h].wrap) }

  predicate Knows(w: World, account: Hash, dek: Dek) { account in w.deks && w.deks[account] == dek }

  /** What a waiting request holds is its account's key, and its account is the root of the chain it came by. */
  predicate CallOk(w: World, call: Call) {
    match call
    case ResolveRead(_, t, _) => Hash(t) in w.tables.accounts
    case ResolveRelock(_, t, _, existing, dek) => Knows(w, Hash(t), dek) && Good(existing, ConnectorToken, t, dek)
    case ResolveCreate(_, t, _, candidate) => Hash(t) in w.tables.accounts && Good(candidate, ConnectorToken, t, candidate.dek)
    case PairReady(_, t, dek) => Knows(w, Hash(t), dek)
    case ConsentReady(_, _, a, dek, root) => Knows(w, a, dek) && root == a
    case IssueAccess(_, _, a, dek, root) => Knows(w, a, dek) && root == a
    case IssueRefresh(_, _, a, dek, root) => Knows(w, a, dek) && root == a
    case Served(a, dek) => Knows(w, a, dek)
    case _ => true
  }

  ghost predicate StoreOk(w: World) { AccountsOk(w) && PairingsOk(w) && CodesOk(w) && TokensOk(w) }

  ghost predicate Inv(w: World) { StoreOk(w) && forall c :: c in w.calls ==> CallOk(w, w.calls[c]) }

  /** Accounts and their keys are only added. */
  ghost predicate Grows(w: World, v: World) {
    && (forall a :: a in w.tables.accounts ==> a in v.tables.accounts)
    && (forall a :: a in w.deks ==> a in v.deks && v.deks[a] == w.deks[a])
  }

  ghost predicate Kept(w: World, v: World) { StoreOk(v) && Grows(w, v) }

  // ---- each step keeps the store -------------------------------------------

  /** Nothing in the store moved. */
  lemma QuietKeeps(w: World, v: World)
    requires StoreOk(w) && v.tables == w.tables && v.deks == w.deks && v.origin == w.origin
    ensures Kept(w, v)
  {
  }

  /** Only the accounts moved. */
  lemma AccountsKeep(w: World, v: World)
    requires StoreOk(w) && AccountsOk(v) && Grows(w, v) && v.origin == w.origin
    requires v.tables.pairings == w.tables.pairings && v.tables.codes == w.tables.codes && v.tables.tokens == w.tables.tokens
    ensures Kept(w, v)
  {
  }

  lemma UpsertKeeps(w: World, v: World, a: Hash)
    requires StoreOk(w) && v.tables == Upserted(w.tables, a) && v.deks == w.deks && v.origin == w.origin
    ensures Kept(w, v)
  {
    forall b | b in v.tables.accounts ensures AccountAt(v, b) {
      if b in w.tables.accounts { assert AccountAt(w, b); }
    }
    AccountsKeep(w, v);
  }

  lemma RelockKeeps(w: World, v: World, call: Call, nonce: nat)
    requires StoreOk(w) && call.ResolveRelock? && CallOk(w, call)
    requires v.tables == Relocked(w.tables, Hash(call.token), call.existing, Fresh(call.dek, ConnectorToken, call.token, call.srv, nonce))
    requires v.deks == w.deks && v.origin == w.origin
    ensures Kept(w, v)
  {
    forall b | b in v.tables.accounts ensures AccountAt(v, b) { assert AccountAt(w, b); }
    AccountsKeep(w, v);
  }

  /** The first write decides the key; a later writer finds it. */
  lemma CreateKeeps(w: World, c: nat, call: Call)
    requires StoreOk(w) && call.ResolveCreate? && CallOk(w, call)
    ensures Kept(w, Create(w, c, call))
  {
    var v := Create(w, c, call);
    assert AccountAt(w, Hash(call.token));
    forall b | b in v.tables.accounts ensures AccountAt(v, b) { assert AccountAt(w, b); }
    AccountsKeep(w, v);
  }

  /** A stored credential stays good while its account's key and its own origin stay. */
  lemma CustodyStays(w: World, v: World, tag: Label, h: Hash, account: Hash, wrap: Wrap)
    requires Custody(w, tag, h, account, wrap) && v.deks == w.deks
    requires (tag, h.secret) in v.origin && v.origin[(tag, h.secret)] == w.origin[(tag, h.secret)]
    ensures Custody(v, tag, h, account, wrap)
  {
  }

  /** Every table whose rows are among the old ones stays good when the origins stay. */
  lemma RowsGoKeeps(w: World, v: World)
    requires StoreOk(w) && v.deks == w.deks && v.origin == w.origin && v.tables.accounts == w.tables.accounts
    requires forall h :: h in v.tables.pairings ==> h in w.tables.pairings && v.tables.pairings[h] == w.tables.pairings[h]
    requires forall h :: h in v.tables.codes ==> h in w.tables.codes && v.tables.codes[h].account == w.tables.codes[h].account && v.tables.codes[h].wrap == w.tables.codes[h].wrap
    requires forall h :: h in v.tables.tokens ==> h in w.tables.tokens && v.tables.tokens[h] == w.tables.tokens[h]
    ensures Kept(w, v)
  {
    forall b | b in v.tables.accounts ensures AccountAt(v, b) { assert AccountAt(w, b); }
  }

  /** One new credential of one kind. */
  predicate NewOrigin(w: World, v: World, tag: Label, secret: Secret, account: Hash) {
    v.deks == w.deks && v.tables.accounts == w.tables.accounts && v.origin == w.origin[(tag, secret) := account]
  }

  lemma SameAccounts(w: World, v: World)
    requires AccountsOk(w) && v.deks == w.deks && v.tables.accounts == w.tables.accounts
    ensures AccountsOk(v) && Grows(w, v)
  {
    forall b | b in v.tables.accounts ensures AccountAt(v, b) { assert AccountAt(w, b); }
  }

  lemma PairingsStay(w: World, v: World, tag: Label, secret: Secret, account: Hash)
    requires PairingsOk(w) && NewOrigin(w, v, tag, secret, account) && v.tables.pairings == w.tables.pairings && tag != PairingCode
    ensures PairingsOk(v)
  {
  }

  lemma CodesStay(w: World, v: World, tag: Label, secret: Secret, account: Hash)
    requires CodesOk(w) && NewOrigin(w, v, tag, secret, account) && v.tables.codes == w.tables.codes && tag != AuthCode
    ensures CodesOk(v)
  {
  }

  lemma TokensStay(w: World, v: World, tag: Label, secret: Secret, account: Hash)
    requires TokensOk(w) && NewOrigin(w, v, tag, secret, account) && v.tables.tokens == w.tables.tokens && tag != TokenLabel
    ensures TokensOk(v)
  {
  }

  lemma PutPairingKeeps(w: World, c: nat, call: Call, p: Pick)
    requires StoreOk(w) && call.PairReady? && CallOk(w, call)
    ensures Kept(w, PutPairing(w, c, call, p))
  {
    var v, a := PutPairing(w, c, call, p), Hash(call.token);
    SameAccounts(w, v);
    CodesStay(w, v, PairingCode, p.secret, a);
    TokensStay(w, v, PairingCode, p.secret, a);
    forall h | h in v.tables.pairings ensures Custody(v, PairingCode, h, v.tables.pairings[h].account, v.tables.pairings[h].wrap) {
      if h != Hash(p.secret) { CustodyStays(w, v, PairingCode, h, w.tables.pairings[h].account, w.tables.pairings[h].wrap); }
    }
  }

  lemma MintKeeps(w: World, c: nat, call: Call, p: Pick)
    requires StoreOk(w) && call.ConsentReady? && CallOk(w, call)
    ensures Kept(w, Mint(w, c, call, p))
  {
    var v := Mint(w, c, call, p);
    SameAccounts(w, v);
    PairingsStay(w, v, AuthCode, p.secret, call.root);
    TokensStay(w, v, AuthCode, p.secret, call.root);
    forall h | h in v.tables.codes ensures Custody(v, AuthCode, h, v.tables.codes[h].account, v.tables.codes[h].wrap) {
      if h != Hash(p.secret) { CustodyStays(w, v, AuthCode, h, w.tables.codes[h].account, w.tables.codes[h].wrap); }
    }
  }

  lemma PutTokenKeeps(w: World, c: nat, call: Call, p: Pick)
    requires StoreOk(w) && (call.IssueAccess? || call.IssueRefresh?) && CallOk(w, call)
    ensures Kept(w, PutToken(w, c, call, p))
  {
    var v := PutToken(w, c, call, p);
    SameAccounts(w, v);
    PairingsStay(w, v, TokenLabel, p.secret, call.root);
    CodesStay(w, v, TokenLabel, p.secret, call.root);
    forall h | h in v.tables.tokens ensures Custody(v, TokenLabel, h, v.tables.tokens[h].account, v.tables.tokens[h].wrap) {
      if h != Hash(p.secret) { CustodyStays(w, v, TokenLabel, h, w.tables.tokens[h].account, w.tables.tokens[h].wrap); }
    }
  }

  /** The steps that take a credential. */
  predicate Takes(call: Call) { call.ConsentAsked? || call.ExchangeAsked? || call.RefreshAsked? }

  lemma TakingKeeps(w: World, c: nat, p: Pick)
    requires StoreOk(w) && c in w.calls && Takes(w.calls[c])
    ensures Kept(w, Advance(w, c, p))
  {
    RowsGoKeeps(w, Advance(w, c, p));
  }

  predicate Puts(call: Call) { call.PairReady? || call.ConsentReady? || call.IssueAccess? || call.IssueRefresh? }

  lemma PuttingKeeps(w: World, c: nat, p: Pick)
    requires StoreOk(w) && c in w.calls && Puts(w.calls[c]) && CallOk(w, w.calls[c])
    ensures Kept(w, Advance(w, c, p))
  {
    var call := w.calls[c];
    if call.PairReady? {
      PutPairingKeeps(w, c, call, p);
    } else if call.ConsentReady? {
      if p.refuse { QuietKeeps(w, With(w, c, Ended)); } else { MintKeeps(w, c, call, p); }
    } else {
      PutTokenKeeps(w, c, call, p);
    }
  }

  lemma ResolvingKeeps(w: World, c: nat, p: Pick)
    requires StoreOk(w) && c in w.calls && CallOk(w, w.calls[c]) && !Takes(w.calls[c]) && !Puts(w.calls[c])
    ensures Kept(w, Advance(w, c, p))
  {
    var call, v := w.calls[c], Advance(w, c, p);
    if call.ResolveRelock? {
      RelockKeeps(w, v, call, p.nonce);
    } else if call.ResolveCreate? {
      CreateKeeps(w, c, call);
    } else if (call.PairAsked? || call.PushAsked?) && !p.refuse {
      UpsertKeeps(w, v, Hash(call.token));
    } else {
      QuietKeeps(w, v);
    }
  }

  // ---- each request knows its account --------------------------------------

  lemma OthersKnow(w: World, v: World, call: Call)
    requires CallOk(w, call) && Grows(w, v)
    ensures CallOk(v, call)
  {
  }

  /** What a taken credential opens to, and where its chain started. */
  lemma TakenOpens(w: World, tag: Label, h: Hash, account: Hash, wrap: Wrap, srv: Server)
    requires Custody(w, tag, h, account, wrap) && UnwrapRotating(wrap, tag, h.secret, srv).Some?
    ensures Knows(w, account, UnwrapRotating(wrap, tag, h.secret, srv).value.dek) && OriginOf(w, (tag, h.secret)) == account
  {
  }

  lemma ConsentKnows(w: World, c: nat, call: Call, p: Pick)
    requires PairingsOk(w) && call.ConsentAsked?
    ensures CallOk(Consent(w, c, call, p), Consent(w, c, call, p).calls[c])
  {
    var row := PairingTaken(w.tables, Hash(call.code), p.now).1;
    if row.Some? && UnwrapRotating(row.value.wrap, PairingCode, call.code, call.srv).Some? {
      TakenOpens(w, PairingCode, Hash(call.code), row.value.account, row.value.wrap, call.srv);
    }
  }

  lemma ExchangeKnows(w: World, c: nat, call: Call, p: Pick)
    requires CodesOk(w) && call.ExchangeAsked?
    ensures CallOk(Exchange(w, c, call, p), Exchange(w, c, call, p).calls[c])
  {
    var row := CodeTaken(w.tables, Hash(call.code), p.now).1;
    if row.Some? && UnwrapRotating(row.value.wrap, AuthCode, call.code, call.srv).Some? {
      TakenOpens(w, AuthCode, Hash(call.code), row.value.account, row.value.wrap, call.srv);
    }
  }

  lemma RefreshKnows(w: World, c: nat, call: Call, p: Pick)
    requires TokensOk(w) && call.RefreshAsked?
    ensures CallOk(Refresh(w, c, call, p), Refresh(w, c, call, p).calls[c])
  {
    var row := TokenTaken(w.tables, Hash(call.token), p.now).1;
    if row.Some? && UnwrapRotating(row.value.wrap, TokenLabel, call.token, call.srv).Some? {
      TakenOpens(w, TokenLabel, Hash(call.token), row.value.account, row.value.wrap, call.srv);
    }
  }

  lemma TakerKnows(w: World, c: nat, p: Pick)
    requires StoreOk(w) && c in w.calls && Takes(w.calls[c])
    ensures CallOk(Advance(w, c, p), Advance(w, c, p).calls[c])
  {
    var call := w.calls[c];
    if call.ConsentAsked? {
      ConsentKnows(w, c, call, p);
    } else if call.ExchangeAsked? {
      ExchangeKnows(w, c, call, p);
    } else {
      RefreshKnows(w, c, call, p);
    }
  }

  lemma ReaderKnows(w: World, c: nat, p: Pick)
    requires StoreOk(w) && c in w.calls && CallOk(w, w.calls[c]) && (w.calls[c].ResolveRead? || w.calls[c].BearerAsked?)
    ensures CallOk(Advance(w, c, p), Advance(w, c, p).calls[c])
  {
    var call := w.calls[c];
    if call.ResolveRead? {
      assert AccountAt(w, Hash(call.token));
    } else if Hash(call.token) in w.tables.tokens {
      assert Custody(w, TokenLabel, Hash(call.token), w.tables.tokens[Hash(call.token)].account, w.tables.tokens[Hash(call.token)].wrap);
    }
  }

  lemma CreatorKnows(w: World, c: nat, p: Pick)
    requires StoreOk(w) && c in w.calls && CallOk(w, w.calls[c]) && w.calls[c].ResolveCreate?
    ensures CallOk(Advance(w, c, p), Advance(w, c, p).calls[c])
  {
    assert AccountAt(w, Hash(w.calls[c].token));
  }

  lemma PlainKnows(w: World, c: nat, p: Pick)
    requires c in w.calls && CallOk(w, w.calls[c])
    requires var call := w.calls[c]; !Takes(call) && !call.ResolveRead? && !call.BearerAsked? && !call.ResolveCreate?
    ensures CallOk(Advance(w, c, p), Advance(w, c, p).calls[c])
  {
  }

  lemma OwnKnows(w: World, c: nat, p: Pick)
    requires StoreOk(w) && c in w.calls && CallOk(w, w.calls[c])
    ensures CallOk(Advance(w, c, p), Advance(w, c, p).calls[c])
  {
    var call := w.calls[c];
    if Takes(call) {
      TakerKnows(w, c, p);
    } else if call.ResolveRead? || call.BearerAsked? {
      ReaderKnows(w, c, p);
    } else if call.ResolveCreate? {
      CreatorKnows(w, c, p);
    } else {
      PlainKnows(w, c, p);
    }
  }

  /** A step of one request moves no other. */
  predicate OnlyCall(w: World, v: World, c: nat) { c in v.calls && v.calls == w.calls[c := v.calls[c]] }

  lemma TakingMovesOne(w: World, c: nat, p: Pick)
    requires c in w.calls && Takes(w.calls[c])
    ensures OnlyCall(w, Advance(w, c, p), c)
  {
  }

  lemma PuttingMovesOne(w: World, c: nat, p: Pick)
    requires c in w.calls && Puts(w.calls[c])
    ensures OnlyCall(w, Advance(w, c, p), c)
  {
  }

  lemma ResolvingMovesOne(w: World, c: nat, p: Pick)
    requires c in w.calls && !Takes(w.calls[c]) && !Puts(w.calls[c])
    ensures OnlyCall(w, Advance(w, c, p), c)
  {
  }

  lemma OtherCalls(w: World, c: nat, p: Pick, d: nat)
    requires c in w.calls && d != c
    ensures d in Advance(w, c, p).calls ==> d in w.calls && Advance(w, c, p).calls[d] == w.calls[d]
  {
    if Takes(w.calls[c]) { TakingMovesOne(w, c, p); } else if Puts(w.calls[c]) { PuttingMovesOne(w, c, p); } else { ResolvingMovesOne(w, c, p); }
  }

  lemma StoreStepKeeps(w: World, st: Step)
    requires Inv(w) && Legal(w, st)
    ensures Kept(w, Effect(w, st))
  {
    match st
    case Begin(c, call) => QuietKeeps(w, With(w, c, call));
    case Go(c, p) =>
      assert CallOk(w, w.calls[c]);
      if Takes(w.calls[c]) { TakingKeeps(w, c, p); } else if Puts(w.calls[c]) { PuttingKeeps(w, c, p); } else { ResolvingKeeps(w, c, p); }
    case DropCode(h) => RowsGoKeeps(w, Effect(w, st));
    case DropToken(h) => RowsGoKeeps(w, Effect(w, st));
  }

  /** Every step keeps the custody of every credential and request. */
  lemma StepKeeps(w: World, st: Step)
    requires Inv(w) && Legal(w, st)
    ensures Inv(Effect(w, st))
  {
    var v := Effect(w, st);
    StoreStepKeeps(w, st);
    forall d | d in v.calls ensures CallOk(v, v.calls[d]) {
      if st.Go? && d == st.c {
        OwnKnows(w, d, st.pick);
      } else if st.Go? {
        OtherCalls(w, st.c, st.pick, d);
        OthersKnow(w, v, w.calls[d]);
      } else if !(st.Begin? && d == st.c) {
        OthersKnow(w, v, w.calls[d]);
      }
    }
  }

  // ---- each credential is taken once ---------------------------------------

  /** Stored codes and tokens were issued, and a taken one is gone for good. */
  ghost predicate OnceOk(w: World) {
    && (forall h :: h in w.tables.codes ==> (AuthCode, h.secret) in w.issued)
    && (forall h :: h in w.tables.tokens ==> (TokenLabel, h.secret) in w.issued)
    && (forall k :: k in w.spent ==> k in w.issued)
    && (forall h :: h in w.tables.codes && (AuthCode, h.secret) in w.spent ==> w.tables.codes[h].consumed)
    && (forall h :: h in w.tables.tokens ==> (TokenLabel, h.secret) !in w.spent)
  }

  lemma OnceQuiet(w: World, v: World)
    requires OnceOk(w) && v.issued == w.issued && v.spent == w.spent
    requires forall h :: h in v.tables.codes ==> h in w.tables.codes && v.tables.codes[h] == w.tables.codes[h]
    requires forall h :: h in v.tables.tokens ==> h in w.tables.tokens
    ensures OnceOk(v)
  {
  }

  lemma OnceMint(w: World, c: nat, call: Call, p: Pick)
    requires OnceOk(w) && call.ConsentReady? && FreshSecret(w, call, p)
    ensures OnceOk(Mint(w, c, call, p))
  {
  }

  lemma OncePut(w: World, c: nat, call: Call, p: Pick)
    requires OnceOk(w) && (call.IssueAccess? || call.IssueRefresh?) && FreshSecret(w, call, p)
    ensures OnceOk(PutToken(w, c, call, p))
  {
  }

  lemma OnceExchange(w: World, c: nat, call: Call, p: Pick)
    requires OnceOk(w) && call.ExchangeAsked?
    ensures OnceOk(Exchange(w, c, call, p))
  {
  }

  lemma OnceRefresh(w: World, c: nat, call: Call, p: Pick)
    requires OnceOk(w) && call.RefreshAsked?
    ensures OnceOk(Refresh(w, c, call, p))
  {
  }

  predicate TouchesOnce(call: Call) {
    call.ConsentReady? || call.IssueAccess? || call.IssueRefresh? || call.ExchangeAsked? || call.RefreshAsked?
  }

  lemma OnceRead(w: World, c: nat, p: Pick)
    requires OnceOk(w) && c in w.calls && !TouchesOnce(w.calls[c]) && !w.calls[c].PairReady? && !w.calls[c].ConsentAsked?
    ensures OnceOk(Advance(w, c, p))
  {
    OnceQuiet(w, Advance(w, c, p));
  }

  lemma OncePairing(w: World, c: nat, p: Pick)
    requires OnceOk(w) && c in w.calls && (w.calls[c].PairReady? || w.calls[c].ConsentAsked?)
    ensures OnceOk(Advance(w, c, p))
  {
    OnceQuiet(w, Advance(w, c, p));
  }

  lemma OnceTouched(w: World, c: nat, p: Pick)
    requires OnceOk(w) && c in w.calls && FreshSecret(w, w.calls[c], p) && TouchesOnce(w.calls[c])
    ensures OnceOk(Advance(w, c, p))
  {
    var call := w.calls[c];
    if call.ExchangeAsked? {
      OnceExchange(w, c, call, p);
    } else if call.RefreshAsked? {
      OnceRefresh(w, c, call, p);
    } else if call.ConsentReady? {
      if p.refuse { OnceQuiet(w, With(w, c, Ended)); } else { OnceMint(w, c, call, p); }
    } else {
      OncePut(w, c, call, p);
    }
  }

  lemma OnceGo(w: World, c: nat, p: Pick)
    requires OnceOk(w) && c in w.calls && FreshSecret(w, w.calls[c], p)
    ensures OnceOk(Advance(w, c, p))
  {
    if TouchesOnce(w.calls[c]) {
      OnceTouched(w, c, p);
    } else if w.calls[c].PairReady? || w.calls[c].ConsentAsked? {
      OncePairing(w, c, p);
    } else {
      OnceRead(w, c, p);
    }
  }

  lemma SpentKept(w: World, c: nat, p: Pick)
    requires c in w.calls
    ensures w.spent <= Advance(w, c, p).spent
  {
  }

  lemma OnceKept(w: World, st: Step)
    requires OnceOk(w) && Legal(w, st)
    ensures OnceOk(Effect(w, st)) && w.spent <= Effect(w, st).spent
  {
    if st.Go? {
      OnceGo(w, st.c, st.pick);
      SpentKept(w, st.c, st.pick);
    } else {
      OnceQuiet(w, Effect(w, st));
    }
  }

  // ---- peppers -------------------------------------------------------------

  ghost predicate PeppersIn(s: Tables, ps: set<Pepper>) {
    && (forall a :: a in s.accounts && s.accounts[a].Some? ==> s.accounts[a].value.kek.pepper in ps)
    && (forall h :: h in s.pairings ==> s.pairings[h].wrap.kek.pepper in ps)
    && (forall h :: h in s.codes ==> s.codes[h].wrap.kek.pepper in ps)
    && (forall h :: h in s.tokens ==> s.tokens[h].wrap.kek.pepper in ps)
  }

  predicate CallPepper(call: Call, ps: set<Pepper>) {
    match call
    case Served(_, _) => true
    case Ended => true
    case ResolveCreate(srv, _, _, candidate) => srv.pepper in ps && candidate.kek.pepper in ps
    case _ => call.srv.pepper in ps
  }

  ghost predicate PepperOk(w: World, ps: set<Pepper>) {
    PeppersIn(w.tables, ps) && forall c :: c in w.calls ==> CallPepper(w.calls[c], ps)
  }

  /** Requests run on instances that write under these peppers. */
  predicate StartsOn(st: Step, ps: set<Pepper>) { st.Begin? ==> CallPepper(st.call, ps) }

  lemma PepperConsent(w: World, c: nat, p: Pick, ps: set<Pepper>)
    requires c in w.calls && CallPepper(w.calls[c], ps) && w.calls[c].ConsentAsked?
    ensures CallPepper(Advance(w, c, p).calls[c], ps)
  {
  }

  lemma PepperExchange(w: World, c: nat, p: Pick, ps: set<Pepper>)
    requires c in w.calls && CallPepper(w.calls[c], ps) && w.calls[c].ExchangeAsked?
    ensures CallPepper(Advance(w, c, p).calls[c], ps)
  {
  }

  lemma PepperRefresh(w: World, c: nat, p: Pick, ps: set<Pepper>)
    requires c in w.calls && CallPepper(w.calls[c], ps) && w.calls[c].RefreshAsked?
    ensures CallPepper(Advance(w, c, p).calls[c], ps)
  {
  }

  lemma PepperTaker(w: World, c: nat, p: Pick, ps: set<Pepper>)
    requires c in w.calls && CallPepper(w.calls[c], ps) && Takes(w.calls[c])
    ensures CallPepper(Advance(w, c, p).calls[c], ps)
  {
    if w.calls[c].ConsentAsked? { PepperConsent(w, c, p, ps); } else if w.calls[c].ExchangeAsked? { PepperExchange(w, c, p, ps); } else { PepperRefresh(w, c, p, ps); }
  }

  lemma PepperPutter(w: World, c: nat, p: Pick, ps: set<Pepper>)
    requires c in w.calls && CallPepper(w.calls[c], ps) && Puts(w.calls[c])
    ensures CallPepper(Advance(w, c, p).calls[c], ps)
  {
  }

  lemma PepperPlain(w: World, c: nat, p: Pick, ps: set<Pepper>)
    requires c in w.calls && CallPepper(w.calls[c], ps) && !Takes(w.calls[c]) && !Puts(w.calls[c]) && !w.calls[c].ResolveCreate?
    ensures CallPepper(Advance(w, c, p).calls[c], ps)
  {
  }

  lemma PepperCreator(w: World, c: nat, p: Pick, ps: set<Pepper>)
    requires c in w.calls && CallPepper(w.calls[c], ps) && w.calls[c].ResolveCreate?
    ensures CallPepper(Advance(w, c, p).calls[c], ps)
  {
  }

  lemma PepperCall(w: World, c: nat, p: Pick, ps: set<Pepper>)
    requires c in w.calls && CallPepper(w.calls[c], ps)
    ensures CallPepper(Advance(w, c, p).calls[c], ps)
  {
    if Takes(w.calls[c]) {
      PepperTaker(w, c, p, ps);
    } else if Puts(w.calls[c]) {
      PepperPutter(w, c, p, ps);
    } else if w.calls[c].ResolveCreate? {
      PepperCreator(w, c, p, ps);
    } else {
      PepperPlain(w, c, p, ps);
    }
  }

  lemma PepperTaken(w: World, c: nat, p: Pick, ps: set<Pepper>)
    requires c in w.calls && CallPepper(w.calls[c], ps) && PeppersIn(w.tables, ps) && Takes(w.calls[c])
    ensures PeppersIn(Advance(w, c, p).tables, ps)
  {
  }

  lemma PepperPut(w: World, c: nat, p: Pick, ps: set<Pepper>)
    requires c in w.calls && CallPepper(w.calls[c], ps) && PeppersIn(w.tables, ps) && Puts(w.calls[c])
    ensures PeppersIn(Advance(w, c, p).tables, ps)
  {
  }

  lemma PepperResolved(w: World, c: nat, p: Pick, ps: set<Pepper>)
    requires c in w.calls && CallPepper(w.calls[c], ps) && PeppersIn(w.tables, ps) && !Takes(w.calls[c]) && !Puts(w.calls[c])
    ensures PeppersIn(Advance(w, c, p).tables, ps)
  {
  }

  lemma PepperTables(w: World, c: nat, p: Pick, ps: set<Pepper>)
    requires c in w.calls && CallPepper(w.calls[c], ps) && PeppersIn(w.tables, ps)
    ensures PeppersIn(Advance(w, c, p).tables, ps)
  {
    if Takes(w.calls[c]) { PepperTaken(w, c, p, ps); } else if Puts(w.calls[c]) { PepperPut(w, c, p, ps); } else { PepperResolved(w, c, p, ps); }
  }

  lemma PepperKept(w: World, st: Step, ps: set<Pepper>)
    requires PepperOk(w, ps) && Legal(w, st) && StartsOn(st, ps)
    ensures PepperOk(Effect(w, st), ps)
  {
    if st.Go? {
      PepperTables(w, st.c, st.pick, ps);
      var v := Effect(w, st);
      forall d | d in v.calls ensures CallPepper(v.calls[d], ps) {
        if d == st.c { PepperCall(w, d, st.pick, ps); } else { OtherCalls(w, st.c, st.pick, d); }
      }
    }
  }

  // ---- runs ----------------------------------------------------------------

  ghost predicate StepAt(ws: seq<World>, sts: seq<Step>, i: nat)
    requires |ws| == |sts| + 1 && i < |sts|
  {
    Legal(ws[i], sts[i]) && ws[i + 1] == Effect(ws[i], sts[i])
  }

  /** Any store whose credentials are in custody, an empty one included, and no request under way. */
  ghost predicate Run(ws: seq<World>, sts: seq<Step>) {
    && |ws| == |sts| + 1 && StoreOk(ws[0]) && OnceOk(ws[0]) && ws[0].calls == map[]
    && forall i :: 0 <= i < |sts| ==> StepAt(ws, sts, i)
  }

  lemma {:induction false} RunKeeps(ws: seq<World>, sts: seq<Step>, i: nat)
    requires Run(ws, sts) && i < |ws|
    ensures Inv(ws[i]) && OnceOk(ws[i])
  {
    if i > 0 {
      RunKeeps(ws, sts, i - 1);
      assert StepAt(ws, sts, i - 1);
      StepKeeps(ws[i - 1], sts[i - 1]);
      OnceKept(ws[i - 1], sts[i - 1]);
    }
  }

  /** In every state of every run a token's wrap opens to its account's one key under the token itself, and its account is the root of its chain. */
  lemma TokensInCustody(ws: seq<World>, sts: seq<Step>, i: nat, token: Secret)
    requires Run(ws, sts) && i < |ws| && Hash(token) in ws[i].tables.tokens
    ensures var w, row := ws[i], ws[i].tables.tokens[Hash(token)];
      && row.account in w.tables.accounts && w.tables.accounts[row.account].Some?
      && w.tables.accounts[row.account].value.dek == row.wrap.dek
      && row.wrap.kek == Kek(TokenLabel, token, row.wrap.kek.pepper)
      && OriginOf(w, (TokenLabel, token)) == row.account
  {
    RunKeeps(ws, sts, i);
    var w, h := ws[i], Hash(token);
    assert Custody(w, TokenLabel, h, w.tables.tokens[h].account, w.tables.tokens[h].wrap);
    assert AccountAt(w, w.tables.tokens[h].account);
  }

  /** An account's key never changes once it has one. */
  lemma {:induction false} KeyStays(ws: seq<World>, sts: seq<Step>, i: nat, j: nat, a: Hash)
    requires Run(ws, sts) && i <= j < |ws| && WrapOf(ws[i].tables, a).Some?
    ensures WrapOf(ws[j].tables, a).Some? && WrapOf(ws[j].tables, a).value.dek == WrapOf(ws[i].tables, a).value.dek
    decreases j
  {
    if i < j {
      KeyStays(ws, sts, i, j - 1, a);
      RunKeeps(ws, sts, j - 1);
      assert StepAt(ws, sts, j - 1);
      StoreStepKeeps(ws[j - 1], sts[j - 1]);
      assert AccountAt(ws[j - 1], a) && AccountAt(ws[j], a);
    }
  }

  /** What a request is served with is its account's one key. */
  lemma ServedWithItsKey(ws: seq<World>, sts: seq<Step>, i: nat, c: nat)
    requires Run(ws, sts) && i < |ws| && c in ws[i].calls && ws[i].calls[c].Served?
    ensures WrapOf(ws[i].tables, ws[i].calls[c].account).Some?
    ensures WrapOf(ws[i].tables, ws[i].calls[c].account).value.dek == ws[i].calls[c].dek
  {
    RunKeeps(ws, sts, i);
    assert CallOk(ws[i], ws[i].calls[c]);
    assert AccountAt(ws[i], ws[i].calls[c].account);
  }

  /** Step i takes this code or refresh token. */
  predicate TakesAt(ws: seq<World>, sts: seq<Step>, i: nat, k: Credential)
    requires |ws| == |sts| + 1 && i < |sts|
  {
    sts[i].Go? && sts[i].c in ws[i].calls &&
    var call, p := ws[i].calls[sts[i].c], sts[i].pick;
    (call.ExchangeAsked? && k == (AuthCode, call.code) && CodeTaken(ws[i].tables, Hash(call.code), p.now).1.Some?) ||
    (call.RefreshAsked? && k == (TokenLabel, call.token) && TokenTaken(ws[i].tables, Hash(call.token), p.now).1.Some?)
  }

  lemma {:induction false} SpentGrows(ws: seq<World>, sts: seq<Step>, i: nat, j: nat)
    requires Run(ws, sts) && i <= j < |ws|
    ensures ws[i].spent <= ws[j].spent
    decreases j
  {
    if i < j {
      SpentGrows(ws, sts, i, j - 1);
      RunKeeps(ws, sts, j - 1);
      assert StepAt(ws, sts, j - 1);
      OnceKept(ws[j - 1], sts[j - 1]);
    }
  }

  lemma TakenIsNew(ws: seq<World>, sts: seq<Step>, i: nat, k: Credential)
    requires |ws| == |sts| + 1 && i < |sts| && TakesAt(ws, sts, i, k) && OnceOk(ws[i]) && StepAt(ws, sts, i)
    ensures k !in ws[i].spent && k in ws[i + 1].spent
  {
  }

  lemma TakenThenSpent(ws: seq<World>, sts: seq<Step>, i: nat, j: nat, k: Credential)
    requires Run(ws, sts) && i < j < |sts| && TakesAt(ws, sts, i, k)
    ensures k in ws[j].spent
  {
    RunKeeps(ws, sts, i);
    assert StepAt(ws, sts, i);
    TakenIsNew(ws, sts, i, k);
    SpentGrows(ws, sts, i + 1, j);
  }

  lemma TakenIsUnspent(ws: seq<World>, sts: seq<Step>, j: nat, k: Credential)
    requires Run(ws, sts) && j < |sts| && TakesAt(ws, sts, j, k)
    ensures k !in ws[j].spent
  {
    RunKeeps(ws, sts, j);
    assert StepAt(ws, sts, j);
    TakenIsNew(ws, sts, j, k);
  }

  /** An authorization code or a refresh token is taken at most once in any run (section 4.1.2 of RFC 6749). */
  lemma TakenOnce(ws: seq<World>, sts: seq<Step>, i: nat, j: nat, k: Credential)
    requires Run(ws, sts) && i < |sts| && j < |sts| && TakesAt(ws, sts, i, k) && TakesAt(ws, sts, j, k)
    ensures i == j
  {
    TakenIsUnspent(ws, sts, i, k);
    TakenIsUnspent(ws, sts, j, k);
    if i < j { TakenThenSpent(ws, sts, i, j, k); }
    if j < i { TakenThenSpent(ws, sts, j, i, k); }
  }

  // ---- one pepper rotation -------------------------------------------------

  lemma {:induction false} PeppersStay(ws: seq<World>, sts: seq<Step>, ps: set<Pepper>, i: nat)
    requires Run(ws, sts) && i < |ws| && PeppersIn(ws[0].tables, ps) && forall j :: 0 <= j < |sts| ==> StartsOn(sts[j], ps)
    ensures PepperOk(ws[i], ps)
  {
    if i > 0 {
      PeppersStay(ws, sts, ps, i - 1);
      assert StepAt(ws, sts, i - 1);
      PepperKept(ws[i - 1], sts[i - 1], ps);
    }
  }

  /** Whether an instance opens every stored wrap, with the secret its row is keyed by, to its account's key. */
  ghost predicate OpensAll(w: World, srv: Server) {
    && (forall a :: a in w.tables.accounts && w.tables.accounts[a].Some? ==> OpensTo(w, a, w.tables.accounts[a].value, ConnectorToken, a.secret, srv))
    && (forall h :: h in w.tables.pairings ==> OpensTo(w, w.tables.pairings[h].account, w.tables.pairings[h].wrap, PairingCode, h.secret, srv))
    && (forall h :: h in w.tables.codes ==> OpensTo(w, w.tables.codes[h].account, w.tables.codes[h].wrap, AuthCode, h.secret, srv))
    && (forall h :: h in w.tables.tokens ==> OpensTo(w, w.tables.tokens[h].account, w.tables.tokens[h].wrap, TokenLabel, h.secret, srv))
  }

  predicate OpensTo(w: World, account: Hash, wrap: Wrap, tag: Label, secret: Secret, srv: Server) {
    account in w.deks && UnwrapRotating(wrap, tag, secret, srv).Some? && UnwrapRotating(wrap, tag, secret, srv).value.dek == w.deks[account]
  }

  lemma GoodOpens(w: World, account: Hash, wrap: Wrap, tag: Label, secret: Secret, srv: Server)
    requires account in w.deks && Good(wrap, tag, secret, w.deks[account]) && Holds(srv, wrap.kek.pepper)
    ensures OpensTo(w, account, wrap, tag, secret, srv)
  {
    OpensIff(wrap, tag, secret, srv);
  }

  /**
   * One rotation, with instances on the old pepper and instances on the new one
   * that still know the old running side by side: in every state the latter
   * open every stored credential.
   */
  lemma RotationOpensAll(ws: seq<World>, sts: seq<Step>, before: Pepper, next: Pepper, i: nat)
    requires Run(ws, sts) && i < |ws| && PeppersIn(ws[0].tables, {before})
    requires forall j :: 0 <= j < |sts| ==> StartsOn(sts[j], {before, next})
    ensures OpensAll(ws[i], Server(next, Some(before)))
  {
    RunKeeps(ws, sts, i);
    PeppersStay(ws, sts, {before, next}, i);
    var w, srv := ws[i], Server(next, Some(before));
    forall a | a in w.tables.accounts && w.tables.accounts[a].Some? ensures OpensTo(w, a, w.tables.accounts[a].value, ConnectorToken, a.secret, srv) {
      assert AccountAt(w, a);
      GoodOpens(w, a, w.tables.accounts[a].value, ConnectorToken, a.secret, srv);
    }
    forall h | h in w.tables.pairings ensures OpensTo(w, w.tables.pairings[h].account, w.tables.pairings[h].wrap, PairingCode, h.secret, srv) {
      GoodOpens(w, w.tables.pairings[h].account, w.tables.pairings[h].wrap, PairingCode, h.secret, srv);
    }
    forall h | h in w.tables.codes ensures OpensTo(w, w.tables.codes[h].account, w.tables.codes[h].wrap, AuthCode, h.secret, srv) {
      GoodOpens(w, w.tables.codes[h].account, w.tables.codes[h].wrap, AuthCode, h.secret, srv);
    }
    forall h | h in w.tables.tokens ensures OpensTo(w, w.tables.tokens[h].account, w.tables.tokens[h].wrap, TokenLabel, h.secret, srv) {
      GoodOpens(w, w.tables.tokens[h].account, w.tables.tokens[h].wrap, TokenLabel, h.secret, srv);
    }
  }

  // ---- a second rotation ---------------------------------------------------

  /** In custody, a wrap opens after the second rotation exactly when it is under the middle pepper. */
  lemma OpensAfterTheSecond(w: World, a: Hash, before: Pepper, next: Pepper, third: Pepper)
    requires StoreOk(w) && PeppersIn(w.tables, {before, next}) && before != next && third != before
    requires WrapOf(w.tables, a).Some?
    ensures OpensTo(w, a, WrapOf(w.tables, a).value, ConnectorToken, a.secret, Server(third, Some(next))) <==> MovedTo(w, a, next)
  {
    assert AccountAt(w, a);
    OpensIff(WrapOf(w.tables, a).value, ConnectorToken, a.secret, Server(third, Some(next)));
  }

  predicate MovedTo(w: World, a: Hash, next: Pepper) { WrapOf(w.tables, a).Some? && WrapOf(w.tables, a).value.kek.pepper == next }

  /** The instances of a rotation: the old ones, and the new ones that hold both peppers. */
  predicate Rotating(srv: Server, before: Pepper, next: Pepper) { srv == Server(before, None) || srv == Server(next, Some(before)) }

  /** Where a request runs, and what it is about to write to its account. */
  predicate CallOn(call: Call, before: Pepper, next: Pepper) {
    call.Served? || call.Ended? || (
      && Rotating(call.srv, before, next)
      && (call.ResolveRelock? ==> call.srv == Server(next, Some(before)))
      && (call.ResolveCreate? ==> call.candidate.kek.pepper == call.srv.pepper))
  }

  predicate StartsRotating(st: Step, before: Pepper, next: Pepper) { st.Begin? ==> CallOn(st.call, before, next) }

  ghost predicate AllOn(w: World, before: Pepper, next: Pepper) { forall c :: c in w.calls ==> CallOn(w.calls[c], before, next) }

  /** The step by which a request with the account's own token, on a new instance, puts the account's wrap under its pepper. */
  predicate MovesAt(w: World, st: Step, a: Hash, next: Pepper) {
    st.Go? && st.c in w.calls &&
    var call := w.calls[st.c];
    || (call.ResolveRelock? && Hash(call.token) == a && call.srv.pepper == next && WrapOf(w.tables, a) == Some(call.existing))
    || (call.ResolveCreate? && Hash(call.token) == a && call.srv.pepper == next && a in w.tables.accounts && w.tables.accounts[a].None?)
  }

  lemma TakerOn(w: World, c: nat, p: Pick, before: Pepper, next: Pepper)
    requires c in w.calls && CallOn(w.calls[c], before, next) && Takes(w.calls[c])
    ensures CallOn(Advance(w, c, p).calls[c], before, next)
  {
    var call := w.calls[c];
    if call.ConsentAsked? { ConsentOn(w, c, p); } else if call.ExchangeAsked? { ExchangeOn(w, c, p); } else { RefreshOn(w, c, p); }
  }

  lemma ConsentOn(w: World, c: nat, p: Pick)
    requires c in w.calls && w.calls[c].ConsentAsked?
    ensures var v := Advance(w, c, p).calls[c]; v.Ended? || v == w.calls[c] || (v.ConsentReady? && v.srv == w.calls[c].srv)
  {
  }

  lemma ExchangeOn(w: World, c: nat, p: Pick)
    requires c in w.calls && w.calls[c].ExchangeAsked?
    ensures var v := Advance(w, c, p).calls[c]; v.Ended? || (v.IssueAccess? && v.srv == w.calls[c].srv)
  {
  }

  lemma RefreshOn(w: World, c: nat, p: Pick)
    requires c in w.calls && w.calls[c].RefreshAsked?
    ensures var v := Advance(w, c, p).calls[c]; v.Ended? || (v.IssueAccess? && v.srv == w.calls[c].srv)
  {
  }

  lemma PutterOn(w: World, c: nat, p: Pick, before: Pepper, next: Pepper)
    requires c in w.calls && CallOn(w.calls[c], before, next) && Puts(w.calls[c])
    ensures CallOn(Advance(w, c, p).calls[c], before, next)
  {
  }

  lemma ReadOn(w: World, c: nat, p: Pick, before: Pepper, next: Pepper)
    requires c in w.calls && CallOn(w.calls[c], before, next) && w.calls[c].ResolveRead?
    ensures CallOn(Advance(w, c, p).calls[c], before, next)
  {
    var call := w.calls[c];
    assert Advance(w, c, p).calls[c] == AfterRead(call, WrapOf(w.tables, Hash(call.token)), p);
  }

  lemma CreateOn(w: World, c: nat, p: Pick, before: Pepper, next: Pepper)
    requires c in w.calls && CallOn(w.calls[c], before, next) && w.calls[c].ResolveCreate?
    ensures CallOn(Advance(w, c, p).calls[c], before, next)
  {
  }

  lemma PlainOn(w: World, c: nat, p: Pick, before: Pepper, next: Pepper)
    requires c in w.calls && CallOn(w.calls[c], before, next) && !Takes(w.calls[c]) && !Puts(w.calls[c])
    requires !w.calls[c].ResolveRead? && !w.calls[c].ResolveCreate?
    ensures CallOn(Advance(w, c, p).calls[c], before, next)
  {
  }

  lemma ResolverOn(w: World, c: nat, p: Pick, before: Pepper, next: Pepper)
    requires c in w.calls && CallOn(w.calls[c], before, next) && !Takes(w.calls[c]) && !Puts(w.calls[c])
    ensures CallOn(Advance(w, c, p).calls[c], before, next)
  {
    if w.calls[c].ResolveRead? {
      ReadOn(w, c, p, before, next);
    } else if w.calls[c].ResolveCreate? {
      CreateOn(w, c, p, before, next);
    } else {
      PlainOn(w, c, p, before, next);
    }
  }

  lemma StaysOn(w: World, st: Step, before: Pepper, next: Pepper)
    requires AllOn(w, before, next) && Legal(w, st) && StartsRotating(st, before, next)
    ensures AllOn(Effect(w, st), before, next)
  {
    if st.Go? {
      var v := Effect(w, st);
      forall d | d in v.calls ensures CallOn(v.calls[d], before, next) {
        if d != st.c {
          OtherCalls(w, st.c, st.pick, d);
        } else if Takes(w.calls[d]) {
          TakerOn(w, d, st.pick, before, next);
        } else if Puts(w.calls[d]) {
          PutterOn(w, d, st.pick, before, next);
        } else {
          ResolverOn(w, d, st.pick, before, next);
        }
      }
    }
  }

  lemma OthersMoveNone(w: World, c: nat, p: Pick, a: Hash)
    requires c in w.calls && (Takes(w.calls[c]) || Puts(w.calls[c]))
    ensures WrapOf(Advance(w, c, p).tables, a) == WrapOf(w.tables, a)
  {
  }

  lemma ResolverMoves(w: World, c: nat, p: Pick, a: Hash, before: Pepper, next: Pepper)
    requires c in w.calls && CallOn(w.calls[c], before, next) && before != next && !Takes(w.calls[c]) && !Puts(w.calls[c])
    ensures MovedTo(Advance(w, c, p), a, next) <==> MovedTo(w, a, next) || MovesAt(w, Go(c, p), a, next)
  {
  }

  /** One step: an account is under the new pepper when it was, or when this step moves it. */
  lemma StepMoves(w: World, st: Step, a: Hash, before: Pepper, next: Pepper)
    requires AllOn(w, before, next) && Legal(w, st) && before != next
    ensures MovedTo(Effect(w, st), a, next) <==> MovedTo(w, a, next) || MovesAt(w, st, a, next)
  {
    if st.Go? {
      if Takes(w.calls[st.c]) || Puts(w.calls[st.c]) {
        OthersMoveNone(w, st.c, st.pick, a);
      } else {
        ResolverMoves(w, st.c, st.pick, a, before, next);
      }
    }
  }

  lemma {:induction false} RunMoves(ws: seq<World>, sts: seq<Step>, i: nat, a: Hash, before: Pepper, next: Pepper)
    requires Run(ws, sts) && i < |ws| && PeppersIn(ws[0].tables, {before}) && before != next
    requires forall j :: 0 <= j < |sts| ==> StartsRotating(sts[j], before, next)
    ensures AllOn(ws[i], before, next)
    ensures MovedTo(ws[i], a, next) <==> exists j :: 0 <= j < i && MovesAt(ws[j], sts[j], a, next)
  {
    if i > 0 {
      RunMoves(ws, sts, i - 1, a, before, next);
      assert StepAt(ws, sts, i - 1);
      StaysOn(ws[i - 1], sts[i - 1], before, next);
      StepMoves(ws[i - 1], sts[i - 1], a, before, next);
    }
  }

  /**
   * A second rotation, to instances that no longer hold the first pepper,
   * leaves behind exactly the accounts that no request moved during the first.
   */
  lemma SecondRotation(ws: seq<World>, sts: seq<Step>, i: nat, a: Hash, before: Pepper, next: Pepper, third: Pepper)
    requires Run(ws, sts) && i < |ws| && PeppersIn(ws[0].tables, {before}) && before != next && third != before
    requires forall j :: 0 <= j < |sts| ==> StartsRotating(sts[j], before, next)
    requires WrapOf(ws[i].tables, a).Some?
    ensures OpensTo(ws[i], a, WrapOf(ws[i].tables, a).value, ConnectorToken, a.secret, Server(third, Some(next))) <==>
            exists j :: 0 <= j < i && MovesAt(ws[j], sts[j], a, next)
  {
    RunKeeps(ws, sts, i);
    RunMoves(ws, sts, i, a, before, next);
    forall j | 0 <= j < |sts| ensures StartsOn(sts[j], {before, next}) { assert StartsRotating(sts[j], before, next); }
    PeppersStay(ws, sts, {before, next}, i);
    OpensAfterTheSecond(ws[i], a, before, next, third);
  }

  /** An account nobody used: it opens through the first rotation and no longer after the second. */
  lemma UnusedAccountLeftBehind()
    ensures var wrap := Wrap("key", Kek(ConnectorToken, "token", 0), 0);
      var a := Hash("token");
      var w := World(Tables(map[a := Some(wrap)], map[], map[], map[]), map[], map[a := "key"], map[], {}, {});
      && Run([w], [])
      && OpensTo(w, a, wrap, ConnectorToken, "token", Server(1, Some(0)))
      && !OpensTo(w, a, wrap, ConnectorToken, "token", Server(2, Some(1)))
  {
    var wrap, a := Wrap("key", Kek(ConnectorToken, "token", 0), 0), Hash("token");
    var w := World(Tables(map[a := Some(wrap)], map[], map[], map[]), map[], map[a := "key"], map[], {}, {});
    assert AccountAt(w, a);
    assert StoreOk(w) && OnceOk(w);
  }
}
