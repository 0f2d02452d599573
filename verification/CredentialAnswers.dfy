/**
 * What each credential is good for, over whole runs: a pairing code connects
 * one app, nothing is taken at or after its expiry or by another client, and a
 * live credential takes its request on to the next step of the chain.
 */
module CredentialAnswers {
  import opened Options
  import opened Credentials
  import opened CredentialRuns

  // ---- pairing codes -------------------------------------------------------

  /** Step i presents a pairing code at the consent page and gets its row. */
  predicate ConsentsAt(ws: seq<World>, sts: seq<Step>, i: nat, code: Secret)
    requires |ws| == |sts| + 1 && i < |sts|
  {
    sts[i].Go? && sts[i].c in ws[i].calls && ws[i].calls[sts[i].c].ConsentAsked? && ws[i].calls[sts[i].c].code == code
    && !sts[i].pick.refuse && PairingTaken(ws[i].tables, Hash(code), sts[i].pick.now).1.Some?
  }

  /** Step i stores a row under this pairing code. */
  predicate PairsAt(ws: seq<World>, sts: seq<Step>, i: nat, code: Secret)
    requires |ws| == |sts| + 1 && i < |sts|
  {
    sts[i].Go? && sts[i].c in ws[i].calls && ws[i].calls[sts[i].c].PairReady? && sts[i].pick.secret == code
  }

  /** A row is taken exactly while it stands and its time is not up. */
  lemma PairingTakenIff(s: Tables, code: Hash, now: int, row: PairRow)
    ensures PairingTaken(s, code, now).1 == Some(row) <==> code in s.pairings && s.pairings[code] == row && now < row.expiresAt
    ensures code !in PairingTaken(s, code, now).0.pairings
    ensures forall k :: k != code ==>
      (k in PairingTaken(s, code, now).0.pairings <==> k in s.pairings && now < s.pairings[k].expiresAt) &&
      (k in PairingTaken(s, code, now).0.pairings ==> PairingTaken(s, code, now).0.pairings[k] == s.pairings[k])
  {
  }

  lemma PairingsOfStep(w: World, c: nat, p: Pick)
    requires c in w.calls
    ensures var call, v := w.calls[c], Advance(w, c, p);
      && (call.PairReady? ==> v.tables.pairings.Keys == w.tables.pairings.Keys + {Hash(p.secret)})
      && (call.PairReady? ==> forall h :: h in w.tables.pairings && h != Hash(p.secret) ==> v.tables.pairings[h] == w.tables.pairings[h])
      && (call.ConsentAsked? && !p.refuse ==> v.tables.pairings == PairingTaken(w.tables, Hash(call.code), p.now).0.pairings)
      && (!call.PairReady? && !(call.ConsentAsked? && !p.refuse) ==> v.tables.pairings == w.tables.pairings)
  {
  }

  lemma {:induction false} StaysTaken(ws: seq<World>, sts: seq<Step>, i: nat, j: nat, code: Secret)
    requires Run(ws, sts) && i <= j < |ws| && Hash(code) !in ws[i].tables.pairings && forall m :: i <= m < j ==> !PairsAt(ws, sts, m, code)
    ensures Hash(code) !in ws[j].tables.pairings
    decreases j
  {
    if i < j {
      StaysTaken(ws, sts, i, j - 1, code);
      assert StepAt(ws, sts, j - 1) && !PairsAt(ws, sts, j - 1, code);
      if sts[j - 1].Go? { PairingsOfStep(ws[j - 1], sts[j - 1].c, sts[j - 1].pick); }
    }
  }

  /** A pairing code connects one app: between two consents that get its row it was stored anew. */
  lemma PairingTakenOnce(ws: seq<World>, sts: seq<Step>, i: nat, j: nat, code: Secret) returns (m: nat)
    requires Run(ws, sts) && i < j < |sts| && ConsentsAt(ws, sts, i, code) && ConsentsAt(ws, sts, j, code)
    ensures i < m < j && PairsAt(ws, sts, m, code)
  {
    assert StepAt(ws, sts, i);
    PairingsOfStep(ws[i], sts[i].c, sts[i].pick);
    PairingTakenIff(ws[i].tables, Hash(code), sts[i].pick.now, ws[i].tables.pairings[Hash(code)]);
    if forall m :: i < m < j ==> !PairsAt(ws, sts, m, code) {
      StaysTaken(ws, sts, i + 1, j, code);
      assert false;
    }
    m :| i < m < j && PairsAt(ws, sts, m, code);
  }

  /** Step i presents this pairing code, or any code at a time when this one's is up. */
  predicate EndsPairing(ws: seq<World>, sts: seq<Step>, i: nat, code: Secret, expiresAt: int)
    requires |ws| == |sts| + 1 && i < |sts|
  {
    sts[i].Go? && sts[i].c in ws[i].calls && ws[i].calls[sts[i].c].ConsentAsked? && !sts[i].pick.refuse
    && (ws[i].calls[sts[i].c].code == code || sts[i].pick.now >= expiresAt)
  }

  /** A stored pairing code stays as it was stored until it is presented, stored anew, or its time is up. */
  lemma {:induction false} PairingStays(ws: seq<World>, sts: seq<Step>, i: nat, j: nat, code: Secret)
    requires Run(ws, sts) && i <= j < |ws| && Hash(code) in ws[i].tables.pairings
    requires forall m :: i <= m < j ==> !PairsAt(ws, sts, m, code) && !EndsPairing(ws, sts, m, code, ws[i].tables.pairings[Hash(code)].expiresAt)
    ensures Hash(code) in ws[j].tables.pairings && ws[j].tables.pairings[Hash(code)] == ws[i].tables.pairings[Hash(code)]
    decreases j
  {
    if i < j {
      PairingStays(ws, sts, i, j - 1, code);
      assert StepAt(ws, sts, j - 1);
      assert !PairsAt(ws, sts, j - 1, code) && !EndsPairing(ws, sts, j - 1, code, ws[i].tables.pairings[Hash(code)].expiresAt);
      if sts[j - 1].Go? {
        var w, call, p := ws[j - 1], ws[j - 1].calls[sts[j - 1].c], sts[j - 1].pick;
        PairingsOfStep(w, sts[j - 1].c, p);
        if call.ConsentAsked? && !p.refuse { PairingTakenIff(w.tables, Hash(call.code), p.now, ws[i].tables.pairings[Hash(code)]); }
      }
    }
  }

  // ---- each link of the chain ----------------------------------------------

  /** The pairing code is live, and this instance can open what it wraps. */
  predicate PairingLive(w: World, srv: Server, code: Secret, now: int) {
    Hash(code) in w.tables.pairings && now < w.tables.pairings[Hash(code)].expiresAt && Holds(srv, w.tables.pairings[Hash(code)].wrap.kek.pepper)
  }

  /** The authorization code is live, was issued to this client, and this instance can open what it wraps. */
  predicate CodeLive(w: World, srv: Server, code: Secret, client: ClientId, now: int) {
    Hash(code) in w.tables.codes &&
    var row := w.tables.codes[Hash(code)];
    !row.consumed && now < row.expiresAt && row.client == client && Holds(srv, row.wrap.kek.pepper)
  }

  /** The refresh token is live, was issued to this client, and this instance can open what it wraps. */
  predicate RefreshLive(w: World, srv: Server, token: Secret, client: ClientId, now: int) {
    Hash(token) in w.tables.tokens &&
    var row := w.tables.tokens[Hash(token)];
    row.refresh && now < row.expiresAt && row.client == client && Holds(srv, row.wrap.kek.pepper)
  }

  /** A consent goes on, with the account of the code and that account's key, exactly when the code is live and nothing else refuses. */
  lemma ConsentGoesOnIff(w: World, c: nat, p: Pick)
    requires Inv(w) && c in w.calls && w.calls[c].ConsentAsked?
    ensures var call, v := w.calls[c], Advance(w, c, p).calls[c];
      if !p.refuse && PairingLive(w, call.srv, call.code, p.now) then
        var a := w.tables.pairings[Hash(call.code)].account;
        a in w.deks && v == ConsentReady(call.srv, call.client, a, w.deks[a], a)
      else v == Ended
  {
    var call := w.calls[c];
    var h := Hash(call.code);
    if h in w.tables.pairings {
      var row := w.tables.pairings[h];
      assert Custody(w, PairingCode, h, row.account, row.wrap);
      OpensIff(row.wrap, PairingCode, call.code, call.srv);
    }
  }

  /** An exchange goes on exactly when the code is live, issued to this client, and nothing else refuses. */
  lemma ExchangeGoesOnIff(w: World, c: nat, p: Pick)
    requires Inv(w) && c in w.calls && w.calls[c].ExchangeAsked?
    ensures var call, v := w.calls[c], Advance(w, c, p).calls[c];
      if !p.refuse && CodeLive(w, call.srv, call.code, call.client, p.now) then
        var a := w.tables.codes[Hash(call.code)].account;
        a in w.deks && v == IssueAccess(call.srv, call.client, a, w.deks[a], a)
      else v == Ended
  {
    var call := w.calls[c];
    var h := Hash(call.code);
    if h in w.tables.codes {
      var row := w.tables.codes[h];
      assert Custody(w, AuthCode, h, row.account, row.wrap);
      OpensIff(row.wrap, AuthCode, call.code, call.srv);
    }
  }

  /** A refresh goes on exactly when the token is live, issued to this client, and nothing else refuses. */
  lemma RefreshGoesOnIff(w: World, c: nat, p: Pick)
    requires Inv(w) && c in w.calls && w.calls[c].RefreshAsked?
    ensures var call, v := w.calls[c], Advance(w, c, p).calls[c];
      if !p.refuse && RefreshLive(w, call.srv, call.token, call.client, p.now) then
        var a := w.tables.tokens[Hash(call.token)].account;
        a in w.deks && v == IssueAccess(call.srv, call.client, a, w.deks[a], a)
      else v == Ended
  {
    var call := w.calls[c];
    var h := Hash(call.token);
    if h in w.tables.tokens {
      var row := w.tables.tokens[h];
      assert Custody(w, TokenLabel, h, row.account, row.wrap);
      OpensIff(row.wrap, TokenLabel, call.token, call.srv);
    }
  }

  /** A bearer request is served, as the token's account and with its key, exactly when an access token stands, this instance can open it, and nothing else refuses. */
  lemma BearerServedIff(w: World, c: nat, p: Pick)
    requires Inv(w) && c in w.calls && w.calls[c].BearerAsked?
    ensures var call, v, h := w.calls[c], Advance(w, c, p).calls[c], Hash(w.calls[c].token);
      if !p.refuse && h in w.tables.tokens && !w.tables.tokens[h].refresh && Holds(call.srv, w.tables.tokens[h].wrap.kek.pepper) then
        var a := w.tables.tokens[h].account;
        a in w.deks && v == Served(a, w.deks[a])
      else v == Ended
  {
    var call := w.calls[c];
    var h := Hash(call.token);
    if h in w.tables.tokens {
      var row := w.tables.tokens[h];
      assert Custody(w, TokenLabel, h, row.account, row.wrap);
      OpensIff(row.wrap, TokenLabel, call.token, call.srv);
    }
  }

  /** In every state of every run the four links hold. */
  lemma ChainGoesOnIff(ws: seq<World>, sts: seq<Step>, i: nat)
    requires Run(ws, sts) && i < |sts| && sts[i].Go?
    ensures sts[i].c in ws[i].calls
    ensures var call, p, v := ws[i].calls[sts[i].c], sts[i].pick, ws[i + 1];
      && (call.ConsentAsked? ==> sts[i].c in v.calls && (v.calls[sts[i].c].ConsentReady? <==> !p.refuse && PairingLive(ws[i], call.srv, call.code, p.now)))
      && (call.ExchangeAsked? ==> sts[i].c in v.calls && (v.calls[sts[i].c].IssueAccess? <==> !p.refuse && CodeLive(ws[i], call.srv, call.code, call.client, p.now)))
      && (call.RefreshAsked? ==> sts[i].c in v.calls && (v.calls[sts[i].c].IssueAccess? <==> !p.refuse && RefreshLive(ws[i], call.srv, call.token, call.client, p.now)))
  {
    assert StepAt(ws, sts, i);
    RunKeeps(ws, sts, i);
    var call := ws[i].calls[sts[i].c];
    if call.ConsentAsked? { ConsentGoesOnIff(ws[i], sts[i].c, sts[i].pick); }
    if call.ExchangeAsked? { ExchangeGoesOnIff(ws[i], sts[i].c, sts[i].pick); }
    if call.RefreshAsked? { RefreshGoesOnIff(ws[i], sts[i].c, sts[i].pick); }
  }

  // ---- the account's own key -----------------------------------------------

  /** Reading an account's wrap goes on with its key when this instance can open it, moves it to the instance's pepper first when it is under the old one, and makes one when there is none. */
  lemma ResolveGoesOn(w: World, c: nat, p: Pick)
    requires Inv(w) && c in w.calls && w.calls[c].ResolveRead?
    ensures var call, v := w.calls[c], Advance(w, c, p).calls[c];
      var a := Hash(call.token);
      match WrapOf(w.tables, a) {
        case None => v.ResolveCreate? && v.candidate.dek == p.newDek
        case Some(wrap) =>
          if !Holds(call.srv, wrap.kek.pepper) then v == Ended
          else if wrap.kek.pepper == call.srv.pepper then a in w.deks && v == Ready(call.srv, call.token, call.pair, w.deks[a])
          else a in w.deks && v == ResolveRelock(call.srv, call.token, call.pair, wrap, w.deks[a])
      }
  {
    var call := w.calls[c];
    var a := Hash(call.token);
    assert CallOk(w, call);
    assert AccountAt(w, a);
    if w.tables.accounts[a].Some? { OpensIff(w.tables.accounts[a].value, ConnectorToken, call.token, call.srv); }
  }

  /** Moving the wrap always goes on, with the account's key. */
  lemma RelockGoesOn(w: World, c: nat, p: Pick)
    requires Inv(w) && c in w.calls && w.calls[c].ResolveRelock?
    ensures var call := w.calls[c];
      Hash(call.token) in w.deks && Advance(w, c, p).calls[c] == Ready(call.srv, call.token, call.pair, w.deks[Hash(call.token)])
  {
    assert CallOk(w, w.calls[c]);
  }

  /** The first push or pairing of an account goes on with the key that won, when this instance can open it. */
  lemma CreateGoesOn(w: World, c: nat, p: Pick)
    requires Inv(w) && c in w.calls && w.calls[c].ResolveCreate?
    ensures var call, v := w.calls[c], Advance(w, c, p);
      var a := Hash(call.token);
      && WrapOf(v.tables, a).Some? && a in v.deks
      && v.calls[c] == if Holds(call.srv, WrapOf(v.tables, a).value.kek.pepper) then Ready(call.srv, call.token, call.pair, v.deks[a]) else Ended
  {
    var call := w.calls[c];
    var a := Hash(call.token);
    assert CallOk(w, call);
    assert AccountAt(w, a);
    OpensIff(call.candidate, ConnectorToken, call.token, call.srv);
    if w.tables.accounts[a].Some? { OpensIff(w.tables.accounts[a].value, ConnectorToken, call.token, call.srv); }
  }

  // ---- what is stored is for whom it was asked -----------------------------

  /** A minted code is live for the client that asked, until its time. */
  lemma MintedFor(w: World, c: nat, p: Pick)
    requires Inv(w) && c in w.calls && w.calls[c].ConsentReady? && !p.refuse
    ensures var call, v := w.calls[c], Advance(w, c, p);
      forall srv, now :: CodeLive(v, srv, p.secret, call.client, now) <==> now < p.expiresAt && Holds(srv, call.srv.pepper)
  {
  }

  /** A stored refresh token is live for the client that asked, until its time; an access token serves no refresh. */
  lemma IssuedFor(w: World, c: nat, p: Pick)
    requires Inv(w) && c in w.calls && (w.calls[c].IssueAccess? || w.calls[c].IssueRefresh?)
    ensures var call, v := w.calls[c], Advance(w, c, p);
      forall srv, now :: RefreshLive(v, srv, p.secret, call.client, now) <==> call.IssueRefresh? && now < p.expiresAt && Holds(srv, call.srv.pepper)
  {
  }

  /** A stored pairing code is live until its time. */
  lemma PairedFor(w: World, c: nat, p: Pick)
    requires Inv(w) && c in w.calls && w.calls[c].PairReady?
    ensures var call, v := w.calls[c], Advance(w, c, p);
      forall srv, now :: PairingLive(v, srv, p.secret, now) <==> now < p.expiresAt && Holds(srv, call.srv.pepper)
  {
  }

  // ---- the steps that always go on -----------------------------------------

  /** A push or pairing that is let in makes its account known and goes on to read its wrap. */
  lemma AskGoesOn(w: World, c: nat, p: Pick)
    requires c in w.calls && (w.calls[c].PairAsked? || w.calls[c].PushAsked?) && !p.refuse
    ensures var call, v := w.calls[c], Advance(w, c, p);
      && v.calls[c] == ResolveRead(call.srv, call.token, call.PairAsked?) && Hash(call.token) in v.tables.accounts
      && (forall a :: a in w.tables.accounts ==> a in v.tables.accounts && v.tables.accounts[a] == w.tables.accounts[a])
  {
  }

  /** A pair of tokens: the refresh token follows the access token, for the same client, account and key. */
  lemma PairIsIssued(w: World, c: nat, p: Pick)
    requires c in w.calls && w.calls[c].IssueAccess?
    ensures var call, v := w.calls[c], Advance(w, c, p);
      v.calls[c] == IssueRefresh(call.srv, call.client, call.account, call.dek, call.root)
  {
  }
}
