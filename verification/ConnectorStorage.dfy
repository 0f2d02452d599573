/**
 * The in-memory connector store: maps per account updated in place, with the
 * loops the code runs. Each method leaves its account exactly where the
 * `RowStore` function says and every other account untouched.
 */
module ConnectorStorage {
  import opened Options
  import opened ProjectHead
  import opened RowStore

  type Hash = string

  class InMemoryConnectorStorage {
    var entries: map<Hash, map<Id, Row>>
    var tombstones: map<Hash, seq<Tombstone>>
    var pendingForgets: map<Hash, set<Id>>
    var scopeSeq: map<Hash, map<Scope, nat>>
    var vaultOrder: map<Hash, VaultOrder>

    /** The account's part of the store. */
    ghost function AcctOf(h: Hash): Acct
      reads this
    {
      Acct(if h in entries then entries[h] else map[],
           if h in scopeSeq then scopeSeq[h] else map[],
           if h in tombstones then tombstones[h] else [],
           if h in pendingForgets then pendingForgets[h] else {},
           if h in vaultOrder then vaultOrder[h] else NO_ORDER)
    }

    twostate predicate OnlyChanged(h: Hash)
      reads this
    {
      forall g :: g != h ==> AcctOf(g) == old(AcctOf(g))
    }

    constructor ()
      ensures forall h :: AcctOf(h) == Acct(map[], map[], [], {}, NO_ORDER)
    {
      entries, tombstones, pendingForgets, scopeSeq, vaultOrder := map[], map[], map[], map[], map[];
    }

    /** The stored map of one account, or an empty one. */
    function RowsAt(h: Hash): map<Id, Row>
      reads this
      ensures RowsAt(h) == AcctOf(h).rows
    {
      if h in entries then entries[h] else map[]
    }

    function SeqsAt(h: Hash): map<Scope, nat>
      reads this
      ensures SeqsAt(h) == AcctOf(h).seqs
    {
      if h in scopeSeq then scopeSeq[h] else map[]
    }

    method SetRows(h: Hash, rows: map<Id, Row>)
      modifies this`entries
      ensures AcctOf(h) == old(AcctOf(h)).(rows := rows) && OnlyChanged(h)
    {
      entries := entries[h := rows];
    }

    method SetSeqs(h: Hash, seqs: map<Scope, nat>)
      modifies this`scopeSeq
      ensures AcctOf(h) == old(AcctOf(h)).(seqs := seqs) && OnlyChanged(h)
    {
      scopeSeq := scopeSeq[h := seqs];
    }

    method SetTombs(h: Hash, tombs: seq<Tombstone>)
      modifies this`tombstones
      ensures AcctOf(h) == old(AcctOf(h)).(tombs := tombs) && OnlyChanged(h)
    {
      tombstones := tombstones[h := tombs];
    }

    method SetForgets(h: Hash, forgets: set<Id>)
      modifies this`pendingForgets
      ensures AcctOf(h) == old(AcctOf(h)).(forgets := forgets) && OnlyChanged(h)
    {
      pendingForgets := pendingForgets[h := forgets];
    }

    method BumpSeq(h: Hash, sc: Scope) returns (next: nat)
      modifies this`scopeSeq
      ensures AcctOf(h) == old(AcctOf(h)).(seqs := Bump(old(AcctOf(h)).seqs, {sc})) && OnlyChanged(h)
      ensures next == Counter(old(AcctOf(h)).seqs, sc) + 1
    {
      var seqs := SeqsAt(h);
      next := (if sc in seqs then seqs[sc] else 0) + 1;
      assert seqs[sc := next] == Bump(seqs, {sc});
      SetSeqs(h, seqs[sc := next]);
    }

    /** Moves the counter of each scope in the set once. */
    method BumpAll(h: Hash, scopes: set<Scope>)
      modifies this`scopeSeq
      ensures AcctOf(h) == old(AcctOf(h)).(seqs := Bump(old(AcctOf(h)).seqs, scopes)) && OnlyChanged(h)
    {
      ghost var a := AcctOf(h);
      ghost var done: set<Scope> := {};
      var todo := scopes;
      assert Bump(a.seqs, {}) == a.seqs;
      while todo != {}
        invariant done + todo == scopes && done !! todo
        invariant AcctOf(h) == a.(seqs := Bump(a.seqs, done)) && OnlyChanged(h)
        decreases todo
      {
        var sc :| sc in todo;
        todo := todo - {sc};
        var next := BumpSeq(h, sc);
        BumpOneMore(a.seqs, done, sc);
        done := done + {sc};
      }
    }

    method AcceptVaultClaim(h: Hash, claim: Claim) returns (accepted: bool)
      modifies this`vaultOrder
      ensures accepted == ClaimAccepted(old(AcctOf(h)).order, claim) && OnlyChanged(h)
      ensures AcctOf(h) == if accepted then old(AcctOf(h)).(order := VaultOrder(claim.server, claim.version)) else old(AcctOf(h))
    {
      var cur := if h in vaultOrder then vaultOrder[h] else NO_ORDER;
      accepted := claim.reset ||
        (if claim.server.None? then cur.server.None?
         else cur.server.None? || cur.server != claim.server ||
              (if cur.version.Some? then cur.version.value else 0) <= (if claim.version.Some? then claim.version.value else 0));
      if accepted { vaultOrder := vaultOrder[h := VaultOrder(claim.server, claim.version)]; }
    }

    /** The rows of every entry of one account, each once, in some order. */
    method ListEntries(h: Hash) returns (list: seq<Row>)
      ensures RowsOf(list) == AcctOf(h).rows.Values
      ensures Keyed(AcctOf(h).rows) ==> DistinctList(list)
    {
      list := [];
      var byId := RowsAt(h);
      var todo := byId.Keys;
      while todo != {}
        invariant todo <= byId.Keys
        invariant forall r :: r in list <==> exists id :: id in byId && id !in todo && byId[id] == r
        invariant Keyed(byId) ==> DistinctList(list)
        decreases todo
      {
        var id :| id in todo;
        if Keyed(byId) {
          forall k | 0 <= k < |list| ensures list[k].entryId != byId[id].entryId { assert list[k] in list; }
        }
        list := list + [byId[id]];
        todo := todo - {id};
      }
    }

    method GetEntry(h: Hash, id: Id) returns (r: Option<Row>)
      ensures r == if id in AcctOf(h).rows then Some(AcctOf(h).rows[id]) else None
    {
      r := if h in entries && id in entries[h] then Some(entries[h][id]) else None;
    }

    method ListPendingEntries(h: Hash) returns (list: seq<Row>)
      ensures RowsOf(list) == set r | r in AcctOf(h).rows.Values && Undelivered(r)
    {
      var all := ListEntries(h);
      list := [];
      for i := 0 to |all|
        invariant forall r :: r in list <==> r in all[..i] && Undelivered(r)
      {
        assert all[..i + 1] == all[..i] + [all[i]];
        if Undelivered(all[i]) { list := list + [all[i]]; }
      }
      assert all[..|all|] == all;
      assert forall r :: r in all <==> r in RowsOf(all);
    }

    /** The payload's upserts, and which ids survive in which scope. */
    static method UpsertAll(rows: map<Id, Row>, es: seq<Entry>, seqs: map<Scope, nat>, pushed: set<Scope>)
      returns (byId: map<Id, Row>, keep: set<(Scope, Id)>)
      ensures byId == Upserted(rows, es, seqs, pushed) && keep == KeepSet(es)
    {
      byId, keep := rows, {};
      for i := 0 to |es|
        invariant byId == Upserted(rows, es[..i], seqs, pushed)
        invariant keep == KeepSet(es[..i])
      {
        var e := es[i];
        UpsertedNext(rows, es, i, seqs, pushed);
        KeepNext(es, i);
        byId := byId[e.entryId := PushedRow(e, seqs, pushed)];
        keep := keep + {(e.scope, e.entryId)};
      }
      assert es[..|es|] == es;
    }

    /** Deletes the rows of a pushed scope that the payload omitted, undelivered connector rows aside. */
    static method DropOmitted(up: map<Id, Row>, pushed: set<Scope>, keep: set<(Scope, Id)>) returns (byId: map<Id, Row>)
      ensures byId == map id | id in up && !Omitted(id, up[id], pushed, keep) :: up[id]
    {
      byId := up;
      var todo := byId.Keys;
      while todo != {}
        invariant todo <= up.Keys
        invariant byId == map id | id in up && (id in todo || !Omitted(id, up[id], pushed, keep)) :: up[id]
        decreases todo
      {
        var id :| id in todo;
        todo := todo - {id};
        var e := byId[id];
        if !(e.origin.Connector? && e.pending) && e.scope in pushed && (e.scope, id) !in keep { byId := byId - {id}; }
      }
    }

    /** "Make these scopes match": upsert the payload, then drop what it leaves out. */
    method ReplaceScopes(h: Hash, scopes: seq<Scope>, es: seq<Entry>, claim: Claim) returns (res: PushResult)
      modifies this
      ensures (AcctOf(h), res) == Push(old(AcctOf(h)), scopes, es, claim) && OnlyChanged(h)
    {
      var accepted := AcceptVaultClaim(h, claim);
      if !accepted { return StalePush; }
      var pushed := ScopeSet(scopes);
      BumpAll(h, pushed);
      var byId, keep := UpsertAll(RowsAt(h), es, SeqsAt(h), pushed);
      byId := DropOmitted(byId, pushed, keep);
      SetRows(h, byId);
      res := Accepted;
    }

    method ListTombstones(h: Hash) returns (list: seq<Tombstone>)
      ensures list == AcctOf(h).tombs
    {
      list := if h in tombstones then tombstones[h] else [];
    }

    /** First the latest tombstone of each pushed scope, then the ones shared_at does not clear. */
    method FindTombstoneConflicts(tombs: seq<Tombstone>, scopes: set<Scope>, sharedAt: map<Scope, Instant>) returns (conflicts: set<Scope>)
      ensures conflicts == Conflicts(tombs, scopes, sharedAt)
    {
      var latest: map<Scope, Instant> := map[];
      for i := 0 to |tombs|
        invariant latest.Keys <= scopes
        invariant forall sc :: sc in scopes ==> Latest(tombs[..i], sc) == if sc in latest then Some(latest[sc]) else None
      {
        var t := tombs[i];
        assert tombs[..i + 1][..i] == tombs[..i];
        assert forall sc :: Latest(tombs[..i + 1], sc) == Later(Latest(tombs[..i], sc), t, sc);
        if t.scope in scopes {
          var next := Later(if t.scope in latest then Some(latest[t.scope]) else None, t, t.scope);
          latest := latest[t.scope := next.value];
        }
      }
      assert tombs[..|tombs|] == tombs;
      conflicts := set sc | sc in latest &&
        (sc !in sharedAt || sharedAt[sc].Unparsable? || latest[sc].Unparsable? || sharedAt[sc].ms <= latest[sc].ms);
      assert forall sc :: sc in conflicts <==> sc in Conflicts(tombs, scopes, sharedAt);
    }

    /** The tombstones the accepted push does not clear. */
    static method KeepTombs(tombs: seq<Tombstone>, pushed: set<Scope>, sharedAt: map<Scope, Instant>) returns (kept: seq<Tombstone>)
      ensures kept == KeptTombs(tombs, pushed, sharedAt)
    {
      kept := [];
      for i := 0 to |tombs|
        invariant kept == KeptTombs(tombs[..i], pushed, sharedAt)
      {
        assert tombs[..i + 1][..i] == tombs[..i];
        if tombs[i].scope !in sharedAt || tombs[i].scope !in pushed || ShouldKeepTombstone(tombs[i].unsharedAt, sharedAt[tombs[i].scope]) {
          kept := kept + [tombs[i]];
        }
      }
      assert tombs[..|tombs|] == tombs;
    }

    method ReplaceScopesAcceptingReshare(h: Hash, scopes: seq<Scope>, es: seq<Entry>, sharedAt: map<Scope, Instant>, claim: Claim)
      returns (res: PushResult)
      modifies this
      ensures (AcctOf(h), res) == Reshare(old(AcctOf(h)), scopes, es, sharedAt, claim) && OnlyChanged(h)
    {
      var tombs := ListTombstones(h);
      var pushed := set s | s in scopes;
      var conflicts := FindTombstoneConflicts(tombs, pushed, sharedAt);
      if conflicts != {} { return TombstoneConflict; }
      res := ReplaceScopes(h, scopes, es, claim);
      if !res.Accepted? { return; }
      var kept := KeepTombs(tombs, pushed, sharedAt);
      SetTombs(h, kept);
    }

    static method InsertAll(rows: map<Id, Row>, ins: seq<Insert>, sc: Scope, seqNo: nat) returns (byId: map<Id, Row>)
      ensures byId == Inserted(rows, ins, sc, seqNo)
    {
      byId := rows;
      for i := 0 to |ins|
        invariant byId == Inserted(rows, ins[..i], sc, seqNo)
      {
        assert ins[..i + 1][..i] == ins[..i] && ins[..i + 1][i] == ins[i];
        byId := byId[ins[i].entryId := InsertedRow(ins[i], sc, seqNo)];
      }
      assert ins[..|ins|] == ins;
    }

    /** The compare-and-swap write: no step of another request runs inside it. */
    method WriteConnectorRows(h: Hash, sc: Scope, expected: Option<nat>, ins: seq<Insert>, replaced: Option<Id>) returns (res: Option<nat>)
      modifies this
      ensures (AcctOf(h), res) == Write(old(AcctOf(h)), sc, expected, ins, replaced) && OnlyChanged(h)
    {
      var seqs := SeqsAt(h);
      if expected.Some? && (sc !in seqs || seqs[sc] != expected.value) { return None; }
      var next := BumpSeq(h, sc);
      var byId := InsertAll(RowsAt(h), ins, sc, next);
      if replaced.Some? && |ins| > 0 && replaced.value in byId && byId[replaced.value].pending {
        byId := byId - {replaced.value};
      }
      SetRows(h, byId);
      res := Some(next);
    }

    method DiscardPending(h: Hash, ids: seq<Id>) returns (n: nat)
      modifies this
      ensures (AcctOf(h), n) == Discard(old(AcctOf(h)), ids) && OnlyChanged(h)
    {
      var byId := RowsAt(h);
      var doomed := set id | id in ids && id in byId && byId[id].pending;
      BumpAll(h, set id | id in doomed :: byId[id].scope);
      SetRows(h, byId - doomed);
      n := |doomed|;
    }

    method EnqueueForget(h: Hash, id: Id)
      modifies this`pendingForgets
      ensures AcctOf(h) == Enqueue(old(AcctOf(h)), id) && OnlyChanged(h)
    {
      pendingForgets := pendingForgets[h := (if h in pendingForgets then pendingForgets[h] else {}) + {id}];
    }

    method ListPendingForgets(h: Hash) returns (ids: set<Id>)
      ensures ids == AcctOf(h).forgets
    {
      ids := if h in pendingForgets then pendingForgets[h] else {};
    }

    method AckEntry(h: Hash, serverId: Id, localId: Id)
      modifies this
      ensures AcctOf(h) == Ack(old(AcctOf(h)), serverId, localId) && OnlyChanged(h)
    {
      var forgets := ListPendingForgets(h);
      if serverId in forgets { SetForgets(h, forgets - {serverId} + {localId}); }
      var byId := RowsAt(h);
      if serverId !in byId { return; }
      var row := byId[serverId];
      var writeSeq := BumpSeq(h, row.scope);
      SetRows(h, (byId - {serverId})[localId := row.(entryId := localId, pending := false, writeSeq := writeSeq)]);
    }

    method ApplyForget(h: Hash, id: Id)
      modifies this
      ensures AcctOf(h) == Forget(old(AcctOf(h)), id) && OnlyChanged(h)
    {
      var forgets := ListPendingForgets(h);
      SetForgets(h, forgets - {id});
      var byId := RowsAt(h);
      if id in byId { var next := BumpSeq(h, byId[id].scope); }
      SetRows(h, byId - {id});
    }

    /** Deletes the rows of a scope and counts them. */
    method DeleteScopeRows(h: Hash, sc: Scope) returns (n: nat)
      modifies this`entries
      ensures AcctOf(h) == old(AcctOf(h)).(rows := old(AcctOf(h)).rows - InScope(old(AcctOf(h)), sc)) && OnlyChanged(h)
      ensures n == |InScope(old(AcctOf(h)), sc)|
    {
      ghost var a := AcctOf(h);
      n := 0;
      var byId := RowsAt(h);
      var todo := byId.Keys;
      ghost var gone: set<Id> := {};
      while todo != {}
        invariant todo <= a.rows.Keys
        invariant gone == set id | id in a.rows && id !in todo && a.rows[id].scope == sc
        invariant byId == a.rows - gone && n == |gone|
        decreases todo
      {
        var id :| id in todo;
        todo := todo - {id};
        if byId[id].scope == sc {
          byId := byId - {id};
          gone := gone + {id};
          n := n + 1;
        }
      }
      assert gone == InScope(a, sc);
      SetRows(h, byId);
    }

    /** Writes a new tombstone or refreshes the standing one. */
    method UpsertTombstone(h: Hash, sc: Scope, mayWriteNew: bool, now: int) returns (newTombstones: nat)
      modifies this`tombstones
      ensures AcctOf(h) == old(AcctOf(h)).(tombs := UnshareTombs(old(AcctOf(h)).tombs, sc, now, mayWriteNew)) && OnlyChanged(h)
      ensures newTombstones == |AcctOf(h).tombs| - |old(AcctOf(h)).tombs|
    {
      var list := ListTombstones(h);
      var i := 0;
      while i < |list| && list[i].scope != sc
        invariant i <= |list| && forall j :: 0 <= j < i ==> list[j].scope != sc
      {
        i := i + 1;
      }
      assert i == FirstTomb(list, sc);
      newTombstones := 0;
      if i < |list| {
        if !ShouldKeepTombstone(list[i].unsharedAt, At(now)) { list := list[i := Tombstone(sc, At(now))]; }
      } else if mayWriteNew {
        list := list + [Tombstone(sc, At(now))];
        newTombstones := 1;
      }
      SetTombs(h, list);
    }

    /** Delete the scope's rows, move its counter if it has one, write or refresh its tombstone. */
    method UnshareScope(h: Hash, sc: Scope, scopeBytes: nat, paidOrStamped: bool, now: int) returns (deleted: nat, newTombstones: nat)
      modifies this
      ensures AcctOf(h) == Unshare(old(AcctOf(h)), sc, scopeBytes, paidOrStamped, now) && OnlyChanged(h)
      ensures deleted == |InScope(old(AcctOf(h)), sc)|
      ensures newTombstones == |AcctOf(h).tombs| - |old(AcctOf(h)).tombs|
    {
      ghost var a := AcctOf(h);
      deleted := DeleteScopeRows(h, sc);
      assert deleted > 0 <==> InScope(a, sc) != {};
      if sc in SeqsAt(h) { var next := BumpSeq(h, sc); }
      var list := ListTombstones(h);
      var allowEmpty := scopeBytes <= MAX_NEW_TOMBSTONE_SCOPE_BYTES && |list| < MAX_TOMBSTONES_PER_ACCOUNT && paidOrStamped;
      newTombstones := UpsertTombstone(h, sc, deleted > 0 || allowEmpty, now);
    }

    method ReadScopeSeq(h: Hash, sc: Scope) returns (n: nat)
      modifies this`scopeSeq
      ensures (AcctOf(h), n) == ReadSeq(old(AcctOf(h)), sc) && OnlyChanged(h)
    {
      var seqs := SeqsAt(h);
      if sc !in seqs {
        seqs := seqs[sc := 0];
        SetSeqs(h, seqs);
      }
      n := seqs[sc];
    }
  }
}
