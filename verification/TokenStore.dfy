/** The token store's own code: each call takes only steps of the rotation system, while the other
    calls act between its calls of the database. */
module TokenStore {
  import opened Values
  import opened RefreshTokens
  import opened Leases
  import opened RotationOrder
  import Paths

  predicate By(step: Step, id: CallId) {
    match step
    case Check(i, _) => i == id
    case Begin(i, _) => i == id
    case Look(i, _) => i == id
    case Mark(i, _) => i == id
    case Issue(i, _, _) => i == id
    case _ => false
  }

  ghost function OtherMoves(id: CallId, hash: Token -> string, lease: int): (State, Step, State) -> bool {
    (s, step, s') => Goes(s, step, s', hash, lease) && !By(step, id)
  }

  ghost predicate Reaches(s: State, s': State, hash: Token -> string, lease: int) {
    Paths.Reaches(Moves(hash, lease), s, s')
  }

  /** What the other calls may do meanwhile. */
  ghost predicate Elsewhere(others: State -> State, id: CallId, hash: Token -> string, lease: int) {
    forall s :: Inv(s, hash) ==> Paths.Reaches(OtherMoves(id, hash, lease), s, others(s))
  }

  /** Nothing drawn, minted, exchanged or logged in is forgotten. */
  ghost predicate Grows(s: State, s': State) {
    && s.used <= s'.used && s.logins <= s'.logins && s.rotated <= s'.rotated
    && forall t <- s.chains :: t in s'.chains && s'.chains[t] == s.chains[t]
  }

  /** An unrevoked row of an old token is an old row, as it was. */
  ghost predicate RowsAge(s: State, s': State) {
    forall i :: 0 <= i < |s'.rows| && !IsRevoked(s'.rows[i]) && s'.rows[i].token in s.used ==> s'.rows[i] in s.rows
  }

  ghost predicate LeftAlone(s: State, s': State, id: CallId, hash: Token -> string) {
    && Inv(s', hash) && Grows(s, s') && RowsAge(s, s')
    && (id in s'.calls <==> id in s.calls) && (id in s.calls ==> s'.calls[id] == s.calls[id])
  }

  lemma StepGrows(s: State, step: Step, s': State, hash: Token -> string, lease: int)
    requires Inv(s, hash) && Goes(s, step, s', hash, lease)
    ensures Grows(s, s')
  {
  }

  lemma StepAges(s: State, step: Step, s': State, hash: Token -> string, lease: int)
    requires Inv(s, hash) && Goes(s, step, s', hash, lease)
    ensures RowsAge(s, s')
  {
    match step {
      case Mark(id, written) =>
        if written {
          MarkRowsRevoke(s.rows, s.calls[id].phase.tenant, hash(s.calls[id].raw), s.calls[id].raw, s.now);
        }
      case Cleanup(deleted) =>
        if deleted {
          UnexpiredHolds(s.rows, s.now);
          assert forall i :: 0 <= i < |s'.rows| ==> s'.rows[i] in s'.rows;
        }
      case _ =>
    }
  }

  lemma UnexpiredHolds(rows: seq<Row>, now: int)
    ensures forall row <- Unexpired(rows, now) :: row in rows
  {
    UnexpiredKeeps(rows, now, (x, y) => true);
  }

  lemma LeftAloneJoins(s: State, m: State, s': State, id: CallId, hash: Token -> string)
    requires LeftAlone(s, m, id, hash) && LeftAlone(m, s', id, hash)
    ensures LeftAlone(s, s', id, hash)
  {
    forall i | 0 <= i < |s'.rows| && !IsRevoked(s'.rows[i]) && s'.rows[i].token in s.used
      ensures s'.rows[i] in s.rows
    {
      assert s'.rows[i] in m.rows;
      var j :| 0 <= j < |m.rows| && m.rows[j] == s'.rows[i];
    }
  }

  lemma OthersLeaveAlone(s: State, s': State, id: CallId, hash: Token -> string, lease: int)
    requires Inv(s, hash) && Injective(hash) && Paths.Reaches(OtherMoves(id, hash, lease), s, s')
    ensures LeftAlone(s, s', id, hash) && Reaches(s, s', hash, lease)
  {
    var others := OtherMoves(id, hash, lease);
    forall m, step, u | LeftAlone(s, m, id, hash) && others(m, step, u) ensures LeftAlone(s, u, id, hash) {
      StepKeeps(m, step, u, hash, lease);
      StepGrows(m, step, u, hash, lease);
      StepAges(m, step, u, hash, lease);
      LeftAloneJoins(s, m, u, id, hash);
    }
    Paths.ReachesKeeps(others, u => LeftAlone(s, u, id, hash), s, s');
    Paths.ReachesMore(others, Moves(hash, lease), s, s');
  }

  /** The system got from `start` to `s` by its own steps. */
  ghost predicate After(start: State, s: State, hash: Token -> string, lease: int) {
    Inv(s, hash) && Leased(s, lease) && Injective(hash) && Reaches(start, s, hash, lease) && Grows(start, s)
  }

  lemma AfterStep(start: State, s: State, step: Step, s': State, hash: Token -> string, lease: int)
    requires After(start, s, hash, lease) && Goes(s, step, s', hash, lease)
    ensures After(start, s', hash, lease) && Grows(s, s')
  {
    StepKeeps(s, step, s', hash, lease);
    StepKeepsLeases(s, step, s', hash, lease);
    StepGrows(s, step, s', hash, lease);
    Paths.ReachesByStep(Moves(hash, lease), start, s, step, s');
  }

  datatype Outcome = Renewed(claims: Claims, token: Token) | NotFound | Expired | AlreadyRevoked | StoreError | Fine

  /** The new token took over the login of the old one. */
  ghost predicate TookOver(start: State, s: State, raw: Token, claims: Claims, token: Token) {
    && token !in start.used && raw in s.rotated && raw in s.chains && token in s.chains
    && s.chains[token] == s.chains[raw] < |s.logins| && claims == s.logins[s.chains[raw]]
  }

  /** A positive length of time. */
  type Seconds = s: int | 0 < s witness 1

  /** The row's lease, counted from when it was minted, is still running. */
  ghost predicate WithinLease(row: Row, now: int, lease: int) {
    exists t :: 0 < t <= now && MintedAt(row, t, lease) && now < t + lease
  }

  ghost predicate PastLease(row: Row, now: int, lease: int) {
    exists t :: 0 < t <= now && MintedAt(row, t, lease) && t + lease <= now
  }

  /** An unrevoked row is past its lease or within it, and expired accordingly. */
  lemma LeaseDecides(s: State, hash: Token -> string, i: nat, lease: Seconds)
    requires Inv(s, hash) && Leased(s, lease) && i < |s.rows| && !IsRevoked(s.rows[i])
    ensures if IsExpired(s.rows[i], s.now) then PastLease(s.rows[i], s.now, lease)
            else WithinLease(s.rows[i], s.now, lease)
  {
    assert RowInv(s, hash, s.rows[i]);
    assert LeasedRow(s.rows[i], s.now, lease);
    var t :| 0 < t <= s.now && MintedAt(s.rows[i], t, lease);
    ActiveExactly(s.rows[i], t, lease, s.now);
  }

  class Store {
    const hash: Token -> string
    const lease: Seconds
    var state: State

    constructor (hash: Token -> string, lease: int)
      requires Injective(hash)
      ensures this.hash == hash && this.lease == (if lease <= 0 then 7 * 24 * 3600 else lease)
      ensures state == INIT && After(INIT, state, hash, this.lease)
    {
      this.hash := hash;
      this.lease := if lease <= 0 then 7 * 24 * 3600 else lease;
      state := INIT;
      new;
      Paths.ReachesSelf(Moves(hash, this.lease), INIT);
    }

    /** Time for everything but call `id`. */
    method Pause(ghost start: State, id: CallId, others: State -> State)
      requires After(start, state, hash, lease) && Elsewhere(others, id, hash, lease)
      modifies this
      ensures After(start, state, hash, lease) && LeftAlone(old(state), state, id, hash)
    {
      OthersLeaveAlone(state, others(state), id, hash, lease);
      ReachesKeepsLeases(state, others(state), hash, lease);
      Paths.ReachesJoins(Moves(hash, lease), start, state, others(state));
      state := others(state);
    }

    /** Opens a login: one row for its first token, or nothing when the write fails. */
    method Issue(claims: Claims, token: Token, written: bool) returns (expires: Option<int>)
      requires Inv(state, hash) && Leased(state, lease) && Injective(hash) && Drawable(state, token)
      modifies this
      ensures Goes(old(state), Login(claims, token, written), state, hash, lease)
      ensures After(old(state), state, hash, lease)
      ensures expires == if written then Some(old(state).now + lease) else None
    {
      ghost var start := state;
      Paths.ReachesSelf(Moves(hash, lease), state);
      var row := Minted(state, claims, token, |state.logins|, hash, lease);
      state := state.(used := state.used + {token});
      if written {
        state := state.(rows := state.rows + [row], chains := state.chains[token := |state.logins|],
                        logins := state.logins + [claims]);
        expires := Some(state.now + lease);
      } else {
        expires := None;
      }
      AfterStep(start, start, Login(claims, token, written), state, hash, lease);
    }

    /** Exchanges an active token: revokes it, then mints its successor with the same claims.
        Others act between its calls of the store. */
    method VerifyAndRotate(id: CallId, raw: Token, mint: State -> Token, answered: bool, marked: bool, written: bool,
                           others: State -> State)
      returns (r: Outcome)
      requires Inv(state, hash) && Leased(state, lease) && Injective(hash) && id !in state.calls
      requires Elsewhere(others, id, hash, lease) && forall s :: Drawable(s, mint(s))
      modifies this
      ensures After(old(state), state, hash, lease) && id !in state.calls
      ensures match Lookup(old(state), hash, raw)
              case None => r == NotFound && state == old(state)
              case Some(i) =>
                var row := old(state).rows[i];
                if IsRevoked(row) then r == AlreadyRevoked && state == old(state)
                else if IsExpired(row, old(state).now) then r == Expired && state == old(state)
                else if !marked || !written then r == StoreError
                else r.Renewed? && r.claims == ClaimsFromDoc(row.doc)
                     && TookOver(old(state), state, raw, r.claims, r.token)
      ensures r.Renewed? || r == Expired ==> Lookup(old(state), hash, raw).Some?
      ensures r.Renewed? ==> WithinLease(old(state).rows[Lookup(old(state), hash, raw).value], old(state).now, lease)
      ensures r == Expired ==> PastLease(old(state).rows[Lookup(old(state), hash, raw).value], old(state).now, lease)
    {
      ghost var start := state;
      Paths.ReachesSelf(Moves(hash, lease), state);
      var found := Lookup(state, hash, raw);
      if found.None? {
        return NotFound;
      }
      var row := state.rows[found.value];
      if IsRevoked(row) {
        return AlreadyRevoked;
      }
      LeaseDecides(state, hash, found.value, lease);
      if IsExpired(row, state.now) {
        return Expired;
      }
      StartRotation(start, id, raw, row);
      Pause(start, id, others);
      var ok := MarkRevoked(start, id, answered, marked, others);
      if !ok {
        return StoreError;
      }
      Pause(start, id, others);
      var token := Mint(start, id, mint(state), written);
      r := if token.Some? then Renewed(ClaimsFromDoc(row.doc), token.value) else StoreError;
    }

    method StartRotation(ghost start: State, id: CallId, raw: Token, row: Row)
      requires After(start, state, hash, lease) && id !in state.calls
      requires Rotatable(state, hash, raw).Some? && row == state.rows[Rotatable(state, hash, raw).value]
      modifies this
      ensures Goes(old(state), Check(id, raw), state, hash, lease) && After(start, state, hash, lease)
      ensures Rotates(state, id) && state.calls[id].raw == raw && state.calls[id].phase.Checked?
      ensures state.calls[id].claims == ClaimsFromDoc(row.doc)
    {
      ghost var before := state;
      RotatesItsRow(state, hash, raw);
      state := state.(calls := state.calls[id := Rotation(raw, ClaimsFromDoc(row.doc), row.chain.value, Checked)]);
      AfterStep(start, before, Check(id, raw), state, hash, lease);
    }

    /** Looks the token up once more for its tenant, then writes the revocation under it. */
    method MarkRevoked(ghost start: State, id: CallId, answered: bool, written: bool, others: State -> State)
      returns (ok: bool)
      requires After(start, state, hash, lease) && id in state.calls && state.calls[id].phase.Checked?
      requires Elsewhere(others, id, hash, lease)
      modifies this
      ensures After(start, state, hash, lease) && Grows(old(state), state) && ok == written
      ensures id in state.calls <==> ok && old(state).calls[id].Rotation?
      ensures id in state.calls ==> state.calls[id] == old(state).calls[id].(phase := Marked)
      ensures ok && answered ==> NoneLeft(state, old(state).calls[id].raw)
    {
      ReadTenant(start, id, answered);
      ghost var looked := state;
      Pause(start, id, others);
      if answered {
        TenantStaysRight(looked, state, id, hash);
      }
      WriteRevocation(start, id, written);
      ok := written;
    }

    method ReadTenant(ghost start: State, id: CallId, answered: bool)
      requires After(start, state, hash, lease) && id in state.calls && state.calls[id].phase.Checked?
      modifies this
      ensures After(start, state, hash, lease) && Grows(old(state), state) && id in state.calls
      ensures state.calls[id].phase.Looked? && state.calls[id] == old(state).calls[id].(phase := state.calls[id].phase)
      ensures answered ==> TenantRight(state, id)
    {
      ghost var before := state;
      var call := state.calls[id];
      var tenant := "";
      if answered {
        var i := FirstFrom(state.rows, HasHash(hash(call.raw)), 0);
        if i < |state.rows| {
          tenant := TenantOf(state.rows[i]);
        }
      }
      state := state.(calls := state.calls[id := call.(phase := Looked(tenant))]);
      AfterStep(start, before, Look(id, answered), state, hash, lease);
      if answered {
        LookFindsTenant(before, id, state, hash, lease);
      }
    }

    method WriteRevocation(ghost start: State, id: CallId, written: bool)
      requires After(start, state, hash, lease) && id in state.calls && state.calls[id].phase.Looked?
      modifies this
      ensures After(start, state, hash, lease) && Grows(old(state), state)
      ensures id in state.calls <==> written && old(state).calls[id].Rotation?
      ensures id in state.calls ==> state.calls[id] == old(state).calls[id].(phase := Marked)
      ensures written && TenantRight(old(state), id) ==> NoneLeft(state, old(state).calls[id].raw)
    {
      ghost var before := state;
      var call := state.calls[id];
      if written {
        var rows := Upsert(state.rows, call.phase.tenant, hash(call.raw), call.raw, state.now);
        state := state.(rows := rows);
      }
      if written && call.Rotation? {
        state := state.(calls := state.calls[id := call.(phase := Marked)]);
      } else {
        state := state.(calls := state.calls - {id});
      }
      AfterStep(start, before, Mark(id, written), state, hash, lease);
      if written && TenantRight(before, id) {
        RevokedForGood(before, id, state, hash, lease);
      }
    }

    /** Patches the first row with the key, or inserts one. */
    method Upsert(rows: seq<Row>, tenant: string, h: string, raw: Token, now: int) returns (out: seq<Row>)
      ensures out == MarkRows(rows, tenant, h, raw, now)
    {
      for i := 0 to |rows|
        invariant FirstFrom(rows, HasKey(tenant, h), 0) == FirstFrom(rows, HasKey(tenant, h), i)
      {
        if TenantOf(rows[i]) == tenant && HashOf(rows[i]) == h {
          return rows[i := Revoked(rows[i], now)];
        }
      }
      out := rows + [Stub(tenant, h, raw, now)];
    }

    method Mint(ghost start: State, id: CallId, token: Token, written: bool) returns (minted: Option<Token>)
      requires After(start, state, hash, lease) && Rotates(state, id) && state.calls[id].phase.Marked?
      requires Drawable(state, token)
      modifies this
      ensures After(start, state, hash, lease) && id !in state.calls
      ensures minted == if written then Some(token) else None
      ensures written ==> TookOver(start, state, old(state).calls[id].raw, old(state).calls[id].claims, token)
    {
      ghost var before := state;
      var call := state.calls[id];
      assert CallInv(state, call);
      state := state.(used := state.used + {token}, calls := state.calls - {id});
      if written {
        var row := Row(TokenDoc(call.claims, hash(token), state.now, lease), token, Some(call.chain));
        state := state.(rows := state.rows + [row], chains := state.chains[token := call.chain],
                        rotated := state.rotated + [call.raw]);
      }
      AfterStep(start, before, Step.Issue(id, token, written), state, hash, lease);
      minted := if written then Some(token) else None;
    }

    /** Revokes a known token; an unknown one is not an error. */
    method RevokeToken(id: CallId, raw: Token, answered: bool, written: bool, others: State -> State)
      returns (r: Outcome)
      requires Inv(state, hash) && Leased(state, lease) && Injective(hash) && id !in state.calls
      requires Elsewhere(others, id, hash, lease)
      modifies this
      ensures After(old(state), state, hash, lease) && id !in state.calls
      ensures Lookup(old(state), hash, raw).None? ==> r == Fine && state == old(state)
      ensures Lookup(old(state), hash, raw).Some? ==> r == if written then Fine else StoreError
      ensures Lookup(old(state), hash, raw).Some? && written && answered ==> NoneLeft(state, raw)
    {
      ghost var start := state;
      Paths.ReachesSelf(Moves(hash, lease), state);
      var found := Lookup(state, hash, raw);
      if found.None? {
        return Fine;
      }
      StartLogout(start, id, raw);
      Pause(start, id, others);
      var ok := MarkRevoked(start, id, answered, written, others);
      r := if ok then Fine else StoreError;
    }

    method StartLogout(ghost start: State, id: CallId, raw: Token)
      requires After(start, state, hash, lease) && id !in state.calls && Lookup(state, hash, raw).Some?
      modifies this
      ensures Goes(old(state), Begin(id, raw), state, hash, lease) && After(start, state, hash, lease)
      ensures id in state.calls && state.calls[id] == Logout(raw, Checked)
    {
      ghost var before := state;
      state := state.(calls := state.calls[id := Logout(raw, Checked)]);
      AfterStep(start, before, Begin(id, raw), state, hash, lease);
    }

    /** Deletes the rows whose lease has run out, unless the delete fails, and counts them. */
    method CleanUp(deleted: bool) returns (n: nat)
      requires Inv(state, hash) && Leased(state, lease) && Injective(hash)
      modifies this
      ensures Goes(old(state), Cleanup(deleted), state, hash, lease) && After(old(state), state, hash, lease)
      ensures n == |old(state).rows| - |state.rows|
      ensures forall row <- old(state).rows :: row in state.rows <==> !deleted || !Elapsed(row, old(state).now)
      ensures forall row <- old(state).rows, t :: MintedAt(row, t, lease) && 0 < t ==>
                (row in state.rows <==> !deleted || old(state).now <= t + lease)
    {
      ghost var start := state;
      Paths.ReachesSelf(Moves(hash, lease), state);
      AfterStep(start, start, Cleanup(deleted), Apply(start, Cleanup(deleted), hash, lease), hash, lease);
      n := 0;
      if deleted {
        var kept;
        kept, n := DropElapsed(state.rows, state.now);
        state := state.(rows := kept);
      }
      forall row, t | row in start.rows && MintedAt(row, t, lease) && 0 < t
        ensures row in state.rows <==> !deleted || start.now <= t + lease
      {
        ActiveExactly(row, t, lease, start.now);
      }
    }

    method DropElapsed(rows: seq<Row>, now: int) returns (kept: seq<Row>, n: nat)
      ensures kept == Unexpired(rows, now) && n + |kept| == |rows|
      ensures forall row <- rows :: row in kept <==> !Elapsed(row, now)
    {
      kept, n := [], 0;
      for i := 0 to |rows|
        invariant kept + Unexpired(rows[i..], now) == Unexpired(rows, now) && n + |kept| == i
        invariant forall row <- kept :: !Elapsed(row, now)
        invariant forall j :: 0 <= j < i && !Elapsed(rows[j], now) ==> rows[j] in kept
      {
        assert rows[i..][0] == rows[i] && rows[i..][1..] == rows[i + 1..];
        if Elapsed(rows[i], now) {
          n := n + 1;
        } else {
          kept := kept + [rows[i]];
        }
      }
    }
  }

  /** The tenant read is that of the token's unrevoked row, if it has one. */
  ghost predicate TenantRight(s: State, id: CallId) {
    id in s.calls && s.calls[id].phase.Looked?
    && forall i :: 0 <= i < |s.rows| && s.rows[i].token == s.calls[id].raw && !IsRevoked(s.rows[i]) ==>
         TenantOf(s.rows[i]) == s.calls[id].phase.tenant
  }

  /** Every row of the token is revoked. */
  ghost predicate NoneLeft(s: State, raw: Token) {
    forall i :: 0 <= i < |s.rows| && s.rows[i].token == raw ==> IsRevoked(s.rows[i])
  }

  lemma LookFindsTenant(s: State, id: CallId, looked: State, hash: Token -> string, lease: int)
    requires Inv(s, hash) && Injective(hash) && Goes(s, Look(id, true), looked, hash, lease)
    ensures TenantRight(looked, id)
  {
    forall i | 0 <= i < |s.rows| && s.rows[i].token == s.calls[id].raw && !IsRevoked(s.rows[i])
      ensures TenantOf(s.rows[i]) == looked.calls[id].phase.tenant
    {
      assert RowInv(s, hash, s.rows[i]);
      FindsItsRow(s, hash, i);
    }
  }

  lemma TenantStaysRight(s: State, s': State, id: CallId, hash: Token -> string)
    requires Inv(s, hash) && TenantRight(s, id) && LeftAlone(s, s', id, hash)
    ensures TenantRight(s', id)
  {
    assert CallInv(s, s.calls[id]);
    forall i | 0 <= i < |s'.rows| && s'.rows[i].token == s.calls[id].raw && !IsRevoked(s'.rows[i])
      ensures TenantOf(s'.rows[i]) == s.calls[id].phase.tenant
    {
      var j :| 0 <= j < |s.rows| && s.rows[j] == s'.rows[i];
    }
  }

  lemma RevokedForGood(s: State, id: CallId, end: State, hash: Token -> string, lease: int)
    requires Inv(s, hash) && Injective(hash) && TenantRight(s, id) && Goes(s, Mark(id, true), end, hash, lease)
    ensures NoneLeft(end, s.calls[id].raw)
  {
    var raw, tenant := s.calls[id].raw, s.calls[id].phase.tenant;
    MarkRowsRevoke(s.rows, tenant, hash(raw), raw, s.now);
    forall i | 0 <= i < |end.rows| && end.rows[i].token == raw ensures IsRevoked(end.rows[i]) {
      if i < |s.rows| && s.rows[i].token == raw && !IsRevoked(s.rows[i]) {
        assert RowInv(s, hash, s.rows[i]);
        FindsItsRow(s, hash, i);
        RevokedFields(s.rows[i], s.now);
      }
    }
  }
}
