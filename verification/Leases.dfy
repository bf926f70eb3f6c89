/** How long a refresh token lasts: the lease counted from the moment it was minted, in every run. */
module Leases {
  import opened Values
  import opened RefreshTokens
  import Paths

  // ---- What a token's document says ----

  /** The list of names under a key; an empty one is stored as null. */
  ghost predicate HoldsNames(doc: Record, key: string, names: seq<string>) {
    && key in doc
    && if names == [] then doc[key] == Null
       else doc[key].List? && |doc[key].elems| == |names|
            && forall i :: 0 <= i < |names| ==> doc[key].elems[i] == Str(names[i])
  }

  /** The claims in a stored document, member by member. */
  lemma StoredClaims(c: Claims)
    ensures var doc := ClaimsDoc(c);
            && doc.Keys == {"tenant_id", "subject", "method", "roles", "permissions", "groups"}
            && doc["tenant_id"] == Str(c.tenant) && doc["subject"] == Str(c.subject) && doc["method"] == Str(c.method_)
            && HoldsNames(doc, "roles", c.roles) && HoldsNames(doc, "permissions", c.permissions)
            && HoldsNames(doc, "groups", c.groups)
  {
  }

  /** The rest of a stored document: the hash, the lease and no revocation, over the claims. */
  lemma StoredToken(c: Claims, h: string, now: int, lease: int)
    ensures var doc := TokenDoc(c, h, now, lease);
            && doc.Keys == ClaimsDoc(c).Keys + {"token_hash", "issued_at", "expires_at", "revoked_at"}
            && doc["token_hash"] == Str(h) && doc["revoked_at"] == Float(0.0)
            && doc["issued_at"] == Float(now as real) && doc["expires_at"] == Float((now + lease) as real)
            && doc - {"token_hash", "issued_at", "expires_at", "revoked_at"} == ClaimsDoc(c)
  {
    StoredClaims(c);
    Overlay(ClaimsDoc(c), h, now, lease);
  }

  lemma Overlay(doc: Record, h: string, now: int, lease: int)
    requires {"token_hash", "issued_at", "expires_at", "revoked_at"} !! doc.Keys
    ensures var out := doc + map["token_hash" := Str(h), "issued_at" := Float(now as real),
                                 "expires_at" := Float((now + lease) as real), "revoked_at" := Float(0.0)];
            && out.Keys == doc.Keys + {"token_hash", "issued_at", "expires_at", "revoked_at"}
            && out["token_hash"] == Str(h) && out["revoked_at"] == Float(0.0)
            && out["issued_at"] == Float(now as real) && out["expires_at"] == Float((now + lease) as real)
            && out - {"token_hash", "issued_at", "expires_at", "revoked_at"} == doc
  {
  }

  /** The row was minted at `t`, to last for `lease`. */
  ghost predicate MintedAt(row: Row, t: int, lease: int) {
    && "issued_at" in row.doc && row.doc["issued_at"] == Float(t as real)
    && "expires_at" in row.doc && row.doc["expires_at"] == Float((t + lease) as real)
  }

  /** A token is active until its lease has run out, unless it is revoked, and not any longer. */
  lemma ActiveExactly(row: Row, t: int, lease: int, now: int)
    requires MintedAt(row, t, lease) && t > 0 && lease > 0
    ensures Active(row, now) <==> !IsRevoked(row) && now < t + lease
    ensures IsExpired(row, now) <==> t + lease <= now
    ensures Elapsed(row, now) <==> t + lease < now
  {
    assert ((t + lease) as real).Floor == t + lease;
  }

  /** A row is revoked once it carries a time of revocation after the epoch. */
  lemma RevokedExactly(row: Row, r: int)
    requires "revoked_at" in row.doc && row.doc["revoked_at"] == Float(r as real)
    ensures IsRevoked(row) <==> r > 0
  {
    if r >= 0 {
      assert (r as real).Floor == r;
    } else {
      assert ((-r) as real).Floor == -r && -(r as real) == (-r) as real;
    }
  }

  /** The row is filed under the tenant and the hash. */
  ghost predicate FiledUnder(row: Row, tenant: string, h: string) {
    TenantOf(row) == tenant && HashOf(row) == h
  }

  /** A revocation dates the first row under its tenant and hash, or adds a row that only carries
      the date; every other row, and every other member of that row, stays. */
  lemma RevocationIsDated(rows: seq<Row>, tenant: string, h: string, raw: Token, now: int) returns (at: nat)
    ensures var out := MarkRows(rows, tenant, h, raw, now);
            && at < |out| && "revoked_at" in out[at].doc && out[at].doc["revoked_at"] == Float(now as real)
            && (forall i :: 0 <= i < |rows| && i != at ==> i < |out| && out[i] == rows[i])
            && (forall i :: 0 <= i < |rows| && i < at ==> !FiledUnder(rows[i], tenant, h))
            && if at < |rows| then
                 && |out| == |rows| && FiledUnder(rows[at], tenant, h)
                 && KeepsAllBut(rows[at].doc, out[at].doc, {"revoked_at"})
               else
                 && |out| == |rows| + 1 && out[at].doc.Keys == {"tenant_id", "token_hash", "revoked_at"}
                 && out[at].doc["tenant_id"] == Str(tenant) && out[at].doc["token_hash"] == Str(h)
  {
    at := FirstFrom(rows, HasKey(tenant, h), 0);
  }

  // ---- Every row keeps the lease it was given ----

  ghost predicate Leased(s: State, lease: int) {
    forall i :: 0 <= i < |s.rows| && s.rows[i].chain.Some? ==> LeasedRow(s.rows[i], s.now, lease)
  }

  ghost predicate LeasedRow(row: Row, now: int, lease: int) {
    exists t :: 0 < t <= now && MintedAt(row, t, lease)
  }

  lemma MintedNow(s: State, c: Claims, token: Token, chain: nat, hash: Token -> string, lease: int)
    requires s.now > 0
    ensures MintedAt(Minted(s, c, token, chain, hash, lease), s.now, lease)
    ensures LeasedRow(Minted(s, c, token, chain, hash, lease), s.now, lease)
  {
    StoredToken(c, hash(token), s.now, lease);
    assert MintedAt(Minted(s, c, token, chain, hash, lease), s.now, lease);
  }

  lemma LeaseAges(row: Row, now: int, later: int, lease: int)
    requires LeasedRow(row, now, lease) && now <= later
    ensures LeasedRow(row, later, lease) && LeasedRow(Revoked(row, later), later, lease)
  {
    var t :| 0 < t <= now && MintedAt(row, t, lease);
    assert MintedAt(Revoked(row, later), t, lease);
  }

  /** Rows that come from earlier ones, as they were or revoked, keep their leases. */
  lemma LeasesFromOld(s: State, s': State, lease: int)
    requires Leased(s, lease) && s.now <= s'.now
    requires forall i :: 0 <= i < |s'.rows| && s'.rows[i].chain.Some? ==>
               exists j :: 0 <= j < |s.rows| && (s'.rows[i] == s.rows[j] || s'.rows[i] == Revoked(s.rows[j], s'.now))
    ensures Leased(s', lease)
  {
    forall i | 0 <= i < |s'.rows| && s'.rows[i].chain.Some? ensures LeasedRow(s'.rows[i], s'.now, lease) {
      var j :| 0 <= j < |s.rows| && (s'.rows[i] == s.rows[j] || s'.rows[i] == Revoked(s.rows[j], s'.now));
      LeaseAges(s.rows[j], s.now, s'.now, lease);
    }
  }

  lemma NewLeaseKeeps(s: State, s': State, lease: int, row: Row)
    requires Leased(s, lease) && s'.rows == s.rows + [row] && LeasedRow(row, s.now, lease) && s'.now == s.now
    ensures Leased(s', lease)
  {
  }

  lemma StepKeepsLeases(s: State, step: Step, s': State, hash: Token -> string, lease: int)
    requires Inv(s, hash) && Leased(s, lease) && Goes(s, step, s', hash, lease)
    ensures Leased(s', lease)
  {
    if (step.Login? || step.Issue?) && step.written {
      MintKeepsLeases(s, step, s', hash, lease);
    } else if step.Cleanup? && step.deleted {
      UnexpiredKeeps(s.rows, s.now, (x, y) => true);
      assert forall i :: 0 <= i < |s'.rows| ==> s'.rows[i] in s'.rows;
      LeasesFromOld(s, s', lease);
    } else {
      OtherStepKeepsLeases(s, step, s', hash, lease);
    }
  }

  lemma MintKeepsLeases(s: State, step: Step, s': State, hash: Token -> string, lease: int)
    requires Inv(s, hash) && Leased(s, lease) && Goes(s, step, s', hash, lease)
    requires (step.Login? || step.Issue?) && step.written
    ensures Leased(s', lease)
  {
    if step.Login? {
      MintedNow(s, step.claims, step.token, |s.logins|, hash, lease);
    } else {
      MintedNow(s, s.calls[step.id].claims, step.token, s.calls[step.id].chain, hash, lease);
    }
    NewLeaseKeeps(s, s', lease, s'.rows[|s.rows|]);
  }

  lemma OtherStepKeepsLeases(s: State, step: Step, s': State, hash: Token -> string, lease: int)
    requires Leased(s, lease) && Goes(s, step, s', hash, lease)
    requires !((step.Login? || step.Issue?) && step.written) && !(step.Cleanup? && step.deleted)
    ensures Leased(s', lease)
  {
    LeasesFromOld(s, s', lease);
  }

  lemma ReachesKeepsLeases(s: State, s': State, hash: Token -> string, lease: int)
    requires Inv(s, hash) && Injective(hash) && Leased(s, lease) && Paths.Reaches(Moves(hash, lease), s, s')
    ensures Leased(s', lease)
  {
    forall m, step, u | (Inv(m, hash) && Leased(m, lease)) && Moves(hash, lease)(m, step, u)
      ensures Inv(u, hash) && Leased(u, lease)
    {
      StepKeeps(m, step, u, hash, lease);
      StepKeepsLeases(m, step, u, hash, lease);
    }
    Paths.ReachesKeeps(Moves(hash, lease), m => Inv(m, hash) && Leased(m, lease), s, s');
  }

  // ---- Whole runs ----

  /** The token a step mints. */
  predicate Mints(step: Step, token: Token) {
    (step.Login? || step.Issue?) && step.written && step.token == token
  }

  /** Every row of the token that is not a mere revocation lasts from `t` on. */
  ghost predicate TokenLeased(s: State, token: Token, t: int, lease: int) {
    token in s.used && forall i :: 0 <= i < |s.rows| && s.rows[i].chain.Some? && s.rows[i].token == token ==>
                         MintedAt(s.rows[i], t, lease)
  }

  lemma MintLeases(s: State, step: Step, s': State, hash: Token -> string, lease: int)
    requires Inv(s, hash) && Goes(s, step, s', hash, lease) && (step.Login? || step.Issue?) && step.written
    ensures TokenLeased(s', step.token, s.now, lease)
  {
    if step.Login? {
      MintedNow(s, step.claims, step.token, |s.logins|, hash, lease);
    } else {
      MintedNow(s, s.calls[step.id].claims, step.token, s.calls[step.id].chain, hash, lease);
    }
    forall i | 0 <= i < |s.rows| ensures s.rows[i].token != step.token {
      assert RowInv(s, hash, s.rows[i]);
    }
  }

  lemma StepKeepsToken(s: State, step: Step, s': State, hash: Token -> string, lease: int, token: Token, t: int)
    requires Inv(s, hash) && Goes(s, step, s', hash, lease) && TokenLeased(s, token, t, lease)
    ensures TokenLeased(s', token, t, lease)
  {
    if step.Cleanup? {
      UnexpiredKeeps(s.rows, s.now, (x, y) => true);
      assert forall i :: 0 <= i < |s'.rows| ==> s'.rows[i] in s'.rows;
    }
  }

  /** From the step that mints it on, the token has the lease it was minted with. */
  lemma TokenKeepsLease(run: seq<State>, steps: seq<Step>, hash: Token -> string, lease: int,
                        m: nat, n: nat, token: Token)
    requires IsRun(run, steps, hash, lease) && Injective(hash) && m < n < |run| && Mints(steps[m], token)
    ensures TokenLeased(run[n], token, run[m].now, lease)
  {
    var t := run[m].now;
    RunKeepsInv(run, steps, hash, lease, m);
    RunKeepsInv(run, steps, hash, lease, m + 1);
    MintLeases(run[m], steps[m], run[m + 1], hash, lease);
    LaterLeased(run[m + 1..], steps[m + 1..], hash, lease, token, t, n - m - 1);
  }

  lemma LaterLeased(run: seq<State>, steps: seq<Step>, hash: Token -> string, lease: int, token: Token, t: int, n: nat)
    requires Paths.IsPath(Moves(hash, lease), run, steps) && Injective(hash) && n < |run|
    requires Inv(run[0], hash) && TokenLeased(run[0], token, t, lease)
    ensures TokenLeased(run[n], token, t, lease)
  {
    forall s, step, s' | (Inv(s, hash) && TokenLeased(s, token, t, lease)) && Moves(hash, lease)(s, step, s')
      ensures Inv(s', hash) && TokenLeased(s', token, t, lease)
    {
      StepKeeps(s, step, s', hash, lease);
      StepKeepsToken(s, step, s', hash, lease, token, t);
    }
    Paths.PathKeeps(Moves(hash, lease), s => Inv(s, hash) && TokenLeased(s, token, t, lease), run, steps, n);
  }

  /** In every run, however calls interleave, a token is accepted for exchange only before its
      lease, counted from the moment it was minted, has run out. */
  lemma AcceptedOnlyWithinLease(run: seq<State>, steps: seq<Step>, hash: Token -> string, lease: int, m: nat, n: nat)
    requires IsRun(run, steps, hash, lease) && Injective(hash) && lease > 0
    requires m < n < |steps| && steps[n].Check? && Mints(steps[m], steps[n].raw)
    ensures run[n].now < run[m].now + lease
  {
    RunKeepsInv(run, steps, hash, lease, m);
    RunKeepsInv(run, steps, hash, lease, n);
    assert Goes(run[n], steps[n], run[n + 1], hash, lease);
    TokenKeepsLease(run, steps, hash, lease, m, n, steps[n].raw);
    RotatesItsRow(run[n], hash, steps[n].raw);
    ActiveExactly(run[n].rows[Rotatable(run[n], hash, steps[n].raw).value], run[m].now, lease, run[n].now);
  }

  /** In every run a token whose row is still there, unrevoked, is accepted as long as its lease lasts. */
  lemma AcceptedWithinLease(run: seq<State>, steps: seq<Step>, hash: Token -> string, lease: int,
                            m: nat, n: nat, i: nat)
    requires IsRun(run, steps, hash, lease) && Injective(hash) && lease > 0
    requires m < n < |run| && i < |run[n].rows| && Mints(steps[m], run[n].rows[i].token)
    requires !IsRevoked(run[n].rows[i]) && run[n].now < run[m].now + lease
    ensures forall id :: id !in run[n].calls ==> Enabled(run[n], Check(id, run[n].rows[i].token), hash)
  {
    var s, row := run[n], run[n].rows[i];
    RunKeepsInv(run, steps, hash, lease, m);
    RunKeepsInv(run, steps, hash, lease, n);
    TokenKeepsLease(run, steps, hash, lease, m, n, row.token);
    assert RowInv(s, hash, row);
    FindsItsRow(s, hash, i);
    ActiveExactly(row, run[m].now, lease, s.now);
    assert Rotatable(s, hash, row.token) == Some(i);
  }

  /** A cleanup removes the rows whose lease ran out before it, and no others. */
  lemma CleanedExactly(run: seq<State>, steps: seq<Step>, hash: Token -> string, lease: int, m: nat, n: nat, row: Row)
    requires IsRun(run, steps, hash, lease) && Injective(hash) && lease > 0
    requires m < n < |steps| && steps[n] == Cleanup(true) && Mints(steps[m], row.token)
    requires row in run[n].rows && row.chain.Some?
    ensures row in run[n + 1].rows <==> run[n].now <= run[m].now + lease
  {
    RunKeepsInv(run, steps, hash, lease, m);
    assert Goes(run[n], steps[n], run[n + 1], hash, lease);
    TokenKeepsLease(run, steps, hash, lease, m, n, row.token);
    var i :| 0 <= i < |run[n].rows| && run[n].rows[i] == row;
    ActiveExactly(row, run[m].now, lease, run[n].now);
    UnexpiredExactly(run[n].rows, run[n].now, row);
  }

  lemma {:induction false} UnexpiredExactly(rows: seq<Row>, now: int, row: Row)
    ensures row in Unexpired(rows, now) <==> row in rows && !Elapsed(row, now)
  {
    if rows == [] {
    } else {
      UnexpiredExactly(rows[1..], now, row);
      assert rows == [rows[0]] + rows[1..];
    }
  }
}
