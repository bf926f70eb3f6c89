/** Refresh-token rotation: logins, rotations, logouts and cleanups as a step system on one clock,
    one step for each call of the store, so that calls may interleave in any way. */
module RefreshTokens {
  import opened Values
  import Paths

  type Token = string
  type CallId = nat

  datatype Claims = Claims(
    subject: string, method_: string, tenant: string,
    roles: seq<string>, permissions: seq<string>, groups: seq<string>)

  // ---- Claims through a stored document ----

  function StringsToAny(names: seq<string>): Value {
    if names == [] then Null else List(seq(|names|, i requires 0 <= i < |names| => Str(names[i])))
  }

  function StringsOf(vs: seq<Value>): seq<string> {
    if vs == [] then [] else (if vs[0].Str? then [vs[0].s] else []) + StringsOf(vs[1..])
  }

  function AnyToStrings(v: Value): seq<string> { if v.List? then StringsOf(v.elems) else [] }

  function StringAt(doc: Record, key: string): string {
    if key in doc && doc[key].Str? then doc[key].s else ""
  }

  function ClaimsDoc(c: Claims): Record {
    map["tenant_id" := Str(c.tenant), "subject" := Str(c.subject), "method" := Str(c.method_),
        "roles" := StringsToAny(c.roles), "permissions" := StringsToAny(c.permissions),
        "groups" := StringsToAny(c.groups)]
  }

  function ListAt(doc: Record, key: string): seq<string> { if key in doc then AnyToStrings(doc[key]) else [] }

  function ClaimsFromDoc(doc: Record): Claims {
    Claims(StringAt(doc, "subject"), StringAt(doc, "method"), StringAt(doc, "tenant_id"),
           ListAt(doc, "roles"), ListAt(doc, "permissions"), ListAt(doc, "groups"))
  }

  lemma {:induction false} StringsOfStrs(names: seq<string>, vs: seq<Value>)
    requires |vs| == |names| && forall i :: 0 <= i < |names| ==> vs[i] == Str(names[i])
    ensures StringsOf(vs) == names
  {
    if names == [] {
    } else {
      StringsOfStrs(names[1..], vs[1..]);
      assert names == [names[0]] + names[1..];
    }
  }

  lemma NamesSurviveStorage(names: seq<string>)
    ensures AnyToStrings(StringsToAny(names)) == names
  {
    if names != [] {
      StringsOfStrs(names, StringsToAny(names).elems);
    }
  }

  /** A token's stored document gives back the claims it was issued for. */
  lemma ClaimsSurviveStorage(c: Claims)
    ensures ClaimsFromDoc(ClaimsDoc(c)) == c
  {
    NamesSurviveStorage(c.roles);
    NamesSurviveStorage(c.permissions);
    NamesSurviveStorage(c.groups);
  }

  /** A number stored under a key, as a whole number of seconds. */
  function AsUnix(doc: Record, key: string): int {
    if key !in doc then 0
    else
      match doc[key]
      case Int(i) => i
      case Float(f) => if f >= 0.0 then f.Floor else -(-f).Floor
      case _ => 0
  }

  // ---- The token table ----

  /** A stored token. `token` and `chain` are history variables: the token the hash is of and
      the login it descends from, which a row that only records a revocation has not. */
  datatype Row = Row(doc: Record, token: Token, chain: Option<nat>)

  function HashOf(row: Row): string { StringAt(row.doc, "token_hash") }
  function TenantOf(row: Row): string { StringAt(row.doc, "tenant_id") }

  predicate IsRevoked(row: Row) { AsUnix(row.doc, "revoked_at") > 0 }

  predicate IsExpired(row: Row, now: int) {
    AsUnix(row.doc, "expires_at") > 0 && now >= AsUnix(row.doc, "expires_at")
  }

  predicate Active(row: Row, now: int) { !IsRevoked(row) && !IsExpired(row, now) }

  function TokenDoc(c: Claims, h: string, now: int, lease: int): Record {
    ClaimsDoc(c) + map["token_hash" := Str(h), "issued_at" := Float(now as real),
                       "expires_at" := Float((now + lease) as real), "revoked_at" := Float(0.0)]
  }

  function Revoked(row: Row, now: int): Row { row.(doc := row.doc["revoked_at" := Float(now as real)]) }

  /** What revoking inserts when no row has the tenant and the hash. */
  function Stub(tenant: string, h: string, raw: Token, now: int): Row {
    Row(map["tenant_id" := Str(tenant), "token_hash" := Str(h), "revoked_at" := Float(now as real)], raw, None)
  }

  function HasHash(h: string): Row -> bool { (row: Row) => HashOf(row) == h }
  function HasKey(tenant: string, h: string): Row -> bool {
    (row: Row) => TenantOf(row) == tenant && HashOf(row) == h
  }

  function MarkRows(rows: seq<Row>, tenant: string, h: string, raw: Token, now: int): seq<Row> {
    var i := FirstFrom(rows, HasKey(tenant, h), 0);
    if i < |rows| then rows[i := Revoked(rows[i], now)] else rows + [Stub(tenant, h, raw, now)]
  }

  predicate Elapsed(row: Row, now: int) { "expires_at" in row.doc && AsUnix(row.doc, "expires_at") < now }

  function Unexpired(rows: seq<Row>, now: int): seq<Row> {
    if rows == [] then []
    else (if Elapsed(rows[0], now) then [] else [rows[0]]) + Unexpired(rows[1..], now)
  }

  // ---- Steps ----

  /** A call under way has found its token, has read the tenant to revoke it under, or has
      revoked it. */
  datatype Phase = Checked | Looked(tenant: string) | Marked

  datatype Progress =
    | Rotation(raw: Token, claims: Claims, chain: nat, phase: Phase)
    | Logout(raw: Token, phase: Phase)

  /** `used` are the tokens ever drawn, `chains` the login each minted one descends from,
      `rotated` those that have been exchanged, in order, and `logins` the claims of each login. */
  datatype State = State(
    now: int, rows: seq<Row>, used: set<Token>, chains: map<Token, nat>,
    rotated: seq<Token>, logins: seq<Claims>, calls: map<CallId, Progress>)

  /** The clock starts after the epoch. */
  const INIT: State := State(1, [], {}, map[], [], [], map[])

  ghost predicate Injective(hash: Token -> string) { forall a, b :: hash(a) == hash(b) ==> a == b }

  function Lookup(s: State, hash: Token -> string, raw: Token): (r: Option<nat>)
    ensures r.Some? ==> r.value < |s.rows| && HashOf(s.rows[r.value]) == hash(raw)
  {
    var i := FirstFrom(s.rows, HasHash(hash(raw)), 0);
    if raw == "" || i == |s.rows| then None else Some(i)
  }

  /** The row a presented token may be exchanged for, if it is known and active. */
  function Rotatable(s: State, hash: Token -> string, raw: Token): (r: Option<nat>)
    ensures r.Some? ==> r.value < |s.rows| && HashOf(s.rows[r.value]) == hash(raw) && Active(s.rows[r.value], s.now)
  {
    var i := Lookup(s, hash, raw);
    if i.Some? && Active(s.rows[i.value], s.now) then i else None
  }

  /** A flag tells whether the store did what it was asked. */
  datatype Step =
    | Tick(to: int)
    | Login(claims: Claims, token: Token, written: bool)
    | Check(id: CallId, raw: Token)
    | Begin(id: CallId, raw: Token)
    | Look(id: CallId, answered: bool)
    | Mark(id: CallId, written: bool)
    | Issue(id: CallId, token: Token, written: bool)
    | Cleanup(deleted: bool)

  /** A drawn token is a new, non-empty one. */
  predicate Drawable(s: State, token: Token) { token !in s.used && token != "" }

  predicate Enabled(s: State, step: Step, hash: Token -> string) {
    match step
    case Tick(to) => s.now <= to
    case Login(_, token, _) => Drawable(s, token)
    case Check(id, raw) => id !in s.calls && Rotatable(s, hash, raw).Some?
    case Begin(id, raw) => id !in s.calls && Lookup(s, hash, raw).Some?
    case Look(id, _) => id in s.calls && s.calls[id].phase.Checked?
    case Mark(id, _) => id in s.calls && s.calls[id].phase.Looked?
    case Issue(id, token, _) => Rotates(s, id) && s.calls[id].phase.Marked? && Drawable(s, token)
    case Cleanup(_) => true
  }

  predicate Rotates(s: State, id: CallId) { id in s.calls && s.calls[id].Rotation? }

  /** The tenant the second lookup of a token finds; a failed or empty one finds none. */
  function TenantFound(s: State, hash: Token -> string, raw: Token, answered: bool): string {
    var i := FirstFrom(s.rows, HasHash(hash(raw)), 0);
    if answered && i < |s.rows| then TenantOf(s.rows[i]) else ""
  }

  /** The row of a token minted now. */
  function Minted(s: State, c: Claims, token: Token, chain: nat, hash: Token -> string, lease: int): Row {
    Row(TokenDoc(c, hash(token), s.now, lease), token, Some(chain))
  }

  function Apply(s: State, step: Step, hash: Token -> string, lease: int): State
    requires Enabled(s, step, hash)
  {
    match step
    case Tick(to) => s.(now := to)
    case Login(claims, token, written) =>
      if !written then s.(used := s.used + {token})
      else
        s.(rows := s.rows + [Minted(s, claims, token, |s.logins|, hash, lease)],
           used := s.used + {token}, chains := s.chains[token := |s.logins|], logins := s.logins + [claims])
    case Check(id, raw) =>
      var row := s.rows[Rotatable(s, hash, raw).value];
      var chain := if row.chain.Some? then row.chain.value else 0;
      s.(calls := s.calls[id := Rotation(raw, ClaimsFromDoc(row.doc), chain, Checked)])
    case Begin(id, raw) => s.(calls := s.calls[id := Logout(raw, Checked)])
    case Look(id, answered) =>
      var call := s.calls[id];
      s.(calls := s.calls[id := call.(phase := Looked(TenantFound(s, hash, call.raw, answered)))])
    case Mark(id, written) =>
      if !written then s.(calls := s.calls - {id})
      else
        var call := s.calls[id];
        s.(rows := MarkRows(s.rows, call.phase.tenant, hash(call.raw), call.raw, s.now),
           calls := if call.Rotation? then s.calls[id := call.(phase := Marked)] else s.calls - {id})
    case Issue(id, token, written) =>
      var call := s.calls[id];
      if !written then s.(used := s.used + {token}, calls := s.calls - {id})
      else
        s.(rows := s.rows + [Minted(s, call.claims, token, call.chain, hash, lease)],
           used := s.used + {token}, chains := s.chains[token := call.chain],
           rotated := s.rotated + [call.raw], calls := s.calls - {id})
    case Cleanup(deleted) => if deleted then s.(rows := Unexpired(s.rows, s.now)) else s
  }

  ghost predicate Goes(s: State, step: Step, s': State, hash: Token -> string, lease: int) {
    Enabled(s, step, hash) && s' == Apply(s, step, hash, lease)
  }

  // ---- What every interleaving keeps ----

  /** The row is of a drawn token. Unless it only records a revocation, its document carries
      the claims its login had. */
  ghost predicate RowInv(s: State, hash: Token -> string, row: Row) {
    && HashOf(row) == hash(row.token) && row.token in s.used
    && match row.chain
       case None => IsRevoked(row)
       case Some(k) =>
         row.token in s.chains && s.chains[row.token] == k && k < |s.logins| && ClaimsFromDoc(row.doc) == s.logins[k]
  }

  ghost predicate CallInv(s: State, call: Progress) {
    && call.raw in s.used
    && (call.Rotation? ==> call.raw in s.chains && s.chains[call.raw] == call.chain
                           && call.chain < |s.logins| && call.claims == s.logins[call.chain])
  }

  /** A token's own row comes before any other row of the same token. */
  predicate Ahead(x: Row, y: Row) { y.chain.Some? ==> x.token != y.token }

  predicate Pairwise(rows: seq<Row>, p: (Row, Row) -> bool) {
    forall i, j :: 0 <= i < j < |rows| ==> p(rows[i], rows[j])
  }

  ghost const AHEAD: (Row, Row) -> bool := (x, y) => Ahead(x, y)

  ghost predicate Inv(s: State, hash: Token -> string) {
    && (forall i :: 0 <= i < |s.rows| ==> RowInv(s, hash, s.rows[i]))
    && Pairwise(s.rows, AHEAD)
    && (forall id <- s.calls :: CallInv(s, s.calls[id]))
    && s.chains.Keys <= s.used && "" !in s.used && s.now > 0
    && (forall t <- s.rotated :: t in s.chains)
  }

  lemma NewRowFields(c: Claims, h: string, now: int, lease: int, token: Token, chain: nat)
    ensures var row := Row(TokenDoc(c, h, now, lease), token, Some(chain));
            && HashOf(row) == h && TenantOf(row) == c.tenant && !IsRevoked(row) && ClaimsFromDoc(row.doc) == c
            && (lease > 0 ==> Active(row, now))
  {
    var doc := TokenDoc(c, h, now, lease);
    assert ((now + lease) as real).Floor == now + lease;
    assert doc["expires_at"] == Float((now + lease) as real);
    ClaimsSurviveStorage(c);
    SameClaims(ClaimsDoc(c), doc);
    assert doc["token_hash"] == Str(h) && doc["revoked_at"] == Float(0.0);
  }

  /** The claims depend only on the claims' own fields. */
  lemma SameClaims(a: Record, b: Record)
    requires forall k <- a :: k in b && b[k] == a[k]
    requires {"subject", "method", "tenant_id", "roles", "permissions", "groups"} <= a.Keys
    ensures ClaimsFromDoc(b) == ClaimsFromDoc(a) && StringAt(b, "tenant_id") == StringAt(a, "tenant_id")
  {
  }

  lemma RevokedFields(row: Row, now: int)
    requires now > 0
    ensures IsRevoked(Revoked(row, now)) && HashOf(Revoked(row, now)) == HashOf(row)
    ensures TenantOf(Revoked(row, now)) == TenantOf(row)
    ensures ClaimsFromDoc(Revoked(row, now).doc) == ClaimsFromDoc(row.doc)
  {
    assert (now as real).Floor == now;
  }

  lemma StubFields(tenant: string, h: string, raw: Token, now: int)
    requires now > 0
    ensures IsRevoked(Stub(tenant, h, raw, now)) && HashOf(Stub(tenant, h, raw, now)) == h
  {
    assert (now as real).Floor == now;
  }

  /** Adding rows, tokens and logins keeps what held of a row. */
  lemma RowInvGrows(s: State, s': State, hash: Token -> string, row: Row)
    requires RowInv(s, hash, row) && s.used <= s'.used && s.logins <= s'.logins
    requires forall t <- s.chains :: t in s'.chains && s'.chains[t] == s.chains[t]
    ensures RowInv(s', hash, row)
  {
  }

  lemma CallInvGrows(s: State, s': State, call: Progress)
    requires CallInv(s, call) && s.used <= s'.used && s.logins <= s'.logins
    requires forall t <- s.chains :: t in s'.chains && s'.chains[t] == s.chains[t]
    ensures CallInv(s', call)
  {
  }

  /** A step that appends the row of a new token. */
  lemma MintKeeps(s: State, s': State, hash: Token -> string, row: Row)
    requires Inv(s, hash) && Drawable(s, row.token) && row.chain.Some? && s'.now == s.now
    requires forall t <- s'.rotated :: t in s'.chains
    requires s'.rows == s.rows + [row] && RowInv(s', hash, row) && s'.used == s.used + {row.token}
    requires s'.chains == s.chains[row.token := row.chain.value] && s.logins <= s'.logins
    requires forall id <- s'.calls :: id in s.calls && s'.calls[id] == s.calls[id]
    ensures Inv(s', hash)
  {
    forall i | 0 <= i < |s'.rows| ensures RowInv(s', hash, s'.rows[i]) {
      if i < |s.rows| {
        RowInvGrows(s, s', hash, s.rows[i]);
      }
    }
    forall i, j | 0 <= i < j < |s'.rows| ensures Ahead(s'.rows[i], s'.rows[j]) {
      assert RowInv(s, hash, s.rows[i]);
      if j < |s.rows| {
        assert AHEAD(s.rows[i], s.rows[j]);
      }
    }
    forall id | id in s'.calls ensures CallInv(s', s'.calls[id]) {
      CallInvGrows(s, s', s.calls[id]);
    }
  }

  lemma LoginKeeps(s: State, step: Step, s': State, hash: Token -> string, lease: int)
    requires Inv(s, hash) && step.Login? && step.written && Goes(s, step, s', hash, lease)
    ensures Inv(s', hash)
  {
    NewRowFields(step.claims, hash(step.token), s.now, lease, step.token, |s.logins|);
    MintKeeps(s, s', hash, s'.rows[|s.rows|]);
  }

  lemma IssueKeeps(s: State, step: Step, s': State, hash: Token -> string, lease: int)
    requires Inv(s, hash) && step.Issue? && step.written && Goes(s, step, s', hash, lease)
    ensures Inv(s', hash)
  {
    var call := s.calls[step.id];
    assert CallInv(s, call);
    NewRowFields(call.claims, hash(step.token), s.now, lease, step.token, call.chain);
    MintKeeps(s, s', hash, s'.rows[|s.rows|]);
  }

  lemma MarkRowsKeeps(s: State, s': State, hash: Token -> string, tenant: string, raw: Token, now: int)
    requires Inv(s, hash) && now > 0 && raw in s.used
    requires s' == s.(rows := MarkRows(s.rows, tenant, hash(raw), raw, now), calls := s'.calls)
    requires forall id <- s'.calls :: CallInv(s, s'.calls[id])
    ensures Inv(s', hash)
  {
    var i := FirstFrom(s.rows, HasKey(tenant, hash(raw)), 0);
    StubFields(tenant, hash(raw), raw, now);
    forall j | 0 <= j < |s'.rows| ensures RowInv(s', hash, s'.rows[j]) {
      if j < |s.rows| {
        assert RowInv(s, hash, s.rows[j]);
        RevokedFields(s.rows[j], now);
      }
    }
    forall j, k | 0 <= j < k < |s'.rows| ensures Ahead(s'.rows[j], s'.rows[k]) {
      if k < |s.rows| {
        assert AHEAD(s.rows[j], s.rows[k]);
      }
    }
    forall id | id in s'.calls ensures CallInv(s', s'.calls[id]) {
      CallInvGrows(s, s', s'.calls[id]);
    }
  }

  lemma MarkKeeps(s: State, step: Step, s': State, hash: Token -> string, lease: int)
    requires Inv(s, hash) && step.Mark? && step.written && Goes(s, step, s', hash, lease)
    ensures Inv(s', hash)
  {
    var call := s.calls[step.id];
    assert CallInv(s, call);
    MarkRowsKeeps(s, s', hash, call.phase.tenant, call.raw, s.now);
  }

  lemma {:induction false} UnexpiredKeeps(rows: seq<Row>, now: int, p: (Row, Row) -> bool)
    requires Pairwise(rows, p)
    ensures Pairwise(Unexpired(rows, now), p)
    ensures forall row <- Unexpired(rows, now) :: row in rows
  {
    if rows == [] {
    } else {
      var rest, kept := rows[1..], Unexpired(rows[1..], now);
      UnexpiredKeeps(rest, now, p);
      forall row | row in kept ensures p(rows[0], row) {
        var j :| 0 <= j < |rest| && rest[j] == row;
        assert p(rows[0], rows[j + 1]);
      }
    }
  }

  lemma CleanupKeeps(s: State, s': State, hash: Token -> string, now: int)
    requires Inv(s, hash) && s' == s.(rows := Unexpired(s.rows, now))
    ensures Inv(s', hash)
  {
    UnexpiredKeeps(s.rows, now, AHEAD);
    forall i | 0 <= i < |s'.rows| ensures RowInv(s', hash, s'.rows[i]) {
      assert s'.rows[i] in s'.rows;
      var j :| 0 <= j < |s.rows| && s.rows[j] == s'.rows[i];
      assert RowInv(s, hash, s.rows[j]);
    }
    forall id | id in s'.calls ensures CallInv(s', s'.calls[id]) {
      CallInvGrows(s, s', s.calls[id]);
    }
  }

  /** The row a rotation starts from is the token's own. */
  lemma RotatesItsRow(s: State, hash: Token -> string, raw: Token)
    requires Inv(s, hash) && Injective(hash) && Rotatable(s, hash, raw).Some?
    ensures var row := s.rows[Rotatable(s, hash, raw).value];
            row.token == raw && row.chain.Some? && RowInv(s, hash, row) && Active(row, s.now)
  {
  }

  /** The steps that change neither rows nor logins. */
  lemma QuietKeeps(s: State, s': State, hash: Token -> string)
    requires Inv(s, hash) && s.used <= s'.used && "" !in s'.used && s.now <= s'.now
    requires s' == s.(now := s'.now, used := s'.used, calls := s'.calls)
    requires forall id <- s'.calls :: CallInv(s, s'.calls[id])
    ensures Inv(s', hash)
  {
    forall i | 0 <= i < |s'.rows| ensures RowInv(s', hash, s'.rows[i]) {
      RowInvGrows(s, s', hash, s.rows[i]);
    }
    forall id | id in s'.calls ensures CallInv(s', s'.calls[id]) {
      CallInvGrows(s, s', s'.calls[id]);
    }
  }

  lemma StepKeeps(s: State, step: Step, s': State, hash: Token -> string, lease: int)
    requires Inv(s, hash) && Injective(hash) && Goes(s, step, s', hash, lease)
    ensures Inv(s', hash)
  {
    match step {
      case Tick(_) => QuietKeeps(s, s', hash);
      case Login(_, _, written) =>
        if written {
          LoginKeeps(s, step, s', hash, lease);
        } else {
          QuietKeeps(s, s', hash);
        }
      case Check(_, raw) =>
        RotatesItsRow(s, hash, raw);
        QuietKeeps(s, s', hash);
      case Begin(_, raw) =>
        assert RowInv(s, hash, s.rows[Lookup(s, hash, raw).value]);
        QuietKeeps(s, s', hash);
      case Look(id, _) =>
        assert CallInv(s, s.calls[id]);
        QuietKeeps(s, s', hash);
      case Mark(_, written) =>
        if written {
          MarkKeeps(s, step, s', hash, lease);
        } else {
          QuietKeeps(s, s', hash);
        }
      case Issue(_, _, written) =>
        if written {
          IssueKeeps(s, step, s', hash, lease);
        } else {
          QuietKeeps(s, s', hash);
        }
      case Cleanup(deleted) =>
        if deleted {
          CleanupKeeps(s, s', hash, s.now);
        }
    }
  }

  /** The row of a token that still has one is found by its hash. */
  lemma FindsItsRow(s: State, hash: Token -> string, i: nat)
    requires Inv(s, hash) && Injective(hash) && i < |s.rows| && s.rows[i].chain.Some?
    ensures FirstFrom(s.rows, HasHash(HashOf(s.rows[i])), 0) == i
    ensures FirstFrom(s.rows, HasKey(TenantOf(s.rows[i]), HashOf(s.rows[i])), 0) == i
  {
    forall j | 0 <= j < i ensures HashOf(s.rows[j]) != HashOf(s.rows[i]) {
      assert AHEAD(s.rows[j], s.rows[i]) && RowInv(s, hash, s.rows[j]) && RowInv(s, hash, s.rows[i]);
    }
  }

  /** Revoking a token leaves every unrevoked row where and as it was. */
  lemma MarkRowsRevoke(rows: seq<Row>, tenant: string, h: string, raw: Token, now: int)
    requires now > 0
    ensures var out := MarkRows(rows, tenant, h, raw, now);
            && |rows| <= |out|
            && (forall i :: 0 <= i < |out| ==> IsRevoked(out[i]) || (i < |rows| && out[i] == rows[i]))
            && (forall i :: 0 <= i < |rows| && !HasKey(tenant, h)(rows[i]) ==> out[i] == rows[i])
  {
    var out, i := MarkRows(rows, tenant, h, raw, now), FirstFrom(rows, HasKey(tenant, h), 0);
    StubFields(tenant, h, raw, now);
    if i < |rows| {
      RevokedFields(rows[i], now);
    }
  }

  // ---- Histories ----

  ghost function Moves(hash: Token -> string, lease: int): (State, Step, State) -> bool {
    (s, step, s') => Goes(s, step, s', hash, lease)
  }

  ghost predicate IsRun(run: seq<State>, steps: seq<Step>, hash: Token -> string, lease: int) {
    Paths.IsPath(Moves(hash, lease), run, steps) && run[0] == INIT
  }

  lemma RunKeepsInv(run: seq<State>, steps: seq<Step>, hash: Token -> string, lease: int, n: nat)
    requires IsRun(run, steps, hash, lease) && Injective(hash) && n < |run|
    ensures Inv(run[n], hash)
  {
    forall s, step, s' | Inv(s, hash) && Moves(hash, lease)(s, step, s') ensures Inv(s', hash) {
      StepKeeps(s, step, s', hash, lease);
    }
    Paths.PathKeeps(Moves(hash, lease), s => Inv(s, hash), run, steps, n);
  }

  /** However calls interleave, every stored token carries exactly the claims of the login it
      descends from, read back from its document. */
  lemma ClaimsFollowTheLogin(run: seq<State>, steps: seq<Step>, hash: Token -> string, lease: int, n: nat, i: nat)
    requires IsRun(run, steps, hash, lease) && Injective(hash) && n < |run| && i < |run[n].rows|
    ensures var row := run[n].rows[i];
            if row.chain.None? then IsRevoked(row)
            else row.chain.value < |run[n].logins| && ClaimsFromDoc(row.doc) == run[n].logins[row.chain.value]
  {
    RunKeepsInv(run, steps, hash, lease, n);
    assert RowInv(run[n], hash, run[n].rows[i]);
  }
}
