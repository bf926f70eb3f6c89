/** The one-shot multitenancy migration over an abstract document store, with a crash
    possible between any two of its storage operations. */
module Migration {
  import opened Values
  import opened Conditions
  import opened Evaluator
  import opened Tenant

  type Doc = Record
  type Db = map<string, seq<Doc>>

  const DEFAULT_TENANT: string := "default"
  const PLATFORM_ADMIN: string := "platform_admin"
  const MARKER: string := "multitenancy_v1"

  const SCOPED: seq<string> := [
    "record", "rule", "aggregaterule", "snooze", "notification", "action", "user", "role",
    "refresh_token", "audit", "stats", "settings", "comment", "environment", "kv", "profile",
    "widget", "aggregate", "general", "heartbeat"]

  /** What the migration does not decide: the uid each inserted document is given and the
      order in which a set of roles is written out. */
  datatype Choices = Choices(tenantUid: string, roleUid: string, markerUid: string, order: set<string> -> seq<string>)

  ghost predicate Honest(ch: Choices) {
    forall s :: (set r | r in ch.order(s)) == s
  }

  function Rows(db: Db, col: string): seq<Doc> { if col in db then db[col] else [] }

  // ---- The store's contract ----

  predicate Fits(doc: Doc, match_: Doc) { forall k <- match_ :: k in doc && doc[k] == match_[k] }

  function Fitting(match_: Doc): Doc -> bool { doc => Fits(doc, match_) }

  /** Write with a primary key: patch the first row it identifies, or insert. */
  function UpsertRows(rows: seq<Doc>, primary: Doc, patch: Doc, uid: string): seq<Doc> {
    var i := FirstFrom(rows, Fitting(primary), 0);
    if i < |rows| then rows[i := rows[i] + patch] else rows + [patch["uid" := Str(uid)]]
  }

  predicate LacksTenant(doc: Doc) { TENANT_FIELD !in doc || doc[TENANT_FIELD].Null? }

  function Stamp(doc: Doc): Doc { if LacksTenant(doc) then doc[TENANT_FIELD := Str(DEFAULT_TENANT)] else doc }

  function StampRows(rows: seq<Doc>): (out: seq<Doc>)
    ensures |out| == |rows| && forall i :: 0 <= i < |rows| ==> out[i] == Stamp(rows[i])
  {
    if rows == [] then [] else [Stamp(rows[0])] + StampRows(rows[1..])
  }

  /** The condition the backfill selects rows with: NOT (tenant_id EXISTS). */
  const UNOWNED: Cond := Node(Op.Not, [Leaf(Op.Exists, "tenant_id", Null)])

  /** Exactly the rows the condition matches get the default tenant; the others stay as they are. */
  lemma StampsWhatItsConditionMatches(e: Engine, doc: Doc)
    ensures Match(e, doc, UNOWNED) <==> "tenant_id" !in doc || doc["tenant_id"].Null?
    ensures LacksTenant(doc) <==> Match(e, doc, UNOWNED)
    ensures Stamp(doc) == if Match(e, doc, UNOWNED) then doc["tenant_id" := Str("default")] else doc
  {
    var kid := Leaf(Op.Exists, TENANT_FIELD, Null);
    TenantFieldIsTopLevel(doc);
    MatchMeans(e, doc, kid);
    MatchMeans(e, doc, UNOWNED);
    assert UNOWNED.children[0] == kid;
  }

  // ---- The five steps, one storage operation each ----

  function TenantKey(): Doc { map["id" := Str(DEFAULT_TENANT)] }
  function TenantPatch(): Doc {
    map["id" := Str(DEFAULT_TENANT), "display_name" := Str("Default"), "status" := Str("active")]
  }
  function RoleKey(): Doc { map["name" := Str(PLATFORM_ADMIN)] }
  function RolePatch(): Doc {
    map["name" := Str(PLATFORM_ADMIN), "permissions" := List([Str("ro_tenant"), Str("rw_tenant")])]
  }
  function RootKey(): Doc {
    map["name" := Str("root"), "method" := Str("local"), TENANT_FIELD := Str(DEFAULT_TENANT)]
  }

  function RoleNames(doc: Doc): set<string> {
    if "roles" in doc && doc["roles"].List?
    then set v | v in doc["roles"].elems && v.Str? :: v.s else {}
  }

  function RoleList(names: seq<string>): Value { List(seq(|names|, i requires 0 <= i < |names| => Str(names[i]))) }

  function GrantDoc(doc: Doc, ch: Choices): Doc {
    if PLATFORM_ADMIN in RoleNames(doc) then doc
    else doc["roles" := RoleList(ch.order(RoleNames(doc) + {PLATFORM_ADMIN}))]
  }

  function GrantRows(rows: seq<Doc>, ch: Choices): seq<Doc> {
    var i := FirstFrom(rows, Fitting(RootKey()), 0);
    if i < |rows| then rows[i := GrantDoc(rows[i], ch)] else rows
  }

  function MarkerDoc(ch: Choices): Doc { map[MARKER := Bool(true), "uid" := Str(ch.markerUid)] }

  const STEPS: nat := |SCOPED| + 4

  /** Step `k` of a run: the tenant, the role, one backfilled collection each, the grant, the sentinel. */
  function StepAt(db: Db, k: nat, ch: Choices): Db
    requires k < STEPS
  {
    if k == 0 then db["tenant" := UpsertRows(Rows(db, "tenant"), TenantKey(), TenantPatch(), ch.tenantUid)]
    else if k == 1 then db["role" := UpsertRows(Rows(db, "role"), RoleKey(), RolePatch(), ch.roleUid)]
    else if k < |SCOPED| + 2 then Backfill(db, SCOPED[k - 2])
    else if k == |SCOPED| + 2 then if "user" in db then db["user" := GrantRows(db["user"], ch)] else db
    else db["general" := Rows(db, "general") + [MarkerDoc(ch)]]
  }

  function Backfill(db: Db, col: string): Db { if col in db then db[col := StampRows(db[col])] else db }

  /** The first `k` steps, uninterrupted. */
  function Prefix(db: Db, k: nat, ch: Choices): Db
    requires k <= STEPS
  {
    if k == 0 then db else StepAt(Prefix(db, k - 1, ch), k - 1, ch)
  }

  predicate HasMarker(doc: Doc) { MARKER in doc && doc[MARKER] == Bool(true) }

  predicate Done(db: Db) { exists i :: 0 <= i < |Rows(db, "general")| && HasMarker(Rows(db, "general")[i]) }

  /** A run that crashes after `k` steps, or completes when `k` is `STEPS`. */
  function Run(db: Db, k: nat, ch: Choices): Db
    requires k <= STEPS
  {
    if Done(db) then db else Prefix(db, k, ch)
  }

  /** One attempt: how many operations it completes, and the choices it makes. */
  datatype Try = Try(steps: nat, ch: Choices)

  ghost predicate Possible(tries: seq<Try>) {
    forall i :: 0 <= i < |tries| ==> tries[i].steps <= STEPS && Honest(tries[i].ch)
  }

  /** A series of attempts, one after another. */
  ghost function Attempts(db: Db, tries: seq<Try>): Db
    requires Possible(tries)
    decreases tries
  {
    if tries == [] then db else Attempts(Run(db, tries[0].steps, tries[0].ch), tries[1..])
  }

  // ---- Each step is settled once done, and later steps leave it settled ----

  ghost predicate Settled(db: Db, j: nat, ch: Choices)
    requires j < STEPS
  {
    StepAt(db, j, ch) == db
  }

  lemma ScopedHasNoGlobals(i: nat)
    requires i < |SCOPED|
    ensures SCOPED[i] != "tenant"
  {
  }

  lemma UpsertSettles(rows: seq<Doc>, primary: Doc, patch: Doc, uid: string)
    requires primary.Keys <= patch.Keys && forall k <- primary :: patch[k] == primary[k]
    requires "uid" !in patch
    ensures var once := UpsertRows(rows, primary, patch, uid); UpsertRows(once, primary, patch, uid) == once
  {
    var once := UpsertRows(rows, primary, patch, uid);
    var i := FirstFrom(rows, Fitting(primary), 0);
    assert Fits(once[i], primary);
    assert forall j :: 0 <= j < i ==> once[j] == rows[j];
    FindsFirst(once, primary, i);
    assert once[i] + patch == once[i];
  }

  lemma FindsFirst(rows: seq<Doc>, match_: Doc, i: nat)
    requires i < |rows| && Fits(rows[i], match_)
    requires forall j :: 0 <= j < i ==> !Fits(rows[j], match_)
    ensures FirstFrom(rows, Fitting(match_), 0) == i
  {
  }

  /** Changing rows only in keys a settled upsert does not mention leaves it settled. */
  lemma UpsertStaysSettled(rows: seq<Doc>, out: seq<Doc>, primary: Doc, patch: Doc, uid: string)
    requires primary.Keys <= patch.Keys
    requires UpsertRows(rows, primary, patch, uid) == rows
    requires |out| == |rows|
    requires forall i :: 0 <= i < |rows| ==> Agree(rows[i], out[i], patch.Keys)
    ensures UpsertRows(out, primary, patch, uid) == out
  {
    var i := FirstFrom(rows, Fitting(primary), 0);
    assert i < |rows|;
    assert rows[i] + patch == rows[i] by {
      assert rows[i := rows[i] + patch][i] == rows[i];
    }
    assert forall j :: 0 <= j <= i ==> (Fits(out[j], primary) <==> Fits(rows[j], primary));
    FindsFirst(out, primary, i);
    assert out[i] + patch == out[i];
  }

  ghost predicate Agree(a: Doc, b: Doc, keys: set<string>) {
    forall k <- keys :: (k in a <==> k in b) && (k in a ==> a[k] == b[k])
  }

  lemma GrantSettles(rows: seq<Doc>, ch: Choices)
    requires Honest(ch)
    ensures GrantRows(GrantRows(rows, ch), ch) == GrantRows(rows, ch)
  {
    var once := GrantRows(rows, ch);
    var i := FirstFrom(rows, Fitting(RootKey()), 0);
    if i < |rows| {
      FindsFirst(once, RootKey(), i);
      GrantDocSettles(rows[i], ch);
    }
  }

  lemma GrantDocSettles(doc: Doc, ch: Choices)
    requires Honest(ch)
    ensures PLATFORM_ADMIN in RoleNames(GrantDoc(doc, ch))
    ensures RoleNames(GrantDoc(doc, ch)) == RoleNames(doc) + {PLATFORM_ADMIN}
  {
    if PLATFORM_ADMIN !in RoleNames(doc) {
      var all := RoleNames(doc) + {PLATFORM_ADMIN};
      var names := ch.order(all);
      assert (set r | r in names) == all;
      var v := RoleList(names);
      assert forall i :: 0 <= i < |names| ==> v.elems[i] == Str(names[i]);
      assert RoleNames(GrantDoc(doc, ch)) == all;
    }
  }

  lemma StepSettles(db: Db, j: nat, ch: Choices)
    requires j + 1 < STEPS && Honest(ch)
    ensures Settled(StepAt(db, j, ch), j, ch)
  {
    if j == 0 {
      UpsertSettles(Rows(db, "tenant"), TenantKey(), TenantPatch(), ch.tenantUid);
    } else if j == 1 {
      UpsertSettles(Rows(db, "role"), RoleKey(), RolePatch(), ch.roleUid);
    } else if j == |SCOPED| + 2 {
      if "user" in db {
        GrantSettles(db["user"], ch);
      }
    } else {
      var col := SCOPED[j - 2];
      if col in db {
        assert StampRows(StampRows(db[col])) == StampRows(db[col]);
      }
    }
  }

  lemma StepLeavesSettled(db: Db, i: nat, j: nat, ch: Choices)
    requires j < i && i + 1 < STEPS && Settled(db, j, ch)
    ensures Settled(StepAt(db, i, ch), j, ch)
  {
    if i == 1 {
    } else if i == |SCOPED| + 2 {
      GrantLeavesSettled(db, j, ch);
    } else {
      BackfillLeavesSettled(db, i - 2, j, ch);
    }
  }

  lemma BackfillLeavesSettled(db: Db, i: nat, j: nat, ch: Choices)
    requires i < |SCOPED| && j < i + 2 && Settled(db, j, ch)
    ensures Settled(Backfill(db, SCOPED[i]), j, ch)
  {
    ScopedHasNoGlobals(i);
    if j == 0 {
      BackfillLeavesTenant(db, SCOPED[i], ch);
    } else if j == 1 {
      BackfillLeavesRole(db, SCOPED[i], ch);
    } else {
      BackfillLeavesBackfilled(db, SCOPED[i], SCOPED[j - 2]);
    }
  }

  lemma BackfillLeavesTenant(db: Db, col: string, ch: Choices)
    requires col != "tenant" && Settled(db, 0, ch)
    ensures Settled(Backfill(db, col), 0, ch)
  {
  }

  lemma BackfillLeavesRole(db: Db, col: string, ch: Choices)
    requires Settled(db, 1, ch)
    ensures Settled(Backfill(db, col), 1, ch)
  {
    if col in db && col == "role" {
      UpsertStaysSettled(db["role"], StampRows(db["role"]), RoleKey(), RolePatch(), ch.roleUid);
    }
  }

  lemma BackfillLeavesBackfilled(db: Db, col: string, other: string)
    requires Backfill(db, other) == db
    ensures Backfill(Backfill(db, col), other) == Backfill(db, col)
  {
    if other == col && col in db {
      assert StampRows(StampRows(db[col])) == StampRows(db[col]);
    }
  }

  lemma GrantLeavesSettled(db: Db, j: nat, ch: Choices)
    requires j < |SCOPED| + 2 && Settled(db, j, ch)
    ensures Settled(StepAt(db, |SCOPED| + 2, ch), j, ch)
  {
    if "user" in db && j >= 2 && SCOPED[j - 2] == "user" {
      var rows, out := db["user"], GrantRows(db["user"], ch);
      assert StampRows(rows) == rows;
      assert forall i :: 0 <= i < |rows| ==> Stamp(out[i]) == out[i];
      assert StampRows(out) == out;
    }
  }

  lemma {:induction false} PrefixSettles(db: Db, k: nat, j: nat, ch: Choices)
    requires j < k < STEPS && Honest(ch)
    ensures Settled(Prefix(db, k, ch), j, ch)
  {
    if j == k - 1 {
      StepSettles(Prefix(db, k - 1, ch), j, ch);
    } else {
      PrefixSettles(db, k - 1, j, ch);
      StepLeavesSettled(Prefix(db, k - 1, ch), k - 1, j, ch);
    }
  }

  /** Nothing that was chosen matters to a settled step. */
  lemma SettledWhoeverChooses(db: Db, j: nat, a: Choices, b: Choices)
    requires j + 1 < STEPS && Honest(a) && Honest(b) && Settled(db, j, a)
    ensures Settled(db, j, b)
  {
    if j == |SCOPED| + 2 && "user" in db {
      var rows := db["user"];
      var i := FirstFrom(rows, Fitting(RootKey()), 0);
      assert GrantRows(rows, a) == rows;
      if i < |rows| {
        GrantDocSettles(rows[i], a);
        assert rows[i := GrantDoc(rows[i], a)][i] == rows[i];
      }
    }
  }

  /** Redoing the steps already done changes nothing, even with other choices. */
  lemma {:induction false} RedoingIsIdle(db: Db, k: nat, n: nat, a: Choices, b: Choices)
    requires n <= k < STEPS && Honest(a) && Honest(b)
    ensures Prefix(Prefix(db, k, a), n, b) == Prefix(db, k, a)
  {
    if n == 0 {
    } else {
      RedoingIsIdle(db, k, n - 1, a, b);
      PrefixSettles(db, k, n - 1, a);
      SettledWhoeverChooses(Prefix(db, k, a), n - 1, a, b);
    }
  }

  /** Each choice as the attempt that got to use it made it: `a` for the first `k` steps, then `b`. */
  function Mix(k: nat, a: Choices, b: Choices): Choices {
    Choices(if k > 0 then a.tenantUid else b.tenantUid, if k > 1 then a.roleUid else b.roleUid,
            if k >= STEPS then a.markerUid else b.markerUid, if k > |SCOPED| + 2 then a.order else b.order)
  }

  lemma StepMixes(db: Db, i: nat, k: nat, a: Choices, b: Choices)
    requires i < STEPS
    ensures StepAt(db, i, Mix(k, a, b)) == StepAt(db, i, if i < k then a else b)
  {
  }

  lemma {:induction false} PrefixMixes(db: Db, n: nat, k: nat, a: Choices, b: Choices)
    requires n <= k && n <= STEPS
    ensures Prefix(db, n, Mix(k, a, b)) == Prefix(db, n, a)
  {
    if n == 0 {
    } else {
      PrefixMixes(db, n - 1, k, a, b);
      StepMixes(Prefix(db, n - 1, a), n - 1, k, a, b);
    }
  }

  lemma {:induction false} ResumingCatchesUp(db: Db, k: nat, n: nat, a: Choices, b: Choices)
    requires k <= n <= STEPS && k < STEPS && Honest(a) && Honest(b)
    ensures Prefix(Prefix(db, k, a), n, b) == Prefix(db, n, Mix(k, a, b))
  {
    if n == k {
      RedoingIsIdle(db, k, k, a, b);
      PrefixMixes(db, k, k, a, b);
    } else {
      ResumingCatchesUp(db, k, n - 1, a, b);
      StepMixes(Prefix(db, n - 1, Mix(k, a, b)), n - 1, k, a, b);
    }
  }

  // ---- The sentinel appears exactly at the end ----

  lemma StepKeepsMarker(db: Db, k: nat, ch: Choices)
    requires k + 1 < STEPS
    ensures Done(StepAt(db, k, ch)) <==> Done(db)
  {
    var old_, new_ := Rows(db, "general"), Rows(StepAt(db, k, ch), "general");
    assert |old_| == |new_|;
    assert forall i :: 0 <= i < |old_| ==> (HasMarker(old_[i]) <==> HasMarker(new_[i]));
  }

  lemma {:induction false} PrefixKeepsMarker(db: Db, k: nat, ch: Choices)
    requires k < STEPS
    ensures Done(Prefix(db, k, ch)) <==> Done(db)
  {
    if k == 0 {
    } else {
      PrefixKeepsMarker(db, k - 1, ch);
      StepKeepsMarker(Prefix(db, k - 1, ch), k - 1, ch);
    }
  }

  lemma CompletedIsDone(db: Db, ch: Choices)
    ensures Done(Run(db, STEPS, ch))
  {
    if !Done(db) {
      var rows := Rows(Prefix(db, STEPS, ch), "general");
      assert rows[|rows| - 1] == MarkerDoc(ch);
    }
  }

  // ---- Crash tolerance ----

  /** An attempt after a crashed one gets exactly as far as the better of the two alone. */
  lemma TwoAttemptsAreOne(db: Db, k: nat, n: nat, a: Choices, b: Choices)
    requires k <= STEPS && n <= STEPS && Honest(a) && Honest(b)
    ensures Run(Run(db, k, a), n, b) == Run(db, if k < n then n else k, Mix(k, a, b))
  {
    if !Done(db) {
      if k == STEPS {
        CompletedIsDone(db, a);
        PrefixMixes(db, k, k, a, b);
      } else {
        PrefixKeepsMarker(db, k, a);
        if n <= k {
          RedoingIsIdle(db, k, n, a, b);
          PrefixMixes(db, k, k, a, b);
        } else {
          ResumingCatchesUp(db, k, n, a, b);
        }
      }
    }
  }

  /** Any series of attempts leaves what a single one, that got as far, would leave. */
  lemma {:induction false} AttemptsAreOne(db: Db, tries: seq<Try>, any_: Choices) returns (k: nat, ch: Choices)
    requires Possible(tries) && Honest(any_)
    ensures k <= STEPS && Honest(ch) && Attempts(db, tries) == Run(db, k, ch)
    ensures forall i :: 0 <= i < |tries| ==> tries[i].steps <= k
    decreases tries
  {
    if tries == [] {
      k, ch := 0, any_;
    } else {
      var first := tries[0];
      var n, b := AttemptsAreOne(Run(db, first.steps, first.ch), tries[1..], any_);
      TwoAttemptsAreOne(db, first.steps, n, first.ch, b);
      k, ch := if first.steps < n then n else first.steps, Mix(first.steps, first.ch, b);
    }
  }

  /** Whatever attempts crash and wherever, completing the migration afterwards gives the
      state of one uninterrupted run. */
  lemma CrashesAreHarmless(db: Db, tries: seq<Try>, last: Choices) returns (ch: Choices)
    requires Possible(tries) && Honest(last)
    ensures Honest(ch) && Run(Attempts(db, tries), STEPS, last) == Run(db, STEPS, ch)
  {
    var k, a := AttemptsAreOne(db, tries, last);
    TwoAttemptsAreOne(db, k, STEPS, a, last);
    ch := Mix(k, a, last);
  }

  // ---- The final state, collection by collection ----

  /** The collections of a list, backfilled one after another. */
  function Backfilled(db: Db, cols: seq<string>): Db
    decreases |cols|
  {
    if cols == [] then db else Backfill(Backfilled(db, cols[..|cols| - 1]), cols[|cols| - 1])
  }

  lemma {:induction false} BackfilledRows(db: Db, cols: seq<string>, col: string)
    ensures Rows(Backfilled(db, cols), col) == if col in cols then StampRows(Rows(db, col)) else Rows(db, col)
    decreases |cols|
  {
    if cols == [] {
    } else {
      var before, last := cols[..|cols| - 1], cols[|cols| - 1];
      BackfilledRows(db, before, col);
      RowsAfterBackfill(Backfilled(db, before), last, col);
      StampTwice(Rows(db, col));
      assert cols == before + [last];
    }
  }

  lemma {:induction false} PrefixBackfills(db: Db, n: nat, ch: Choices)
    requires n <= |SCOPED|
    ensures Prefix(db, 2 + n, ch) == Backfilled(Prefix(db, 2, ch), SCOPED[..n])
  {
    if n == 0 {
    } else {
      PrefixBackfills(db, n - 1, ch);
      assert SCOPED[..n][..n - 1] == SCOPED[..n - 1] && SCOPED[..n][n - 1] == SCOPED[n - 1];
    }
  }

  lemma StampTwice(rows: seq<Doc>)
    ensures StampRows(StampRows(rows)) == StampRows(rows)
  {
  }

  lemma RowsAfterBackfill(db: Db, c: string, col: string)
    ensures Rows(Backfill(db, c), col) == if c == col then StampRows(Rows(db, col)) else Rows(db, col)
  {
    assert StampRows([]) == [];
  }

  /** What one completed migration leaves in each collection. */
  function Final(db: Db, col: string, ch: Choices): seq<Doc> {
    var rows := Rows(db, col);
    if col == "tenant" then UpsertRows(rows, TenantKey(), TenantPatch(), ch.tenantUid)
    else if col == "role" then StampRows(UpsertRows(rows, RoleKey(), RolePatch(), ch.roleUid))
    else if col == "user" then GrantRows(StampRows(rows), ch)
    else if col == "general" then StampRows(rows) + [MarkerDoc(ch)]
    else if col in SCOPED then StampRows(rows)
    else rows
  }

  lemma FinalState(db: Db, col: string, ch: Choices)
    requires !Done(db)
    ensures Rows(Run(db, STEPS, ch), col) == Final(db, col, ch)
  {
    PrefixBackfills(db, |SCOPED|, ch);
    assert SCOPED[..|SCOPED|] == SCOPED;
    BackfilledRows(Prefix(db, 2, ch), SCOPED, col);
    EnsuredRows(db, col, ch);
    LastRows(db, col, ch);
    ScopedMembers();
  }

  /** The grant and the sentinel, after the backfill. */
  lemma LastRows(db: Db, col: string, ch: Choices)
    ensures Rows(Prefix(db, STEPS, ch), col) ==
            var rows := Rows(Prefix(db, |SCOPED| + 2, ch), col);
            if col == "user" then GrantRows(rows, ch)
            else if col == "general" then rows + [MarkerDoc(ch)]
            else rows
  {
    var filled := Prefix(db, |SCOPED| + 2, ch);
    var granted := StepAt(filled, |SCOPED| + 2, ch);
    assert Prefix(db, |SCOPED| + 3, ch) == granted;
    assert Prefix(db, STEPS, ch) == StepAt(granted, |SCOPED| + 3, ch);
  }

  lemma EnsuredRows(db: Db, col: string, ch: Choices)
    ensures Rows(Prefix(db, 2, ch), col) ==
            if col == "tenant" then UpsertRows(Rows(db, col), TenantKey(), TenantPatch(), ch.tenantUid)
            else if col == "role" then UpsertRows(Rows(db, col), RoleKey(), RolePatch(), ch.roleUid)
            else Rows(db, col)
  {
    assert Prefix(db, 1, ch) == StepAt(db, 0, ch);
    assert Prefix(db, 2, ch) == StepAt(Prefix(db, 1, ch), 1, ch);
  }

  lemma ScopedMembers()
    ensures "tenant" !in SCOPED && "role" in SCOPED && "user" in SCOPED && "general" in SCOPED
  {
    assert SCOPED[6] == "user" && SCOPED[7] == "role" && SCOPED[18] == "general";
  }

  /** Rows the completed migration adds to a collection. */
  function Added(db: Db, col: string): nat {
    var rows := Rows(db, col);
    if col == "tenant" then if FirstFrom(rows, Fitting(TenantKey()), 0) == |rows| then 1 else 0
    else if col == "role" then if FirstFrom(rows, Fitting(RoleKey()), 0) == |rows| then 1 else 0
    else if col == "general" then 1 else 0
  }

  /** The owner a document has, or is given. */
  function Owner(doc: Doc): Value {
    if "tenant_id" in doc && !doc["tenant_id"].Null? then doc["tenant_id"] else Str("default")
  }

  /** The owner of a document stays its owner, and one without gets the default tenant;
      only the platform role and root change in anything else. */
  ghost predicate BackfilledAs(col: string, row: Doc, out: Doc) {
    && "tenant_id" in out && out["tenant_id"] == Owner(row)
    && KeepsAllBut(row, out,
         if col == "role" && "name" in row && row["name"] == Str("platform_admin") then {"tenant_id", "permissions"}
         else if col == "user" && "name" in row && row["name"] == Str("root") then {"tenant_id", "roles"}
         else {"tenant_id"})
  }

  /** Every earlier document of a listed collection ends up owned: by the tenant it had, or by
      the default one. Outside roles and users nothing else of it changes. */
  lemma EarlierDocumentsAreOwned(db: Db, col: string, i: nat, ch: Choices)
    requires !Done(db) && col in SCOPED && i < |Rows(db, col)|
    ensures var row, out := Rows(db, col)[i], Rows(Run(db, STEPS, ch), col);
            && i < |out| && "tenant_id" in out[i]
            && out[i]["tenant_id"] ==
               (if "tenant_id" in row && !row["tenant_id"].Null? then row["tenant_id"] else Str("default"))
            && (col != "role" && col != "user" ==> KeepsAllBut(row, out[i], {"tenant_id"}))
            && BackfilledAs(col, row, out[i])
  {
    FinalState(db, col, ch);
    ScopedMembers();
    FinalIsOwned(db, col, i, ch);
  }

  lemma FinalIsOwned(db: Db, col: string, i: nat, ch: Choices)
    requires col in SCOPED && col != "tenant" && i < |Rows(db, col)|
    ensures var out := Final(db, col, ch); i < |out| && BackfilledAs(col, Rows(db, col)[i], out[i])
  {
    var rows := Rows(db, col);
    if col == "role" {
      RoleRowsKeep(rows, i, ch);
    } else if col == "user" {
      UserRowsKeep(rows, i, ch);
    } else {
      StampedIsOwned(col, rows[i]);
    }
  }

  lemma StampedIsOwned(col: string, row: Doc)
    ensures BackfilledAs(col, row, Stamp(row))
  {
  }

  lemma UserRowsKeep(rows: seq<Doc>, i: nat, ch: Choices)
    requires i < |rows|
    ensures var out := GrantRows(StampRows(rows), ch); i < |out| && BackfilledAs("user", rows[i], out[i])
  {
    var stamped := StampRows(rows);
    GrantKeeps(stamped, i, ch);
    StampedIsOwned("", rows[i]);
    OwnedThenGranted(rows[i], stamped[i], GrantRows(stamped, ch)[i]);
  }

  lemma OwnedThenGranted(row: Doc, mid: Doc, out: Doc)
    requires BackfilledAs("", row, mid)
    requires KeepsAllBut(mid, out, if "name" in mid && mid["name"] == Str("root") then {"roles"} else {})
    ensures BackfilledAs("user", row, out)
  {
  }

  /** Only the platform role is patched, and only in its permissions. */
  lemma RoleRowsKeep(rows: seq<Doc>, i: nat, ch: Choices)
    requires i < |rows|
    ensures var up := UpsertRows(rows, RoleKey(), RolePatch(), ch.roleUid);
            i < |up| && BackfilledAs("role", rows[i], Stamp(up[i]))
  {
    var up := UpsertRows(rows, RoleKey(), RolePatch(), ch.roleUid);
    var at := FirstFrom(rows, Fitting(RoleKey()), 0);
    if i == at {
      assert Fits(rows[i], RoleKey()) && "name" in RoleKey();
      assert KeepsAllBut(rows[i], up[i], {"permissions"});
    } else {
      assert up[i] == rows[i];
    }
  }

  /** Only root is granted the role, and only its roles change. */
  lemma GrantKeeps(rows: seq<Doc>, i: nat, ch: Choices)
    requires i < |rows|
    ensures var out := GrantRows(rows, ch);
            && |out| == |rows|
            && KeepsAllBut(rows[i], out[i],
                 if "name" in rows[i] && rows[i]["name"] == Str("root") then {"roles"} else {})
  {
    var at := FirstFrom(rows, Fitting(RootKey()), 0);
    if i == at {
      assert Fits(rows[i], RootKey()) && "name" in RootKey();
    }
  }

  /** Nothing is duplicated or dropped, crashes included. */
  lemma NothingIsDuplicated(db: Db, tries: seq<Try>, last: Choices, col: string)
    requires Possible(tries) && Honest(last) && !Done(db)
    ensures |Rows(Run(Attempts(db, tries), STEPS, last), col)| == |Rows(db, col)| + Added(db, col)
  {
    var ch := CrashesAreHarmless(db, tries, last);
    FinalState(db, col, ch);
  }

  // ---- What the choices can change ----

  /** Equal but for the uid and the order in which the roles are listed. */
  ghost predicate Alike(x: Doc, y: Doc) {
    && x.Keys == y.Keys && RoleNames(x) == RoleNames(y)
    && forall k <- x :: k != "uid" && k != "roles" ==> x[k] == y[k]
  }

  ghost predicate AllAlike(xs: seq<Doc>, ys: seq<Doc>) {
    |xs| == |ys| && forall i :: 0 <= i < |xs| ==> Alike(xs[i], ys[i])
  }

  lemma UpsertsAlike(rows: seq<Doc>, primary: Doc, patch: Doc, u: string, v: string)
    ensures AllAlike(UpsertRows(rows, primary, patch, u), UpsertRows(rows, primary, patch, v))
  {
    assert Alike(patch["uid" := Str(u)], patch["uid" := Str(v)]);
  }

  lemma StampsAlike(xs: seq<Doc>, ys: seq<Doc>)
    requires AllAlike(xs, ys)
    ensures AllAlike(StampRows(xs), StampRows(ys))
  {
    forall i | 0 <= i < |xs| ensures Alike(Stamp(xs[i]), Stamp(ys[i])) {
      assert Alike(xs[i], ys[i]);
    }
  }

  lemma GrantsAlike(rows: seq<Doc>, a: Choices, b: Choices)
    requires Honest(a) && Honest(b)
    ensures AllAlike(GrantRows(rows, a), GrantRows(rows, b))
  {
    var i := FirstFrom(rows, Fitting(RootKey()), 0);
    if i < |rows| {
      GrantDocSettles(rows[i], a);
      GrantDocSettles(rows[i], b);
      assert Alike(GrantDoc(rows[i], a), GrantDoc(rows[i], b));
    }
  }

  lemma FinalAlike(db: Db, col: string, a: Choices, b: Choices)
    requires Honest(a) && Honest(b)
    ensures AllAlike(Final(db, col, a), Final(db, col, b))
  {
    if col == "tenant" {
      UpsertsAlike(Rows(db, col), TenantKey(), TenantPatch(), a.tenantUid, b.tenantUid);
    } else if col == "role" {
      UpsertsAlike(Rows(db, col), RoleKey(), RolePatch(), a.roleUid, b.roleUid);
      StampsAlike(UpsertRows(Rows(db, col), RoleKey(), RolePatch(), a.roleUid),
                  UpsertRows(Rows(db, col), RoleKey(), RolePatch(), b.roleUid));
    } else if col == "user" {
      GrantsAlike(StampRows(Rows(db, col)), a, b);
    } else if col == "general" {
      assert Alike(MarkerDoc(a), MarkerDoc(b));
    }
  }

  /** A migration that crashed any number of times and one that never did end alike in every
      collection, row by row. */
  lemma CrashedRunsEndAlike(db: Db, tries: seq<Try>, last: Choices, b: Choices, col: string)
    requires Possible(tries) && Honest(last) && Honest(b)
    ensures AllAlike(Rows(Run(Attempts(db, tries), STEPS, last), col), Rows(Run(db, STEPS, b), col))
  {
    var ch := CrashesAreHarmless(db, tries, last);
    if !Done(db) {
      FinalState(db, col, ch);
      FinalState(db, col, b);
      FinalAlike(db, col, ch, b);
    }
  }

  /** The source calls the platform role untenanted. The backfill that follows stamps it. */
  lemma PlatformRoleEndsUpStamped(db: Db, ch: Choices)
    requires !Done(db)
    ensures exists i :: 0 <= i < |Rows(Run(db, STEPS, ch), "role")|
              && Fits(Rows(Run(db, STEPS, ch), "role")[i], RoleKey())
              && !LacksTenant(Rows(Run(db, STEPS, ch), "role")[i])
  {
    FinalState(db, "role", ch);
    var up := UpsertRows(Rows(db, "role"), RoleKey(), RolePatch(), ch.roleUid);
    var i := FirstFrom(Rows(db, "role"), Fitting(RoleKey()), 0);
    assert Fits(up[i], RoleKey());
    assert Fits(StampRows(up)[i], RoleKey());
  }

  // ---- The code ----

  /** Writing root's changed document under its key is granting it the role. */
  lemma GrantIsUpsert(rows: seq<Doc>, key: Doc, i: nat, ch: Choices)
    requires i < |rows| && FirstFrom(rows, Fitting(key), 0) == i && "roles" !in key
    ensures key.Keys <= GrantDoc(rows[i], ch).Keys && (map k | k in key :: GrantDoc(rows[i], ch)[k]) == key
    ensures UpsertRows(rows, key, GrantDoc(rows[i], ch), "") == rows[i := GrantDoc(rows[i], ch)]
  {
    GrantChangesRoles(rows[i], ch);
    KeyIsKept(rows[i], GrantDoc(rows[i], ch), key);
    WholeDocReplaces(rows, key, GrantDoc(rows[i], ch));
  }

  lemma GrantChangesRoles(doc: Doc, ch: Choices)
    ensures doc.Keys <= GrantDoc(doc, ch).Keys && forall k <- doc :: k != "roles" ==> GrantDoc(doc, ch)[k] == doc[k]
  {
  }

  lemma RootKeyHasNoRoles()
    ensures "roles" !in RootKey()
  {
  }

  /** A document that differs only in its roles is filed under the same key. */
  lemma KeyIsKept(doc: Doc, cp: Doc, key: Doc)
    requires Fits(doc, key) && "roles" !in key && forall k <- doc :: k != "roles" ==> k in cp && cp[k] == doc[k]
    ensures key.Keys <= cp.Keys && (map k | k in key :: cp[k]) == key
  {
  }

  /** Writing a document that has every field of the stored one replaces it. */
  lemma WholeDocReplaces(rows: seq<Doc>, key: Doc, cp: Doc)
    requires var i := FirstFrom(rows, Fitting(key), 0); i < |rows| && rows[i].Keys <= cp.Keys
    ensures UpsertRows(rows, key, cp, "") == rows[FirstFrom(rows, Fitting(key), 0) := cp]
  {
    var i := FirstFrom(rows, Fitting(key), 0);
    assert rows[i] + cp == cp;
  }

  /** The first `i` rows are stamped, the others untouched. */
  ghost predicate StampedTo(was: seq<Doc>, rows: seq<Doc>, i: nat) {
    && |rows| == |was|
    && (forall j :: 0 <= j < |was| ==> rows[j] == if j < i then Stamp(was[j]) else was[j])
  }

  /** A row the condition matches differs only in its tenant; any other row is unchanged. */
  ghost predicate StampedBy(e: Engine, row: Doc, out: Doc) {
    if Match(e, row, UNOWNED) then
      KeepsAllBut(row, out, {"tenant_id"}) && "tenant_id" in out && out["tenant_id"] == Str("default")
    else out == row
  }

  class Store {
    var data: Db

    constructor (data: Db)
      ensures this.data == data
    {
      this.data := data;
    }

    method GetOne(col: string, match_: Doc) returns (doc: Option<Doc>)
      ensures var rows := Rows(data, col); var i := FirstFrom(rows, Fitting(match_), 0);
              doc == if i < |rows| then Some(rows[i]) else None
    {
      var rows := Rows(data, col);
      for i := 0 to |rows|
        invariant FirstFrom(rows, Fitting(match_), 0) == FirstFrom(rows, Fitting(match_), i)
      {
        if Fits(rows[i], match_) {
          return Some(rows[i]);
        }
      }
      doc := None;
    }

    method Upsert(col: string, primary: Doc, patch: Doc, uid: string)
      modifies this
      ensures data == old(data)[col := UpsertRows(Rows(old(data), col), primary, patch, uid)]
    {
      var rows := Rows(data, col);
      for i := 0 to |rows|
        invariant data == old(data) && FirstFrom(rows, Fitting(primary), 0) == FirstFrom(rows, Fitting(primary), i)
      {
        if Fits(rows[i], primary) {
          data := data[col := rows[i := rows[i] + patch]];
          return;
        }
      }
      data := data[col := rows + [patch["uid" := Str(uid)]]];
    }

    /** Stamps the default tenant, in place, on the rows that lack one, and counts them. */
    method StampMissing(col: string) returns (n: nat)
      requires col in data
      modifies this
      ensures data == Backfill(old(data), col) && n == CountLacking(old(data)[col])
      ensures data.Keys == old(data).Keys && |data[col]| == |old(data)[col]|
      ensures forall e: Engine, i :: 0 <= i < |data[col]| ==> StampedBy(e, old(data)[col][i], data[col][i])
    {
      var rows := data[col];
      ghost var was := rows;
      n := 0;
      for i := 0 to |rows|
        invariant data == old(data) && StampedTo(was, rows, i)
        invariant n + CountLacking(was[i..]) == CountLacking(was)
      {
        assert was[i..][1..] == was[i + 1..];
        if LacksTenant(rows[i]) {
          rows := rows[i := Stamp(rows[i])];
          n := n + 1;
        }
      }
      assert rows == StampRows(was);
      data := data[col := rows];
      forall e: Engine, i | 0 <= i < |rows| ensures StampedBy(e, was[i], rows[i]) {
        StampsWhatItsConditionMatches(e, was[i]);
      }
    }

    method IsMigrated() returns (done: bool)
      ensures done == Done(data)
    {
      var rows := Rows(data, "general");
      for i := 0 to |rows|
        invariant forall j :: 0 <= j < i ==> !HasMarker(rows[j])
      {
        if HasMarker(rows[i]) {
          return true;
        }
      }
      done := false;
    }

    method GrantRoot(ch: Choices)
      modifies this
      ensures data == StepAt(old(data), |SCOPED| + 2, ch)
    {
      var root := GetOne("user", RootKey());
      if root.None? || PLATFORM_ADMIN in RoleNames(root.value) {
        assert "user" in data ==> GrantRows(data["user"], ch) == data["user"];
        return;
      }
      var cp := GrantDoc(root.value, ch);
      RootKeyHasNoRoles();
      GrantIsUpsert(data["user"], RootKey(), FirstFrom(data["user"], Fitting(RootKey()), 0), ch);
      var key := map k | k in RootKey() :: cp[k];
      Upsert("user", key, cp, "");
    }

    /** Backfills the collections that exist, one after another, up to the crash. */
    method BackfillTenantId(ghost was: Db, budget: nat, ch: Choices)
      requires 2 <= budget && data == Prefix(was, 2, ch)
      modifies this
      ensures data == Prefix(was, if budget < |SCOPED| + 2 then budget else |SCOPED| + 2, ch)
    {
      var existing := data.Keys;
      for i := 0 to |SCOPED|
        invariant data == Prefix(was, i + 2, ch) && data.Keys == existing && i + 2 <= budget
      {
        if budget == i + 2 {
          return;
        }
        if SCOPED[i] in existing {
          var _ := StampMissing(SCOPED[i]);
        }
      }
    }

    /** One run of the migration that dies before its operation number `budget`. */
    method Migrate(budget: nat, ch: Choices)
      requires budget <= STEPS
      modifies this
      ensures data == Run(old(data), budget, ch)
    {
      var done := IsMigrated();
      if done || budget == 0 {
        return;
      }
      Upsert("tenant", TenantKey(), TenantPatch(), ch.tenantUid);
      assert data == Prefix(old(data), 1, ch);
      if budget == 1 {
        return;
      }
      Upsert("role", RoleKey(), RolePatch(), ch.roleUid);
      assert data == Prefix(old(data), 2, ch);
      BackfillTenantId(old(data), budget, ch);
      if budget <= |SCOPED| + 2 {
        return;
      }
      GrantRoot(ch);
      assert data == Prefix(old(data), |SCOPED| + 3, ch);
      if budget == |SCOPED| + 3 {
        return;
      }
      data := data["general" := Rows(data, "general") + [MarkerDoc(ch)]];
      assert data == Prefix(old(data), STEPS, ch);
    }
  }

  function CountLacking(rows: seq<Doc>): nat {
    if rows == [] then 0 else (if LacksTenant(rows[0]) then 1 else 0) + CountLacking(rows[1..])
  }
}
