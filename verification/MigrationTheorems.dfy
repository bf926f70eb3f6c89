/** What a completed migration leaves in the database, field by field, however often it crashed. */
module MigrationTheorems {
  import opened Values
  import opened Migration

  /** The database after any crashed attempts and one that completes. */
  ghost function Completed(db: Db, tries: seq<Try>, last: Choices): Db
    requires Possible(tries)
  {
    Run(Attempts(db, tries), STEPS, last)
  }

  /** The sentinel is a document that holds the marker set to true, and nothing else is. */
  lemma DoneMeans(db: Db)
    ensures Done(db) <==>
            exists i :: 0 <= i < |Rows(db, "general")| && "multitenancy_v1" in Rows(db, "general")[i]
                        && Rows(db, "general")[i]["multitenancy_v1"] == Bool(true)
  {
  }

  /** A migrated database is left alone. */
  lemma MigratesOnce(db: Db, tries: seq<Try>, last: Choices)
    requires Possible(tries) && Honest(last) && Done(db)
    ensures Completed(db, tries, last) == db
  {
    var ch := CrashesAreHarmless(db, tries, last);
  }

  /** Every earlier document keeps its owner, or gets the default one, and every field the
      migration does not name. */
  lemma DocumentsKeepTheirOwner(db: Db, tries: seq<Try>, last: Choices, col: string, i: nat)
    requires Possible(tries) && Honest(last) && !Done(db) && col in SCOPED && i < |Rows(db, col)|
    ensures var out := Rows(Completed(db, tries, last), col);
            i < |out| && BackfilledAs(col, Rows(db, col)[i], out[i])
  {
    var ch := CrashesAreHarmless(db, tries, last);
    EarlierDocumentsAreOwned(db, col, i, ch);
  }

  /** Collections that belong to no tenant are not touched, the tenant registry apart. */
  lemma OthersAreUntouched(db: Db, tries: seq<Try>, last: Choices, col: string)
    requires Possible(tries) && Honest(last) && col !in SCOPED && col != "tenant"
    ensures Rows(Completed(db, tries, last), col) == Rows(db, col)
  {
    var ch := CrashesAreHarmless(db, tries, last);
    ScopedMembers();
    if !Done(db) {
      FinalState(db, col, ch);
    }
  }

  /** An upsert leaves a row that has the patch's fields; every other row, and every other
      field of that row, stays. */
  lemma UpsertMeans(rows: seq<Doc>, primary: Doc, patch: Doc, uid: string) returns (at: nat)
    ensures var out := UpsertRows(rows, primary, patch, uid);
            && at < |out| && (forall k <- patch :: k in out[at] && (k != "uid" ==> out[at][k] == patch[k]))
            && (forall i :: 0 <= i < |rows| && i != at ==> i < |out| && out[i] == rows[i])
            && if at < |rows| then
                 |out| == |rows| && Fits(rows[at], primary) && KeepsAllBut(rows[at], out[at], patch.Keys)
               else at == |rows| && |out| == at + 1 && (forall i :: 0 <= i < at ==> !Fits(rows[i], primary))
                    && out[at].Keys == patch.Keys + {"uid"} && out[at]["uid"] == Str(uid)
  {
    at := FirstFrom(rows, Fitting(primary), 0);
  }

  ghost predicate IsDefaultTenant(doc: Doc) {
    && {"id", "display_name", "status"} <= doc.Keys
    && doc["id"] == Str("default") && doc["display_name"] == Str("Default") && doc["status"] == Str("active")
  }

  /** The registry ends up with an active default tenant; its other documents stay as they were. */
  lemma DefaultTenantIsRegistered(db: Db, tries: seq<Try>, last: Choices) returns (at: nat)
    requires Possible(tries) && Honest(last) && !Done(db)
    ensures var rows, out := Rows(db, "tenant"), Rows(Completed(db, tries, last), "tenant");
            && at < |out| && IsDefaultTenant(out[at])
            && forall i :: 0 <= i < |rows| && i != at ==> i < |out| && out[i] == rows[i]
  {
    var ch := CrashesAreHarmless(db, tries, last);
    FinalState(db, "tenant", ch);
    at := UpsertMeans(Rows(db, "tenant"), TenantKey(), TenantPatch(), ch.tenantUid);
    var out := UpsertRows(Rows(db, "tenant"), TenantKey(), TenantPatch(), ch.tenantUid);
    TenantFields(out[at]);
  }

  lemma TenantFields(doc: Doc)
    requires forall k <- TenantPatch() :: k in doc && doc[k] == TenantPatch()[k]
    ensures IsDefaultTenant(doc)
  {
    var p := TenantPatch();
    assert "id" in p && "display_name" in p && "status" in p;
  }

  ghost predicate IsPlatformRole(doc: Doc) {
    && {"name", "permissions"} <= doc.Keys && doc["name"] == Str("platform_admin")
    && doc["permissions"] == List([Str("ro_tenant"), Str("rw_tenant")])
  }

  /** There is a platform role with the two tenant permissions, and it carries an owner. */
  lemma PlatformRoleExists(db: Db, tries: seq<Try>, last: Choices) returns (at: nat)
    requires Possible(tries) && Honest(last) && !Done(db)
    ensures var out := Rows(Completed(db, tries, last), "role");
            at < |out| && IsPlatformRole(out[at]) && "tenant_id" in out[at] && !out[at]["tenant_id"].Null?
  {
    var ch := CrashesAreHarmless(db, tries, last);
    FinalState(db, "role", ch);
    at := UpsertMeans(Rows(db, "role"), RoleKey(), RolePatch(), ch.roleUid);
    RoleFields(UpsertRows(Rows(db, "role"), RoleKey(), RolePatch(), ch.roleUid)[at]);
  }

  lemma RoleFields(doc: Doc)
    requires forall k <- RolePatch() :: k in doc && doc[k] == RolePatch()[k]
    ensures IsPlatformRole(Stamp(doc)) && "tenant_id" in Stamp(doc) && !Stamp(doc)["tenant_id"].Null?
  {
    var p := RolePatch();
    assert "name" in p && "permissions" in p;
  }

  /** A local user named root that belongs, or will belong, to the default tenant. */
  ghost predicate IsRoot(doc: Doc) {
    && {"name", "method"} <= doc.Keys && doc["name"] == Str("root") && doc["method"] == Str("local")
    && Owner(doc) == Str("default")
  }

  /** The names among a document's roles, whatever else is listed with them. */
  ghost predicate HasRole(doc: Doc, role: string) {
    "roles" in doc && doc["roles"].List? && Str(role) in doc["roles"].elems
  }

  lemma RootKeyFits(doc: Doc)
    ensures Fits(Stamp(doc), RootKey()) <==> IsRoot(doc)
  {
    var key := RootKey();
    assert key.Keys == {"name", "method", "tenant_id"};
    assert Fits(Stamp(doc), key) ==> "name" in key && "method" in key && "tenant_id" in key;
  }

  lemma RolesAreNames(doc: Doc, role: string)
    ensures role in RoleNames(doc) <==> HasRole(doc, role)
  {
  }

  /** The first root ends up with the platform role besides the roles it had; no other user's
      roles change. */
  lemma RootIsGranted(db: Db, tries: seq<Try>, last: Choices, i: nat, role: string)
    requires Possible(tries) && Honest(last) && !Done(db) && i < |Rows(db, "user")|
    ensures var rows, out := Rows(db, "user"), Rows(Completed(db, tries, last), "user");
            && |out| == |rows|
            && (IsRoot(rows[i]) && (forall j :: 0 <= j < i ==> !IsRoot(rows[j])) ==>
                  (HasRole(out[i], role) <==> HasRole(rows[i], role) || role == "platform_admin"))
            && (!IsRoot(rows[i]) || (exists j :: 0 <= j < i && IsRoot(rows[j])) ==>
                  KeepsAllBut(rows[i], out[i], {"tenant_id"}))
  {
    var ch := CrashesAreHarmless(db, tries, last);
    FinalState(db, "user", ch);
    var rows := Rows(db, "user");
    var stamped := StampRows(rows);
    forall j | 0 <= j < |rows| ensures Fits(stamped[j], RootKey()) <==> IsRoot(rows[j]) {
      RootKeyFits(rows[j]);
    }
    GrantedAt(stamped, i, ch, role);
    RolesAreNames(rows[i], role);
    RolesAreNames(stamped[i], role);
    StampedIsOwned("", rows[i]);
  }

  lemma GrantedAt(rows: seq<Doc>, i: nat, ch: Choices, role: string)
    requires Honest(ch) && i < |rows|
    ensures var out := GrantRows(rows, ch);
            && |out| == |rows|
            && (Fits(rows[i], RootKey()) && (forall j :: 0 <= j < i ==> !Fits(rows[j], RootKey())) ==>
                  (HasRole(out[i], role) <==> HasRole(rows[i], role) || role == "platform_admin"))
            && (!Fits(rows[i], RootKey()) || (exists j :: 0 <= j < i && Fits(rows[j], RootKey())) ==> out[i] == rows[i])
  {
    GrantDocSettles(rows[i], ch);
    RolesAreNames(rows[i], role);
    RolesAreNames(GrantDoc(rows[i], ch), role);
  }

  /** The sentinel is the one document added to its collection. */
  lemma SentinelIsWritten(db: Db, tries: seq<Try>, last: Choices)
    requires Possible(tries) && Honest(last) && !Done(db)
    ensures var rows, out := Rows(db, "general"), Rows(Completed(db, tries, last), "general");
            && |out| == |rows| + 1
            && "multitenancy_v1" in out[|rows|] && out[|rows|]["multitenancy_v1"] == Bool(true)
  {
    var ch := CrashesAreHarmless(db, tries, last);
    FinalState(db, "general", ch);
  }
}
