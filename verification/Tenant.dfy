/** Scoping a condition to one tenant. */
module Tenant {
  import opened Values
  import opened Conditions
  import opened Evaluator

  const TENANT_FIELD: string := "tenant_id"

  function WithTenantCond(c: Cond, tenant: string): Cond {
    var pred := Equals(TENANT_FIELD, Str(tenant));
    if c.IsZero() then pred else AndOf([c, pred])
  }

  predicate OwnedBy(rec: Record, tenant: string) {
    TENANT_FIELD in rec && rec[TENANT_FIELD] == Str(tenant)
  }

  lemma TenantFieldIsTopLevel(rec: Record)
    ensures Got(rec, TENANT_FIELD) == if TENANT_FIELD in rec then rec[TENANT_FIELD] else Null
  {
    FieldReads(rec, TENANT_FIELD);
  }

  /** Two-operand conjunction matches exactly when both operands do, compiling or not. */
  lemma AndMatches(e: Engine, rec: Record, a: Cond, b: Cond)
    ensures Match(e, rec, Node(And, [a, b])) <==> Match(e, rec, a) && Match(e, rec, b)
  {
    var c := Node(And, [a, b]);
    MatchMeans(e, rec, a);
    MatchMeans(e, rec, b);
    MatchMeans(e, rec, c);
    assert c.children[0] == a && c.children[1] == b;
  }

  /** The scoped condition matches exactly the tenant's own records that the original
      matches, for every condition, compiling or not. */
  lemma ScopedMatches(e: Engine, rec: Record, c: Cond, tenant: string)
    ensures Match(e, rec, WithTenantCond(c, tenant)) <==> Match(e, rec, c) && OwnedBy(rec, tenant)
  {
    var pred := Equals(TENANT_FIELD, Str(tenant));
    TenantFieldIsTopLevel(rec);
    MatchMeans(e, rec, pred);
    MatchMeans(e, rec, c);
    AndMatches(e, rec, c, pred);
  }

  /** Scoping one condition to two different tenants matches nothing. */
  lemma TwoTenantsMatchNothing(e: Engine, rec: Record, c: Cond, t: string, u: string)
    requires t != u
    ensures !Match(e, rec, WithTenantCond(WithTenantCond(c, t), u))
  {
    ScopedMatches(e, rec, c, t);
    ScopedMatches(e, rec, WithTenantCond(c, t), u);
  }
}
