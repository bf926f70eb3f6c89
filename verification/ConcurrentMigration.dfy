/** Several instances running the multitenancy migration at once: nothing locks, so their storage
    operations interleave in any way, and any of them may crash. */
module ConcurrentMigration {
  import opened Values
  import opened Conditions
  import opened Tenant
  import opened Migration
  import Paths

  type Instance = nat

  /** Before operation `k`, or holding the changed document of root that is still to be written. */
  datatype Pc = At(k: nat) | Granting(cp: Doc)

  /** `reach`, `mix` and `marks` are history variables: how many operations have taken effect, the
      choices they made, and the sentinels written. */
  datatype System = System(db: Db, pcs: map<Instance, Pc>, reach: nat, mix: Choices, marks: seq<Doc>)

  const GRANT: nat := |SCOPED| + 2

  datatype Step =
    | Begin(i: Instance)
    | Advance(i: Instance)
    | ReadRoot(i: Instance)
    | WriteRoot(i: Instance)
    | Mark(i: Instance)
    | Crash(i: Instance)

  predicate AtStep(s: System, i: Instance, lo: nat, hi: nat) {
    i in s.pcs && s.pcs[i].At? && lo <= s.pcs[i].k < hi
  }

  predicate Enabled(s: System, step: Step) {
    match step
    case Begin(i) => i !in s.pcs && !Done(s.db)
    case Advance(i) => AtStep(s, i, 0, GRANT)
    case ReadRoot(i) => AtStep(s, i, GRANT, GRANT + 1)
    case WriteRoot(i) => i in s.pcs && s.pcs[i].Granting?
    case Mark(i) => AtStep(s, i, GRANT + 1, STEPS)
    case Crash(i) => i in s.pcs
  }

  function Root(db: Db): nat { FirstFrom(Rows(db, "user"), Fitting(RootKey()), 0) }

  /** Root is missing or holds the role already. */
  predicate NothingToGrant(db: Db) {
    Root(db) == |Rows(db, "user")| || PLATFORM_ADMIN in RoleNames(Rows(db, "user")[Root(db)])
  }

  /** The sentinels after an operation; backfilling `general` stamps them too. */
  function MarksAfter(marks: seq<Doc>, k: nat): seq<Doc>
    requires k < GRANT
  {
    if k >= 2 && SCOPED[k - 2] == "general" then StampRows(marks) else marks
  }

  function Apply(s: System, step: Step, ch: Instance -> Choices): System
    requires Enabled(s, step)
  {
    var i := step.i;
    match step
    case Begin(_) => s.(pcs := s.pcs[i := At(0)])
    case Advance(_) =>
      var k := s.pcs[i].k;
      s.(db := StepAt(s.db, k, ch(i)), pcs := s.pcs[i := At(k + 1)],
         reach := if k == s.reach then k + 1 else s.reach, mix := if k == s.reach then Mix(k, s.mix, ch(i)) else s.mix,
         marks := MarksAfter(s.marks, k))
    case ReadRoot(_) =>
      if NothingToGrant(s.db) then s.(pcs := s.pcs[i := At(GRANT + 1)], reach := GRANT + 1)
      else s.(pcs := s.pcs[i := Granting(GrantDoc(Rows(s.db, "user")[Root(s.db)], ch(i)))])
    case WriteRoot(_) =>
      s.(db := s.db["user" := UpsertRows(Rows(s.db, "user"), RootKey(), s.pcs[i].cp, "")],
         pcs := s.pcs[i := At(GRANT + 1)], reach := GRANT + 1, mix := s.mix.(order := ch(i).order))
    case Mark(_) =>
      s.(db := s.db["general" := Rows(s.db, "general") + [MarkerDoc(ch(i))]], pcs := s.pcs - {i},
         marks := s.marks + [MarkerDoc(ch(i))])
    case Crash(_) => s.(pcs := s.pcs - {i})
  }

  ghost predicate Goes(s: System, step: Step, s': System, ch: Instance -> Choices) {
    Enabled(s, step) && s' == Apply(s, step, ch)
  }

  ghost function Moves(ch: Instance -> Choices): (System, Step, System) -> bool {
    (s, step, s') => Goes(s, step, s', ch)
  }

  // ---- The database is always that of one run, with sentinels at the end of `general` ----

  function Over(db: Db, marks: seq<Doc>): Db {
    if marks == [] then db else db["general" := Rows(db, "general") + marks]
  }

  /** A sentinel, perhaps stamped with the default tenant. */
  ghost predicate IsSentinel(doc: Doc) {
    exists ch :: doc == MarkerDoc(ch) || doc == Stamp(MarkerDoc(ch))
  }

  /** The users once backfilled, whatever was chosen. */
  function Users(was: Db): seq<Doc> { StampRows(Rows(was, "user")) }

  ghost predicate PcInv(was: Db, s: System, i: Instance, ch: Instance -> Choices)
    requires i in s.pcs
  {
    match s.pcs[i]
    case At(k) => k <= s.reach
    case Granting(cp) =>
      var r := FirstFrom(Users(was), Fitting(RootKey()), 0);
      s.reach >= GRANT && r < |Users(was)| && cp == GrantDoc(Users(was)[r], ch(i))
  }

  ghost predicate Inv(was: Db, s: System, ch: Instance -> Choices) {
    && Honest(s.mix) && s.reach <= GRANT + 1 && (s.marks != [] ==> s.reach == GRANT + 1)
    && s.db == Over(Prefix(was, s.reach, s.mix), s.marks)
    && (forall i <- s.pcs :: PcInv(was, s, i, ch))
    && (forall m <- s.marks :: IsSentinel(m))
  }

  lemma UsersAre(was: Db, n: nat, ch: Choices)
    requires GRANT <= n <= GRANT + 1
    ensures Rows(Prefix(was, n, ch), "user") == if n == GRANT then Users(was) else GrantRows(Users(was), ch)
  {
    PrefixBackfills(was, |SCOPED|, ch);
    assert SCOPED[..|SCOPED|] == SCOPED;
    BackfilledRows(Prefix(was, 2, ch), SCOPED, "user");
    EnsuredRows(was, "user", ch);
    ScopedMembers();
    if n == GRANT + 1 {
      assert Prefix(was, n, ch) == StepAt(Prefix(was, GRANT, ch), GRANT, ch);
    }
  }

  lemma UsersOver(db: Db, marks: seq<Doc>)
    ensures Rows(Over(db, marks), "user") == Rows(db, "user")
  {
  }

  /** An operation that is settled stays idle over the sentinels, but for stamping them. */
  lemma IdleOver(db: Db, marks: seq<Doc>, k: nat, ch: Choices)
    requires k < GRANT && StepAt(db, k, ch) == db
    ensures StepAt(Over(db, marks), k, ch) == Over(db, MarksAfter(marks, k))
  {
    if marks == [] {
    } else if k < 2 {
      UpsertOver(db, marks, k, ch);
    } else {
      BackfillOver(db, marks, SCOPED[k - 2]);
    }
  }

  lemma UpsertOver(db: Db, marks: seq<Doc>, k: nat, ch: Choices)
    requires k < 2 && StepAt(db, k, ch) == db
    ensures StepAt(Over(db, marks), k, ch) == Over(db, marks)
  {
  }

  lemma BackfillOver(db: Db, marks: seq<Doc>, col: string)
    requires Backfill(db, col) == db && marks != []
    ensures Backfill(Over(db, marks), col) == Over(db, if col == "general" then StampRows(marks) else marks)
  {
    if col == "general" {
      var rows := Rows(db, "general");
      assert StampRows(rows) == rows by {
        assert StampRows([]) == [];
      }
      assert StampRows(rows + marks) == rows + StampRows(marks);
    }
  }

  /** Whoever repeats an operation that has taken effect changes nothing. */
  lemma RepeatIsIdle(was: Db, reach: nat, mix: Choices, k: nat, ch: Choices)
    requires k < reach <= GRANT + 1 && k < GRANT && Honest(mix) && Honest(ch)
    ensures StepAt(Prefix(was, reach, mix), k, ch) == Prefix(was, reach, mix)
  {
    PrefixSettles(was, reach, k, mix);
    SettledWhoeverChooses(Prefix(was, reach, mix), k, mix, ch);
  }

  lemma FirstToReach(was: Db, k: nat, mix: Choices, ch: Choices)
    requires k < GRANT
    ensures StepAt(Prefix(was, k, mix), k, ch) == Prefix(was, k + 1, Mix(k, mix, ch))
  {
    PrefixMixes(was, k, k, mix, ch);
    StepMixes(Prefix(was, k, mix), k, k, mix, ch);
  }

  lemma SentinelsStay(marks: seq<Doc>)
    requires forall m <- marks :: IsSentinel(m)
    ensures forall m <- StampRows(marks) :: IsSentinel(m)
  {
    forall m | m in StampRows(marks) ensures IsSentinel(m) {
      var j :| 0 <= j < |marks| && StampRows(marks)[j] == m;
      assert marks[j] in marks && IsSentinel(marks[j]);
      var ch :| marks[j] == MarkerDoc(ch) || marks[j] == Stamp(MarkerDoc(ch));
      assert m == Stamp(MarkerDoc(ch));
    }
  }

  lemma AdvanceReaches(was: Db, s: System, i: Instance, s': System, ch: Instance -> Choices)
    requires Inv(was, s, ch) && Honest(ch(i)) && Goes(s, Advance(i), s', ch)
    ensures s'.db == Over(Prefix(was, s'.reach, s'.mix), s'.marks)
  {
    var k := s.pcs[i].k;
    assert PcInv(was, s, i, ch);
    if k == s.reach {
      FirstToReach(was, k, s.mix, ch(i));
      assert StampRows([]) == [];
    } else {
      RepeatIsIdle(was, s.reach, s.mix, k, ch(i));
      IdleOver(Prefix(was, s.reach, s.mix), s.marks, k, ch(i));
    }
  }

  lemma AdvanceKeeps(was: Db, s: System, i: Instance, s': System, ch: Instance -> Choices)
    requires Inv(was, s, ch) && Honest(ch(i)) && Goes(s, Advance(i), s', ch)
    ensures Inv(was, s', ch)
  {
    AdvanceReaches(was, s, i, s', ch);
    assert PcInv(was, s, i, ch);
    SentinelsStay(s.marks);
    forall j | j in s'.pcs ensures PcInv(was, s', j, ch) {
      assert j != i ==> PcInv(was, s, j, ch);
    }
  }

  /** When there is nothing to grant, the grant has taken effect. */
  lemma GrantIsIdle(was: Db, s: System, ch: Instance -> Choices)
    requires Inv(was, s, ch) && s.reach >= GRANT && NothingToGrant(s.db)
    ensures Prefix(was, GRANT + 1, s.mix) == Prefix(was, s.reach, s.mix)
  {
    var p := Prefix(was, s.reach, s.mix);
    UsersOver(p, s.marks);
    if s.reach == GRANT && "user" in p {
      assert GrantRows(p["user"], s.mix) == p["user"];
      assert p["user" := p["user"]] == p;
    }
  }

  /** What is still to be granted is root as the backfill left it. */
  lemma RootIsUngranted(was: Db, s: System, ch: Instance -> Choices)
    requires Inv(was, s, ch) && s.reach >= GRANT && !NothingToGrant(s.db)
    ensures s.reach == GRANT && Rows(s.db, "user") == Users(was)
  {
    var p := Prefix(was, s.reach, s.mix);
    UsersOver(p, s.marks);
    UsersAre(was, s.reach, s.mix);
    if s.reach == GRANT + 1 {
      GrantedIsFound(Users(was), s.mix);
    }
  }

  lemma GrantedIsFound(rows: seq<Doc>, ch: Choices)
    requires Honest(ch)
    ensures var r := FirstFrom(rows, Fitting(RootKey()), 0);
            && FirstFrom(GrantRows(rows, ch), Fitting(RootKey()), 0) == r
            && (r < |rows| ==> PLATFORM_ADMIN in RoleNames(GrantRows(rows, ch)[r]))
  {
    var r, out := FirstFrom(rows, Fitting(RootKey()), 0), GrantRows(rows, ch);
    if r < |rows| {
      RootKeyHasNoRoles();
      GrantChangesRoles(rows[r], ch);
      KeyIsKept(rows[r], GrantDoc(rows[r], ch), RootKey());
      assert Fits(out[r], RootKey());
      FindsFirst(out, RootKey(), r);
      GrantDocSettles(rows[r], ch);
    }
  }

  lemma ReadKeeps(was: Db, s: System, i: Instance, s': System, ch: Instance -> Choices)
    requires Inv(was, s, ch) && Goes(s, ReadRoot(i), s', ch)
    ensures Inv(was, s', ch)
  {
    assert PcInv(was, s, i, ch);
    if NothingToGrant(s.db) {
      GrantIsIdle(was, s, ch);
    } else {
      RootIsUngranted(was, s, ch);
    }
    forall j | j in s'.pcs ensures PcInv(was, s', j, ch) {
      assert j != i ==> PcInv(was, s, j, ch);
    }
  }

  /** Writing root's changed document gives the granted rows, granted already or not. */
  lemma WriteGrants(users: seq<Doc>, rows: seq<Doc>, mix: Choices, ch: Choices)
    requires Honest(mix) && FirstFrom(users, Fitting(RootKey()), 0) < |users|
    requires rows == users || rows == GrantRows(users, mix)
    ensures var r := FirstFrom(users, Fitting(RootKey()), 0);
            UpsertRows(rows, RootKey(), GrantDoc(users[r], ch), "") == GrantRows(users, ch)
  {
    var r := FirstFrom(users, Fitting(RootKey()), 0);
    GrantedIsFound(users, mix);
    GrantChangesRoles(users[r], ch);
    GrantOnlyAddsRoles(users[r], mix, ch);
    WriteReplaces(users, rows, RootKey(), r, GrantDoc(users[r], mix), GrantDoc(users[r], ch));
  }

  lemma WriteReplaces(users: seq<Doc>, rows: seq<Doc>, key: Doc, r: nat, other: Doc, cp: Doc)
    requires r < |users| && (rows == users || rows == users[r := other]) && FirstFrom(rows, Fitting(key), 0) == r
    requires users[r].Keys <= cp.Keys && other.Keys == cp.Keys
    ensures UpsertRows(rows, key, cp, "") == users[r := cp]
  {
    WholeDocReplaces(rows, key, cp);
    assert rows[r := cp] == users[r := cp];
  }

  lemma GrantOnlyAddsRoles(doc: Doc, mix: Choices, ch: Choices)
    ensures GrantDoc(doc, mix).Keys == GrantDoc(doc, ch).Keys
  {
  }

  lemma WriteReaches(was: Db, s: System, i: Instance, s': System, ch: Instance -> Choices)
    requires Inv(was, s, ch) && Goes(s, WriteRoot(i), s', ch)
    ensures s'.db == Over(Prefix(was, GRANT + 1, s'.mix), s.marks)
  {
    assert PcInv(was, s, i, ch);
    var p := Prefix(was, s.reach, s.mix);
    UsersOver(p, s.marks);
    UsersAre(was, s.reach, s.mix);
    WriteGrants(Users(was), Rows(p, "user"), s.mix, ch(i));
    Regranted(was, s.reach, s.mix, s'.mix);
    OverCommutes(p, s.marks, GrantRows(Users(was), s'.mix));
  }

  /** Granting root's roles in another order. */
  lemma Regranted(was: Db, reach: nat, a: Choices, b: Choices)
    requires GRANT <= reach <= GRANT + 1 && b == a.(order := b.order)
    requires FirstFrom(Users(was), Fitting(RootKey()), 0) < |Users(was)|
    ensures Prefix(was, reach, a)["user" := GrantRows(Users(was), b)] == Prefix(was, GRANT + 1, b)
  {
    var users, p := Users(was), Prefix(was, GRANT, a);
    OrderOnlyGrants(was, a, b);
    UsersAre(was, GRANT, a);
    assert "user" in p;
    assert Prefix(was, GRANT + 1, b) == p["user" := GrantRows(users, b)];
    if reach == GRANT + 1 {
      assert Prefix(was, reach, a) == p["user" := GrantRows(users, a)];
    }
  }

  lemma OverCommutes(db: Db, marks: seq<Doc>, users: seq<Doc>)
    ensures Over(db, marks)["user" := users] == Over(db["user" := users], marks)
  {
  }

  /** Before the grant the order of roles does not matter. */
  lemma {:induction false} OrderOnlyGrantsTo(was: Db, a: Choices, b: Choices, n: nat)
    requires n <= GRANT && b == a.(order := b.order)
    ensures Prefix(was, n, b) == Prefix(was, n, a)
  {
    if n == 0 {
    } else {
      OrderOnlyGrantsTo(was, a, b, n - 1);
    }
  }

  lemma OrderOnlyGrants(was: Db, a: Choices, b: Choices)
    requires b == a.(order := b.order)
    ensures Prefix(was, GRANT, b) == Prefix(was, GRANT, a)
  {
    OrderOnlyGrantsTo(was, a, b, GRANT);
  }

  lemma WriteKeeps(was: Db, s: System, i: Instance, s': System, ch: Instance -> Choices)
    requires Inv(was, s, ch) && Honest(ch(i)) && Goes(s, WriteRoot(i), s', ch)
    ensures Inv(was, s', ch)
  {
    WriteReaches(was, s, i, s', ch);
    forall j | j in s'.pcs ensures PcInv(was, s', j, ch) {
      assert j != i ==> PcInv(was, s, j, ch);
    }
  }

  lemma OverAppends(db: Db, marks: seq<Doc>, m: Doc)
    ensures Over(db, marks)["general" := Rows(Over(db, marks), "general") + [m]] == Over(db, marks + [m])
  {
    var rows := Rows(db, "general");
    if marks == [] {
      assert marks + [m] == [m];
    } else {
      var over := db["general" := rows + marks];
      assert (rows + marks) + [m] == rows + (marks + [m]);
      assert over["general" := rows + (marks + [m])] == db["general" := rows + (marks + [m])];
    }
  }

  lemma MarkKeeps(was: Db, s: System, i: Instance, s': System, ch: Instance -> Choices)
    requires Inv(was, s, ch) && Goes(s, Mark(i), s', ch)
    ensures Inv(was, s', ch)
  {
    assert PcInv(was, s, i, ch);
    OverAppends(Prefix(was, s.reach, s.mix), s.marks, MarkerDoc(ch(i)));
    assert IsSentinel(MarkerDoc(ch(i)));
    forall j | j in s'.pcs ensures PcInv(was, s', j, ch) {
      assert PcInv(was, s, j, ch);
    }
  }

  lemma StepKeeps(was: Db, s: System, step: Step, s': System, ch: Instance -> Choices)
    requires Inv(was, s, ch) && (forall i :: Honest(ch(i))) && Goes(s, step, s', ch)
    ensures Inv(was, s', ch)
  {
    match step {
      case Advance(i) => AdvanceKeeps(was, s, i, s', ch);
      case ReadRoot(i) => ReadKeeps(was, s, i, s', ch);
      case WriteRoot(i) => WriteKeeps(was, s, i, s', ch);
      case Mark(i) => MarkKeeps(was, s, i, s', ch);
      case _ =>
        forall j | j in s'.pcs ensures PcInv(was, s', j, ch) {
          assert j in s.pcs ==> PcInv(was, s, j, ch);
        }
    }
  }

  // ---- Runs ----

  function Start(was: Db, ch: Choices): System { System(was, map[], 0, ch, []) }

  ghost predicate IsRun(was: Db, run: seq<System>, steps: seq<Step>, ch: Instance -> Choices) {
    && (forall i :: Honest(ch(i)))
    && Paths.IsPath(Moves(ch), run, steps) && run[0] == Start(was, ch(0))
  }

  lemma RunKeepsInv(was: Db, run: seq<System>, steps: seq<Step>, ch: Instance -> Choices, n: nat)
    requires IsRun(was, run, steps, ch) && n < |run|
    ensures Inv(was, run[n], ch)
  {
    forall s, step, s' | Inv(was, s, ch) && Moves(ch)(s, step, s') ensures Inv(was, s', ch) {
      StepKeeps(was, s, step, s', ch);
    }
    Paths.PathKeeps(Moves(ch), s => Inv(was, s, ch), run, steps, n);
  }

  /** The collections of one run before its sentinel. */
  lemma RowsBeforeSentinel(was: Db, mix: Choices, col: string)
    requires !Done(was)
    ensures Rows(Prefix(was, GRANT + 1, mix), col) ==
            if col == "general" then StampRows(Rows(was, col)) else Final(was, col, mix)
  {
    FinalState(was, col, mix);
    var p := Prefix(was, GRANT + 1, mix);
    assert Prefix(was, STEPS, mix) == StepAt(p, GRANT + 1, mix);
    if col == "general" {
      assert Rows(p, col) + [MarkerDoc(mix)] == StampRows(Rows(was, col)) + [MarkerDoc(mix)];
      assert (Rows(p, col) + [MarkerDoc(mix)])[..|Rows(p, col)|] == Rows(p, col);
    }
  }

  /** However many instances migrate at once, and whichever of them crash: once one has completed,
      and from then on, every collection but `general` ends as after one uninterrupted run, row by
      row, and `general` holds its own backfilled rows and one sentinel for each completion. */
  lemma ConcurrentRunsEndAlike(was: Db, run: seq<System>, steps: seq<Step>, ch: Instance -> Choices,
                               n: nat, b: Choices, col: string)
    requires IsRun(was, run, steps, ch) && n < |run| && run[n].marks != [] && !Done(was) && Honest(b)
    ensures col != "general" ==> AllAlike(Rows(run[n].db, col), Rows(Migration.Run(was, STEPS, b), col))
    ensures Rows(run[n].db, "general") == StampRows(Rows(was, "general")) + run[n].marks
    ensures forall m <- run[n].marks :: IsSentinel(m) && HasMarker(m)
  {
    RunKeepsInv(was, run, steps, ch, n);
    var s := run[n];
    RowsBeforeSentinel(was, s.mix, "general");
    if col != "general" {
      RowsBeforeSentinel(was, s.mix, col);
      FinalState(was, col, b);
      FinalAlike(was, col, s.mix, b);
    }
  }

  // ---- A second sentinel ----

  /** Instance `i` runs from operation `k` to its end, undisturbed. */
  lemma {:induction false} RunsToTheEnd(s: System, i: Instance, ch: Instance -> Choices)
    returns (run: seq<System>, steps: seq<Step>)
    requires i in s.pcs && s.pcs[i].At? && s.pcs[i].k <= GRANT + 1
    ensures Paths.IsPath(Moves(ch), run, steps) && run[0] == s
    ensures run[|steps|].pcs == s.pcs - {i} && |run[|steps|].marks| == |s.marks| + 1
    decreases GRANT + 1 - s.pcs[i].k
  {
    var k := s.pcs[i].k;
    if k == GRANT + 1 {
      var end := Apply(s, Mark(i), ch);
      run, steps := [s, end], [Mark(i)];
      assert Moves(ch)(s, Mark(i), end);
    } else if k == GRANT {
      var p, q := Grants(s, i, ch);
      var r, u := RunsToTheEnd(p[|q|], i, ch);
      run, steps := Paths.Chain(Moves(ch), p, q, r, u);
    } else {
      var m := Apply(s, Advance(i), ch);
      assert Moves(ch)(s, Advance(i), m);
      var r, u := RunsToTheEnd(m, i, ch);
      run, steps := Paths.Chain(Moves(ch), [s, m], [Advance(i)], r, u);
      assert m.pcs - {i} == s.pcs - {i};
    }
  }

  lemma Grants(s: System, i: Instance, ch: Instance -> Choices) returns (run: seq<System>, steps: seq<Step>)
    requires i in s.pcs && s.pcs[i] == At(GRANT)
    ensures Paths.IsPath(Moves(ch), run, steps) && run[0] == s
    ensures var end := run[|steps|];
            i in end.pcs && end.pcs[i] == At(GRANT + 1) && end.pcs - {i} == s.pcs - {i} && end.marks == s.marks
  {
    var m := Apply(s, ReadRoot(i), ch);
    assert Moves(ch)(s, ReadRoot(i), m);
    run, steps := [s, m], [ReadRoot(i)];
    if m.pcs[i].Granting? {
      var e := Apply(m, WriteRoot(i), ch);
      assert Moves(ch)(m, WriteRoot(i), e);
      run, steps := [s, m, e], [ReadRoot(i), WriteRoot(i)];
    }
  }

  /** The sentinel is written so that it would not accumulate. Two instances that start together
      leave two of them. */
  lemma TwoSentinels(was: Db, ch: Instance -> Choices)
    requires !Done(was) && forall i :: Honest(ch(i))
    ensures exists run: seq<System>, steps ::
              IsRun(was, run, steps, ch) && run[|steps|].pcs == map[] && |run[|steps|].marks| == 2
  {
    var s := Start(was, ch(0));
    var s1 := Apply(s, Begin(0), ch);
    var s2 := Apply(s1, Begin(1), ch);
    assert Moves(ch)(s, Begin(0), s1) && Moves(ch)(s1, Begin(1), s2);
    var p, q := RunsToTheEnd(s2, 0, ch);
    var m := p[|q|];
    assert 1 in m.pcs && m.pcs[1] == At(0);
    var r, u := RunsToTheEnd(m, 1, ch);
    assert m.pcs - {1} == map[];
    var a, x := Paths.Chain(Moves(ch), [s, s1, s2], [Begin(0), Begin(1)], p, q);
    var run, steps := Paths.Chain(Moves(ch), a, x, r, u);
    assert IsRun(was, run, steps, ch);
  }
}
