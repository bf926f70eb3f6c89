/** When each login has one active token and each token is exchanged once: the runs that fail, and
    the exact conditions under which none does. */
module RotationOrder {
  import opened Values
  import opened RefreshTokens
  import Paths

  // ---- Two orders ----

  predicate ActiveRow(s: State, i: int) { 0 <= i < |s.rows| && Active(s.rows[i], s.now) }

  /** Each login has at most one active token. */
  ghost predicate OneActive(s: State) {
    forall i, j :: ActiveRow(s, i) && ActiveRow(s, j) && i != j ==> s.rows[i].chain != s.rows[j].chain
  }

  /** The rotation is of this very row and will revoke it. */
  predicate WillRevoke(call: Progress, row: Row) {
    && row.token == call.raw && !call.phase.Marked?
    && (call.phase.Looked? ==> call.phase.tenant == TenantOf(row))
  }

  ghost predicate RowsInOrder(s: State) {
    forall id, i :: Rotates(s, id) && ActiveRow(s, i) && s.rows[i].chain == Some(s.calls[id].chain) ==>
      WillRevoke(s.calls[id], s.rows[i])
  }

  ghost predicate CallsInOrder(s: State) {
    forall id, other :: Rotates(s, id) && Rotates(s, other) && id != other ==>
      s.calls[id].chain != s.calls[other].chain
  }

  /** Each login has at most one active token or one rotation to carry it on. */
  ghost predicate InOrder(s: State) { OneActive(s) && RowsInOrder(s) && CallsInOrder(s) }

  /** Some rotation of the token is under way. */
  ghost predicate Rotating(s: State, raw: Token) { exists id :: Rotates(s, id) && s.calls[id].raw == raw }

  /** No token was exchanged twice. */
  ghost predicate NoRepeats(s: State) {
    forall j, k :: 0 <= j < k < |s.rotated| ==> s.rotated[j] != s.rotated[k]
  }

  /** The token has no active row and no rotation under way. */
  ghost predicate Spent(s: State, t: Token) {
    !Rotating(s, t) && forall i :: ActiveRow(s, i) ==> s.rows[i].token != t
  }

  ghost predicate OwnRowsInOrder(s: State) {
    forall id, i :: Rotates(s, id) && ActiveRow(s, i) && s.rows[i].token == s.calls[id].raw ==>
      WillRevoke(s.calls[id], s.rows[i])
  }

  ghost predicate OneRotationEach(s: State) {
    forall id, other :: Rotates(s, id) && Rotates(s, other) && id != other ==>
      s.calls[id].raw != s.calls[other].raw
  }

  /** No token was exchanged twice, each exchanged one is spent, each has at most one rotation under
      way, and each rotation will revoke the token it is of. */
  ghost predicate Once(s: State) {
    && NoRepeats(s) && (forall t <- s.rotated :: Spent(s, t))
    && OneRotationEach(s) && OwnRowsInOrder(s)
  }

  /** A step that starts no rotation while one of the same token is under way, and whose
      second lookup is answered. */
  ghost predicate Orderly(s: State, step: Step) {
    && (step.Check? ==> !Rotating(s, step.raw))
    && (step.Look? ==> step.answered)
  }

  ghost function OrderlyMoves(hash: Token -> string, lease: int): (State, Step, State) -> bool {
    (s, step, s') => Goes(s, step, s', hash, lease) && Orderly(s, step)
  }

  ghost predicate IsOrderlyPath(run: seq<State>, steps: seq<Step>, hash: Token -> string, lease: int) {
    Paths.IsPath(OrderlyMoves(hash, lease), run, steps)
  }

  // ---- What steps do to active rows ----

  /** Every active row was active, in the same place. */
  ghost predicate Fades(s: State, s': State) {
    forall i :: ActiveRow(s', i) ==> ActiveRow(s, i) && s'.rows[i] == s.rows[i]
  }

  lemma MarkFades(s: State, id: CallId, s': State, hash: Token -> string, lease: int)
    requires Inv(s, hash) && Goes(s, Mark(id, true), s', hash, lease)
    ensures Fades(s, s')
  {
    MarkRowsRevoke(s.rows, s.calls[id].phase.tenant, hash(s.calls[id].raw), s.calls[id].raw, s.now);
  }

  lemma CleanupHolds(s: State, s': State, hash: Token -> string, lease: int)
    requires Goes(s, Cleanup(true), s', hash, lease)
    ensures forall i :: ActiveRow(s', i) ==> exists j :: ActiveRow(s, j) && s.rows[j] == s'.rows[i]
  {
    UnexpiredKeeps(s.rows, s.now, (x, y) => true);
    forall i | ActiveRow(s', i) ensures exists j :: ActiveRow(s, j) && s.rows[j] == s'.rows[i] {
      assert s'.rows[i] in s'.rows;
      var j :| 0 <= j < |s.rows| && s.rows[j] == s'.rows[i];
      assert ActiveRow(s, j);
    }
  }

  /** An active row is its token's own, and is found by its hash. */
  lemma ActiveIsFound(s: State, hash: Token -> string, i: nat)
    requires Inv(s, hash) && Injective(hash) && ActiveRow(s, i)
    ensures RowInv(s, hash, s.rows[i]) && s.rows[i].chain.Some?
    ensures FirstFrom(s.rows, HasHash(hash(s.rows[i].token)), 0) == i
    ensures FirstFrom(s.rows, HasKey(TenantOf(s.rows[i]), hash(s.rows[i].token)), 0) == i
    ensures Rotatable(s, hash, s.rows[i].token) == Some(i)
  {
    assert RowInv(s, hash, s.rows[i]);
    FindsItsRow(s, hash, i);
  }

  /** A rotation's write revokes every active row it was going to. */
  lemma MarkRevokes(s: State, id: CallId, s': State, hash: Token -> string, lease: int, i: nat)
    requires Inv(s, hash) && Injective(hash) && Rotates(s, id) && Goes(s, Mark(id, true), s', hash, lease)
    requires ActiveRow(s, i) && WillRevoke(s.calls[id], s.rows[i])
    ensures !ActiveRow(s', i)
  {
    ActiveIsFound(s, hash, i);
    RevokedFields(s.rows[i], s.now);
  }

  // ---- Orderly steps keep one active token for each login ----

  /** A step after which every active row was one, and the rotations are those from before. */
  lemma OrderStays(s: State, s': State)
    requires InOrder(s) && Fades(s, s')
    requires forall id :: Rotates(s', id) ==> Rotates(s, id) && s'.calls[id] == s.calls[id]
    ensures InOrder(s')
  {
  }

  lemma CheckInOrder(s: State, step: Step, s': State, hash: Token -> string, lease: int)
    requires Inv(s, hash) && Injective(hash) && InOrder(s) && step.Check? && Goes(s, step, s', hash, lease)
    requires !Rotating(s, step.raw)
    ensures InOrder(s')
  {
    var i := Rotatable(s, hash, step.raw).value;
    RotatesItsRow(s, hash, step.raw);
    assert ActiveRow(s, i);
    forall id | Rotates(s, id) ensures s.calls[id].chain != s.rows[i].chain.value {
      assert s.rows[i].chain == Some(s.calls[id].chain) ==> WillRevoke(s.calls[id], s.rows[i]);
    }
  }

  lemma LookInOrder(s: State, step: Step, s': State, hash: Token -> string, lease: int)
    requires Inv(s, hash) && Injective(hash) && InOrder(s) && Goes(s, step, s', hash, lease)
    requires step.Look? && step.answered
    ensures InOrder(s')
  {
    forall id, i | Rotates(s', id) && ActiveRow(s', i) && s'.rows[i].chain == Some(s'.calls[id].chain)
      ensures WillRevoke(s'.calls[id], s'.rows[i])
    {
      assert ActiveRow(s, i) && WillRevoke(s.calls[id], s.rows[i]);
      ActiveIsFound(s, hash, i);
    }
    assert forall i :: ActiveRow(s', i) ==> ActiveRow(s, i);
  }

  lemma MarkInOrder(s: State, step: Step, s': State, hash: Token -> string, lease: int)
    requires Inv(s, hash) && Injective(hash) && InOrder(s) && Goes(s, step, s', hash, lease)
    requires step.Mark? && step.written
    ensures InOrder(s')
  {
    MarkFades(s, step.id, s', hash, lease);
    OrderStays(s, s'.(calls := s'.calls - {step.id}));
    forall id, i | Rotates(s', id) && ActiveRow(s', i) && s'.rows[i].chain == Some(s'.calls[id].chain)
      ensures WillRevoke(s'.calls[id], s'.rows[i])
    {
      assert ActiveRow(s, i) && WillRevoke(s.calls[id], s.rows[i]);
      if id == step.id {
        MarkRevokes(s, id, s', hash, lease, i);
      }
    }
  }

  /** Appending a row of a login that has no active one, nor a rotation. */
  lemma MintInOrder(s: State, s': State, row: Row)
    requires InOrder(s) && s'.rows == s.rows + [row] && row.chain.Some? && s'.now == s.now
    requires forall i :: ActiveRow(s, i) ==> s.rows[i].chain != row.chain
    requires forall id :: Rotates(s', id) ==>
               Rotates(s, id) && s'.calls[id] == s.calls[id] && Some(s.calls[id].chain) != row.chain
    ensures InOrder(s')
  {
    assert forall i :: ActiveRow(s', i) && i < |s.rows| ==> ActiveRow(s, i) && s'.rows[i] == s.rows[i];
  }

  lemma LoginInOrder(s: State, step: Step, s': State, hash: Token -> string, lease: int)
    requires Inv(s, hash) && InOrder(s) && step.Login? && step.written && Goes(s, step, s', hash, lease)
    ensures InOrder(s')
  {
    forall i | 0 <= i < |s.rows| ensures s.rows[i].chain != Some(|s.logins|) {
      assert RowInv(s, hash, s.rows[i]);
    }
    forall id | Rotates(s', id) ensures Some(s.calls[id].chain) != Some(|s.logins|) {
      assert CallInv(s, s.calls[id]);
    }
    MintInOrder(s, s', s'.rows[|s.rows|]);
  }

  lemma IssueInOrder(s: State, step: Step, s': State, hash: Token -> string, lease: int)
    requires Inv(s, hash) && InOrder(s) && step.Issue? && step.written && Goes(s, step, s', hash, lease)
    ensures InOrder(s')
  {
    assert Rotates(s, step.id);
    forall i | ActiveRow(s, i) ensures s.rows[i].chain != Some(s.calls[step.id].chain) {
      assert s.rows[i].chain == Some(s.calls[step.id].chain) ==> WillRevoke(s.calls[step.id], s.rows[i]);
    }
    MintInOrder(s, s', s'.rows[|s.rows|]);
  }

  lemma CleanupInOrder(s: State, s': State, hash: Token -> string, lease: int)
    requires InOrder(s) && Goes(s, Cleanup(true), s', hash, lease)
    ensures InOrder(s')
  {
    var apart := (x: Row, y: Row) => !(Active(x, s.now) && Active(y, s.now) && x.chain == y.chain);
    assert Pairwise(s.rows, apart) by {
      forall i, j | 0 <= i < j < |s.rows| ensures apart(s.rows[i], s.rows[j]) {
        assert apart(s.rows[i], s.rows[j]) || (ActiveRow(s, i) && ActiveRow(s, j));
      }
    }
    UnexpiredKeeps(s.rows, s.now, apart);
    forall i, j | ActiveRow(s', i) && ActiveRow(s', j) && i != j ensures s'.rows[i].chain != s'.rows[j].chain {
      assert if i < j then apart(s'.rows[i], s'.rows[j]) else apart(s'.rows[j], s'.rows[i]);
    }
    CleanupHolds(s, s', hash, lease);
    forall id, i | Rotates(s', id) && ActiveRow(s', i) && s'.rows[i].chain == Some(s'.calls[id].chain)
      ensures WillRevoke(s'.calls[id], s'.rows[i])
    {
      var j :| ActiveRow(s, j) && s.rows[j] == s'.rows[i];
      assert Rotates(s, id);
    }
  }

  lemma OrderlyKeeps(s: State, step: Step, s': State, hash: Token -> string, lease: int)
    requires Inv(s, hash) && Injective(hash) && InOrder(s) && Orderly(s, step) && Goes(s, step, s', hash, lease)
    ensures InOrder(s')
  {
    if step.Check? {
      CheckInOrder(s, step, s', hash, lease);
    } else if step.Look? {
      LookInOrder(s, step, s', hash, lease);
    } else if step.Mark? && step.written {
      MarkInOrder(s, step, s', hash, lease);
    } else if step.Login? && step.written {
      LoginInOrder(s, step, s', hash, lease);
    } else if step.Issue? && step.written {
      IssueInOrder(s, step, s', hash, lease);
    } else if step.Cleanup? && step.deleted {
      CleanupInOrder(s, s', hash, lease);
    } else {
      OrderStays(s, s');
    }
  }

  // ---- Orderly steps exchange each token once ----

  /** Every active row after the step was one before, or is of a token drawn in it. */
  ghost predicate RowsFromBefore(s: State, s': State) {
    forall i :: ActiveRow(s', i) ==>
      s'.rows[i].token !in s.used || exists j :: ActiveRow(s, j) && s.rows[j] == s'.rows[i]
  }

  lemma RowsComeFromBefore(s: State, step: Step, s': State, hash: Token -> string, lease: int)
    requires Inv(s, hash) && Goes(s, step, s', hash, lease)
    ensures RowsFromBefore(s, s')
  {
    if step.Mark? && step.written {
      MarkFades(s, step.id, s', hash, lease);
    } else if step.Cleanup? && step.deleted {
      CleanupHolds(s, s', hash, lease);
    } else {
      assert forall i :: ActiveRow(s', i) && i < |s.rows| ==> ActiveRow(s, i) && s.rows[i] == s'.rows[i];
    }
  }

  /** A spent token stays spent: it cannot be exchanged again. */
  lemma SpentStays(s: State, step: Step, s': State, hash: Token -> string, lease: int, t: Token)
    requires Inv(s, hash) && Injective(hash) && Goes(s, step, s', hash, lease) && Spent(s, t) && t in s.used
    ensures Spent(s', t)
  {
    RowsComeFromBefore(s, step, s', hash, lease);
    if step.Check? {
      RotatesItsRow(s, hash, step.raw);
      assert ActiveRow(s, Rotatable(s, hash, step.raw).value);
    }
    forall id | Rotates(s', id) ensures s'.calls[id].raw != t {
      assert Rotates(s, id) ==> s.calls[id].raw != t;
    }
  }

  lemma OneEachStays(s: State, step: Step, s': State, hash: Token -> string, lease: int)
    requires OneRotationEach(s) && Orderly(s, step) && Goes(s, step, s', hash, lease)
    ensures OneRotationEach(s')
  {
    forall id, other | Rotates(s', id) && Rotates(s', other) && id != other
      ensures s'.calls[id].raw != s'.calls[other].raw
    {
      assert step.Check? || (Rotates(s, id) && Rotates(s, other));
    }
  }

  /** A rotation under way will still revoke its token's active row, or has done so. */
  lemma OwnRowsStay(s: State, step: Step, s': State, hash: Token -> string, lease: int)
    requires Inv(s, hash) && Injective(hash) && OwnRowsInOrder(s) && Orderly(s, step) && Goes(s, step, s', hash, lease)
    ensures OwnRowsInOrder(s')
  {
    RowsComeFromBefore(s, step, s', hash, lease);
    forall id, i | Rotates(s', id) && ActiveRow(s', i) && s'.rows[i].token == s'.calls[id].raw
      ensures WillRevoke(s'.calls[id], s'.rows[i])
    {
      CallEvolves(s, step, s', hash, lease, id);
      if Rotates(s, id) {
        OwnRowWasThere(s, s', hash, id, i);
        OwnRowStays(s, step, s', hash, lease, id, i);
      }
    }
  }

  /** Where a rotation under way comes from: it was under way as it is, has just been started, has
      just looked its tenant up or has just revoked. */
  lemma CallEvolves(s: State, step: Step, s': State, hash: Token -> string, lease: int, id: CallId)
    requires Goes(s, step, s', hash, lease) && Rotates(s', id)
    ensures !Rotates(s, id) ==> s'.calls[id].phase.Checked?
    ensures Rotates(s, id) ==> s'.calls[id].raw == s.calls[id].raw && s'.calls[id].chain == s.calls[id].chain
    ensures Rotates(s, id) ==>
              s'.calls[id] == s.calls[id] || step == Mark(id, true) || (step.Look? && step.id == id)
  {
  }

  lemma OwnRowWasThere(s: State, s': State, hash: Token -> string, id: CallId, i: nat)
    requires Inv(s, hash) && OwnRowsInOrder(s) && RowsFromBefore(s, s')
    requires Rotates(s, id) && ActiveRow(s', i) && s'.rows[i].token == s.calls[id].raw
    ensures WillRevoke(s.calls[id], s'.rows[i])
  {
    assert CallInv(s, s.calls[id]);
    var j :| ActiveRow(s, j) && s.rows[j] == s'.rows[i];
    assert WillRevoke(s.calls[id], s.rows[j]);
  }

  lemma OwnRowStays(s: State, step: Step, s': State, hash: Token -> string, lease: int, id: CallId, i: nat)
    requires Inv(s, hash) && Injective(hash) && Orderly(s, step) && Goes(s, step, s', hash, lease)
    requires Rotates(s, id) && Rotates(s', id) && ActiveRow(s', i) && WillRevoke(s.calls[id], s'.rows[i])
    ensures WillRevoke(s'.calls[id], s'.rows[i])
  {
    CallEvolves(s, step, s', hash, lease, id);
    if step.Look? && step.id == id {
      LookKeepsOwn(s, s', hash, lease, id, i);
    } else if step == Mark(id, true) {
      MarkFades(s, id, s', hash, lease);
      MarkRevokes(s, id, s', hash, lease, i);
    }
  }

  lemma LookKeepsOwn(s: State, s': State, hash: Token -> string, lease: int, id: CallId, i: nat)
    requires Inv(s, hash) && Injective(hash) && Rotates(s, id) && Goes(s, Look(id, true), s', hash, lease)
    requires ActiveRow(s', i) && WillRevoke(s.calls[id], s'.rows[i])
    ensures WillRevoke(s'.calls[id], s'.rows[i])
  {
    assert ActiveRow(s, i);
    ActiveIsFound(s, hash, i);
  }

  /** A rotation that mints its successor has spent its token. */
  lemma IssueSpends(s: State, step: Step, s': State, hash: Token -> string, lease: int)
    requires Inv(s, hash) && Once(s) && step.Issue? && step.written && Goes(s, step, s', hash, lease)
    ensures Spent(s', s.calls[step.id].raw) && s.calls[step.id].raw !in s.rotated
  {
    var call := s.calls[step.id];
    assert Rotates(s, step.id) && CallInv(s, call);
    forall i | ActiveRow(s', i) ensures s'.rows[i].token != call.raw {
      if i < |s.rows| {
        assert ActiveRow(s, i);
        assert s.rows[i].token == call.raw ==> WillRevoke(call, s.rows[i]);
      }
    }
    forall id | Rotates(s', id) ensures s'.calls[id].raw != call.raw {
      assert Rotates(s, id);
    }
  }

  lemma OnceStays(s: State, step: Step, s': State, hash: Token -> string, lease: int)
    requires Inv(s, hash) && Injective(hash) && Once(s) && Orderly(s, step) && Goes(s, step, s', hash, lease)
    ensures Once(s')
  {
    OneEachStays(s, step, s', hash, lease);
    OwnRowsStay(s, step, s', hash, lease);
    if step.Issue? && step.written {
      IssueSpends(s, step, s', hash, lease);
    }
    forall t | t in s'.rotated ensures Spent(s', t) {
      if t in s.rotated {
        SpentStays(s, step, s', hash, lease, t);
      }
    }
  }

  // ---- Runs without overlap ----

  ghost predicate Sound(s: State, hash: Token -> string) { Inv(s, hash) && InOrder(s) && Once(s) }

  lemma OrderlyRunIsSound(run: seq<State>, steps: seq<Step>, hash: Token -> string, lease: int, n: nat)
    requires IsOrderlyPath(run, steps, hash, lease) && run[0] == INIT && Injective(hash) && n < |run|
    ensures Sound(run[n], hash)
  {
    forall s, step, s' | Sound(s, hash) && OrderlyMoves(hash, lease)(s, step, s') ensures Sound(s', hash) {
      StepKeeps(s, step, s', hash, lease);
      OrderlyKeeps(s, step, s', hash, lease);
      OnceStays(s, step, s', hash, lease);
    }
    Paths.PathKeeps(OrderlyMoves(hash, lease), s => Sound(s, hash), run, steps, n);
  }

  /** As long as rotations of one token do not overlap and second lookups answer, each login has at
      most one active token at any time. */
  lemma ChainSafety(run: seq<State>, steps: seq<Step>, hash: Token -> string, lease: int, n: nat, i: nat, j: nat)
    requires IsOrderlyPath(run, steps, hash, lease) && run[0] == INIT && Injective(hash) && n < |run|
    requires ActiveRow(run[n], i) && ActiveRow(run[n], j) && run[n].rows[i].chain == run[n].rows[j].chain
    ensures i == j
  {
    OrderlyRunIsSound(run, steps, hash, lease, n);
  }

  /** In such a run no token is exchanged twice, and one that was exchanged cannot be exchanged
      again, cleanups included. */
  lemma RotatesOnce(run: seq<State>, steps: seq<Step>, hash: Token -> string, lease: int, n: nat)
    requires IsOrderlyPath(run, steps, hash, lease) && run[0] == INIT && Injective(hash) && n < |run|
    ensures NoRepeats(run[n]) && forall raw <- run[n].rotated :: Rotatable(run[n], hash, raw).None?
  {
    OrderlyRunIsSound(run, steps, hash, lease, n);
    forall raw | raw in run[n].rotated ensures Rotatable(run[n], hash, raw).None? {
      assert Spent(run[n], raw);
      if Rotatable(run[n], hash, raw).Some? {
        RotatesItsRow(run[n], hash, raw);
        assert ActiveRow(run[n], Rotatable(run[n], hash, raw).value);
      }
    }
  }
}
