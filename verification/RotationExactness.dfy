/** From any reachable state, exactly when no orderly continuation breaks the order; and the runs
    in which overlapping rotations or a failed lookup do. */
module RotationExactness {
  import opened Values
  import opened RefreshTokens
  import opened RotationOrder
  import Paths

  // ---- Running a rotation to its end ----

  lemma {:induction false} LongerThanAll(used: set<Token>) returns (n: nat)
    ensures forall t <- used :: |t| < n
  {
    if used == {} {
      n := 0;
    } else {
      var t :| t in used;
      var m := LongerThanAll(used - {t});
      n := if |t| < m then m else |t| + 1;
      assert used == (used - {t}) + {t};
    }
  }

  lemma FreshToken(s: State) returns (t: Token)
    ensures Drawable(s, t)
  {
    var n := LongerThanAll(s.used);
    t := seq(n + 1, _ => 'x');
  }

  lemma {:induction false} AboveAll(ids: set<CallId>) returns (n: CallId)
    ensures forall id <- ids :: id < n
  {
    if ids == {} {
      n := 0;
    } else {
      var id :| id in ids;
      var m := AboveAll(ids - {id});
      n := if id < m then m else id + 1;
      assert ids == (ids - {id}) + {id};
    }
  }

  /** `end` is `s` after its rotation `id` has run to its end, in no time: the rotation's token is
      recorded as exchanged, and its login has a new, active row of a new token. */
  ghost predicate Ended(s: State, id: CallId, end: State, hash: Token -> string) {
    && Rotates(s, id) && Inv(end, hash) && end.now == s.now && |s.rows| < |end.rows|
    && end.calls == s.calls - {id} && s.used <= end.used && end.rotated == s.rotated + [s.calls[id].raw]
    && ActiveRow(end, |end.rows| - 1)
    && var row := end.rows[|end.rows| - 1];
       row.chain == Some(s.calls[id].chain) && row.token !in s.used
  }

  /** Rows the end of a rotation leaves as they are. */
  predicate Untouched(call: Progress, row: Row) {
    || row.token != call.raw
    || call.phase.Marked?
    || (call.phase.Looked? && call.phase.tenant != TenantOf(row))
  }

  ghost predicate Leaves(s: State, id: CallId, end: State) {
    |s.rows| <= |end.rows| && id in s.calls
    && forall i :: 0 <= i < |s.rows| && Untouched(s.calls[id], s.rows[i]) ==> end.rows[i] == s.rows[i]
  }

  ghost predicate EndsBy(s: State, id: CallId, run: seq<State>, steps: seq<Step>, hash: Token -> string, lease: int) {
    && IsOrderlyPath(run, steps, hash, lease) && run[0] == s
    && Ended(s, id, run[|steps|], hash) && Leaves(s, id, run[|steps|])
  }

  /** What the exactness results assume: an injective hash and a positive lease. */
  ghost predicate Ready(s: State, hash: Token -> string, lease: int) { Inv(s, hash) && Injective(hash) && lease > 0 }

  lemma EndMarked(s: State, id: CallId, hash: Token -> string, lease: int) returns (run: seq<State>, steps: seq<Step>)
    requires Ready(s, hash, lease) && Rotates(s, id) && s.calls[id].phase.Marked?
    ensures EndsBy(s, id, run, steps, hash, lease)
  {
    var token := FreshToken(s);
    var step := Issue(id, token, true);
    var end := Apply(s, step, hash, lease);
    StepKeeps(s, step, end, hash, lease);
    NewRowFields(s.calls[id].claims, hash(token), s.now, lease, token, s.calls[id].chain);
    run, steps := [s, end], [step];
    assert OrderlyMoves(hash, lease)(s, step, end);
  }

  lemma EndLooked(s: State, id: CallId, hash: Token -> string, lease: int) returns (run: seq<State>, steps: seq<Step>)
    requires Ready(s, hash, lease) && Rotates(s, id) && s.calls[id].phase.Looked?
    ensures EndsBy(s, id, run, steps, hash, lease)
  {
    var m := MarkOnce(s, id, hash, lease);
    var p, q := EndMarked(m, id, hash, lease);
    run, steps := Paths.Chain(OrderlyMoves(hash, lease), [s, m], [Mark(id, true)], p, q);
    LeavesOn(s, m, run[|steps|], id);
  }

  lemma MarkOnce(s: State, id: CallId, hash: Token -> string, lease: int) returns (m: State)
    requires Ready(s, hash, lease) && Rotates(s, id) && s.calls[id].phase.Looked?
    ensures OrderlyMoves(hash, lease)(s, Mark(id, true), m) && Inv(m, hash)
    ensures Leaves(s, id, m) && Rotates(m, id) && m.calls[id] == s.calls[id].(phase := Marked)
    ensures m.calls - {id} == s.calls - {id} && m.used == s.used && m.rotated == s.rotated && m.now == s.now
  {
    m := Apply(s, Mark(id, true), hash, lease);
    StepKeeps(s, Mark(id, true), m, hash, lease);
    var call := s.calls[id];
    MarkRowsRevoke(s.rows, call.phase.tenant, hash(call.raw), call.raw, s.now);
    forall i | 0 <= i < |s.rows| && Untouched(call, s.rows[i]) ensures m.rows[i] == s.rows[i] {
      assert RowInv(s, hash, s.rows[i]);
      assert !HasKey(call.phase.tenant, hash(call.raw))(s.rows[i]);
    }
  }

  /** From one phase to the next, then to the end. */
  lemma LeavesOn(s: State, m: State, end: State, id: CallId)
    requires Leaves(s, id, m) && Leaves(m, id, end)
    requires forall i :: 0 <= i < |s.rows| && Untouched(s.calls[id], s.rows[i]) ==> Untouched(m.calls[id], s.rows[i])
    ensures Leaves(s, id, end)
  {
  }

  lemma EndChecked(s: State, id: CallId, hash: Token -> string, lease: int) returns (run: seq<State>, steps: seq<Step>)
    requires Ready(s, hash, lease) && Rotates(s, id) && s.calls[id].phase.Checked?
    ensures EndsBy(s, id, run, steps, hash, lease)
  {
    var m := LookOnce(s, id, hash, lease);
    var p, q := EndLooked(m, id, hash, lease);
    run, steps := Paths.Chain(OrderlyMoves(hash, lease), [s, m], [Look(id, true)], p, q);
    CheckedLeaves(s, id, m, run[|steps|]);
  }

  lemma LookOnce(s: State, id: CallId, hash: Token -> string, lease: int) returns (m: State)
    requires Ready(s, hash, lease) && Rotates(s, id) && s.calls[id].phase.Checked?
    ensures OrderlyMoves(hash, lease)(s, Look(id, true), m) && Inv(m, hash)
    ensures Rotates(m, id) && m.calls[id].phase.Looked? && m.calls[id] == s.calls[id].(phase := m.calls[id].phase)
    ensures m == s.(calls := m.calls) && m.calls - {id} == s.calls - {id}
  {
    m := Apply(s, Look(id, true), hash, lease);
    StepKeeps(s, Look(id, true), m, hash, lease);
  }

  lemma CheckedLeaves(s: State, id: CallId, m: State, end: State)
    requires id in s.calls && s.calls[id].phase.Checked? && m.rows == s.rows
    requires id in m.calls && m.calls[id].raw == s.calls[id].raw && Leaves(m, id, end)
    ensures Leaves(s, id, end)
  {
    assert forall i :: 0 <= i < |s.rows| && Untouched(s.calls[id], s.rows[i]) ==> Untouched(m.calls[id], m.rows[i]);
  }

  lemma EndRotation(s: State, id: CallId, hash: Token -> string, lease: int) returns (run: seq<State>, steps: seq<Step>)
    requires Ready(s, hash, lease) && Rotates(s, id)
    ensures EndsBy(s, id, run, steps, hash, lease)
  {
    match s.calls[id].phase {
      case Marked => run, steps := EndMarked(s, id, hash, lease);
      case Looked(_) => run, steps := EndLooked(s, id, hash, lease);
      case Checked => run, steps := EndChecked(s, id, hash, lease);
    }
  }

  // ---- Two active tokens of one login ----

  /** Two rotations of one login under way: both run to their end. */
  lemma TwoRotationsClash(s: State, id: CallId, other: CallId, hash: Token -> string, lease: int)
    returns (run: seq<State>, steps: seq<Step>)
    requires Ready(s, hash, lease) && Rotates(s, id) && Rotates(s, other) && id != other
    requires s.calls[id].chain == s.calls[other].chain
    ensures IsOrderlyPath(run, steps, hash, lease) && run[0] == s && !OneActive(run[|steps|])
    ensures run[|steps|].rotated == s.rotated + [s.calls[id].raw] + [s.calls[other].raw]
  {
    var p, q := EndRotation(s, id, hash, lease);
    var m := p[|q|];
    assert Rotates(m, other) && m.calls[other] == s.calls[other];
    var r, u := EndRotation(m, other, hash, lease);
    BothMinted(s, id, m, other, r[|u|], hash);
    run, steps := Paths.Chain(OrderlyMoves(hash, lease), p, q, r, u);
  }

  lemma BothMinted(s: State, id: CallId, m: State, other: CallId, end: State, hash: Token -> string)
    requires Inv(s, hash) && Rotates(s, other) && Ended(s, id, m, hash)
    requires Rotates(m, other) && m.calls[other] == s.calls[other] && s.calls[id].chain == s.calls[other].chain
    requires Ended(m, other, end, hash) && Leaves(m, other, end)
    ensures !OneActive(end)
  {
    var first := |m.rows| - 1;
    assert CallInv(s, s.calls[other]);
    assert end.rows[first] == m.rows[first] && ActiveRow(end, first);
    assert ActiveRow(end, |end.rows| - 1);
  }

  /** A rotation that will not revoke an active row of its login runs to its end. */
  lemma RowAndRotationClash(s: State, id: CallId, i: nat, hash: Token -> string, lease: int)
    returns (run: seq<State>, steps: seq<Step>)
    requires Ready(s, hash, lease) && Rotates(s, id) && ActiveRow(s, i)
    requires s.rows[i].chain == Some(s.calls[id].chain) && !WillRevoke(s.calls[id], s.rows[i])
    ensures IsOrderlyPath(run, steps, hash, lease) && run[0] == s && !OneActive(run[|steps|])
  {
    run, steps := EndRotation(s, id, hash, lease);
    var end := run[|steps|];
    assert end.rows[i] == s.rows[i] && ActiveRow(end, i);
    assert ActiveRow(end, |end.rows| - 1);
  }

  lemma DisorderShows(s: State, hash: Token -> string, lease: int) returns (run: seq<State>, steps: seq<Step>)
    requires Ready(s, hash, lease) && !InOrder(s)
    ensures IsOrderlyPath(run, steps, hash, lease) && run[0] == s && !OneActive(run[|steps|])
  {
    if !OneActive(s) {
      run, steps := [s], [];
    } else if !CallsInOrder(s) {
      var id, other :| Rotates(s, id) && Rotates(s, other) && id != other && s.calls[id].chain == s.calls[other].chain;
      run, steps := TwoRotationsClash(s, id, other, hash, lease);
    } else {
      var id, i :| Rotates(s, id) && ActiveRow(s, i) && s.rows[i].chain == Some(s.calls[id].chain)
                   && !WillRevoke(s.calls[id], s.rows[i]);
      run, steps := RowAndRotationClash(s, id, i, hash, lease);
    }
  }

  lemma OrderContinues(run: seq<State>, steps: seq<Step>, hash: Token -> string, lease: int)
    requires IsOrderlyPath(run, steps, hash, lease) && Ready(run[0], hash, lease) && InOrder(run[0])
    ensures InOrder(run[|steps|])
  {
    forall s, step, s' | (Inv(s, hash) && InOrder(s)) && OrderlyMoves(hash, lease)(s, step, s')
      ensures Inv(s', hash) && InOrder(s')
    {
      StepKeeps(s, step, s', hash, lease);
      OrderlyKeeps(s, step, s', hash, lease);
    }
    Paths.PathKeeps(OrderlyMoves(hash, lease), s => Inv(s, hash) && InOrder(s), run, steps, |steps|);
  }

  /** Exactly when one active token for each login is safe: from a reachable state, every orderly
      continuation keeps it if and only if each login has at most one active token or one rotation
      to carry it on. */
  lemma OrderIsExact(past: seq<State>, taken: seq<Step>, hash: Token -> string, lease: int)
    requires IsRun(past, taken, hash, lease) && Injective(hash) && lease > 0
    ensures InOrder(past[|taken|]) <==>
            forall run: seq<State>, steps ::
              IsOrderlyPath(run, steps, hash, lease) && run[0] == past[|taken|] ==> OneActive(run[|steps|])
  {
    var s := past[|taken|];
    RunKeepsInv(past, taken, hash, lease, |taken|);
    if InOrder(s) {
      forall run: seq<State>, steps | IsOrderlyPath(run, steps, hash, lease) && run[0] == s
        ensures OneActive(run[|steps|])
      {
        OrderContinues(run, steps, hash, lease);
      }
    } else {
      var run, steps := DisorderShows(s, hash, lease);
    }
  }

  // ---- A token exchanged twice ----

  lemma Repeats(s: State, t: Token, s': State)
    requires t in s.rotated && s'.rotated == s.rotated + [t]
    ensures !NoRepeats(s')
  {
    var j :| 0 <= j < |s.rotated| && s.rotated[j] == t;
    assert s'.rotated[j] == s'.rotated[|s.rotated|];
  }

  /** A rotation of an exchanged token runs to its end. */
  lemma RotatesAgain(s: State, id: CallId, hash: Token -> string, lease: int)
    returns (run: seq<State>, steps: seq<Step>)
    requires Ready(s, hash, lease) && Rotates(s, id) && s.calls[id].raw in s.rotated
    ensures IsOrderlyPath(run, steps, hash, lease) && run[0] == s && !NoRepeats(run[|steps|])
  {
    run, steps := EndRotation(s, id, hash, lease);
    Repeats(s, s.calls[id].raw, run[|steps|]);
  }

  /** An exchanged token whose row is still active is exchanged once more. */
  lemma ChecksAgain(s: State, i: nat, hash: Token -> string, lease: int)
    returns (run: seq<State>, steps: seq<Step>)
    requires Ready(s, hash, lease) && ActiveRow(s, i) && s.rows[i].token in s.rotated && !Rotating(s, s.rows[i].token)
    ensures IsOrderlyPath(run, steps, hash, lease) && run[0] == s && !NoRepeats(run[|steps|])
  {
    var id := AboveAll(s.calls.Keys);
    ActiveIsFound(s, hash, i);
    var step := Check(id, s.rows[i].token);
    var m := Apply(s, step, hash, lease);
    StepKeeps(s, step, m, hash, lease);
    assert OrderlyMoves(hash, lease)(s, step, m);
    var p, q := RotatesAgain(m, id, hash, lease);
    run, steps := Paths.Chain(OrderlyMoves(hash, lease), [s, m], [step], p, q);
  }

  /** Two rotations of one token under way: both run to their end. */
  lemma BothRotate(s: State, id: CallId, other: CallId, hash: Token -> string, lease: int)
    returns (run: seq<State>, steps: seq<Step>)
    requires Ready(s, hash, lease) && Rotates(s, id) && Rotates(s, other) && id != other
    requires s.calls[id].raw == s.calls[other].raw
    ensures IsOrderlyPath(run, steps, hash, lease) && run[0] == s && !NoRepeats(run[|steps|])
  {
    var p, q := EndRotation(s, id, hash, lease);
    var m := p[|q|];
    assert Rotates(m, other) && m.calls[other] == s.calls[other];
    var r, u := RotatesAgain(m, other, hash, lease);
    run, steps := Paths.Chain(OrderlyMoves(hash, lease), p, q, r, u);
  }

  /** A rotation that will not revoke its own active row runs to its end; then the row is checked
      once more. */
  lemma LeavesRowActive(s: State, id: CallId, i: nat, hash: Token -> string, lease: int)
    returns (run: seq<State>, steps: seq<Step>)
    requires Ready(s, hash, lease) && OneRotationEach(s) && Rotates(s, id) && ActiveRow(s, i)
    requires s.rows[i].token == s.calls[id].raw && !WillRevoke(s.calls[id], s.rows[i])
    ensures IsOrderlyPath(run, steps, hash, lease) && run[0] == s && !NoRepeats(run[|steps|])
  {
    var p, q := EndRotation(s, id, hash, lease);
    var m := p[|q|];
    assert m.rows[i] == s.rows[i] && ActiveRow(m, i);
    assert !Rotating(m, m.rows[i].token) by {
      forall other | Rotates(m, other) ensures m.calls[other].raw != s.calls[id].raw {
        assert Rotates(s, other) && other != id;
      }
    }
    var r, u := ChecksAgain(m, i, hash, lease);
    run, steps := Paths.Chain(OrderlyMoves(hash, lease), p, q, r, u);
  }

  lemma RepeatShows(s: State, hash: Token -> string, lease: int) returns (run: seq<State>, steps: seq<Step>)
    requires Ready(s, hash, lease) && !Once(s)
    ensures IsOrderlyPath(run, steps, hash, lease) && run[0] == s && !NoRepeats(run[|steps|])
  {
    if !NoRepeats(s) {
      run, steps := [s], [];
    } else if !OneRotationEach(s) {
      var id, other :| Rotates(s, id) && Rotates(s, other) && id != other && s.calls[id].raw == s.calls[other].raw;
      run, steps := BothRotate(s, id, other, hash, lease);
    } else if !OwnRowsInOrder(s) {
      var id, i :| Rotates(s, id) && ActiveRow(s, i) && s.rows[i].token == s.calls[id].raw
                   && !WillRevoke(s.calls[id], s.rows[i]);
      run, steps := LeavesRowActive(s, id, i, hash, lease);
    } else {
      var t :| t in s.rotated && !Spent(s, t);
      if Rotating(s, t) {
        var id :| Rotates(s, id) && s.calls[id].raw == t;
        run, steps := RotatesAgain(s, id, hash, lease);
      } else {
        var i :| ActiveRow(s, i) && s.rows[i].token == t;
        run, steps := ChecksAgain(s, i, hash, lease);
      }
    }
  }

  lemma OnceContinues(run: seq<State>, steps: seq<Step>, hash: Token -> string, lease: int)
    requires IsOrderlyPath(run, steps, hash, lease) && Ready(run[0], hash, lease) && Once(run[0])
    ensures Once(run[|steps|])
  {
    forall s, step, s' | (Inv(s, hash) && Once(s)) && OrderlyMoves(hash, lease)(s, step, s')
      ensures Inv(s', hash) && Once(s')
    {
      StepKeeps(s, step, s', hash, lease);
      OnceStays(s, step, s', hash, lease);
    }
    Paths.PathKeeps(OrderlyMoves(hash, lease), s => Inv(s, hash) && Once(s), run, steps, |steps|);
  }

  /** Exactly when exchanging once is safe: from a reachable state, no orderly continuation exchanges
      a token twice if and only if none was, each exchanged token is spent, each token has at most
      one rotation under way, and each rotation will revoke the token it is of. */
  lemma OnceIsExact(past: seq<State>, taken: seq<Step>, hash: Token -> string, lease: int)
    requires IsRun(past, taken, hash, lease) && Injective(hash) && lease > 0
    ensures Once(past[|taken|]) <==>
            forall run: seq<State>, steps ::
              IsOrderlyPath(run, steps, hash, lease) && run[0] == past[|taken|] ==> NoRepeats(run[|steps|])
  {
    var s := past[|taken|];
    RunKeepsInv(past, taken, hash, lease, |taken|);
    if Once(s) {
      forall run: seq<State>, steps | IsOrderlyPath(run, steps, hash, lease) && run[0] == s
        ensures NoRepeats(run[|steps|])
      {
        OnceContinues(run, steps, hash, lease);
      }
    } else {
      var run, steps := RepeatShows(s, hash, lease);
    }
  }

  // ---- What that means for a caller ----

  /** A rotation started in order keeps either order if and only if no other rotation of the same
      token is under way. */
  lemma OverlapExactly(s: State, id: CallId, raw: Token, s': State, hash: Token -> string, lease: int)
    requires Inv(s, hash) && Injective(hash) && Goes(s, Check(id, raw), s', hash, lease)
    ensures InOrder(s) ==> (InOrder(s') <==> !Rotating(s, raw))
    ensures Once(s) ==> (Once(s') <==> !Rotating(s, raw))
  {
    RotatesItsRow(s, hash, raw);
    if Rotating(s, raw) {
      var other :| Rotates(s, other) && s.calls[other].raw == raw;
      assert CallInv(s, s.calls[other]);
      assert Rotates(s', id) && Rotates(s', other) && s'.calls[id].chain == s'.calls[other].chain;
    } else {
      if InOrder(s) {
        CheckInOrder(s, Check(id, raw), s', hash, lease);
      }
      if Once(s) {
        OnceStays(s, Check(id, raw), s', hash, lease);
      }
    }
  }

  /** The token has no active row under a tenant. */
  ghost predicate NothingToMisfile(s: State, raw: Token) {
    forall i :: ActiveRow(s, i) && s.rows[i].token == raw ==> TenantOf(s.rows[i]) == ""
  }

  /** A failed second lookup keeps either order if and only if the token has no active row left or
      its tenant is the empty one. */
  lemma FailedLookExactly(s: State, id: CallId, s': State, hash: Token -> string, lease: int)
    requires Inv(s, hash) && Injective(hash) && Rotates(s, id) && Goes(s, Look(id, false), s', hash, lease)
    ensures InOrder(s) ==> (InOrder(s') <==> NothingToMisfile(s, s.calls[id].raw))
    ensures Once(s) ==> (Once(s') <==> NothingToMisfile(s, s.calls[id].raw))
  {
    FailedLookMoves(s, id, s', hash, lease);
    if InOrder(s) {
      FailedLookInOrder(s, id, s', hash, lease);
    }
    if Once(s) {
      FailedLookOnce(s, id, s', hash, lease);
    }
  }

  lemma FailedLookMoves(s: State, id: CallId, s': State, hash: Token -> string, lease: int)
    requires Rotates(s, id) && Goes(s, Look(id, false), s', hash, lease)
    ensures s' == s.(calls := s.calls[id := s.calls[id].(phase := Looked(""))]) && s.calls[id].phase.Checked?
    ensures forall other :: Rotates(s', other) <==> Rotates(s, other)
    ensures forall i :: ActiveRow(s', i) <==> ActiveRow(s, i)
  {
  }

  lemma FailedLookInOrder(s: State, id: CallId, s': State, hash: Token -> string, lease: int)
    requires Inv(s, hash) && InOrder(s) && Rotates(s, id) && Goes(s, Look(id, false), s', hash, lease)
    ensures InOrder(s') <==> NothingToMisfile(s, s.calls[id].raw)
  {
    var call := s.calls[id];
    FailedLookMoves(s, id, s', hash, lease);
    assert CallInv(s, call);
    forall i | ActiveRow(s, i) ensures s.rows[i].token == call.raw <==> s.rows[i].chain == Some(call.chain) {
      assert RowInv(s, hash, s.rows[i]);
      assert s.rows[i].chain == Some(call.chain) ==> WillRevoke(call, s.rows[i]);
    }
    if !NothingToMisfile(s, call.raw) {
      var i :| ActiveRow(s, i) && s.rows[i].token == call.raw && TenantOf(s.rows[i]) != "";
      assert ActiveRow(s', i) && !WillRevoke(s'.calls[id], s'.rows[i]);
    }
  }

  lemma FailedLookOnce(s: State, id: CallId, s': State, hash: Token -> string, lease: int)
    requires Inv(s, hash) && Once(s) && Rotates(s, id) && Goes(s, Look(id, false), s', hash, lease)
    ensures Once(s') <==> NothingToMisfile(s, s.calls[id].raw)
  {
    var call := s.calls[id];
    FailedLookMoves(s, id, s', hash, lease);
    forall t | t in s.rotated ensures Spent(s', t) {
      assert Spent(s, t);
    }
    if !NothingToMisfile(s, call.raw) {
      var i :| ActiveRow(s, i) && s.rows[i].token == call.raw && TenantOf(s.rows[i]) != "";
      assert ActiveRow(s', i) && !WillRevoke(s'.calls[id], s'.rows[i]);
    }
  }

  // ---- The failing runs ----

  /** The steps of the system whose second lookups answer. */
  ghost function AnsweredMoves(hash: Token -> string, lease: int): (State, Step, State) -> bool {
    (s, step, s') => Goes(s, step, s', hash, lease) && (step.Look? ==> step.answered)
  }

  /** The steps of the system that start no rotation while one of the same token is under way. */
  ghost function ApartMoves(hash: Token -> string, lease: int): (State, Step, State) -> bool {
    (s, step, s') => Goes(s, step, s', hash, lease) && (step.Check? ==> !Rotating(s, step.raw))
  }

  /** A first login and the start of a rotation of its token. */
  lemma LoginAndCheck(claims: Claims, hash: Token -> string, lease: int)
    returns (run: seq<State>, steps: seq<Step>)
    requires Injective(hash) && lease > 0
    ensures IsOrderlyPath(run, steps, hash, lease) && run[0] == INIT
    ensures var s := run[|steps|];
            && Inv(s, hash) && InOrder(s) && Once(s) && s.rotated == [] && s.calls.Keys == {0}
            && Rotates(s, 0) && s.calls[0].raw == "a" && s.calls[0].phase.Checked?
            && |s.rows| == 1 && ActiveRow(s, 0) && s.rows[0].token == "a" && TenantOf(s.rows[0]) == claims.tenant
  {
    var s1 := FirstLogin(claims, hash, lease);
    var s2 := FirstCheck(s1, hash, lease);
    run, steps := [INIT, s1, s2], [Login(claims, "a", true), Check(0, "a")];
    OrderlyRunIsSound(run, steps, hash, lease, 2);
  }

  lemma FirstCheck(s: State, hash: Token -> string, lease: int) returns (s': State)
    requires Inv(s, hash) && Injective(hash) && s.calls == map[] && ActiveRow(s, 0) && s.rows[0].token == "a"
    ensures OrderlyMoves(hash, lease)(s, Check(0, "a"), s') && s' == s.(calls := s'.calls) && s'.calls.Keys == {0}
    ensures Rotates(s', 0) && s'.calls[0].raw == "a" && s'.calls[0].phase.Checked?
  {
    ActiveIsFound(s, hash, 0);
    assert !Rotating(s, "a");
    s' := Apply(s, Check(0, "a"), hash, lease);
  }

  lemma FirstLogin(claims: Claims, hash: Token -> string, lease: int) returns (s: State)
    requires Injective(hash) && lease > 0
    ensures OrderlyMoves(hash, lease)(INIT, Login(claims, "a", true), s) && Inv(s, hash)
    ensures s.rotated == [] && s.calls == map[] && |s.rows| == 1
    ensures ActiveRow(s, 0) && s.rows[0].token == "a" && TenantOf(s.rows[0]) == claims.tenant
  {
    s := Apply(INIT, Login(claims, "a", true), hash, lease);
    NewRowFields(claims, hash("a"), INIT.now, lease, "a", 0);
    StepKeeps(INIT, Login(claims, "a", true), s, hash, lease);
  }

  /** Two overlapping rotations of one token, every lookup answered: the login ends up with two
      active tokens, and the token has been exchanged twice. */
  lemma OverlapMintsTwice(claims: Claims, hash: Token -> string, lease: int)
    requires Injective(hash) && lease > 0
    ensures exists run: seq<State>, steps ::
              && Paths.IsPath(AnsweredMoves(hash, lease), run, steps) && run[0] == INIT
              && !OneActive(run[|steps|]) && run[|steps|].rotated == ["a", "a"]
  {
    var moves := AnsweredMoves(hash, lease);
    var p, q := LoginAndCheck(claims, hash, lease);
    var s := p[|q|];
    ActiveIsFound(s, hash, 0);
    var t := Apply(s, Check(1, "a"), hash, lease);
    StepKeeps(s, Check(1, "a"), t, hash, lease);
    RotatesItsRow(s, hash, "a");
    assert CallInv(s, s.calls[0]);
    var r, u := TwoRotationsClash(t, 0, 1, hash, lease);
    Paths.PathMore(OrderlyMoves(hash, lease), moves, p, q);
    Paths.PathMore(OrderlyMoves(hash, lease), moves, r, u);
    assert moves(s, Check(1, "a"), t);
    var a, x := Paths.Chain(moves, p, q, [s, t], [Check(1, "a")]);
    var b, y := Paths.Chain(moves, a, x, r, u);
  }

  /** One rotation whose second lookup fails, and no overlap at all. */
  lemma FailedLookState(claims: Claims, hash: Token -> string, lease: int)
    returns (run: seq<State>, steps: seq<Step>)
    requires Injective(hash) && lease > 0 && claims.tenant != ""
    ensures Paths.IsPath(ApartMoves(hash, lease), run, steps) && run[0] == INIT
    ensures Ready(run[|steps|], hash, lease) && !InOrder(run[|steps|]) && !Once(run[|steps|])
  {
    var moves := ApartMoves(hash, lease);
    var p, q := LoginAndCheck(claims, hash, lease);
    var s := p[|q|];
    var t := Apply(s, Look(0, false), hash, lease);
    StepKeeps(s, Look(0, false), t, hash, lease);
    FailedLookExactly(s, 0, t, hash, lease);
    assert !NothingToMisfile(s, "a");
    Paths.PathMore(OrderlyMoves(hash, lease), moves, p, q);
    assert moves(s, Look(0, false), t);
    run, steps := Paths.Chain(moves, p, q, [s, t], [Look(0, false)]);
  }

  /** A failed second lookup leaves the login two active tokens, without any overlap. */
  lemma FailedLookLeavesTwo(claims: Claims, hash: Token -> string, lease: int)
    requires Injective(hash) && lease > 0 && claims.tenant != ""
    ensures exists run: seq<State>, steps ::
              Paths.IsPath(ApartMoves(hash, lease), run, steps) && run[0] == INIT && !OneActive(run[|steps|])
  {
    var p, q := FailedLookState(claims, hash, lease);
    var r, u := DisorderShows(p[|q|], hash, lease);
    Paths.PathMore(OrderlyMoves(hash, lease), ApartMoves(hash, lease), r, u);
    var a, x := Paths.Chain(ApartMoves(hash, lease), p, q, r, u);
  }

  /** And it lets the token be exchanged twice. */
  lemma FailedLookExchangesTwice(claims: Claims, hash: Token -> string, lease: int)
    requires Injective(hash) && lease > 0 && claims.tenant != ""
    ensures exists run: seq<State>, steps ::
              Paths.IsPath(ApartMoves(hash, lease), run, steps) && run[0] == INIT && !NoRepeats(run[|steps|])
  {
    var p, q := FailedLookState(claims, hash, lease);
    var r, u := RepeatShows(p[|q|], hash, lease);
    Paths.PathMore(OrderlyMoves(hash, lease), ApartMoves(hash, lease), r, u);
    var a, x := Paths.Chain(ApartMoves(hash, lease), p, q, r, u);
  }
}
