/** The tenant-partitioned settings cache: loads, database writes and invalidations
    interleaving over one reader/writer lock, as a step system. */
module RuntimeSettings {
  import opened Values
  import Paths

  type Tenant = string
  type LoadId = nat

  /** What one read of the settings collection saw: the tenant's rows as of a write count. */
  datatype Snapshot = Snapshot(tenant: Tenant, version: nat)

  /** A cached partition. `low` and `high` record the tenant's write count when the refresh
      that installed it took the lock and when it installed. */
  datatype Partition = Partition(snap: Snapshot, at: int, expires: int, low: nat, high: nat)

  datatype Phase = Checking | Missed | Locked(low: nat) | HasRead(low: nat, snap: Snapshot) | Returned

  /** `floor` is the tenant's write count at its last invalidation before the load started. */
  datatype Load = Load(tenant: Tenant, floor: nat, phase: Phase)

  datatype Answered = Answered(id: LoadId, part: Partition, at: int)

  datatype State = State(
    now: int,
    writes: map<Tenant, nat>,
    parts: map<Tenant, Partition>,
    invalidated: map<Tenant, nat>,
    holder: Option<LoadId>,
    loads: map<LoadId, Load>,
    answers: seq<Answered>)

  function Count(m: map<Tenant, nat>, t: Tenant): nat { if t in m then m[t] else 0 }

  predicate Fresh(s: State, t: Tenant) { t in s.parts && s.now < s.parts[t].expires }

  // ---- Steps ----

  datatype Step =
    | Tick(to: int)
    | Write(t: Tenant)
    | Invalidate
    | InvalidateForTenant(t: Tenant)
    | Start(id: LoadId, t: Tenant)
    | FastHit(id: LoadId)
    | FastMiss(id: LoadId)
    | Acquire(id: LoadId)
    | SlowHit(id: LoadId)
    | ReadAll(id: LoadId)
    | ReadFails(id: LoadId)
    | Install(id: LoadId)

  predicate Enabled(s: State, step: Step) {
    match step
    case Tick(to) => s.now <= to
    case Write(_) => true
    case Invalidate => s.holder.None?
    case InvalidateForTenant(t) => s.holder.None? && t != ""
    case Start(id, t) => id !in s.loads && t != ""
    case FastHit(id) => s.holder.None? && id in s.loads && s.loads[id].phase.Checking? && Fresh(s, s.loads[id].tenant)
    case FastMiss(id) => s.holder.None? && id in s.loads && s.loads[id].phase.Checking? && !Fresh(s, s.loads[id].tenant)
    case Acquire(id) => s.holder.None? && id in s.loads && s.loads[id].phase.Missed?
    case SlowHit(id) => id in s.loads && s.loads[id].phase.Locked? && Fresh(s, s.loads[id].tenant)
    case ReadAll(id) => id in s.loads && s.loads[id].phase.Locked? && !Fresh(s, s.loads[id].tenant)
    case ReadFails(id) => id in s.loads && s.loads[id].phase.Locked? && !Fresh(s, s.loads[id].tenant)
    case Install(id) => id in s.loads && s.loads[id].phase.HasRead?
  }

  function SetPhase(s: State, id: LoadId, p: Phase): State
    requires id in s.loads
  {
    s.(loads := s.loads[id := s.loads[id].(phase := p)])
  }

  /** The load returns what the partition holds and lets go of the lock. */
  function Answer(s: State, id: LoadId, part: Partition): State
    requires id in s.loads
  {
    SetPhase(s, id, Returned).(holder := None, answers := s.answers + [Answered(id, part, s.now)])
  }

  function NewPartition(s: State, id: LoadId, ttl: int): Partition
    requires Enabled(s, Install(id))
  {
    var load := s.loads[id];
    Partition(load.phase.snap, s.now, s.now + ttl, load.phase.low, Count(s.writes, load.tenant))
  }

  function WithPartition(s: State, id: LoadId, ttl: int): State
    requires Enabled(s, Install(id))
  {
    s.(parts := s.parts[s.loads[id].tenant := NewPartition(s, id, ttl)])
  }

  function Apply(s: State, step: Step, ttl: int): State
    requires Enabled(s, step)
  {
    match step
    case Tick(to) => s.(now := to)
    case Write(t) => s.(writes := s.writes[t := Count(s.writes, t) + 1])
    case Invalidate => s.(parts := map[], invalidated := s.writes)
    case InvalidateForTenant(t) => s.(parts := s.parts - {t}, invalidated := s.invalidated[t := Count(s.writes, t)])
    case Start(id, t) => s.(loads := s.loads[id := Load(t, Count(s.invalidated, t), Checking)])
    case FastHit(id) => Answer(s, id, s.parts[s.loads[id].tenant])
    case FastMiss(id) => SetPhase(s, id, Missed)
    case Acquire(id) => SetPhase(s, id, Locked(Count(s.writes, s.loads[id].tenant))).(holder := Some(id))
    case SlowHit(id) => Answer(s, id, s.parts[s.loads[id].tenant])
    case ReadAll(id) =>
      var load := s.loads[id];
      SetPhase(s, id, HasRead(load.phase.low, Snapshot(load.tenant, Count(s.writes, load.tenant))))
    case ReadFails(id) => SetPhase(s, id, Returned).(holder := None)
    case Install(id) => Answer(WithPartition(s, id, ttl), id, NewPartition(s, id, ttl))
  }

  // ---- The invariant ----

  /** The partition holds its own tenant's rows, as they stood at some moment of the refresh
      that installed it, and no older than the tenant's last invalidation. */
  ghost predicate PartInv(s: State, t: Tenant, p: Partition, ttl: int) {
    && p.snap.tenant == t
    && p.low <= p.snap.version <= p.high <= Count(s.writes, t)
    && Count(s.invalidated, t) <= p.snap.version
    && p.expires == p.at + ttl && p.at <= s.now
  }

  ghost predicate LoadInv(s: State, id: LoadId) {
    id in s.loads && var l := s.loads[id];
    && l.tenant != "" && l.floor <= Count(s.invalidated, l.tenant)
    && ((l.phase.Locked? || l.phase.HasRead?) <==> s.holder == Some(id))
    && (l.phase.Locked? ==> l.phase.low <= Count(s.writes, l.tenant))
    && (l.phase.HasRead? ==>
          && l.phase.snap.tenant == l.tenant
          && l.phase.low <= l.phase.snap.version <= Count(s.writes, l.tenant)
          && Count(s.invalidated, l.tenant) <= l.phase.snap.version)
  }

  /** What every answer satisfies: it is for the tenant that asked, no older than the
      tenant's last invalidation before the load started, a state the database was in
      during the refresh, and served less than the TTL after it was installed. */
  ghost predicate AnswerInv(s: State, r: Answered, ttl: int) {
    && r.id in s.loads
    && r.part.snap.tenant == s.loads[r.id].tenant
    && s.loads[r.id].floor <= r.part.snap.version
    && r.part.low <= r.part.snap.version <= r.part.high
    && r.at - r.part.at < ttl
  }

  ghost predicate Inv(s: State, ttl: int) {
    && (forall t :: Count(s.invalidated, t) <= Count(s.writes, t))
    && (forall t <- s.parts :: PartInv(s, t, s.parts[t], ttl))
    && (s.holder.Some? ==> s.holder.value in s.loads)
    && (forall id <- s.loads :: LoadInv(s, id))
    && (forall r <- s.answers :: AnswerInv(s, r, ttl))
  }

  const INIT: State := State(0, map[], map[], map[], None, map[], [])

  lemma AnswerKeeps(s: State, id: LoadId, part: Partition, ttl: int)
    requires Inv(s, ttl) && id in s.loads
    requires s.holder.None? || s.holder == Some(id)
    requires PartInv(s, s.loads[id].tenant, part, ttl) && s.now < part.expires
    ensures Inv(Answer(s, id, part), ttl)
  {
    var s' := Answer(s, id, part);
    forall i | i in s'.loads ensures LoadInv(s', i) {
      assert LoadInv(s, i);
    }
    forall r | r in s'.answers ensures AnswerInv(s', r, ttl) {
      assert LoadInv(s, id);
      if r in s.answers {
        assert AnswerInv(s, r, ttl);
      }
    }
  }

  lemma StepKeeps(s: State, step: Step, ttl: int)
    requires Inv(s, ttl) && 0 < ttl && Enabled(s, step)
    ensures Inv(Apply(s, step, ttl), ttl)
  {
    match step {
      case FastHit(id) => HitKeeps(s, id, ttl);
      case SlowHit(id) => HitKeeps(s, id, ttl);
      case Install(id) => InstallStepKeeps(s, id, ttl);
      case _ => QuietStepKeeps(s, step, ttl);
    }
  }

  lemma HitKeeps(s: State, id: LoadId, ttl: int)
    requires Inv(s, ttl) && (Enabled(s, FastHit(id)) || Enabled(s, SlowHit(id)))
    ensures Inv(Answer(s, id, s.parts[s.loads[id].tenant]), ttl)
  {
    assert LoadInv(s, id);
    AnswerKeeps(s, id, s.parts[s.loads[id].tenant], ttl);
  }

  lemma InstallStepKeeps(s: State, id: LoadId, ttl: int)
    requires Inv(s, ttl) && 0 < ttl && Enabled(s, Install(id))
    ensures Inv(Answer(WithPartition(s, id, ttl), id, NewPartition(s, id, ttl)), ttl)
  {
    assert LoadInv(s, id);
    var part, mid := NewPartition(s, id, ttl), WithPartition(s, id, ttl);
    InstallKeeps(s, mid, s.loads[id].tenant, part, ttl);
    AnswerKeeps(mid, id, part, ttl);
  }

  lemma InstallKeeps(s: State, mid: State, t: Tenant, part: Partition, ttl: int)
    requires Inv(s, ttl) && PartInv(s, t, part, ttl) && mid == s.(parts := s.parts[t := part])
    ensures Inv(mid, ttl)
  {
    forall u | u in mid.parts ensures PartInv(mid, u, mid.parts[u], ttl) {
      assert u != t ==> PartInv(s, u, s.parts[u], ttl);
    }
    forall i | i in mid.loads ensures LoadInv(mid, i) {
      assert LoadInv(s, i);
    }
    forall r | r in mid.answers ensures AnswerInv(mid, r, ttl) {
      assert AnswerInv(s, r, ttl);
    }
  }

  /** The steps that answer nothing. */
  lemma QuietStepKeeps(s: State, step: Step, ttl: int)
    requires Inv(s, ttl) && 0 < ttl && Enabled(s, step) && Quiet(step)
    ensures Inv(Apply(s, step, ttl), ttl)
  {
    QuietKeepsParts(s, step, ttl);
    QuietKeepsLoads(s, step, ttl);
    QuietKeepsAnswers(s, step, ttl);
  }

  predicate Quiet(step: Step) { !step.FastHit? && !step.SlowHit? && !step.Install? }

  lemma QuietKeepsParts(s: State, step: Step, ttl: int)
    requires Inv(s, ttl) && 0 < ttl && Enabled(s, step) && Quiet(step)
    ensures var s' := Apply(s, step, ttl); forall t <- s'.parts :: PartInv(s', t, s'.parts[t], ttl)
  {
    var s' := Apply(s, step, ttl);
    forall t | t in s'.parts ensures PartInv(s', t, s'.parts[t], ttl) {
      assert PartInv(s, t, s.parts[t], ttl);
    }
  }

  lemma QuietKeepsLoads(s: State, step: Step, ttl: int)
    requires Inv(s, ttl) && 0 < ttl && Enabled(s, step) && Quiet(step)
    ensures var s' := Apply(s, step, ttl); forall i <- s'.loads :: LoadInv(s', i)
  {
    var s' := Apply(s, step, ttl);
    forall i | i in s'.loads ensures LoadInv(s', i) {
      assert i in s.loads ==> LoadInv(s, i);
    }
  }

  lemma QuietKeepsAnswers(s: State, step: Step, ttl: int)
    requires Inv(s, ttl) && 0 < ttl && Enabled(s, step) && Quiet(step)
    ensures var s' := Apply(s, step, ttl); forall r <- s'.answers :: AnswerInv(s', r, ttl)
  {
    var s' := Apply(s, step, ttl);
    forall r | r in s'.answers ensures AnswerInv(s', r, ttl) {
      assert AnswerInv(s, r, ttl);
    }
  }

  // ---- Runs ----

  ghost predicate Goes(s: State, step: Step, s': State, ttl: int) { Enabled(s, step) && s' == Apply(s, step, ttl) }

  predicate By(step: Step, id: LoadId) {
    match step
    case Start(i, _) => i == id
    case FastHit(i) => i == id
    case FastMiss(i) => i == id
    case Acquire(i) => i == id
    case SlowHit(i) => i == id
    case ReadAll(i) => i == id
    case ReadFails(i) => i == id
    case Install(i) => i == id
    case _ => false
  }

  /** The steps of the system, without those of the load `except` when that is given. */
  ghost function Moves(except: Option<LoadId>, ttl: int): (State, Step, State) -> bool {
    (s, step, s') => Goes(s, step, s', ttl) && (except.Some? ==> !By(step, except.value))
  }

  ghost predicate IsRun(run: seq<State>, steps: seq<Step>, ttl: int) {
    Paths.IsPath(Moves(None, ttl), run, steps) && run[0] == INIT
  }

  ghost predicate Reaches(s: State, s': State, except: Option<LoadId>, ttl: int) {
    Paths.Reaches(Moves(except, ttl), s, s')
  }

  lemma {:induction false} RunKeepsInv(run: seq<State>, steps: seq<Step>, ttl: int, n: nat)
    requires IsRun(run, steps, ttl) && 0 < ttl && n < |run|
    ensures Inv(run[n], ttl)
  {
    if n == 0 {
    } else {
      RunKeepsInv(run, steps, ttl, n - 1);
      StepKeeps(run[n - 1], steps[n - 1], ttl);
    }
  }

  /** Every answer of every run is the asking tenant's, held by the database during the
      refresh that installed it, and served for less than the TTL. */
  lemma EveryAnswerIsSound(run: seq<State>, steps: seq<Step>, ttl: int, n: nat, r: Answered)
    requires IsRun(run, steps, ttl) && 0 < ttl && n < |run| && r in run[n].answers
    ensures AnswerInv(run[n], r, ttl)
  {
    RunKeepsInv(run, steps, ttl, n);
  }

  /** Write and invalidation counts never go back, and a load keeps its tenant and floor. */
  ghost predicate Grows(s: State, s': State) {
    && (forall t :: Count(s.writes, t) <= Count(s'.writes, t))
    && (forall t :: Count(s.invalidated, t) <= Count(s'.invalidated, t))
    && (forall id <- s.loads :: id in s'.loads && s'.loads[id].tenant == s.loads[id].tenant
                                && s'.loads[id].floor == s.loads[id].floor)
  }

  lemma {:induction false} RunGrows(run: seq<State>, steps: seq<Step>, ttl: int, m: nat, n: nat)
    requires IsRun(run, steps, ttl) && 0 < ttl && m <= n < |run|
    ensures Grows(run[m], run[n])
    decreases n - m
  {
    if m == n {
    } else {
      RunGrows(run, steps, ttl, m, n - 1);
      RunKeepsInv(run, steps, ttl, n - 1);
      StepGrows(run[n - 1], steps[n - 1], ttl);
    }
  }

  lemma StepGrows(s: State, step: Step, ttl: int)
    requires Inv(s, ttl) && Enabled(s, step)
    ensures Grows(s, Apply(s, step, ttl))
  {
  }

  predicate Invalidates(step: Step, t: Tenant) { step == Invalidate || step == InvalidateForTenant(t) }

  /** After a write to a tenant and a later invalidation of it, no load started after that
      returns anything older than the write, whatever else interleaves. */
  lemma InvalidationIsHonoured(run: seq<State>, steps: seq<Step>, ttl: int,
                               i: nat, j: nat, k: nat, n: nat, t: Tenant, r: Answered)
    requires IsRun(run, steps, ttl) && 0 < ttl && i < j < k < n < |run|
    requires steps[i] == Write(t) && Invalidates(steps[j], t) && steps[k] == Start(r.id, t)
    requires r in run[n].answers
    ensures r.part.snap.tenant == t && r.part.snap.version >= Count(run[i + 1].writes, t)
  {
    CountsGrow(run, steps, ttl, i + 1, j, t);
    InvalidateCatchesUp(run, steps, ttl, j, t);
    CountsGrow(run, steps, ttl, j + 1, k, t);
    StartSetsFloor(run, steps, ttl, k, r.id, t);
    FloorStays(run, steps, ttl, k + 1, n, r.id);
    EveryAnswerIsSound(run, steps, ttl, n, r);
  }

  lemma CountsGrow(run: seq<State>, steps: seq<Step>, ttl: int, m: nat, n: nat, t: Tenant)
    requires IsRun(run, steps, ttl) && 0 < ttl && m <= n < |run|
    ensures Count(run[m].writes, t) <= Count(run[n].writes, t)
    ensures Count(run[m].invalidated, t) <= Count(run[n].invalidated, t)
  {
    RunGrows(run, steps, ttl, m, n);
  }

  lemma FloorStays(run: seq<State>, steps: seq<Step>, ttl: int, m: nat, n: nat, id: LoadId)
    requires IsRun(run, steps, ttl) && 0 < ttl && m <= n < |run| && id in run[m].loads
    ensures id in run[n].loads && run[n].loads[id].tenant == run[m].loads[id].tenant
    ensures run[n].loads[id].floor == run[m].loads[id].floor
  {
    RunGrows(run, steps, ttl, m, n);
  }

  lemma InvalidateCatchesUp(run: seq<State>, steps: seq<Step>, ttl: int, j: nat, t: Tenant)
    requires IsRun(run, steps, ttl) && j < |steps| && Invalidates(steps[j], t)
    ensures Count(run[j + 1].invalidated, t) == Count(run[j].writes, t)
  {
    assert Goes(run[j], steps[j], run[j + 1], ttl);
  }

  lemma StartSetsFloor(run: seq<State>, steps: seq<Step>, ttl: int, k: nat, id: LoadId, t: Tenant)
    requires IsRun(run, steps, ttl) && k < |steps| && steps[k] == Start(id, t)
    ensures id in run[k + 1].loads && run[k + 1].loads[id] == Load(t, Count(run[k].invalidated, t), Checking)
  {
    assert Goes(run[k], steps[k], run[k + 1], ttl);
  }

  // ---- In terms of the steps of the run ----

  lemma StepAt(run: seq<State>, steps: seq<Step>, ttl: int, n: nat)
    requires IsRun(run, steps, ttl) && n < |steps|
    ensures Goes(run[n], steps[n], run[n + 1], ttl) && steps[..n + 1] == steps[..n] + [steps[n]]
  {
  }

  lemma WriteCounts(s: State, step: Step, s': State, ttl: int, t: Tenant)
    requires Goes(s, step, s', ttl)
    ensures Count(s'.writes, t) == Count(s.writes, t) + if step == Write(t) then 1 else 0
  {
  }

  /** A tenant's write count is the number of its writes so far. */
  lemma {:induction false} CountsWrites(run: seq<State>, steps: seq<Step>, ttl: int, n: nat, t: Tenant)
    requires IsRun(run, steps, ttl) && n < |run|
    ensures Count(run[n].writes, t) == multiset(steps[..n])[Write(t)]
  {
    if n == 0 {
    } else {
      CountsWrites(run, steps, ttl, n - 1, t);
      StepAt(run, steps, ttl, n - 1);
      WriteCounts(run[n - 1], steps[n - 1], run[n], ttl, t);
    }
  }

  /** After an invalidation of a tenant every later load of it returns rows that reflect all its
      writes before the invalidation. */
  lemma EarlierWritesAreVisible(run: seq<State>, steps: seq<Step>, ttl: int,
                                j: nat, k: nat, n: nat, t: Tenant, r: Answered)
    requires IsRun(run, steps, ttl) && 0 < ttl && j < k < n < |run|
    requires Invalidates(steps[j], t) && steps[k] == Start(r.id, t) && r in run[n].answers
    ensures r.part.snap.tenant == t && multiset(steps[..j])[Write(t)] <= r.part.snap.version
  {
    CountsWrites(run, steps, ttl, j, t);
    InvalidateCatchesUp(run, steps, ttl, j, t);
    CountsGrow(run, steps, ttl, j + 1, k, t);
    StartSetsFloor(run, steps, ttl, k, r.id, t);
    FloorStays(run, steps, ttl, k + 1, n, r.id);
    EveryAnswerIsSound(run, steps, ttl, n, r);
  }

  /** A tenant's partition goes away only by an invalidation of all tenants or of this one, and
      changes only when a load of this tenant installs what it has read; then it lasts for the TTL. */
  lemma PartitionsChange(run: seq<State>, steps: seq<Step>, ttl: int, n: nat, u: Tenant)
    requires IsRun(run, steps, ttl) && n < |steps|
    ensures Invalidates(steps[n], u) ==> u !in run[n + 1].parts
    ensures steps[n].Install? && run[n].loads[steps[n].id].tenant == u ==>
              var load := run[n].loads[steps[n].id];
              && u in run[n + 1].parts && run[n + 1].parts[u].snap == load.phase.snap
              && run[n + 1].parts[u].at == run[n].now && run[n + 1].parts[u].expires == run[n].now + ttl
    ensures !Invalidates(steps[n], u) && !(steps[n].Install? && run[n].loads[steps[n].id].tenant == u) ==>
              (u in run[n + 1].parts <==> u in run[n].parts)
              && (u in run[n].parts ==> run[n + 1].parts[u] == run[n].parts[u])
  {
    StepAt(run, steps, ttl, n);
  }

  /** A load is served from the cache exactly while less than the TTL has passed since the
      partition was installed; only then does it do without a read. */
  lemma ServedWhileFresh(run: seq<State>, steps: seq<Step>, ttl: int, n: nat, id: LoadId)
    requires IsRun(run, steps, ttl) && 0 < ttl && n < |run| && id in run[n].loads && run[n].holder.None?
    requires run[n].loads[id].phase.Checking?
    ensures var s, t := run[n], run[n].loads[id].tenant;
            && (Enabled(s, FastHit(id)) <==> t in s.parts && s.now - s.parts[t].at < ttl)
            && (Enabled(s, FastMiss(id)) <==> !(t in s.parts && s.now - s.parts[t].at < ttl))
            && (Enabled(s, FastHit(id)) ==>
                  Apply(s, FastHit(id), ttl).answers == s.answers + [Answered(id, s.parts[t], s.now)])
  {
    RunKeepsInv(run, steps, ttl, n);
  }

  /** What a load reads is its own tenant's rows with every write made so far. */
  lemma ReadSeesEveryWrite(run: seq<State>, steps: seq<Step>, ttl: int, n: nat, id: LoadId)
    requires IsRun(run, steps, ttl) && n < |steps| && steps[n] == ReadAll(id)
    ensures id in run[n].loads && id in run[n + 1].loads && run[n + 1].loads[id].phase.HasRead?
    ensures run[n + 1].loads[id].phase.snap ==
            Snapshot(run[n].loads[id].tenant, multiset(steps[..n])[Write(run[n].loads[id].tenant)])
  {
    StepAt(run, steps, ttl, n);
    CountsWrites(run, steps, ttl, n, run[n].loads[id].tenant);
  }

  // ---- The load path of one goroutine ----

  /** The name a settings row is filed under; rows without one are skipped. */
  function RowName(d: Record): string { if "name" in d && d["name"].Str? then d["name"].s else "" }

  function RowValue(d: Record): Value { if "value" in d then d["value"] else Null }

  /** The row has a name, and no later row has the same one. */
  ghost predicate LastOfItsName(docs: seq<Record>, i: nat) {
    && i < |docs| && "name" in docs[i] && docs[i]["name"].Str? && docs[i]["name"].s != ""
    && forall j :: i < j < |docs| && "name" in docs[j] ==> docs[j]["name"] != docs[i]["name"]
  }

  /** Folds the rows into a flat catalogue; a repeated name keeps its last row. */
  method FoldRows(docs: seq<Record>) returns (out: map<string, Value>)
    ensures forall name :: name in out <==> name != "" && exists i :: 0 <= i < |docs| && RowName(docs[i]) == name
    ensures forall i :: 0 <= i < |docs| && RowName(docs[i]) in out
                        && (forall j :: i < j < |docs| ==> RowName(docs[j]) != RowName(docs[i])) ==>
              out[RowName(docs[i])] == RowValue(docs[i])
    ensures forall i :: 0 <= i < |docs| && "name" in docs[i] && docs[i]["name"].Str? && docs[i]["name"].s != "" ==>
              docs[i]["name"].s in out
    ensures forall i :: 0 <= i < |docs| && LastOfItsName(docs, i) ==>
              docs[i]["name"].s in out
              && out[docs[i]["name"].s] == if "value" in docs[i] then docs[i]["value"] else Null
  {
    out := map[];
    for n := 0 to |docs|
      invariant forall name :: name in out <==> name != "" && exists i :: 0 <= i < n && RowName(docs[i]) == name
      invariant forall i :: 0 <= i < n && RowName(docs[i]) in out
                            && (forall j :: i < j < n ==> RowName(docs[j]) != RowName(docs[i])) ==>
                  out[RowName(docs[i])] == RowValue(docs[i])
    {
      var name := RowName(docs[n]);
      if name != "" {
        out := out[name := RowValue(docs[n])];
      }
    }
    ReadsRows(docs, out);
  }

  /** The catalogue, by the members of the rows. */
  lemma ReadsRows(docs: seq<Record>, out: map<string, Value>)
    requires forall name :: name in out <==> name != "" && exists i :: 0 <= i < |docs| && RowName(docs[i]) == name
    requires forall i :: 0 <= i < |docs| && RowName(docs[i]) in out
                         && (forall j :: i < j < |docs| ==> RowName(docs[j]) != RowName(docs[i])) ==>
               out[RowName(docs[i])] == RowValue(docs[i])
    ensures forall i :: 0 <= i < |docs| && "name" in docs[i] && docs[i]["name"].Str? && docs[i]["name"].s != "" ==>
              docs[i]["name"].s in out
    ensures forall i :: 0 <= i < |docs| && LastOfItsName(docs, i) ==>
              docs[i]["name"].s in out
              && out[docs[i]["name"].s] == if "value" in docs[i] then docs[i]["value"] else Null
  {
    forall i | 0 <= i < |docs| && "name" in docs[i] && docs[i]["name"].Str? && docs[i]["name"].s != ""
      ensures docs[i]["name"].s in out
    {
      assert RowName(docs[i]) == docs[i]["name"].s;
    }
    forall i | 0 <= i < |docs| && LastOfItsName(docs, i)
      ensures out[docs[i]["name"].s] == if "value" in docs[i] then docs[i]["value"] else Null
    {
      assert RowName(docs[i]) == docs[i]["name"].s;
      assert forall j :: i < j < |docs| ==> RowName(docs[j]) != RowName(docs[i]);
    }
  }

  /** Whoever holds the lock can let go of it, so waiting for it is possible. */
  lemma LockCanBeFreed(s: State, ttl: int)
    requires Inv(s, ttl) && s.holder.Some?
    ensures exists step :: Enabled(s, step) && Apply(s, step, ttl).holder.None?
  {
    var id := s.holder.value;
    assert LoadInv(s, id);
    var step := if s.loads[id].phase.HasRead? then Install(id)
                else if Fresh(s, s.loads[id].tenant) then SlowHit(id)
                else ReadFails(id);
    assert Enabled(s, step) && Apply(s, step, ttl).holder.None?;
  }

  /** What other goroutines' steps leave a load: its own progress, its answers and, while it
      holds the lock, the lock and the partitions. */
  ghost predicate LeftAlone(s: State, s': State, id: LoadId, ttl: int) {
    && Inv(s', ttl) && Grows(s, s') && s.now <= s'.now
    && (id in s'.loads <==> id in s.loads) && (id in s.loads ==> s'.loads[id] == s.loads[id])
    && (forall r <- s'.answers :: r.id == id ==> r in s.answers)
    && (s.holder == Some(id) ==> s'.holder == Some(id) && s'.parts == s.parts)
  }

  lemma StepLeavesAlone(s: State, step: Step, s': State, id: LoadId, ttl: int)
    requires Inv(s, ttl) && 0 < ttl && Goes(s, step, s', ttl) && !By(step, id)
    ensures LeftAlone(s, s', id, ttl)
  {
    StepKeeps(s, step, ttl);
    StepGrows(s, step, ttl);
    if s.holder == Some(id) {
      OthersCannotLock(s, step, id, ttl);
    }
  }

  /** Behind the write lock only its holder moves. */
  lemma OnlyTheHolder(s: State, step: Step, ttl: int)
    requires Inv(s, ttl) && Enabled(s, step) && (step.SlowHit? || step.ReadAll? || step.ReadFails? || step.Install?)
    ensures s.holder == Some(step.id)
  {
    assert LoadInv(s, step.id);
  }

  lemma OthersCannotLock(s: State, step: Step, id: LoadId, ttl: int)
    requires Inv(s, ttl) && Enabled(s, step) && !By(step, id) && s.holder == Some(id)
    ensures step.Tick? || step.Write? || step.Start?
  {
    if step.SlowHit? || step.ReadAll? || step.ReadFails? || step.Install? {
      OnlyTheHolder(s, step, ttl);
    }
  }

  lemma LeftAloneJoins(s: State, m: State, s': State, id: LoadId, ttl: int)
    requires LeftAlone(s, m, id, ttl) && LeftAlone(m, s', id, ttl)
    ensures LeftAlone(s, s', id, ttl)
  {
  }

  lemma OthersLeaveAlone(s: State, s': State, id: LoadId, ttl: int)
    requires Inv(s, ttl) && 0 < ttl && Reaches(s, s', Some(id), ttl)
    ensures LeftAlone(s, s', id, ttl) && Reaches(s, s', None, ttl)
  {
    var others := Moves(Some(id), ttl);
    forall m, step, u | LeftAlone(s, m, id, ttl) && others(m, step, u) ensures LeftAlone(s, u, id, ttl) {
      StepLeavesAlone(m, step, u, id, ttl);
      LeftAloneJoins(s, m, u, id, ttl);
    }
    Paths.ReachesKeeps(others, u => LeftAlone(s, u, id, ttl), s, s');
    Paths.ReachesMore(others, Moves(None, ttl), s, s');
  }

  /** The system got from `start` to `s` by its own steps. */
  ghost predicate After(start: State, s: State, ttl: int) {
    Inv(s, ttl) && 0 < ttl && Reaches(start, s, None, ttl) && Grows(start, s)
  }

  lemma AfterStep(start: State, s: State, step: Step, ttl: int)
    requires After(start, s, ttl) && Enabled(s, step)
    ensures After(start, Apply(s, step, ttl), ttl)
  {
    StepKeeps(s, step, ttl);
    StepGrows(s, step, ttl);
    Paths.ReachesByStep(Moves(None, ttl), start, s, step, Apply(s, step, ttl));
  }

  lemma AfterOthers(start: State, s: State, s': State, id: LoadId, ttl: int)
    requires After(start, s, ttl) && Reaches(s, s', Some(id), ttl)
    ensures After(start, s', ttl) && LeftAlone(s, s', id, ttl)
  {
    OthersLeaveAlone(s, s', id, ttl);
    Paths.ReachesJoins(Moves(None, ttl), start, s, s');
  }

  /** What other goroutines may do meanwhile; none of it is a step of load `id`. */
  ghost predicate Elsewhere(others: State -> State, id: LoadId, ttl: int) {
    forall s :: Inv(s, ttl) ==> Reaches(s, others(s), Some(id), ttl)
  }

  /** They do so until the lock is free, unless it is `id` that holds it. */
  ghost predicate Unlocks(others: State -> State, id: LoadId, ttl: int) {
    forall s :: Inv(s, ttl) && s.holder != Some(id) ==> others(s).holder.None?
  }

  /** The values of an absent tenant, an answer, or a failed read. */
  datatype Loaded = Baseline | Served(r: Answered) | ReadError

  /** Load `id` of `t`, begun at `start`, is under way. */
  ghost predicate UnderWay(start: State, s: State, id: LoadId, t: Tenant, ttl: int) {
    && After(start, s, ttl) && id in s.loads && s.loads[id].tenant == t
    && Count(start.invalidated, t) <= s.loads[id].floor
    && forall r <- s.answers :: r.id != id
  }

  /** Load `id` is over. Either the read failed and nothing was answered, or its answer is
      sound and no older than the tenant's last invalidation before the load. */
  ghost predicate Finished(start: State, s: State, id: LoadId, t: Tenant, readable: bool, out: Loaded, ttl: int) {
    && After(start, s, ttl) && id in s.loads && s.loads[id].tenant == t && s.loads[id].phase.Returned?
    && match out
       case Baseline => false
       case ReadError => !readable && forall r <- s.answers :: r.id != id
       case Served(r) =>
         r in s.answers && r.id == id && AnswerInv(s, r, ttl) && Count(start.invalidated, t) <= r.part.snap.version
  }

  /** An answer ends the load. */
  lemma AnswerFinishes(start: State, s: State, step: Step, s': State, id: LoadId, t: Tenant,
                       readable: bool, part: Partition, ttl: int)
    requires UnderWay(start, s, id, t, ttl) && Goes(s, step, s', ttl)
    requires step == FastHit(id) || step == SlowHit(id) || step == Install(id)
    requires part == if step.Install? then NewPartition(s, id, ttl) else s.parts[t]
    ensures Finished(start, s', id, t, readable, Served(Answered(id, part, s.now)), ttl)
  {
    AfterStep(start, s, step, ttl);
    var r := Answered(id, part, s.now);
    assert s'.answers[|s.answers|] == r;
    assert AnswerInv(s', r, ttl);
  }

  /** The settings object, in the middle of everything else: `state` also holds the database
      and the progress of every load. */
  class Settings {
    const ttl: int
    var state: State

    constructor (ttl: int)
      ensures this.ttl == (if ttl <= 0 then 5 else ttl) && state == INIT && After(INIT, state, this.ttl)
    {
      this.ttl := if ttl <= 0 then 5 else ttl;
      state := INIT;
      new;
      Paths.ReachesSelf(Moves(None, this.ttl), INIT);
    }

    /** One load of a tenant's settings: a check under the read lock, a second one under the
        write lock, and a refresh if both find nothing fresh. Others act whenever it waits for
        the lock (`waiting`) and, as far as the lock lets them, between its own statements. */
    method LoadFor(id: LoadId, t: Tenant, readable: bool, waiting: State -> State, others: State -> State)
      returns (out: Loaded)
      requires Inv(state, ttl) && 0 < ttl && id !in state.loads
      requires Elsewhere(others, id, ttl) && Elsewhere(waiting, id, ttl) && Unlocks(waiting, id, ttl)
      modifies this
      ensures t == "" ==> out.Baseline? && state == old(state)
      ensures t != "" ==> Finished(old(state), state, id, t, readable, out, ttl)
    {
      ghost var start := state;
      if t == "" {
        return Baseline;
      }
      Begin(id, t);
      Pause(start, id, t, waiting);
      if Fresh(state, t) {
        out := Hit(start, id, t, FastHit(id), readable);
        return;
      }
      Miss(start, id, t);
      Pause(start, id, t, waiting);
      out := Refresh(start, id, t, readable, others);
    }

    /** The slow path, once the write lock is free. */
    method Refresh(ghost start: State, id: LoadId, t: Tenant, readable: bool, others: State -> State)
      returns (out: Loaded)
      requires UnderWay(start, state, id, t, ttl) && Enabled(state, Acquire(id)) && Elsewhere(others, id, ttl)
      modifies this
      ensures Finished(start, state, id, t, readable, out, ttl)
    {
      Lock(start, id, t);
      Pause(start, id, t, others);
      if Fresh(state, t) {
        out := Hit(start, id, t, SlowHit(id), readable);
        return;
      }
      Pause(start, id, t, others);
      if !readable {
        Fail(start, id, t);
        return ReadError;
      }
      Read(start, id, t);
      Pause(start, id, t, others);
      out := Put(start, id, t, readable);
    }

    method Begin(id: LoadId, t: Tenant)
      requires Inv(state, ttl) && 0 < ttl && id !in state.loads && t != ""
      modifies this
      ensures UnderWay(old(state), state, id, t, ttl) && state.loads[id].phase.Checking? && state.holder != Some(id)
    {
      Paths.ReachesSelf(Moves(None, ttl), state);
      AfterStep(state, state, Start(id, t), ttl);
      assert forall r <- state.answers :: AnswerInv(state, r, ttl);
      state := Apply(state, Start(id, t), ttl);
    }

    /** Time for everything but load `id`. */
    method Pause(ghost start: State, id: LoadId, ghost t: Tenant, others: State -> State)
      requires UnderWay(start, state, id, t, ttl) && Elsewhere(others, id, ttl)
      modifies this
      ensures state == others(old(state)) && UnderWay(start, state, id, t, ttl)
      ensures state.loads[id] == old(state).loads[id] && old(state).now <= state.now
      ensures old(state).holder == Some(id) ==> state.holder == Some(id) && state.parts == old(state).parts
    {
      AfterOthers(start, state, others(state), id, ttl);
      state := others(state);
    }

    method Hit(ghost start: State, id: LoadId, t: Tenant, step: Step, readable: bool) returns (out: Loaded)
      requires UnderWay(start, state, id, t, ttl) && Enabled(state, step)
      requires step == FastHit(id) || step == SlowHit(id)
      modifies this
      ensures Finished(start, state, id, t, readable, out, ttl)
    {
      AnswerFinishes(start, state, step, Apply(state, step, ttl), id, t, readable, state.parts[t], ttl);
      out := Served(Answered(id, state.parts[t], state.now));
      state := Apply(state, step, ttl);
    }

    method Miss(ghost start: State, id: LoadId, t: Tenant)
      requires UnderWay(start, state, id, t, ttl) && Enabled(state, FastMiss(id))
      modifies this
      ensures UnderWay(start, state, id, t, ttl) && state.loads[id].phase.Missed? && state.holder == old(state).holder
    {
      AfterStep(start, state, FastMiss(id), ttl);
      state := Apply(state, FastMiss(id), ttl);
    }

    method Lock(ghost start: State, id: LoadId, t: Tenant)
      requires UnderWay(start, state, id, t, ttl) && Enabled(state, Acquire(id))
      modifies this
      ensures UnderWay(start, state, id, t, ttl) && state.loads[id].phase.Locked? && state.holder == Some(id)
    {
      AfterStep(start, state, Acquire(id), ttl);
      state := Apply(state, Acquire(id), ttl);
    }

    method Fail(ghost start: State, id: LoadId, t: Tenant)
      requires UnderWay(start, state, id, t, ttl) && Enabled(state, ReadFails(id))
      modifies this
      ensures Finished(start, state, id, t, false, ReadError, ttl)
    {
      AfterStep(start, state, ReadFails(id), ttl);
      state := Apply(state, ReadFails(id), ttl);
    }

    method Read(ghost start: State, id: LoadId, t: Tenant)
      requires UnderWay(start, state, id, t, ttl) && Enabled(state, ReadAll(id))
      modifies this
      ensures UnderWay(start, state, id, t, ttl) && state.loads[id].phase.HasRead? && state.holder == old(state).holder
    {
      AfterStep(start, state, ReadAll(id), ttl);
      state := Apply(state, ReadAll(id), ttl);
    }

    method Put(ghost start: State, id: LoadId, t: Tenant, readable: bool) returns (out: Loaded)
      requires UnderWay(start, state, id, t, ttl) && Enabled(state, Install(id))
      modifies this
      ensures Finished(start, state, id, t, readable, out, ttl)
    {
      var part := NewPartition(state, id, ttl);
      AnswerFinishes(start, state, Install(id), Apply(state, Install(id), ttl), id, t, readable, part, ttl);
      out := Served(Answered(id, part, state.now));
      state := Apply(state, Install(id), ttl);
    }

    /** Waits for the lock and drops every partition. Every write made before the call is one
        that no load started from now on can miss. */
    method InvalidateAll(waiting: State -> State)
      requires Inv(state, ttl) && 0 < ttl
      requires forall s :: Inv(s, ttl) ==> Reaches(s, waiting(s), None, ttl) && waiting(s).holder.None?
      modifies this
      ensures After(old(state), state, ttl) && state.parts == map[]
      ensures forall t :: Count(old(state).writes, t) <= Count(state.invalidated, t)
    {
      ghost var start := state;
      AfterAnyone(state, waiting(state), ttl);
      state := waiting(state);
      AfterStep(start, state, Invalidate, ttl);
      state := Apply(state, Invalidate, ttl);
    }

    /** The same for one tenant; no other tenant's partition goes with it. */
    method InvalidateOne(t: Tenant, waiting: State -> State)
      requires Inv(state, ttl) && 0 < ttl
      requires forall s :: Inv(s, ttl) ==> Reaches(s, waiting(s), None, ttl) && waiting(s).holder.None?
      modifies this
      ensures After(old(state), state, ttl) && (t == "" ==> state == old(state))
      ensures t != "" ==> t !in state.parts && Count(old(state).writes, t) <= Count(state.invalidated, t)
      ensures t != "" ==> exists m :: Reaches(old(state), m, None, ttl) && Goes(m, InvalidateForTenant(t), state, ttl)
    {
      ghost var start := state;
      Paths.ReachesSelf(Moves(None, ttl), state);
      if t == "" {
        return;
      }
      AfterAnyone(state, waiting(state), ttl);
      state := waiting(state);
      ghost var m := state;
      AfterStep(start, state, InvalidateForTenant(t), ttl);
      state := Apply(state, InvalidateForTenant(t), ttl);
      assert Goes(m, InvalidateForTenant(t), state, ttl);
    }
  }

  lemma AfterAnyone(s: State, s': State, ttl: int)
    requires Inv(s, ttl) && 0 < ttl && Reaches(s, s', None, ttl)
    ensures After(s, s', ttl)
  {
    var all := Moves(None, ttl);
    forall m, step, u | Inv(m, ttl) && Grows(s, m) && all(m, step, u) ensures Inv(u, ttl) && Grows(s, u) {
      StepKeeps(m, step, ttl);
      StepGrows(m, step, ttl);
    }
    Paths.ReachesKeeps(all, u => Inv(u, ttl) && Grows(s, u), s, s');
  }
}
