/** The syncer: writers, a lossless change bus and one plugin's debounced dispatch loop, as
    a step system over the database and the plugin's per-tenant cache. */
module Syncer {
  import opened Values
  import Paths

  type Tenant = string

  /** Not created, counting down, fired but not yet received, or received. */
  datatype Timer = Unset | Running | Fired | Spent

  /** How far a reload has got: it reads the database, then installs what it read. */
  datatype Reload = Started | Read(v: nat) | Installed

  datatype Loop =
    | Idle
    | Between(todo: set<Tenant>)
    | Reloading(todo: set<Tenant>, tenant: Tenant, at: Reload)
    | Stopped

  /** An abandoned reload that is still running. */
  datatype Straggler = Straggler(tenant: Tenant, read: Option<nat>)

  /** `db` and `cache` hold, per tenant, the number of the write they reflect. `suspect` is a
      history variable: tenants with a failed or abandoned reload not yet made good. */
  datatype State = State(
    db: map<Tenant, nat>, cache: map<Tenant, nat>,
    inflight: multiset<Tenant>,
    pending: set<Tenant>, timer: Timer, loop: Loop,
    stragglers: multiset<Straggler>, suspect: set<Tenant>)

  function At(m: map<Tenant, nat>, t: Tenant): nat { if t in m then m[t] else 0 }

  const INIT: State := State(map[], map[], multiset{}, {}, Unset, Idle, multiset{}, {})

  // ---- Steps ----

  datatype Step =
    | Write(t: Tenant)
    | Receive(t: Tenant)
    | Fire
    | TimerReceived
    | BeginReload(t: Tenant)
    | ReadDb
    | Install
    | EndReload
    | FailReload
    | TimeOut
    | EndRound
    | StragglerReads(x: Straggler)
    | StragglerInstalls(x: Straggler)
    | StragglerGives(x: Straggler)
    | Stop

  predicate Enabled(s: State, step: Step) {
    match step
    case Write(_) => true
    case Receive(t) => s.loop.Idle? && t in s.inflight
    case Fire => s.timer.Running?
    case TimerReceived => s.loop.Idle? && s.timer.Fired?
    case BeginReload(t) => s.loop.Between? && t in s.loop.todo
    case ReadDb => s.loop.Reloading? && s.loop.at.Started?
    case Install => s.loop.Reloading? && s.loop.at.Read?
    case EndReload => s.loop.Reloading? && s.loop.at.Installed?
    case FailReload => s.loop.Reloading? && !s.loop.at.Installed?
    case TimeOut => s.loop.Reloading?
    case EndRound => s.loop.Between? && s.loop.todo == {}
    case StragglerReads(x) => x in s.stragglers && x.read.None?
    case StragglerInstalls(x) => x in s.stragglers && x.read.Some?
    case StragglerGives(x) => x in s.stragglers
    case Stop => true
  }

  /** No abandoned reload of `t` can still install. */
  predicate Clear(stragglers: multiset<Straggler>, t: Tenant) {
    forall x <- stragglers :: x.tenant != t
  }

  function Abandoned(at: Reload, t: Tenant): multiset<Straggler> {
    match at
    case Started => multiset{Straggler(t, None)}
    case Read(v) => multiset{Straggler(t, Some(v))}
    case Installed => multiset{}
  }

  function Apply(s: State, step: Step): State
    requires Enabled(s, step)
  {
    match step
    case Write(t) => s.(db := s.db[t := At(s.db, t) + 1], inflight := s.inflight + multiset{t})
    case Receive(t) =>
      s.(inflight := s.inflight - multiset{t}, pending := s.pending + {t}, timer := Running)
    case Fire => s.(timer := Fired)
    case TimerReceived =>
      if s.pending == {} then s.(timer := Spent)
      else s.(timer := Spent, pending := {}, loop := Between(s.pending))
    case BeginReload(t) => s.(loop := Reloading(s.loop.todo - {t}, t, Started))
    case ReadDb => s.(loop := s.loop.(at := Read(At(s.db, s.loop.tenant))))
    case Install =>
      s.(cache := s.cache[s.loop.tenant := s.loop.at.v],
         suspect := if Clear(s.stragglers, s.loop.tenant) then s.suspect - {s.loop.tenant} else s.suspect,
         loop := s.loop.(at := Installed))
    case EndReload => s.(loop := Between(s.loop.todo))
    case FailReload => s.(suspect := s.suspect + {s.loop.tenant}, loop := Between(s.loop.todo))
    case TimeOut =>
      s.(suspect := if s.loop.at.Installed? then s.suspect else s.suspect + {s.loop.tenant},
         stragglers := s.stragglers + Abandoned(s.loop.at, s.loop.tenant),
         loop := Between(s.loop.todo))
    case EndRound => s.(loop := Idle)
    case StragglerReads(x) =>
      s.(stragglers := s.stragglers - multiset{x} + multiset{Straggler(x.tenant, Some(At(s.db, x.tenant)))})
    case StragglerInstalls(x) =>
      s.(cache := s.cache[x.tenant := x.read.value], stragglers := s.stragglers - multiset{x})
    case StragglerGives(x) => s.(stragglers := s.stragglers - multiset{x})
    case Stop => s.(loop := Stopped)
  }

  // ---- Coherence ----

  /** A reload that will see `t`'s latest write is still to come. */
  ghost predicate Owed(s: State, t: Tenant) {
    || t in s.inflight
    || (t in s.pending && (s.timer.Running? || s.timer.Fired?))
    || (s.loop.Between? && t in s.loop.todo)
    || (s.loop.Reloading? && (t in s.loop.todo
                              || (t == s.loop.tenant && (s.loop.at.Started? || s.loop.at == Read(At(s.db, t))))))
  }

  ghost predicate Coherent(s: State, t: Tenant) { At(s.cache, t) == At(s.db, t) }

  /** `t`'s latest write is in the cache or on its way there. */
  ghost predicate Seen(s: State, t: Tenant) { s.loop.Stopped? || Coherent(s, t) || Owed(s, t) }

  /** A live loop with pending tenants has its timer armed. */
  ghost predicate Armed(s: State) { s.loop.Stopped? || s.pending == {} || s.timer.Running? || s.timer.Fired? }

  /** The reload in progress holds the latest write, or an event for a later one is in flight. */
  ghost predicate ReadIsCurrent(s: State) {
    s.loop.Reloading? && s.loop.at.Read? ==>
      s.loop.at.v == At(s.db, s.loop.tenant) || s.loop.tenant in s.inflight
  }

  ghost predicate Blamed(s: State) { forall x <- s.stragglers :: x.tenant in s.suspect }

  /** No reload has read a write that does not exist yet. */
  ghost predicate NoneFromTheFuture(s: State) {
    && (s.loop.Reloading? && s.loop.at.Read? ==> s.loop.at.v <= At(s.db, s.loop.tenant))
    && forall x <- s.stragglers :: x.read.Some? ==> x.read.value <= At(s.db, x.tenant)
  }

  ghost predicate Inv(s: State) {
    && Armed(s) && ReadIsCurrent(s) && Blamed(s) && NoneFromTheFuture(s)
    && forall t :: t !in s.suspect ==> Seen(s, t)
  }

  /** The step gives up a reload of `t` before it installed. */
  predicate Fails(s: State, step: Step, t: Tenant) {
    (step.FailReload? || step.TimeOut?) && s.loop.Reloading? && s.loop.tenant == t && !s.loop.at.Installed?
  }

  lemma ClearStays(s: State, step: Step, t: Tenant)
    requires Enabled(s, step) && Clear(s.stragglers, t) && !Fails(s, step, t)
    ensures Clear(Apply(s, step).stragglers, t)
  {
  }

  lemma BusStepKeepsSeen(s: State, step: Step, t: Tenant)
    requires Enabled(s, step) && (step.Write? || step.Receive?) && Seen(s, t)
    ensures Seen(Apply(s, step), t)
  {
  }

  lemma TimerStepKeepsSeen(s: State, step: Step, t: Tenant)
    requires Enabled(s, step) && (step.Fire? || step.TimerReceived?) && Seen(s, t)
    ensures Seen(Apply(s, step), t)
  {
  }

  lemma ReloadStepKeepsSeen(s: State, step: Step, t: Tenant)
    requires Enabled(s, step) && (step.BeginReload? || step.ReadDb? || step.Install?)
    requires Seen(s, t) && ReadIsCurrent(s)
    ensures Seen(Apply(s, step), t)
  {
  }

  lemma EndStepKeepsSeen(s: State, step: Step, t: Tenant)
    requires Enabled(s, step) && Seen(s, t) && !Fails(s, step, t)
    requires step.EndReload? || step.FailReload? || step.TimeOut? || step.EndRound? || step.Stop?
    ensures Seen(Apply(s, step), t)
  {
  }

  lemma StragglerStepKeepsSeen(s: State, step: Step, t: Tenant)
    requires Enabled(s, step) && (step.StragglerReads? || step.StragglerInstalls? || step.StragglerGives?)
    requires Seen(s, t) && Clear(s.stragglers, t)
    ensures Seen(Apply(s, step), t)
  {
  }

  /** Without an abandoned reload of `t`, only a failing reload of `t` loses sight of a write. */
  lemma SeenStays(s: State, step: Step, t: Tenant)
    requires Enabled(s, step) && Seen(s, t) && ReadIsCurrent(s) && Clear(s.stragglers, t) && !Fails(s, step, t)
    ensures Seen(Apply(s, step), t)
  {
    match step {
      case Write(_) => BusStepKeepsSeen(s, step, t);
      case Receive(_) => BusStepKeepsSeen(s, step, t);
      case Fire => TimerStepKeepsSeen(s, step, t);
      case TimerReceived => TimerStepKeepsSeen(s, step, t);
      case BeginReload(_) => ReloadStepKeepsSeen(s, step, t);
      case ReadDb => ReloadStepKeepsSeen(s, step, t);
      case Install => ReloadStepKeepsSeen(s, step, t);
      case StragglerReads(_) => StragglerStepKeepsSeen(s, step, t);
      case StragglerInstalls(_) => StragglerStepKeepsSeen(s, step, t);
      case StragglerGives(_) => StragglerStepKeepsSeen(s, step, t);
      case _ => EndStepKeepsSeen(s, step, t);
    }
  }

  /** A reload of `t` that installs makes a suspect tenant seen again. */
  lemma InstallMakesSeen(s: State)
    requires Enabled(s, Install) && ReadIsCurrent(s)
    ensures Seen(Apply(s, Install), s.loop.tenant)
  {
  }

  lemma ArmedStays(s: State, step: Step)
    requires Enabled(s, step) && Armed(s)
    ensures Armed(Apply(s, step))
  {
  }

  lemma ReadStaysCurrent(s: State, step: Step)
    requires Enabled(s, step) && ReadIsCurrent(s)
    ensures ReadIsCurrent(Apply(s, step))
  {
  }

  /** Where an abandoned reload comes from: it was there, was just abandoned, or has just read. */
  lemma StragglerComes(s: State, step: Step, x: Straggler)
    requires Enabled(s, step) && x in Apply(s, step).stragglers
    ensures || x in s.stragglers
            || (step.TimeOut? && !s.loop.at.Installed? && x.tenant == s.loop.tenant
                && (x.read.Some? ==> s.loop.at == Read(x.read.value)))
            || (step.StragglerReads? && step.x in s.stragglers && x.tenant == step.x.tenant
                && x.read == Some(At(s.db, x.tenant)))
  {
  }

  /** A suspect stays one until its own reload installs with no abandoned one left. */
  lemma SuspectStays(s: State, step: Step, t: Tenant)
    requires Enabled(s, step) && t in s.suspect
    ensures t in Apply(s, step).suspect || (step.Install? && s.loop.tenant == t && Clear(s.stragglers, t))
  {
  }

  lemma BlamedStays(s: State, step: Step)
    requires Enabled(s, step) && Blamed(s)
    ensures Blamed(Apply(s, step))
  {
    forall x | x in Apply(s, step).stragglers ensures x.tenant in Apply(s, step).suspect {
      StragglerComes(s, step, x);
      if x.tenant in s.suspect {
        SuspectStays(s, step, x.tenant);
      }
    }
  }

  lemma DbGrows(s: State, step: Step, t: Tenant)
    requires Enabled(s, step)
    ensures At(s.db, t) <= At(Apply(s, step).db, t)
  {
  }

  lemma ReadNotFromTheFuture(s: State, step: Step)
    requires Enabled(s, step) && (s.loop.Reloading? && s.loop.at.Read? ==> s.loop.at.v <= At(s.db, s.loop.tenant))
    ensures var s' := Apply(s, step);
            s'.loop.Reloading? && s'.loop.at.Read? ==> s'.loop.at.v <= At(s'.db, s'.loop.tenant)
  {
  }

  lemma FutureStaysOut(s: State, step: Step)
    requires Enabled(s, step) && NoneFromTheFuture(s)
    ensures NoneFromTheFuture(Apply(s, step))
  {
    ReadNotFromTheFuture(s, step);
    forall x | x in Apply(s, step).stragglers && x.read.Some? ensures x.read.value <= At(Apply(s, step).db, x.tenant) {
      StragglerComes(s, step, x);
      DbGrows(s, step, x.tenant);
    }
  }

  lemma StepKeeps(s: State, step: Step)
    requires Inv(s) && Enabled(s, step)
    ensures Inv(Apply(s, step))
  {
    ArmedStays(s, step);
    ReadStaysCurrent(s, step);
    BlamedStays(s, step);
    FutureStaysOut(s, step);
    forall t | t !in Apply(s, step).suspect ensures Seen(Apply(s, step), t) {
      UnsuspectedIsSeen(s, step, t);
    }
  }

  lemma UnsuspectedIsSeen(s: State, step: Step, t: Tenant)
    requires Inv(s) && Enabled(s, step) && t !in Apply(s, step).suspect
    ensures Seen(Apply(s, step), t)
  {
    if t in s.suspect {
      InstallMakesSeen(s);
    } else {
      SeenStays(s, step, t);
    }
  }

  // ---- Runs ----

  ghost predicate IsRun(run: seq<State>, steps: seq<Step>) { IsPath(run, steps) && run[0] == INIT }

  ghost predicate IsPath(run: seq<State>, steps: seq<Step>) { Paths.IsPath(MOVES, run, steps) }

  ghost predicate Goes(s: State, step: Step, s': State) { Enabled(s, step) && s' == Apply(s, step) }

  ghost const MOVES: (State, Step, State) -> bool := (s, step, s') => Goes(s, step, s')

  lemma {:induction false} RunKeepsInv(run: seq<State>, steps: seq<Step>, n: nat)
    requires IsRun(run, steps) && n < |run|
    ensures Inv(run[n])
  {
    if n == 0 {
    } else {
      RunKeepsInv(run, steps, n - 1);
      StepKeeps(run[n - 1], steps[n - 1]);
    }
  }

  /** In every reachable state of a live loop, each tenant that is not suspect has a cache
      equal to the database or a reload on its way. */
  lemma EveryWriteIsSeenOrOwed(run: seq<State>, steps: seq<Step>, n: nat, t: Tenant)
    requires IsRun(run, steps) && n < |run| && !run[n].loop.Stopped? && t !in run[n].suspect
    ensures Coherent(run[n], t) || Owed(run[n], t)
  {
    RunKeepsInv(run, steps, n);
  }

  ghost predicate Drained(s: State) { s.loop.Idle? && s.inflight == multiset{} && s.pending == {} }

  predicate NoFailures(steps: seq<Step>) { forall step <- steps :: !step.FailReload? && !step.TimeOut? }

  lemma {:induction false} NoFailuresNoSuspects(run: seq<State>, steps: seq<Step>, n: nat)
    requires IsRun(run, steps) && NoFailures(steps) && n < |run|
    ensures run[n].suspect == {}
  {
    if n == 0 {
    } else {
      NoFailuresNoSuspects(run, steps, n - 1);
      assert steps[n - 1] in steps;
    }
  }

  /** With no failed or timed-out reload, a drained loop leaves every cache equal to the database. */
  lemma DrainedIsCoherent(run: seq<State>, steps: seq<Step>, n: nat, t: Tenant)
    requires IsRun(run, steps) && NoFailures(steps) && n < |run| && Drained(run[n])
    ensures Coherent(run[n], t)
  {
    NoFailuresNoSuspects(run, steps, n);
    EveryWriteIsSeenOrOwed(run, steps, n, t);
  }

  /** No abandoned reload of `t` is left, and its latest write is seen or owed. */
  ghost predicate Settled(s: State, t: Tenant) { Inv(s) && Clear(s.stragglers, t) && Seen(s, t) }

  lemma SettledStays(s: State, step: Step, s': State, t: Tenant)
    requires Settled(s, t) && Goes(s, step, s') && !Fails(s, step, t)
    ensures Settled(s', t)
  {
    StepKeeps(s, step);
    ClearStays(s, step, t);
    SeenStays(s, step, t);
  }

  /** The steps that give up no reload of `t` before it installed. */
  ghost function Spares(t: Tenant): (State, Step, State) -> bool {
    (s, step, s') => Goes(s, step, s') && !Fails(s, step, t)
  }

  lemma SettledContinues(run: seq<State>, steps: seq<Step>, t: Tenant)
    requires Paths.IsPath(Spares(t), run, steps) && Settled(run[0], t)
    ensures Settled(run[|steps|], t)
  {
    forall s, step, s' | Settled(s, t) && Spares(t)(s, step, s') ensures Settled(s', t) {
      SettledStays(s, step, s', t);
    }
    Paths.PathKeeps(Spares(t), s => Settled(s, t), run, steps, |steps|);
  }

  lemma InstallSettles(s: State, s': State)
    requires Inv(s) && Goes(s, Install, s') && Clear(s.stragglers, s.loop.tenant)
    ensures Settled(s', s.loop.tenant)
  {
    StepKeeps(s, Install);
    InstallMakesSeen(s);
  }

  /** After a failure the loop heals: once no abandoned reload of a tenant is left, its next
      reload to install makes the drained loop coherent, whatever happens to other tenants. */
  lemma NextReloadHeals(run: seq<State>, steps: seq<Step>, m: nat, n: nat)
    requires IsRun(run, steps) && m < n < |run|
    requires steps[m].Install? && Clear(run[m].stragglers, run[m].loop.tenant)
    requires forall i :: m < i < n ==> !Fails(run[i], steps[i], run[m].loop.tenant)
    requires Drained(run[n])
    ensures Coherent(run[n], run[m].loop.tenant)
  {
    var t := run[m].loop.tenant;
    RunKeepsInv(run, steps, m);
    assert MOVES(run[m], steps[m], run[m + 1]);
    InstallSettles(run[m], run[m + 1]);
    var rest, taken := run[m + 1..n + 1], steps[m + 1..n];
    forall i | 0 <= i < |taken| ensures Spares(t)(rest[i], taken[i], rest[i + 1]) {
      assert MOVES(run[m + 1 + i], steps[m + 1 + i], run[m + 1 + i + 1]);
    }
    SettledContinues(rest, taken, t);
  }

  /** The source calls an abandoned reload that finishes late harmless. It is not: here it
      overwrites a newer cache, and the drained loop owes no reload. */
  lemma LateReloadLeavesStaleCache(t: Tenant)
    ensures exists run: seq<State>, steps :: IsRun(run, steps) && Drained(run[|steps|]) && !Coherent(run[|steps|], t)
                                 && run[|steps|].stragglers == multiset{}
  {
    var late := Straggler(t, Some(1));
    var p1, q1 := RoundPath(INIT, t);
    var s6 := p1[6];
    var s7 := Apply(s6, TimeOut);
    var s8 := Apply(s7, EndRound);
    var p2, q2 := Paths.Chain(MOVES, p1, q1, [s6, s7, s8], [TimeOut, EndRound]);
    assert s8.stragglers == multiset{late};
    var p3, q3 := RoundPath(s8, t);
    var p4, q4 := Paths.Chain(MOVES, p2, q2, p3, q3);
    var p5, q5 := InstallThenLate(p3[6], late);
    var p6, q6 := Paths.Chain(MOVES, p4, q4, p5, q5);
    assert IsRun(p6, q6);
  }

  /** One write, received and debounced. */
  lemma DebouncePath(s: State, t: Tenant) returns (run: seq<State>, steps: seq<Step>)
    requires s.loop.Idle? && s.inflight == multiset{} && s.pending == {}
    ensures IsPath(run, steps) && |steps| == 3 && run[0] == s && NoFailures(steps)
    ensures run[3] == s.(db := s.db[t := At(s.db, t) + 1], pending := {t}, timer := Fired)
  {
    var s1 := Apply(s, Write(t));
    var s2 := Apply(s1, Receive(t));
    var s3 := Apply(s2, Fire);
    assert s2.inflight == multiset{};
    run, steps := [s, s1, s2, s3], [Write(t), Receive(t), Fire];
  }

  /** One write, received, debounced and read by the reload it triggers. */
  lemma RoundPath(s: State, t: Tenant) returns (run: seq<State>, steps: seq<Step>)
    requires s.loop.Idle? && s.inflight == multiset{} && s.pending == {}
    ensures IsPath(run, steps) && |steps| == 6 && run[0] == s && NoFailures(steps)
    ensures run[6] == s.(db := s.db[t := At(s.db, t) + 1], timer := Spent,
                         loop := Reloading({}, t, Read(At(s.db, t) + 1)))
  {
    var p, q := DebouncePath(s, t);
    var r, u := ReadPath(p[3], t);
    run, steps := Paths.Chain(MOVES, p, q, r, u);
    NoFailuresJoin(q, u);
  }

  /** The debounced reload reads the database. */
  lemma ReadPath(s: State, t: Tenant) returns (run: seq<State>, steps: seq<Step>)
    requires s.loop.Idle? && s.pending == {t} && s.timer.Fired?
    ensures IsPath(run, steps) && |steps| == 3 && run[0] == s && NoFailures(steps)
    ensures run[3] == s.(pending := {}, timer := Spent, loop := Reloading({}, t, Read(At(s.db, t))))
  {
    var s1 := Apply(s, TimerReceived);
    var s2 := Apply(s1, BeginReload(t));
    var s3 := Apply(s2, ReadDb);
    assert {t} - {t} == {};
    run, steps := [s, s1, s2, s3], [TimerReceived, BeginReload(t), ReadDb];
  }

  // ---- Exactly when abandoned reloads are harmless ----

  /** A continuation in which no further reload of `t` is given up. */
  ghost predicate Continues(s: State, run: seq<State>, steps: seq<Step>, t: Tenant) {
    Paths.IsPath(Spares(t), run, steps) && run[0] == s
  }

  lemma NoFailuresJoin(x: seq<Step>, y: seq<Step>)
    requires NoFailures(x) && NoFailures(y)
    ensures NoFailures(x + y)
  {
  }

  lemma NoFailuresContinue(s: State, run: seq<State>, steps: seq<Step>, t: Tenant)
    requires IsPath(run, steps) && run[0] == s && NoFailures(steps)
    ensures Continues(s, run, steps, t)
  {
    forall i | 0 <= i < |steps| ensures Spares(t)(run[i], steps[i], run[i + 1]) {
      assert MOVES(run[i], steps[i], run[i + 1]) && steps[i] in steps;
    }
  }

  /** A reload that is about to install does so; then an abandoned one installs what it read. */
  lemma InstallThenLate(s: State, x: Straggler) returns (run: seq<State>, steps: seq<Step>)
    requires s.loop == Reloading({}, x.tenant, Read(At(s.db, x.tenant))) && s.inflight == multiset{} && s.pending == {}
    requires x in s.stragglers && x.read.Some? && x.read.value != At(s.db, x.tenant)
    ensures IsPath(run, steps) && run[0] == s && NoFailures(steps)
    ensures Drained(run[|steps|]) && !Coherent(run[|steps|], x.tenant)
    ensures run[|steps|].stragglers == s.stragglers - multiset{x}
  {
    var s1 := Apply(s, Install);
    var s2 := Apply(s1, EndReload);
    var s3 := Apply(s2, EndRound);
    var s4 := Apply(s3, StragglerInstalls(x));
    run, steps := [s, s1, s2, s3, s4], [Install, EndReload, EndRound, StragglerInstalls(x)];
  }

  /** From a drained state with an abandoned reload that has read: one more write, its
      successful reload, and then the late install of the outdated read. */
  lemma LateInstall(s: State, x: Straggler) returns (run: seq<State>, steps: seq<Step>)
    requires Drained(s) && x in s.stragglers && x.read.Some? && x.read.value <= At(s.db, x.tenant)
    ensures IsPath(run, steps) && run[0] == s && NoFailures(steps)
    ensures Drained(run[|steps|]) && !Coherent(run[|steps|], x.tenant)
  {
    var p, q := RoundPath(s, x.tenant);
    var r, u := InstallThenLate(p[6], x);
    run, steps := Paths.Chain(MOVES, p, q, r, u);
    NoFailuresJoin(q, u);
  }

  /** The same for an abandoned reload that has not read yet: it reads before the write. */
  lemma LateReadAndInstall(s: State, x: Straggler) returns (run: seq<State>, steps: seq<Step>)
    requires Drained(s) && x in s.stragglers && x.read.None?
    ensures IsPath(run, steps) && run[0] == s && NoFailures(steps)
    ensures Drained(run[|steps|]) && !Coherent(run[|steps|], x.tenant)
  {
    var s1 := Apply(s, StragglerReads(x));
    var first := [StragglerReads(x)];
    var p, q := LateInstall(s1, Straggler(x.tenant, Some(At(s.db, x.tenant))));
    run, steps := Paths.Chain(MOVES, [s, s1], first, p, q);
    NoFailuresJoin(first, q);
  }

  /** Exactly when abandoned reloads are harmless. From a reachable, drained state coherent at
      `t`, every continuation that gives up no further reload of `t` and drains is coherent at
      `t` if and only if no abandoned reload of `t` is left. */
  lemma StragglersHarmlessExactly(past: seq<State>, taken: seq<Step>, t: Tenant)
    requires IsRun(past, taken) && Drained(past[|taken|]) && Coherent(past[|taken|], t)
    ensures Clear(past[|taken|].stragglers, t) <==>
            forall run, steps :: Continues(past[|taken|], run, steps, t) && Drained(run[|steps|])
              ==> Coherent(run[|steps|], t)
  {
    var s := past[|taken|];
    RunKeepsInv(past, taken, |taken|);
    if Clear(s.stragglers, t) {
      forall run, steps | Continues(s, run, steps, t) && Drained(run[|steps|]) ensures Coherent(run[|steps|], t) {
        SettledContinues(run, steps, t);
      }
    } else {
      var x :| x in s.stragglers && x.tenant == t;
      var run, steps;
      if x.read.Some? {
        run, steps := LateInstall(s, x);
      } else {
        run, steps := LateReadAndInstall(s, x);
      }
      NoFailuresContinue(s, run, steps, t);
    }
  }

  // ---- The dispatch loop's own variables ----

  /** The loop's pending set and its timer object: `created` once made, `running` until it
      expires or is stopped, `full` while its channel holds an unreceived expiry. */
  class Dispatcher {
    var pending: set<Tenant>
    var created: bool
    var running: bool
    var full: bool

    ghost predicate Valid()
      reads this
    {
      !(running && full) && (!created ==> !running && !full)
    }

    ghost function Abstract(): Timer
      reads this
    {
      if !created then Unset else if running then Running else if full then Fired else Spent
    }

    constructor ()
      ensures Valid() && Abstract() == INIT.timer && pending == INIT.pending
    {
      pending, created, running, full := {}, false, false, false;
    }

    /** `Stop` reports whether the timer was still running. */
    method StopTimer() returns (wasRunning: bool)
      requires Valid() && created
      modifies this`running
      ensures Valid() && !running && wasRunning == old(running)
    {
      wasRunning := running;
      running := false;
    }

    /** An event: remember its tenant and restart the debounce window. */
    method OnEvent(s: State, t: Tenant)
      requires Valid() && pending == s.pending && Abstract() == s.timer && Enabled(s, Receive(t))
      modifies this
      ensures Valid()
      ensures pending == Apply(s, Receive(t)).pending && Abstract() == Apply(s, Receive(t)).timer
    {
      pending := pending + {t};
      if !created {
        created, running := true, true;
      } else {
        var wasRunning := StopTimer();
        if !wasRunning && full {
          full := false;
        }
        running := true;
      }
    }

    /** The window closed: take the pending tenants, if any, as the round to reload. */
    method OnTimer(s: State) returns (tenants: set<Tenant>)
      requires Valid() && pending == s.pending && Abstract() == s.timer && Enabled(s, TimerReceived)
      modifies this
      ensures Valid() && var s' := Apply(s, TimerReceived);
              && pending == s'.pending && Abstract() == s'.timer
              && s'.loop == if tenants == {} then Idle else Between(tenants)
    {
      full := false;
      tenants := pending;
      if pending != {} {
        pending := {};
      }
    }
  }
}
