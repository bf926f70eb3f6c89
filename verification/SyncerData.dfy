/** What the numbers in the syncer's states stand for: the database counts the writes of the run,
    and the cache holds what reloads of the same tenant read. */
module SyncerData {
  import opened Values
  import opened Syncer
  import Paths

  lemma StepAt(run: seq<State>, steps: seq<Step>, n: nat)
    requires IsRun(run, steps) && n < |steps|
    ensures Goes(run[n], steps[n], run[n + 1]) && steps[..n + 1] == steps[..n] + [steps[n]]
  {
    assert MOVES(run[n], steps[n], run[n + 1]);
  }

  /** How often the tenant was written in the first `n` steps. */
  ghost function Written(steps: seq<Step>, n: nat, t: Tenant): nat
    requires n <= |steps|
  {
    multiset(steps[..n])[Write(t)]
  }

  /** Only a write of the tenant changes its database, by one. */
  lemma WriteCounts(s: State, step: Step, s': State, t: Tenant)
    requires Goes(s, step, s')
    ensures At(s'.db, t) == At(s.db, t) + if step == Write(t) then 1 else 0
  {
  }

  /** Only a reload that has read changes the cache, to what it read. */
  lemma CacheComes(s: State, step: Step, s': State, t: Tenant)
    requires Goes(s, step, s') && t in s'.cache
    ensures || (t in s.cache && s'.cache[t] == s.cache[t])
            || (s.loop.Reloading? && s.loop.tenant == t && s.loop.at == Read(s'.cache[t]))
            || Straggler(t, Some(s'.cache[t])) in s.stragglers
  {
  }

  /** The loop's reload has read the database of its tenant, just now or before. */
  lemma LoopComes(s: State, step: Step, s': State)
    requires Goes(s, step, s') && s'.loop.Reloading? && s'.loop.at.Read?
    ensures s.loop.Reloading? && s.loop.tenant == s'.loop.tenant
    ensures s.loop.at == s'.loop.at || (step == ReadDb && s'.loop.at.v == At(s.db, s.loop.tenant))
  {
  }

  /** The database of a tenant is its number of writes so far. */
  lemma {:induction false} DbCountsWrites(run: seq<State>, steps: seq<Step>, n: nat, t: Tenant)
    requires IsRun(run, steps) && n < |run|
    ensures At(run[n].db, t) == Written(steps, n, t)
  {
    if n == 0 {
    } else {
      DbCountsWrites(run, steps, n - 1, t);
      StepAt(run, steps, n - 1);
      WriteCounts(run[n - 1], steps[n - 1], run[n], t);
    }
  }

  /** A reload of the tenant, abandoned or not, reads. */
  predicate Reads(s: State, step: Step, t: Tenant) {
    (step == ReadDb && s.loop.Reloading? && s.loop.tenant == t) || (step.StragglerReads? && step.x.tenant == t)
  }

  /** `v` is the number of writes of `t` at some earlier read by one of its reloads. */
  ghost predicate WasRead(run: seq<State>, steps: seq<Step>, n: nat, t: Tenant, v: nat)
    requires |run| == |steps| + 1 && n <= |steps|
  {
    exists m :: 0 <= m < n && Reads(run[m], steps[m], t) && v == Written(steps, m, t)
  }

  /** Everything cached, or read and not yet installed, was read. */
  ghost predicate AllRead(run: seq<State>, steps: seq<Step>, n: nat)
    requires |run| == |steps| + 1 && n <= |steps|
  {
    var s := run[n];
    && (forall t <- s.cache :: WasRead(run, steps, n, t, s.cache[t]))
    && (s.loop.Reloading? && s.loop.at.Read? ==> WasRead(run, steps, n, s.loop.tenant, s.loop.at.v))
    && forall x <- s.stragglers :: x.read.Some? ==> WasRead(run, steps, n, x.tenant, x.read.value)
  }

  lemma ReadsNow(run: seq<State>, steps: seq<Step>, n: nat, t: Tenant)
    requires IsRun(run, steps) && n < |steps| && Reads(run[n], steps[n], t)
    ensures WasRead(run, steps, n + 1, t, At(run[n].db, t))
  {
    DbCountsWrites(run, steps, n, t);
  }

  lemma {:induction false} EverythingWasRead(run: seq<State>, steps: seq<Step>, n: nat)
    requires IsRun(run, steps) && n < |run|
    ensures AllRead(run, steps, n)
  {
    if n == 0 {
    } else {
      EverythingWasRead(run, steps, n - 1);
      StepAt(run, steps, n - 1);
      forall t | t in run[n].cache ensures WasRead(run, steps, n, t, run[n].cache[t]) {
        CacheWasRead(run, steps, n - 1, t);
      }
      if run[n].loop.Reloading? && run[n].loop.at.Read? {
        LoopWasRead(run, steps, n - 1);
      }
      StragglersWereRead(run, steps, n - 1);
    }
  }

  lemma CacheWasRead(run: seq<State>, steps: seq<Step>, n: nat, t: Tenant)
    requires IsRun(run, steps) && n < |steps| && AllRead(run, steps, n) && Goes(run[n], steps[n], run[n + 1])
    requires t in run[n + 1].cache
    ensures WasRead(run, steps, n + 1, t, run[n + 1].cache[t])
  {
    CacheComes(run[n], steps[n], run[n + 1], t);
    assert WasRead(run, steps, n, t, run[n + 1].cache[t]);
  }

  lemma LoopWasRead(run: seq<State>, steps: seq<Step>, n: nat)
    requires IsRun(run, steps) && n < |steps| && AllRead(run, steps, n) && Goes(run[n], steps[n], run[n + 1])
    requires run[n + 1].loop.Reloading? && run[n + 1].loop.at.Read?
    ensures WasRead(run, steps, n + 1, run[n + 1].loop.tenant, run[n + 1].loop.at.v)
  {
    var s := run[n + 1];
    LoopComes(run[n], steps[n], s);
    if run[n].loop.at == s.loop.at {
      assert WasRead(run, steps, n, s.loop.tenant, s.loop.at.v);
    } else {
      ReadsNow(run, steps, n, s.loop.tenant);
    }
  }

  lemma StragglersWereRead(run: seq<State>, steps: seq<Step>, n: nat)
    requires IsRun(run, steps) && n < |steps| && AllRead(run, steps, n) && Goes(run[n], steps[n], run[n + 1])
    ensures forall x <- run[n + 1].stragglers :: x.read.Some? ==> WasRead(run, steps, n + 1, x.tenant, x.read.value)
  {
    forall x | x in run[n + 1].stragglers && x.read.Some? ensures WasRead(run, steps, n + 1, x.tenant, x.read.value) {
      StragglerComes(run[n], steps[n], x);
      if x in run[n].stragglers || steps[n].TimeOut? {
        assert WasRead(run, steps, n, x.tenant, x.read.value);
      } else {
        ReadsNow(run, steps, n, x.tenant);
      }
    }
  }

  /** In every run a tenant's cache holds its number of writes at a moment one of its own
      reloads read them, never another tenant's and never one that was not there. */
  lemma CacheHoldsWhatWasRead(run: seq<State>, steps: seq<Step>, n: nat, t: Tenant)
    requires IsRun(run, steps) && n < |run| && t in run[n].cache
    ensures exists m :: 0 <= m < n && Reads(run[m], steps[m], t) && run[n].cache[t] == Written(steps, m, t)
  {
    EverythingWasRead(run, steps, n);
    assert WasRead(run, steps, n, t, run[n].cache[t]);
  }

  /** In a run without failures, a drained loop leaves every tenant's last write in its cache. */
  lemma DrainedHoldsEveryWrite(run: seq<State>, steps: seq<Step>, n: nat, t: Tenant)
    requires IsRun(run, steps) && NoFailures(steps) && n < |run| && Drained(run[n])
    ensures (if t in run[n].cache then run[n].cache[t] else 0) == Written(steps, n, t)
  {
    DrainedIsCoherent(run, steps, n, t);
    DbCountsWrites(run, steps, n, t);
  }

  /** A reload that times out goes on by itself: it is still there, with what it has read. */
  lemma TimedOutGoesOn(s: State)
    requires Enabled(s, TimeOut) && !s.loop.at.Installed?
    ensures var x := Straggler(s.loop.tenant, if s.loop.at.Read? then Some(s.loop.at.v) else None);
            && x in Apply(s, TimeOut).stragglers
            && Enabled(Apply(s, TimeOut), if s.loop.at.Read? then StragglerInstalls(x) else StragglerReads(x))
  {
  }
}
