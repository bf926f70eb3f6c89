/** The visibility-timeout queue shared by the Postgres and MongoDB buses: any number of
    publishers and consumers over one table and one clock, as a step system. */
module MessageQueue {
  import opened Values
  import Paths

  type Id = string
  type Worker = nat

  /** What has happened to one message, oldest first. */
  datatype Event = Claimed(w: Worker, at: int) | Handled(w: Worker) | Acked(w: Worker, at: int)

  /** A table row, together with its history. */
  datatype Row = Row(
    queue: string, payload: Value, created: int,
    lockedAt: Option<int>, lockedBy: Option<Worker>, ackAt: Option<int>,
    hist: seq<Event>)

  /** A claimed message a consumer still has to process. */
  datatype Job = Job(id: Id, claimed: int, handled: bool)

  datatype State = State(now: int, rows: map<Id, Row>, work: map<Worker, seq<Job>>)

  function WorkOf(s: State, w: Worker): seq<Job> { if w in s.work then s.work[w] else [] }

  // ---- Steps ----

  predicate Eligible(row: Row, queue: string, ts: int, timeout: int) {
    row.queue == queue && row.ackAt.None? && (row.lockedAt.None? || row.lockedAt.value < ts - timeout)
  }

  function PublishStep(s: State, id: Id, queue: string, payload: Value, ts: int): State {
    s.(rows := s.rows[id := Row(queue, payload, ts, None, None, None, [])])
  }

  /** What the claim query returns: at most `limit` eligible rows, oldest first, skipping
      the rows other transactions hold. */
  ghost predicate IsBatch(s: State, queue: string, ts: int, timeout: int, limit: nat, skip: set<Id>, batch: seq<Id>) {
    && |batch| <= limit
    && (forall i, j :: 0 <= i < j < |batch| ==> batch[i] != batch[j])
    && (forall id <- batch :: id in s.rows && id !in skip && Eligible(s.rows[id], queue, ts, timeout))
    && (forall i, j :: 0 <= i < j < |batch| ==> s.rows[batch[i]].created <= s.rows[batch[j]].created)
    && forall id <- s.rows :: Eligible(s.rows[id], queue, ts, timeout) && id !in skip && id !in batch ==>
         |batch| == limit && forall b <- batch :: s.rows[b].created <= s.rows[id].created
  }

  function LockRow(row: Row, w: Worker, ts: int): Row {
    row.(lockedAt := Some(ts), lockedBy := Some(w), hist := row.hist + [Claimed(w, ts)])
  }

  function ClaimStep(s: State, w: Worker, batch: seq<Id>, ts: int): State {
    s.(rows := map id | id in s.rows :: if id in batch then LockRow(s.rows[id], w, ts) else s.rows[id],
       work := s.work[w := seq(|batch|, i requires 0 <= i < |batch| => Job(batch[i], ts, false))])
  }

  /** The handler call for the consumer's next message returned. */
  function HandleStep(s: State, w: Worker, ok: bool): State
    requires WorkOf(s, w) != [] && WorkOf(s, w)[0].id in s.rows
  {
    var jobs := WorkOf(s, w);
    if !ok then s.(work := s.work[w := jobs[1..]])
    else
      var id := jobs[0].id;
      s.(rows := s.rows[id := s.rows[id].(hist := s.rows[id].hist + [Handled(w)])],
         work := s.work[w := [jobs[0].(handled := true)] + jobs[1..]])
  }

  /** The acknowledgement of a handled message; `ok` is false when the update is lost. */
  function AckStep(s: State, w: Worker, ts: int, ok: bool): State
    requires WorkOf(s, w) != [] && WorkOf(s, w)[0].id in s.rows
  {
    var jobs := WorkOf(s, w);
    var id := jobs[0].id;
    var row := s.rows[id];
    var acked := if ok then s.rows[id := row.(ackAt := Some(ts), hist := row.hist + [Acked(w, ts)])] else s.rows;
    s.(rows := acked, work := s.work[w := jobs[1..]])
  }

  datatype Step =
    | Tick(to: int)
    | Publish(id: Id, queue: string, payload: Value, ts: int)
    | Claim(w: Worker, queue: string, ts: int, limit: nat, skip: set<Id>, batch: seq<Id>)
    | Handle(w: Worker, ok: bool)
    | Ack(w: Worker, ts: int, ok: bool)
    | Crash(w: Worker)

  /** A statement's timestamp is taken from the shared clock no later than it takes effect. */
  ghost predicate Enabled(s: State, step: Step, timeout: int) {
    match step
    case Tick(to) => s.now <= to
    case Publish(id, _, _, ts) => id !in s.rows && ts <= s.now
    case Claim(w, q, ts, limit, skip, batch) =>
      ts <= s.now && WorkOf(s, w) == [] && IsBatch(s, q, ts, timeout, limit, skip, batch)
    case Handle(w, _) => WorkOf(s, w) != [] && !WorkOf(s, w)[0].handled && WorkOf(s, w)[0].id in s.rows
    case Ack(w, ts, _) => ts <= s.now && WorkOf(s, w) != [] && WorkOf(s, w)[0].handled && WorkOf(s, w)[0].id in s.rows
    case Crash(w) => true
  }

  ghost function Apply(s: State, step: Step, timeout: int): State
    requires Enabled(s, step, timeout)
  {
    match step
    case Tick(to) => s.(now := to)
    case Publish(id, q, p, ts) => PublishStep(s, id, q, p, ts)
    case Claim(w, _, ts, _, _, batch) => ClaimStep(s, w, batch, ts)
    case Handle(w, ok) => HandleStep(s, w, ok)
    case Ack(w, ts, ok) => AckStep(s, w, ts, ok)
    case Crash(w) => s.(work := s.work[w := []])
  }

  // ---- What the history of one message satisfies ----

  /** Successive claims are more than the timeout apart. */
  ghost predicate ClaimsApart(h: seq<Event>, timeout: int) {
    forall i, j :: 0 <= i < j < |h| && h[i].Claimed? && h[j].Claimed? ==> h[j].at - h[i].at > timeout
  }

  /** Nothing claims a message after it was acknowledged. */
  ghost predicate AckIsFinal(h: seq<Event>) {
    forall i, j :: 0 <= i < j < |h| && h[i].Acked? ==> !h[j].Claimed?
  }

  /** The first `n` events show `w` claiming the message and then handling it. */
  ghost predicate HandledBy(h: seq<Event>, n: nat, w: Worker) {
    exists i, k :: 0 <= i < k < n <= |h| && h[i].Claimed? && h[i].w == w && h[k] == Handled(w)
  }

  ghost predicate AcksEarned(h: seq<Event>) {
    forall j :: 0 <= j < |h| && h[j].Acked? ==> HandledBy(h, j, h[j].w)
  }

  ghost predicate Safe(h: seq<Event>, timeout: int) {
    ClaimsApart(h, timeout) && AckIsFinal(h) && AcksEarned(h)
  }

  /** The lock and ack columns agree with the history. */
  ghost predicate RowInv(row: Row, timeout: int) {
    && Safe(row.hist, timeout)
    && (forall i :: 0 <= i < |row.hist| && row.hist[i].Claimed? ==>
          row.lockedAt.Some? && row.hist[i].at <= row.lockedAt.value)
    && (row.ackAt.Some? <==> exists i :: 0 <= i < |row.hist| && row.hist[i].Acked?)
  }

  ghost predicate JobInv(s: State, w: Worker, job: Job) {
    && job.id in s.rows
    && Claimed(w, job.claimed) in s.rows[job.id].hist
    && (job.handled ==> HandledBy(s.rows[job.id].hist, |s.rows[job.id].hist|, w))
  }

  ghost predicate Inv(s: State, timeout: int) {
    && 0 < timeout
    && (forall id <- s.rows :: RowInv(s.rows[id], timeout))
    && forall w <- s.work :: forall job <- s.work[w] :: JobInv(s, w, job)
  }

  // ---- Every step keeps the invariant ----

  lemma HandledByGrows(h: seq<Event>, n: nat, w: Worker, e: Event)
    requires HandledBy(h, n, w)
    ensures HandledBy(h + [e], n, w)
  {
    var i, k :| 0 <= i < k < n <= |h| && h[i].Claimed? && h[i].w == w && h[k] == Handled(w);
    var g := h + [e];
    assert g[i] == h[i] && g[k] == h[k];
  }

  lemma AcksEarnedGrows(h: seq<Event>, e: Event)
    requires AcksEarned(h)
    requires e.Acked? ==> HandledBy(h, |h|, e.w)
    ensures AcksEarned(h + [e])
  {
    var g := h + [e];
    forall j | 0 <= j < |g| && g[j].Acked? ensures HandledBy(g, j, g[j].w) {
      if j < |h| {
        assert g[j] == h[j];
        HandledByGrows(h, j, h[j].w, e);
      } else {
        HandledByGrows(h, |h|, e.w, e);
      }
    }
  }

  /** An event that respects the earlier ones keeps the history safe. */
  lemma SafeGrows(h: seq<Event>, e: Event, timeout: int)
    requires Safe(h, timeout)
    requires e.Claimed? ==> forall i :: 0 <= i < |h| ==> !h[i].Acked? && (h[i].Claimed? ==> e.at - h[i].at > timeout)
    requires e.Acked? ==> HandledBy(h, |h|, e.w)
    ensures Safe(h + [e], timeout)
  {
    AcksEarnedGrows(h, e);
    assert forall i :: 0 <= i < |h| ==> (h + [e])[i] == h[i];
  }

  lemma LockRowKeeps(row: Row, w: Worker, queue: string, ts: int, timeout: int)
    requires RowInv(row, timeout) && Eligible(row, queue, ts, timeout) && 0 < timeout
    ensures RowInv(LockRow(row, w, ts), timeout)
  {
    SafeGrows(row.hist, Claimed(w, ts), timeout);
  }

  lemma HandleRowKeeps(row: Row, w: Worker, timeout: int)
    requires RowInv(row, timeout)
    ensures RowInv(row.(hist := row.hist + [Handled(w)]), timeout)
  {
    SafeGrows(row.hist, Handled(w), timeout);
    assert forall i :: 0 <= i < |row.hist| ==> (row.hist + [Handled(w)])[i] == row.hist[i];
  }

  lemma AckRowKeeps(row: Row, w: Worker, ts: int, timeout: int)
    requires RowInv(row, timeout) && HandledBy(row.hist, |row.hist|, w)
    ensures RowInv(row.(ackAt := Some(ts), hist := row.hist + [Acked(w, ts)]), timeout)
  {
    SafeGrows(row.hist, Acked(w, ts), timeout);
    assert (row.hist + [Acked(w, ts)])[|row.hist|].Acked?;
  }

  /** A job keeps its evidence when its row's history only grows. */
  lemma JobKeeps(s: State, t: State, w: Worker, job: Job)
    requires JobInv(s, w, job)
    requires forall id <- s.rows :: id in t.rows && s.rows[id].hist <= t.rows[id].hist
    ensures JobInv(t, w, job)
  {
    var h, g := s.rows[job.id].hist, t.rows[job.id].hist;
    assert forall i :: 0 <= i < |h| ==> h[i] == g[i];
    if job.handled {
      var i, k :| 0 <= i < k < |h| && h[i].Claimed? && h[i].w == w && h[k] == Handled(w);
      assert g[i] == h[i] && g[k] == h[k];
    }
  }

  lemma ClaimKeeps(s: State, w: Worker, q: string, ts: int, limit: nat, skip: set<Id>, batch: seq<Id>, timeout: int)
    requires Inv(s, timeout) && Enabled(s, Claim(w, q, ts, limit, skip, batch), timeout)
    ensures Inv(ClaimStep(s, w, batch, ts), timeout)
  {
    var t := ClaimStep(s, w, batch, ts);
    forall id | id in t.rows ensures RowInv(t.rows[id], timeout) {
      if id in batch {
        LockRowKeeps(s.rows[id], w, q, ts, timeout);
      }
    }
    forall v, job | v in t.work && job in t.work[v] ensures JobInv(t, v, job) {
      if v == w {
        var h := t.rows[job.id].hist;
        assert h[|h| - 1] == Claimed(w, ts);
      } else {
        JobKeeps(s, t, v, job);
      }
    }
  }

  lemma HandleKeeps(s: State, w: Worker, ok: bool, timeout: int)
    requires Inv(s, timeout) && Enabled(s, Handle(w, ok), timeout)
    ensures Inv(HandleStep(s, w, ok), timeout)
  {
    var t := HandleStep(s, w, ok);
    if ok {
      HandleRowKeeps(s.rows[WorkOf(s, w)[0].id], w, timeout);
    }
    forall v, job | v in t.work && job in t.work[v] ensures JobInv(t, v, job) {
      HandleKeepsJob(s, w, ok, timeout, v, job);
    }
  }

  lemma HandleKeepsJob(s: State, w: Worker, ok: bool, timeout: int, v: Worker, job: Job)
    requires Inv(s, timeout) && Enabled(s, Handle(w, ok), timeout) && job in WorkOf(HandleStep(s, w, ok), v)
    ensures JobInv(HandleStep(s, w, ok), v, job)
  {
    var t, jobs := HandleStep(s, w, ok), WorkOf(s, w);
    if v != w || job in jobs[1..] {
      assert job in WorkOf(s, v);
      JobKeeps(s, t, v, job);
    } else {
      HandledHead(s, w, timeout);
    }
  }

  lemma HandledHead(s: State, w: Worker, timeout: int)
    requires Inv(s, timeout) && Enabled(s, Handle(w, true), timeout)
    ensures JobInv(HandleStep(s, w, true), w, WorkOf(s, w)[0].(handled := true))
  {
    var job := WorkOf(s, w)[0];
    assert JobInv(s, w, job);
    var g, h := s.rows[job.id].hist, HandleStep(s, w, true).rows[job.id].hist;
    var i :| 0 <= i < |g| && g[i] == Claimed(w, job.claimed);
    assert h[i] == g[i] && h[|g|] == Handled(w);
  }

  lemma AckKeeps(s: State, w: Worker, ts: int, ok: bool, timeout: int)
    requires Inv(s, timeout) && Enabled(s, Ack(w, ts, ok), timeout)
    ensures Inv(AckStep(s, w, ts, ok), timeout)
  {
    var t, jobs := AckStep(s, w, ts, ok), WorkOf(s, w);
    assert JobInv(s, w, jobs[0]);
    if ok {
      AckRowKeeps(s.rows[jobs[0].id], w, ts, timeout);
    }
    forall v, job | v in t.work && job in t.work[v] ensures JobInv(t, v, job) {
      assert job in WorkOf(s, v);
      JobKeeps(s, t, v, job);
    }
  }

  lemma StepKeeps(s: State, step: Step, timeout: int)
    requires Inv(s, timeout) && Enabled(s, step, timeout)
    ensures Inv(Apply(s, step, timeout), timeout)
  {
    match step {
      case Claim(w, q, ts, limit, skip, batch) => ClaimKeeps(s, w, q, ts, limit, skip, batch, timeout);
      case Handle(w, ok) => HandleKeeps(s, w, ok, timeout);
      case Ack(w, ts, ok) => AckKeeps(s, w, ts, ok, timeout);
      case _ => OtherStepKeeps(s, step, timeout);
    }
  }

  lemma OtherStepKeeps(s: State, step: Step, timeout: int)
    requires Inv(s, timeout) && Enabled(s, step, timeout)
    requires step.Tick? || step.Publish? || step.Crash?
    ensures Inv(Apply(s, step, timeout), timeout)
  {
    var t := Apply(s, step, timeout);
    forall v, job | v in t.work && job in t.work[v] ensures JobInv(t, v, job) {
      JobKeeps(s, t, v, job);
    }
  }

  // ---- Whole runs ----

  ghost predicate Goes(s: State, step: Step, t: State, timeout: int) {
    Enabled(s, step, timeout) && t == Apply(s, step, timeout)
  }

  predicate By(step: Step, w: Worker) {
    match step
    case Claim(v, _, _, _, _, _) => v == w
    case Handle(v, _) => v == w
    case Ack(v, _, _) => v == w
    case Crash(v) => v == w
    case _ => false
  }

  /** The steps of the system, without those of `except` when that is given. */
  ghost function Moves(except: Option<Worker>, timeout: int): (State, Step, State) -> bool {
    (s, step, t) => Goes(s, step, t, timeout) && (except.Some? ==> !By(step, except.value))
  }

  ghost predicate IsRun(run: seq<State>, steps: seq<Step>, timeout: int) {
    Paths.IsPath(Moves(None, timeout), run, steps) && run[0].rows == map[] && run[0].work == map[]
  }

  /** `t` follows from `s` by steps, none of them by `except` when that is given. */
  ghost predicate Reaches(s: State, t: State, except: Option<Worker>, timeout: int) {
    Paths.Reaches(Moves(except, timeout), s, t)
  }

  lemma {:induction false} RunKeepsInv(run: seq<State>, steps: seq<Step>, timeout: int, n: nat)
    requires IsRun(run, steps, timeout) && 0 < timeout && n < |run|
    ensures Inv(run[n], timeout)
  {
    if n == 0 {
    } else {
      RunKeepsInv(run, steps, timeout, n - 1);
      StepKeeps(run[n - 1], steps[n - 1], timeout);
    }
  }

  /** In every run, whatever the interleaving: claims of a message are more than the timeout
      apart, an acknowledged message is never claimed again, and every acknowledgement
      follows a claim and a successful handler call by the same consumer. */
  lemma QueueSafety(run: seq<State>, steps: seq<Step>, timeout: int)
    requires IsRun(run, steps, timeout) && 0 < timeout
    ensures forall n, id :: 0 <= n < |run| && id in run[n].rows ==> Safe(run[n].rows[id].hist, timeout)
  {
    forall n, id | 0 <= n < |run| && id in run[n].rows ensures Safe(run[n].rows[id].hist, timeout) {
      RunKeepsInv(run, steps, timeout, n);
      assert RowInv(run[n].rows[id], timeout);
    }
  }

  /** What no step can undo: a published message stays, with its queue, payload and
      publication time, and its history only grows. */
  ghost predicate Persists(s: State, t: State) {
    forall id <- s.rows ::
      && id in t.rows
      && t.rows[id].queue == s.rows[id].queue
      && t.rows[id].payload == s.rows[id].payload
      && t.rows[id].created == s.rows[id].created
      && s.rows[id].hist <= t.rows[id].hist
  }

  lemma StepPersists(s: State, step: Step, timeout: int)
    requires Enabled(s, step, timeout)
    ensures Persists(s, Apply(s, step, timeout))
  {
  }

  lemma PersistsTransitively(s: State, t: State, u: State)
    requires Persists(s, t) && Persists(t, u)
    ensures Persists(s, u)
  {
  }

  /** No published message disappears, is altered, or forgets a claim. */
  lemma {:induction false} NothingIsLost(run: seq<State>, steps: seq<Step>, timeout: int, m: nat, n: nat)
    requires IsRun(run, steps, timeout) && m <= n < |run|
    ensures Persists(run[m], run[n])
    decreases n - m
  {
    if m == n {
      assert Persists(run[m], run[m]);
    } else {
      NothingIsLost(run, steps, timeout, m, n - 1);
      StepPersists(run[n - 1], steps[n - 1], timeout);
      PersistsTransitively(run[m], run[n - 1], run[n]);
    }
  }

  // ---- The table and its history are what the steps of the run made them ----

  /** The message the consumer works on next. */
  predicate WorksOn(s: State, w: Worker, id: Id) { WorkOf(s, w) != [] && WorkOf(s, w)[0].id == id }

  /** A step that locks, handles or acknowledges the message. */
  predicate Claims(step: Step, id: Id) { step.Claim? && id in step.batch }
  predicate Handles(s: State, step: Step, id: Id) { step.Handle? && step.ok && WorksOn(s, step.w, id) }
  predicate Acks(s: State, step: Step, id: Id) { step.Ack? && step.ok && WorksOn(s, step.w, id) }

  /** Every claim of every run takes messages of its own queue only, unacknowledged and with no
      lock or one older than the timeout, and locks them for itself. */
  lemma ClaimsOnlyItsQueue(run: seq<State>, steps: seq<Step>, timeout: int, n: nat, id: Id)
    requires IsRun(run, steps, timeout) && n < |steps| && Claims(steps[n], id)
    ensures id in run[n].rows && id in run[n + 1].rows
    ensures run[n].rows[id].queue == steps[n].queue && run[n].rows[id].ackAt == None
    ensures run[n].rows[id].lockedAt == None || run[n].rows[id].lockedAt.value < steps[n].ts - timeout
    ensures run[n + 1].rows[id].lockedAt == Some(steps[n].ts) && run[n + 1].rows[id].lockedBy == Some(steps[n].w)
    ensures Job(id, steps[n].ts, false) in WorkOf(run[n + 1], steps[n].w)
  {
    assert Goes(run[n], steps[n], run[n + 1], timeout);
    var k :| 0 <= k < |steps[n].batch| && steps[n].batch[k] == id;
    assert WorkOf(run[n + 1], steps[n].w)[k] == Job(id, steps[n].ts, false);
  }

  /** No other step touches a message's lock, only a successful acknowledgement its ack time, and
      the history records exactly the claims, successful handler calls and acknowledgements. */
  lemma RowAfterStep(run: seq<State>, steps: seq<Step>, timeout: int, n: nat, id: Id)
    requires IsRun(run, steps, timeout) && n < |steps| && id in run[n].rows
    ensures id in run[n + 1].rows
    ensures var old_, new_, step := run[n].rows[id], run[n + 1].rows[id], steps[n];
            && (!Claims(step, id) ==> new_.lockedAt == old_.lockedAt && new_.lockedBy == old_.lockedBy)
            && new_.ackAt == (if Acks(run[n], step, id) then Some(step.ts) else old_.ackAt)
            && new_.hist == old_.hist + Recorded(run[n], step, id)
  {
    assert Goes(run[n], steps[n], run[n + 1], timeout);
  }

  function Recorded(s: State, step: Step, id: Id): seq<Event> {
    if Claims(step, id) then [Claimed(step.w, step.ts)]
    else if Handles(s, step, id) then [Handled(step.w)]
    else if Acks(s, step, id) then [Acked(step.w, step.ts)]
    else []
  }

  /** What was published is what is stored, from then on. */
  lemma PublishedStays(run: seq<State>, steps: seq<Step>, timeout: int, m: nat, n: nat)
    requires IsRun(run, steps, timeout) && m < n < |run| && steps[m].Publish?
    ensures steps[m].id in run[n].rows
    ensures var row := run[n].rows[steps[m].id];
            row.queue == steps[m].queue && row.payload == steps[m].payload && row.created == steps[m].ts
  {
    assert Goes(run[m], steps[m], run[m + 1], timeout);
    NothingIsLost(run, steps, timeout, m + 1, n);
  }

  /** A fresh message is unlocked and unacknowledged, and nothing but a publication adds one. */
  lemma OnlyPublishedAppear(run: seq<State>, steps: seq<Step>, timeout: int, n: nat, id: Id)
    requires IsRun(run, steps, timeout) && n < |steps| && id !in run[n].rows && id in run[n + 1].rows
    ensures steps[n].Publish? && steps[n].id == id
    ensures var row := run[n + 1].rows[id]; row.lockedAt == None && row.ackAt == None && row.hist == []
  {
    assert Goes(run[n], steps[n], run[n + 1], timeout);
  }

  /** The step that recorded an event. */
  lemma {:induction false} EventHasStep(run: seq<State>, steps: seq<Step>, timeout: int, n: nat, id: Id, i: nat)
    returns (k: nat)
    requires IsRun(run, steps, timeout) && n < |run| && id in run[n].rows && i < |run[n].rows[id].hist|
    ensures k < n && id in run[k].rows && |run[k].rows[id].hist| == i
    ensures Recorded(run[k], steps[k], id) == [run[n].rows[id].hist[i]]
  {
    k := 0;
    if n == 0 {
    } else if id !in run[n - 1].rows {
      OnlyPublishedAppear(run, steps, timeout, n - 1, id);
    } else {
      RowAfterStep(run, steps, timeout, n - 1, id);
      if i < |run[n - 1].rows[id].hist| {
        k := EventHasStep(run, steps, timeout, n - 1, id, i);
      } else {
        k := n - 1;
      }
    }
  }

  /** What a step records stands at its place from then on. */
  lemma RecordStays(run: seq<State>, steps: seq<Step>, timeout: int, m: nat, n: nat, id: Id)
    requires IsRun(run, steps, timeout) && m < n < |run| && id in run[m].rows && Recorded(run[m], steps[m], id) != []
    ensures id in run[n].rows && |run[m].rows[id].hist| < |run[n].rows[id].hist|
    ensures Recorded(run[m], steps[m], id) == [run[n].rows[id].hist[|run[m].rows[id].hist|]]
  {
    RowAfterStep(run, steps, timeout, m, id);
    NothingIsLost(run, steps, timeout, m + 1, n);
    var i, h := |run[m].rows[id].hist|, run[m + 1].rows[id].hist;
    assert h[i] == run[n].rows[id].hist[i];
  }

  /** In every run, two claims of one message are more than the timeout apart. */
  lemma ClaimsKeepApart(run: seq<State>, steps: seq<Step>, timeout: int, m: nat, n: nat, id: Id)
    requires IsRun(run, steps, timeout) && 0 < timeout && m < n < |steps|
    requires Claims(steps[m], id) && Claims(steps[n], id)
    ensures steps[n].ts - steps[m].ts > timeout
  {
    ClaimsOnlyItsQueue(run, steps, timeout, m, id);
    ClaimsOnlyItsQueue(run, steps, timeout, n, id);
    var i, j := BothRecorded(run, steps, timeout, m, n, id);
    RunIsSafe(run, steps, timeout, n + 1, id);
  }

  /** Two steps that touch a message are recorded in order. */
  lemma BothRecorded(run: seq<State>, steps: seq<Step>, timeout: int, m: nat, n: nat, id: Id) returns (i: nat, j: nat)
    requires IsRun(run, steps, timeout) && m < n < |steps| && id in run[m].rows && id in run[n].rows
    requires Recorded(run[m], steps[m], id) != [] && Recorded(run[n], steps[n], id) != []
    ensures id in run[n + 1].rows && i < j < |run[n + 1].rows[id].hist|
    ensures Recorded(run[m], steps[m], id) == [run[n + 1].rows[id].hist[i]]
    ensures Recorded(run[n], steps[n], id) == [run[n + 1].rows[id].hist[j]]
  {
    RecordStays(run, steps, timeout, m, n, id);
    RecordStays(run, steps, timeout, m, n + 1, id);
    RecordStays(run, steps, timeout, n, n + 1, id);
    i, j := |run[m].rows[id].hist|, |run[n].rows[id].hist|;
  }

  lemma RunIsSafe(run: seq<State>, steps: seq<Step>, timeout: int, n: nat, id: Id)
    requires IsRun(run, steps, timeout) && 0 < timeout && n < |run| && id in run[n].rows
    ensures Safe(run[n].rows[id].hist, timeout)
  {
    RunKeepsInv(run, steps, timeout, n);
    assert RowInv(run[n].rows[id], timeout);
  }

  /** In every run, nobody claims a message that was acknowledged. */
  lemma AckedIsNeverClaimed(run: seq<State>, steps: seq<Step>, timeout: int, m: nat, n: nat, id: Id)
    requires IsRun(run, steps, timeout) && 0 < timeout && m < n < |steps| && Acks(run[m], steps[m], id)
    ensures !Claims(steps[n], id)
  {
    if Claims(steps[n], id) {
      assert Goes(run[m], steps[m], run[m + 1], timeout);
      ClaimsOnlyItsQueue(run, steps, timeout, n, id);
      NothingIsLost(run, steps, timeout, m, n);
      var i, j := BothRecorded(run, steps, timeout, m, n, id);
      RunIsSafe(run, steps, timeout, n + 1, id);
    }
  }

  /** In every run, a consumer acknowledges a message only after it claimed it and its handler
      succeeded on it. */
  lemma AckFollowsHandling(run: seq<State>, steps: seq<Step>, timeout: int, n: nat, id: Id) returns (a: nat, b: nat)
    requires IsRun(run, steps, timeout) && 0 < timeout && n < |steps| && Acks(run[n], steps[n], id)
    ensures a < b < n && Claims(steps[a], id) && steps[a].w == steps[n].w
    ensures Handles(run[b], steps[b], id) && steps[b].w == steps[n].w
  {
    assert Goes(run[n], steps[n], run[n + 1], timeout);
    RunKeepsInv(run, steps, timeout, n);
    var w, h := steps[n].w, run[n].rows[id].hist;
    assert JobInv(run[n], w, WorkOf(run[n], w)[0]);
    var i, k :| 0 <= i < k < |h| && h[i].Claimed? && h[i].w == w && h[k] == Handled(w);
    a := EventHasStep(run, steps, timeout, n, id, i);
    b := EventHasStep(run, steps, timeout, n, id, k);
    if b <= a {
      NothingIsLost(run, steps, timeout, b, a);
    }
  }

  /** Two consumers hold the same message only if their claims are more than the timeout apart. */
  lemma LeasesAreExclusive(run: seq<State>, steps: seq<Step>, timeout: int, n: nat,
                           v: Worker, w: Worker, a: Job, b: Job)
    requires IsRun(run, steps, timeout) && 0 < timeout && n < |run|
    requires v != w && a in WorkOf(run[n], v) && b in WorkOf(run[n], w) && a.id == b.id
    ensures a.claimed - b.claimed > timeout || b.claimed - a.claimed > timeout
  {
    var s := run[n];
    RunKeepsInv(run, steps, timeout, n);
    assert JobInv(s, v, a) && JobInv(s, w, b);
    var h := s.rows[a.id].hist;
    assert RowInv(s.rows[a.id], timeout);
    var i :| 0 <= i < |h| && h[i] == Claimed(v, a.claimed);
    var j :| 0 <= j < |h| && h[j] == Claimed(w, b.claimed);
    assert i < j || j < i;
  }

  /** The rows a claim may take no later than `id`. */
  function Ahead(s: State, queue: string, ts: int, timeout: int, id: Id): set<Id>
    requires id in s.rows
  {
    set x | x in s.rows && Eligible(s.rows[x], queue, ts, timeout) && s.rows[x].created <= s.rows[id].created
  }

  /** An unacknowledged message is never stuck: once its lock is older than the timeout, every
      claim that no other transaction keeps from its row, and whose limit covers the rows no
      younger than it, returns it. */
  lemma UnackedBecomesClaimable(s: State, id: Id, claim: Step, timeout: int)
    requires claim.Claim? && Enabled(s, claim, timeout)
    requires id in s.rows && s.rows[id].queue == claim.queue && s.rows[id].ackAt.None? && id !in claim.skip
    requires s.rows[id].lockedAt.None? || s.rows[id].lockedAt.value + timeout < claim.ts
    requires |Ahead(s, claim.queue, claim.ts, timeout, id)| <= claim.limit
    ensures id in claim.batch
  {
    if id !in claim.batch {
      var taken := set x | x in claim.batch;
      var ahead := Ahead(s, claim.queue, claim.ts, timeout, id);
      DistinctSize(claim.batch);
      assert taken <= ahead - {id};
      SubsetSize(taken, ahead - {id});
    }
  }

  lemma {:induction false} DistinctSize(xs: seq<Id>)
    requires forall i, j :: 0 <= i < j < |xs| ==> xs[i] != xs[j]
    ensures |set x | x in xs| == |xs|
  {
    if xs == [] {
      assert (set x | x in xs) == {};
    } else {
      DistinctSize(xs[1..]);
      assert (set x | x in xs) == (set x | x in xs[1..]) + {xs[0]};
    }
  }

  lemma {:induction false} SubsetSize(a: set<Id>, b: set<Id>)
    requires a <= b
    ensures |a| <= |b|
  {
    assert b == a + (b - a);
  }

  // ---- One consumer's code among any others ----

  lemma ReachesByStep(s: State, m: State, step: Step, timeout: int)
    requires Reaches(s, m, None, timeout) && Enabled(m, step, timeout)
    ensures Reaches(s, Apply(m, step, timeout), None, timeout)
  {
    Paths.ReachesByStep(Moves(None, timeout), s, m, step, Apply(m, step, timeout));
  }

  lemma ReachesJoins(s: State, m: State, t: State, timeout: int)
    requires Reaches(s, m, None, timeout) && Reaches(m, t, None, timeout)
    ensures Reaches(s, t, None, timeout)
  {
    Paths.ReachesJoins(Moves(None, timeout), s, m, t);
  }

  /** Other consumers' steps leave a consumer's batch alone and lose no row. */
  ghost predicate LeftAlone(s: State, t: State, w: Worker, timeout: int) {
    WorkOf(t, w) == WorkOf(s, w) && Persists(s, t) && (Inv(s, timeout) ==> Inv(t, timeout))
  }

  lemma StepLeavesAlone(s: State, m: State, step: Step, t: State, w: Worker, timeout: int)
    requires LeftAlone(s, m, w, timeout) && Goes(m, step, t, timeout) && !By(step, w)
    ensures LeftAlone(s, t, w, timeout)
  {
    OtherStepKeepsWork(m, step, w, timeout);
    StepPersists(m, step, timeout);
    PersistsTransitively(s, m, t);
    if Inv(s, timeout) {
      StepKeeps(m, step, timeout);
    }
  }

  lemma OthersKeepWork(s: State, t: State, w: Worker, timeout: int)
    requires Reaches(s, t, Some(w), timeout)
    ensures LeftAlone(s, t, w, timeout) && Reaches(s, t, None, timeout)
  {
    var others := Moves(Some(w), timeout);
    forall m, step, u | LeftAlone(s, m, w, timeout) && others(m, step, u) ensures LeftAlone(s, u, w, timeout) {
      StepLeavesAlone(s, m, step, u, w, timeout);
    }
    Paths.ReachesKeeps(others, u => LeftAlone(s, u, w, timeout), s, t);
    Paths.ReachesMore(others, Moves(None, timeout), s, t);
  }

  lemma OtherStepKeepsWork(s: State, step: Step, w: Worker, timeout: int)
    requires Enabled(s, step, timeout) && !By(step, w)
    ensures WorkOf(Apply(s, step, timeout), w) == WorkOf(s, w)
  {
  }

  /** The shared table. `others` is whatever the rest of the system does while a consumer
      is between two of its own statements. */
  class Bus {
    const timeout: int
    var state: State

    constructor (timeout: int)
      ensures this.timeout == (if timeout <= 0 then 300 else timeout)
      ensures state == State(0, map[], map[]) && Inv(state, this.timeout)
    {
      this.timeout := if timeout <= 0 then 300 else timeout;
      state := State(0, map[], map[]);
    }

    /** One handler call and, when it succeeds, one acknowledgement. */
    method ProcessOne(w: Worker, handler: Id -> bool, acked: Id -> bool, others: State -> State)
      requires Inv(state, timeout) && WorkOf(state, w) != [] && !WorkOf(state, w)[0].handled
      requires forall s :: Reaches(s, others(s), Some(w), timeout)
      modifies this
      ensures Inv(state, timeout) && Reaches(old(state), state, None, timeout)
      ensures WorkOf(state, w) == old(WorkOf(state, w))[1..] && Persists(old(state), state)
      ensures Settled(state, w, old(WorkOf(state, w))[0].id, handler, acked)
    {
      ghost var start := state;
      var job := WorkOf(state, w)[0];
      assert JobInv(state, w, job);
      Settle(w, others);
      var ok := handler(job.id);
      StepKeeps(state, Handle(w, ok), timeout);
      StepPersists(state, Handle(w, ok), timeout);
      ReachesByStep(start, state, Handle(w, ok), timeout);
      PersistsTransitively(start, state, Apply(state, Handle(w, ok), timeout));
      state := HandleStep(state, w, ok);
      if !ok {
        return;
      }
      ghost var handled := state;
      Settle(w, others);
      ReachesJoins(start, handled, state, timeout);
      PersistsTransitively(start, handled, state);
      var ack := Ack(w, state.now, acked(job.id));
      StepKeeps(state, ack, timeout);
      StepPersists(state, ack, timeout);
      ReachesByStep(start, state, ack, timeout);
      PersistsTransitively(start, state, Apply(state, ack, timeout));
      ghost var before := state.rows[job.id].hist;
      state := AckStep(state, w, state.now, acked(job.id));
      if acked(job.id) {
        assert state.rows[job.id].hist[|before|] == Acked(w, state.now);
      }
    }

    /** Time for the rest of the system to run. */
    method Settle(w: Worker, others: State -> State)
      requires Inv(state, timeout) && forall s :: Reaches(s, others(s), Some(w), timeout)
      modifies this
      ensures Inv(state, timeout) && WorkOf(state, w) == old(WorkOf(state, w)) && Persists(old(state), state)
      ensures Reaches(old(state), state, None, timeout)
    {
      OthersKeepWork(state, others(state), w, timeout);
      state := others(state);
    }

    /** Claims a batch and processes it message by message, as the Postgres consumer does.
        Every intermediate state is one the protocol reaches. */
    method ClaimAndProcess(w: Worker, queue: string, ts: int, limit: nat, ghost skip: set<Id>, batch: seq<Id>,
                           handler: Id -> bool, acked: Id -> bool, others: State -> State)
      requires Inv(state, timeout) && Enabled(state, Claim(w, queue, ts, limit, skip, batch), timeout)
      requires forall s :: Reaches(s, others(s), Some(w), timeout)
      modifies this
      ensures Inv(state, timeout) && Reaches(old(state), state, None, timeout) && WorkOf(state, w) == []
      ensures SettledUpTo(state, w, batch, |batch|, handler, acked) && ClaimedSince(old(state), state, w, batch)
      ensures OfQueue(state, batch, queue)
    {
      ghost var start := state;
      ClaimBatch(w, queue, ts, limit, skip, batch);
      ghost var claimed := state;
      ProcessBatch(w, batch, handler, acked, others);
      ReachesJoins(start, claimed, state, timeout);
      forall k | 0 <= k < |batch| ensures NewClaim(start, state, w, batch[k]) {
        ClaimPersists(start, claimed, state, w, batch[k]);
      }
    }

    method ProcessBatch(w: Worker, batch: seq<Id>, handler: Id -> bool, acked: Id -> bool, others: State -> State)
      requires Inv(state, timeout) && Remaining(WorkOf(state, w), batch, 0)
      requires forall s :: Reaches(s, others(s), Some(w), timeout)
      modifies this
      ensures Inv(state, timeout) && Reaches(old(state), state, None, timeout) && WorkOf(state, w) == []
      ensures SettledUpTo(state, w, batch, |batch|, handler, acked) && Persists(old(state), state)
    {
      ghost var start := state;
      Paths.ReachesSelf(Moves(None, timeout), state);
      for i := 0 to |batch|
        invariant Inv(state, timeout) && Reaches(start, state, None, timeout)
        invariant Remaining(WorkOf(state, w), batch, i) && Persists(start, state)
        invariant SettledUpTo(state, w, batch, i, handler, acked)
      {
        ghost var before := state;
        RemainingHead(WorkOf(state, w), batch, i);
        ProcessOne(w, handler, acked, others);
        ReachesJoins(start, before, state, timeout);
        PersistsTransitively(start, before, state);
        SettledGrows(before, state, w, batch, i, handler, acked);
      }
    }

    /** The oldest row a claim may take. */
    method FindOldest(queue: string, ts: int) returns (found: Option<Id>)
      ensures IsBatch(state, queue, ts, timeout, 1, {}, if found.Some? then [found.value] else [])
      ensures found.Some? ==> found.value in state.rows && state.rows[found.value].queue == queue
                              && state.rows[found.value].ackAt == None
      ensures found.Some? ==> state.rows[found.value].lockedAt == None
                              || state.rows[found.value].lockedAt.value < ts - timeout
      ensures forall id <- state.rows ::
                state.rows[id].queue == queue && state.rows[id].ackAt == None
                && (state.rows[id].lockedAt == None || state.rows[id].lockedAt.value < ts - timeout) ==>
                  found.Some? && state.rows[found.value].created <= state.rows[id].created
    {
      found := None;
      var keys := state.rows.Keys;
      while keys != {}
        invariant keys <= state.rows.Keys
        invariant found.Some? ==> found.value in state.rows && Eligible(state.rows[found.value], queue, ts, timeout)
        invariant forall id <- state.rows :: id !in keys && Eligible(state.rows[id], queue, ts, timeout) ==>
                    found.Some? && state.rows[found.value].created <= state.rows[id].created
        decreases keys
      {
        var id :| id in keys;
        keys := keys - {id};
        if Eligible(state.rows[id], queue, ts, timeout)
           && (found.None? || state.rows[id].created < state.rows[found.value].created) {
          found := Some(id);
        }
      }
    }

    /** Claims and processes one message at a time, as the MongoDB consumer does, until `limit`
        of them were claimed or there is none to claim. */
    method Drain(w: Worker, queue: string, limit: nat, handler: Id -> bool, acked: Id -> bool, others: State -> State)
      returns (claimed: seq<Id>)
      requires Inv(state, timeout) && WorkOf(state, w) == []
      requires forall s :: Reaches(s, others(s), Some(w), timeout)
      modifies this
      ensures Inv(state, timeout) && Reaches(old(state), state, None, timeout) && WorkOf(state, w) == []
      ensures |claimed| <= limit && (|claimed| < limit ==> NothingToClaim(state, queue, timeout))
      ensures ClaimedSince(old(state), state, w, claimed) && SettledUpTo(state, w, claimed, |claimed|, handler, acked)
      ensures OfQueue(state, claimed, queue)
    {
      ghost var start := state;
      claimed := [];
      Paths.ReachesSelf(Moves(None, timeout), state);
      while |claimed| < limit
        invariant Inv(state, timeout) && Reaches(start, state, None, timeout) && WorkOf(state, w) == []
        invariant |claimed| <= limit && Drawn(start, state, w, queue, claimed, handler, acked)
      {
        ghost var before := state;
        var found := DrainOne(w, queue, handler, acked, others);
        ReachesJoins(start, before, state, timeout);
        DrawnStays(start, before, state, w, queue, claimed, handler, acked);
        if found.None? {
          return;
        }
        DrawnGrows(start, before, state, w, queue, claimed, found.value, handler, acked);
        claimed := claimed + [found.value];
      }
    }

    method DrainOne(w: Worker, queue: string, handler: Id -> bool, acked: Id -> bool, others: State -> State)
      returns (found: Option<Id>)
      requires Inv(state, timeout) && WorkOf(state, w) == []
      requires forall s :: Reaches(s, others(s), Some(w), timeout)
      modifies this
      ensures Inv(state, timeout) && Reaches(old(state), state, None, timeout) && WorkOf(state, w) == []
      ensures Persists(old(state), state)
      ensures if found.None? then NothingToClaim(state, queue, timeout)
              else NewClaim(old(state), state, w, found.value) && Settled(state, w, found.value, handler, acked)
      ensures found.Some? ==> OfQueue(state, [found.value], queue)
    {
      ghost var start := state;
      Settle(w, others);
      found := FindOldest(queue, state.now);
      if found.Some? {
        ghost var settled := state;
        ClaimBatch(w, queue, state.now, 1, {}, [found.value]);
        ghost var locked := state;
        ReachesJoins(start, settled, locked, timeout);
        ProcessBatch(w, [found.value], handler, acked, others);
        ReachesJoins(start, locked, state, timeout);
        PersistsTransitively(start, settled, locked);
        PersistsTransitively(start, locked, state);
        ClaimedEarlier(start, settled, locked, w, found.value);
        ClaimPersists(start, locked, state, w, found.value);
      }
    }

    method ClaimBatch(w: Worker, queue: string, ts: int, limit: nat, ghost skip: set<Id>, batch: seq<Id>)
      requires Inv(state, timeout) && Enabled(state, Claim(w, queue, ts, limit, skip, batch), timeout)
      modifies this
      ensures Inv(state, timeout) && Reaches(old(state), state, None, timeout) && Remaining(WorkOf(state, w), batch, 0)
      ensures Persists(old(state), state) && ClaimedSince(old(state), state, w, batch) && OfQueue(state, batch, queue)
    {
      StepPersists(state, Claim(w, queue, ts, limit, skip, batch), timeout);
      forall k | 0 <= k < |batch| ensures NewClaim(state, ClaimStep(state, w, batch, ts), w, batch[k]) {
        ClaimIsNew(state, w, batch, ts, k);
      }
      Paths.ReachesSelf(Moves(None, timeout), state);
      StepKeeps(state, Claim(w, queue, ts, limit, skip, batch), timeout);
      ReachesByStep(state, state, Claim(w, queue, ts, limit, skip, batch), timeout);
      state := ClaimStep(state, w, batch, ts);
    }
  }

  /** Every message of the queue is acknowledged or still locked. */
  ghost predicate NothingToClaim(s: State, queue: string, timeout: int) {
    forall id <- s.rows :: s.rows[id].queue == queue && s.rows[id].ackAt == None ==>
                             s.rows[id].lockedAt.Some? && s.rows[id].lockedAt.value + timeout >= s.now
  }

  /** The messages are stored, in this queue. */
  ghost predicate OfQueue(s: State, ids: seq<Id>, queue: string) {
    forall k :: 0 <= k < |ids| ==> ids[k] in s.rows && s.rows[ids[k]].queue == queue
  }

  /** Since `s`, the consumer has claimed the message. */
  ghost predicate NewClaim(s: State, t: State, w: Worker, id: Id) {
    id in t.rows && exists i :: HistoryLength(s, id) <= i < |t.rows[id].hist|
                                && t.rows[id].hist[i].Claimed? && t.rows[id].hist[i].w == w
  }

  function HistoryLength(s: State, id: Id): nat { if id in s.rows then |s.rows[id].hist| else 0 }

  ghost predicate ClaimedSince(s: State, t: State, w: Worker, ids: seq<Id>) {
    forall k :: 0 <= k < |ids| ==> NewClaim(s, t, w, ids[k])
  }

  /** The messages a consumer has drawn from a queue since `s`, each processed. */
  ghost predicate Drawn(s: State, t: State, w: Worker, queue: string, ids: seq<Id>,
                        handler: Id -> bool, acked: Id -> bool)
  {
    && Persists(s, t) && ClaimedSince(s, t, w, ids) && OfQueue(t, ids, queue)
    && SettledUpTo(t, w, ids, |ids|, handler, acked)
  }

  lemma DrawnStays(s: State, m: State, t: State, w: Worker, queue: string, ids: seq<Id>,
                   handler: Id -> bool, acked: Id -> bool)
    requires Drawn(s, m, w, queue, ids, handler, acked) && Persists(m, t)
    ensures Drawn(s, t, w, queue, ids, handler, acked)
  {
    ClaimsPersist(s, m, t, w, ids, handler, acked);
    OfQueuePersists(m, t, ids, queue);
    PersistsTransitively(s, m, t);
  }

  lemma DrawnGrows(s: State, m: State, t: State, w: Worker, queue: string, ids: seq<Id>, id: Id,
                   handler: Id -> bool, acked: Id -> bool)
    requires Persists(s, m) && Drawn(s, t, w, queue, ids, handler, acked) && NewClaim(m, t, w, id)
    requires OfQueue(t, [id], queue) && Settled(t, w, id, handler, acked)
    ensures Drawn(s, t, w, queue, ids + [id], handler, acked)
  {
    ClaimedEarlier(s, m, t, w, id);
    assert [id][0] == id;
  }

  lemma OfQueuePersists(s: State, t: State, ids: seq<Id>, queue: string)
    requires OfQueue(s, ids, queue) && Persists(s, t)
    ensures OfQueue(t, ids, queue)
  {
  }

  lemma ClaimIsNew(s: State, w: Worker, batch: seq<Id>, ts: int, k: nat)
    requires k < |batch| && batch[k] in s.rows
    ensures NewClaim(s, ClaimStep(s, w, batch, ts), w, batch[k])
  {
    var id := batch[k];
    assert ClaimStep(s, w, batch, ts).rows[id].hist[|s.rows[id].hist|] == Claimed(w, ts);
  }

  lemma ClaimPersists(s: State, m: State, t: State, w: Worker, id: Id)
    requires NewClaim(s, m, w, id) && Persists(m, t)
    ensures NewClaim(s, t, w, id)
  {
    var i :| HistoryLength(s, id) <= i < |m.rows[id].hist| && m.rows[id].hist[i].Claimed? && m.rows[id].hist[i].w == w;
    assert t.rows[id].hist[i] == m.rows[id].hist[i];
  }

  lemma ClaimedEarlier(s: State, m: State, t: State, w: Worker, id: Id)
    requires NewClaim(m, t, w, id) && Persists(s, m)
    ensures NewClaim(s, t, w, id)
  {
    assert HistoryLength(s, id) <= HistoryLength(m, id);
  }

  lemma ClaimsPersist(s: State, m: State, t: State, w: Worker, ids: seq<Id>, handler: Id -> bool, acked: Id -> bool)
    requires ClaimedSince(s, m, w, ids) && SettledUpTo(m, w, ids, |ids|, handler, acked) && Persists(m, t)
    ensures ClaimedSince(s, t, w, ids) && SettledUpTo(t, w, ids, |ids|, handler, acked)
  {
    forall k | 0 <= k < |ids| ensures NewClaim(s, t, w, ids[k]) && Settled(t, w, ids[k], handler, acked) {
      ClaimPersists(s, m, t, w, ids[k]);
      SettledPersists(m, t, w, ids[k], handler, acked);
    }
  }

  /** The batch is processed up to `i`. */
  ghost predicate Remaining(work: seq<Job>, batch: seq<Id>, i: nat)
    requires i <= |batch|
  {
    |work| == |batch| - i && forall k :: 0 <= k < |work| ==> work[k].id == batch[i + k] && !work[k].handled
  }

  lemma RemainingHead(work: seq<Job>, batch: seq<Id>, i: nat)
    requires i < |batch| && Remaining(work, batch, i)
    ensures work != [] && work[0].id == batch[i] && !work[0].handled && Remaining(work[1..], batch, i + 1)
  {
    assert work[0].id == batch[i + 0];
    assert forall k :: 0 <= k < |work| - 1 ==> work[1..][k] == work[k + 1];
  }

  /** Every message so far is still stored, and acknowledged if it was handled and the
      acknowledgement arrived. */
  ghost predicate SettledUpTo(s: State, w: Worker, batch: seq<Id>, n: nat, handler: Id -> bool, acked: Id -> bool)
    requires n <= |batch|
  {
    forall k :: 0 <= k < n ==> Settled(s, w, batch[k], handler, acked)
  }

  lemma SettledGrows(s: State, t: State, w: Worker, batch: seq<Id>, n: nat, handler: Id -> bool, acked: Id -> bool)
    requires n < |batch| && SettledUpTo(s, w, batch, n, handler, acked) && Persists(s, t)
    requires Settled(t, w, batch[n], handler, acked)
    ensures SettledUpTo(t, w, batch, n + 1, handler, acked)
  {
    forall k | 0 <= k < n ensures Settled(t, w, batch[k], handler, acked) {
      SettledPersists(s, t, w, batch[k], handler, acked);
    }
  }

  ghost predicate Settled(s: State, w: Worker, id: Id, handler: Id -> bool, acked: Id -> bool) {
    id in s.rows && (handler(id) && acked(id) ==> exists at :: Acked(w, at) in s.rows[id].hist)
  }

  lemma SettledPersists(s: State, t: State, w: Worker, id: Id, handler: Id -> bool, acked: Id -> bool)
    requires Settled(s, w, id, handler, acked) && Persists(s, t)
    ensures Settled(t, w, id, handler, acked)
  {
    if handler(id) && acked(id) {
      var at :| Acked(w, at) in s.rows[id].hist;
      var i :| 0 <= i < |s.rows[id].hist| && s.rows[id].hist[i] == Acked(w, at);
      assert t.rows[id].hist[i] == Acked(w, at);
    }
  }
}
