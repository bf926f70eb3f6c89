/** The alert pipeline: a record walks through the processors until one does not say
    continue, and is persisted according to the verdict. */
module Pipeline {
  import opened Values

  datatype Action = Continue | Abort | AbortWrite | AbortUpdate | Other(code: int)

  /** An alert record. The zero time is no timestamp; `extra` holds the untyped fields. */
  datatype Rec = Rec(
    uid: string, host: string, source: string, process: string, severity: string, message: string,
    timestamp: Option<int>, dateEpoch: int, ttl: int, environment: string, hash: string,
    tags: seq<string>, raw: Record, state: string, plugins: seq<string>, extra: Record)

  datatype Reply = Result(rec: Rec, action: Action) | Failure(message: string)

  datatype Processor = Processor(name: string, process: Rec -> Reply)

  datatype Write = Write(rec: Rec, updateTime: bool)

  datatype Error = NoError | NoTenant | PluginFailed(name: string) | UnknownAction(name: string) | WriteFailed

  // ---- The walk, as a function ----

  function Visit(p: Processor, rec: Rec): Rec { rec.(plugins := rec.plugins + [p.name]) }

  function WithException(p: Processor, rec: Rec, message: string): Rec {
    rec.(extra := rec.extra["exception" := Obj(map["plugin" := Str(p.name), "message" := Str(message)])])
  }

  /** The record processor `i` is handed, provided all earlier ones continued. */
  function Input(procs: seq<Processor>, rec: Rec, i: nat): Option<Rec>
    requires i <= |procs|
  {
    if i == 0 then Some(rec)
    else
      match Input(procs, rec, i - 1)
      case None => None
      case Some(r) =>
        match procs[i - 1].process(Visit(procs[i - 1], r))
        case Failure(_) => None
        case Result(out, action) => if action.Continue? then Some(out) else None
  }

  /** Processor `i` runs: all earlier ones continued. */
  predicate Runs(procs: seq<Processor>, rec: Rec, i: nat) { i < |procs| && Input(procs, rec, i).Some? }

  function ReplyOf(procs: seq<Processor>, rec: Rec, i: nat): Reply
    requires Runs(procs, rec, i)
  {
    procs[i].process(Visit(procs[i], Input(procs, rec, i).value))
  }

  /** Processor `i` is the one that ends the walk. */
  predicate Ends(procs: seq<Processor>, rec: Rec, i: nat) {
    Runs(procs, rec, i) && (ReplyOf(procs, rec, i).Failure? || !ReplyOf(procs, rec, i).action.Continue?)
  }

  /** Nothing runs after a processor that ends the walk, and at most one does. */
  lemma {:induction false} NothingRunsAfterTheEnd(procs: seq<Processor>, rec: Rec, i: nat, j: nat)
    requires Ends(procs, rec, i) && i < j <= |procs|
    ensures Input(procs, rec, j).None?
  {
    if j > i + 1 {
      NothingRunsAfterTheEnd(procs, rec, i, j - 1);
    }
  }

  // ---- The code ----

  /** The outcome of one call and what it wrote and ran. */
  datatype Outcome = Outcome(rec: Rec, action: Action, error: Error)

  class Core {
    const hasDriver: bool
    var writes: seq<Write>
    var ran: nat

    constructor (hasDriver: bool)
      ensures this.hasDriver == hasDriver && writes == [] && ran == 0
    {
      this.hasDriver := hasDriver;
      writes, ran := [], 0;
    }

    method WriteRecord(rec: Rec, updateTime: bool, ok: bool) returns (done: bool)
      modifies this`writes
      ensures hasDriver ==> writes == old(writes) + [Write(rec, updateTime)] && done == ok
      ensures !hasDriver ==> writes == old(writes) && done
    {
      if !hasDriver {
        return true;
      }
      writes := writes + [Write(rec, updateTime)];
      done := ok;
    }

    /** `ok` is whether the store accepts a write; `ran` counts the processors called and
        `n` is the position the walk ended at. */
    method ProcessRecord(tenant: Option<string>, start: Rec, defaultTtl: int, procs: seq<Processor>, ok: bool)
      returns (r: Outcome, n: nat)
      modifies this
      ensures NoTenantGiven(tenant) ==>
                r == Outcome(start, Abort, NoTenant) && writes == old(writes) && ran == old(ran)
      ensures !NoTenantGiven(tenant) ==>
                var rec := StampTtl(start, defaultTtl);
                && n <= |procs| && Ending(procs, rec, n, ran - old(ran), r, ok || !hasDriver)
                && writes == old(writes) + (if hasDriver then Persisted(r) else [])
    {
      if NoTenantGiven(tenant) {
        return Outcome(start, Abort, NoTenant), 0;
      }
      ghost var first := StampTtl(start, defaultTtl);
      var rec := StampTtl(start, defaultTtl);
      for i := 0 to |procs|
        invariant Input(procs, first, i) == Some(rec)
        invariant writes == old(writes) && ran == old(ran) + i
      {
        var p := procs[i];
        rec := Visit(p, rec);
        ran := ran + 1;
        var reply := p.process(rec);
        assert reply == ReplyOf(procs, first, i);
        if reply.Failure? || !reply.action.Continue? {
          assert Ends(procs, first, i);
          r := Finish(p, rec, reply, ok);
          n := i;
          return;
        }
        rec := reply.rec;
      }
      var done := WriteRecord(rec, true, ok);
      r, n := Outcome(rec, Continue, if done then NoError else WriteFailed), |procs|;
    }

    /** What happens when a processor fails or does not say continue. */
    method Finish(p: Processor, rec: Rec, reply: Reply, ok: bool) returns (r: Outcome)
      requires reply.Failure? || !reply.action.Continue?
      modifies this`writes
      ensures r == Verdict(p, rec, reply, ok || !hasDriver)
      ensures writes == old(writes) + (if hasDriver then Persisted(r) else [])
    {
      if reply.Failure? {
        var marked := WithException(p, rec, reply.message);
        var _ := WriteRecord(marked, true, ok);
        return Outcome(marked, Abort, PluginFailed(p.name));
      }
      match reply.action {
        case Abort =>
          r := Outcome(reply.rec, Abort, NoError);
        case AbortWrite =>
          var done := WriteRecord(reply.rec, true, ok);
          r := Outcome(reply.rec, AbortWrite, if done then NoError else WriteFailed);
        case AbortUpdate =>
          var done := WriteRecord(reply.rec, false, ok);
          r := Outcome(reply.rec, AbortUpdate, if done then NoError else WriteFailed);
        case Other(_) =>
          r := Outcome(reply.rec, reply.action, UnknownAction(p.name));
      }
    }
  }

  predicate NoTenantGiven(tenant: Option<string>) { tenant.None? || tenant.value == "" }

  function StampTtl(rec: Rec, defaultTtl: int): Rec {
    if rec.ttl == 0 && defaultTtl > 0 then rec.(ttl := defaultTtl) else rec
  }

  /** The result of a walk ended by `p`. */
  function Verdict(p: Processor, visited: Rec, reply: Reply, stored: bool): Outcome
    requires reply.Failure? || !reply.action.Continue?
  {
    match reply
    case Failure(message) => Outcome(WithException(p, visited, message), Abort, PluginFailed(p.name))
    case Result(rec, action) =>
      Outcome(rec, action,
              if action.Other? then UnknownAction(p.name)
              else if action.Abort? || stored then NoError else WriteFailed)
  }

  /** The persist attempts an outcome implies: at most one, always of the returned record, and
      exactly on all-continue, abort_write, abort_update or a processor failure. */
  function Persisted(r: Outcome): seq<Write> {
    if r.error.PluginFailed? then [Write(r.rec, true)]
    else
      match r.action
      case Continue => [Write(r.rec, true)]
      case AbortWrite => [Write(r.rec, true)]
      case AbortUpdate => [Write(r.rec, false)]
      case _ => []
  }

  /** The walk that produced `r` called `calls` processors and ended at position `n`. */
  ghost predicate Ending(procs: seq<Processor>, rec: Rec, n: nat, calls: int, r: Outcome, stored: bool)
    requires n <= |procs|
  {
    if n == |procs| then
      && calls == |procs| && Input(procs, rec, n) == Some(r.rec)
      && r.action == Continue && r.error == if stored then NoError else WriteFailed
    else
      && calls == n + 1 && Ends(procs, rec, n)
      && r == Verdict(procs[n], Visit(procs[n], Input(procs, rec, n).value), ReplyOf(procs, rec, n), stored)
  }

  /** The walk has one ending: the outcome and the number of calls are determined. */
  lemma EndingIsUnique(procs: seq<Processor>, rec: Rec, m: nat, n: nat, a: int, b: int,
                       x: Outcome, y: Outcome, stored: bool)
    requires m <= n <= |procs|
    requires Ending(procs, rec, m, a, x, stored) && Ending(procs, rec, n, b, y, stored)
    ensures m == n && a == b && x == y
  {
    if m < n {
      NothingRunsAfterTheEnd(procs, rec, m, n);
    }
  }

  // ---- What a walk leaves ----

  /** The processors keep to the record's list of visited plugins. */
  ghost predicate Honours(procs: seq<Processor>) {
    forall i, r :: 0 <= i < |procs| ==>
      (procs[i].process(r).Result? ==> procs[i].process(r).rec.plugins == r.plugins)
  }

  /** If no processor meddles with the list, the record lists the names of those it went
      through, in order, after what it listed before. */
  lemma {:induction false} VisitsAreListed(procs: seq<Processor>, rec: Rec, n: nat)
    requires n <= |procs| && Honours(procs) && Input(procs, rec, n).Some?
    ensures var list := Input(procs, rec, n).value.plugins;
            && |list| == |rec.plugins| + n && rec.plugins <= list
            && forall i :: 0 <= i < n ==> list[|rec.plugins| + i] == procs[i].name
  {
    if n == 0 {
    } else {
      VisitsAreListed(procs, rec, n - 1);
      var before := Visit(procs[n - 1], Input(procs, rec, n - 1).value);
      assert procs[n - 1].process(before).rec.plugins == before.plugins;
    }
  }

  /** A failing processor leaves its name and message in the record it was handed, which is
      stored once; the caller sees an abort. */
  lemma FailureIsRecorded(procs: seq<Processor>, rec: Rec, n: nat, calls: int, r: Outcome, stored: bool)
    requires n < |procs| && Ending(procs, rec, n, calls, r, stored) && ReplyOf(procs, rec, n).Failure?
    ensures var before, message := Input(procs, rec, n).value, ReplyOf(procs, rec, n).message;
            && r.action == Abort && r.error == PluginFailed(procs[n].name)
            && r.rec.plugins == before.plugins + [procs[n].name]
            && "exception" in r.rec.extra
            && r.rec.extra["exception"] == Obj(map["plugin" := Str(procs[n].name), "message" := Str(message)])
            && KeepsAllBut(before.extra, r.rec.extra, {"exception"})
            && r.rec.(plugins := before.plugins, extra := before.extra) == before
            && Persisted(r) == [Write(r.rec, true)]
  {
  }

  /** What each verdict of the ending processor returns and stores. */
  lemma VerdictsMean(procs: seq<Processor>, rec: Rec, n: nat, calls: int, r: Outcome, stored: bool)
    requires n < |procs| && Ending(procs, rec, n, calls, r, stored) && ReplyOf(procs, rec, n).Result?
    ensures var out, name := ReplyOf(procs, rec, n).rec, procs[n].name;
            && r.rec == out && r.action == ReplyOf(procs, rec, n).action
            && match r.action
               case Abort => r.error == NoError && Persisted(r) == []
               case AbortWrite =>
                 r.error == (if stored then NoError else WriteFailed) && Persisted(r) == [Write(out, true)]
               case AbortUpdate =>
                 r.error == (if stored then NoError else WriteFailed) && Persisted(r) == [Write(out, false)]
               case Other(_) => r.error == UnknownAction(name) && Persisted(r) == []
               case Continue => false
  {
  }

  /** When all processors continue, the last one's record is returned and stored. */
  lemma ContinuingMeans(procs: seq<Processor>, rec: Rec, calls: int, r: Outcome, stored: bool)
    requires Ending(procs, rec, |procs|, calls, r, stored)
    ensures r.action == Continue && r.error == (if stored then NoError else WriteFailed)
    ensures Persisted(r) == [Write(r.rec, true)] && calls == |procs|
    ensures procs == [] ==> r.rec == rec
  {
  }

  /** A record without a lifetime gets the default one, if there is one; nothing else changes. */
  lemma TtlIsStamped(rec: Rec, defaultTtl: int)
    ensures StampTtl(rec, defaultTtl).(ttl := rec.ttl) == rec
    ensures StampTtl(rec, defaultTtl).ttl == if rec.ttl != 0 || defaultTtl <= 0 then rec.ttl else defaultTtl
  {
  }

  // ---- Projection to a document ----

  /** A typed field as it would be stored, and whether it holds anything worth storing. */
  datatype Field = Field(name: string, value: Value, set_: bool)

  function Text(name: string, s: string): Field { Field(name, Str(s), s != "") }
  function Number(name: string, n: int): Field { Field(name, Int(n), n != 0) }
  function Names(name: string, ss: seq<string>): Field {
    Field(name, List(seq(|ss|, i requires 0 <= i < |ss| => Str(ss[i]))), ss != [])
  }

  function TypedFields(rec: Rec): seq<Field> {
    [ Text("uid", rec.uid), Text("host", rec.host), Text("source", rec.source), Text("process", rec.process),
      Text("severity", rec.severity), Text("message", rec.message),
      Field("timestamp", if rec.timestamp.Some? then Int(rec.timestamp.value) else Null, rec.timestamp.Some?),
      Number("date_epoch", rec.dateEpoch), Number("ttl", rec.ttl), Text("environment", rec.environment),
      Text("hash", rec.hash), Names("tags", rec.tags), Field("raw", Obj(rec.raw), rec.raw != map[]),
      Text("state", rec.state), Names("plugins", rec.plugins) ]
  }

  /** No two typed fields are stored under one name. */
  ghost predicate Distinct(fields: seq<Field>) {
    forall i, j :: 0 <= i < j < |fields| ==> fields[i].name != fields[j].name
  }

  const NAMES: seq<string> :=
    ["uid", "host", "source", "process", "severity", "message", "timestamp", "date_epoch", "ttl",
     "environment", "hash", "tags", "raw", "state", "plugins"]

  lemma NamesDiffer(i: nat, j: nat)
    requires i < j < |NAMES|
    ensures NAMES[i] != NAMES[j]
  {
  }

  lemma FieldsAreNamed(rec: Rec)
    ensures |TypedFields(rec)| == |NAMES| && forall i :: 0 <= i < |NAMES| ==> TypedFields(rec)[i].name == NAMES[i]
  {
  }

  lemma TypedFieldsDiffer(rec: Rec)
    ensures Distinct(TypedFields(rec))
  {
    FieldsAreNamed(rec);
    forall i, j | 0 <= i < j < |NAMES| ensures NAMES[i] != NAMES[j] {
      NamesDiffer(i, j);
    }
  }

  /** A set field of this name is among the first `n`. */
  ghost predicate SetAmong(fields: seq<Field>, n: nat, k: string) {
    exists i :: 0 <= i < n <= |fields| && fields[i].set_ && fields[i].name == k
  }

  /** The document holds the first `n` typed fields that are set, and nothing else. */
  ghost predicate Holds(fields: seq<Field>, n: nat, doc: Record) {
    && (forall i :: 0 <= i < n <= |fields| && fields[i].set_ ==>
          fields[i].name in doc && doc[fields[i].name] == fields[i].value)
    && (forall k <- doc :: SetAmong(fields, n, k))
  }

  method StoreTyped(fields: seq<Field>) returns (doc: Record)
    requires Distinct(fields)
    ensures Holds(fields, |fields|, doc)
  {
    doc := map[];
    for n := 0 to |fields|
      invariant Holds(fields, n, doc)
    {
      ghost var before := doc;
      if fields[n].set_ {
        doc := doc[fields[n].name := fields[n].value];
        assert SetAmong(fields, n + 1, fields[n].name);
      }
      assert forall k <- before :: SetAmong(fields, n, k) ==> SetAmong(fields, n + 1, k);
    }
  }

  /** The set fields are stored, and every extra one that has not the name of a set field. */
  ghost predicate Projects(fields: seq<Field>, extra: Record, doc: Record) {
    && (forall i :: 0 <= i < |fields| && fields[i].set_ ==>
          fields[i].name in doc && doc[fields[i].name] == fields[i].value)
    && (forall k :: k in doc <==> k in extra || SetAmong(fields, |fields|, k))
    && (forall k <- extra :: !SetAmong(fields, |fields|, k) ==> doc[k] == extra[k])
  }

  method AddExtra(ghost fields: seq<Field>, typed: Record, extra: Record) returns (doc: Record)
    requires Holds(fields, |fields|, typed)
    ensures Projects(fields, extra, doc)
  {
    assert forall k :: k in typed <==> SetAmong(fields, |fields|, k);
    doc := typed;
    var keys := extra.Keys;
    while keys != {}
      invariant keys <= extra.Keys
      invariant doc.Keys == typed.Keys + (extra.Keys - keys)
      invariant forall k <- doc :: doc[k] == if k in typed then typed[k] else extra[k]
      decreases keys
    {
      var k :| k in keys;
      if k !in doc {
        doc := doc[k := extra[k]];
      }
      keys := keys - {k};
    }
  }

  /** Empty typed fields are left out; an extra field is stored unless a set typed field has
      its name. */
  method RecordToDoc(rec: Rec) returns (doc: Record)
    ensures Projects(TypedFields(rec), rec.extra, doc)
  {
    TypedFieldsDiffer(rec);
    var fields := TypedFields(rec);
    var typed := StoreTyped(fields);
    doc := AddExtra(fields, typed, rec.extra);
  }

  ghost predicate StoredText(doc: Record, extra: Record, key: string, s: string) {
    if s != "" then key in doc && doc[key] == Str(s)
    else (key in doc <==> key in extra) && (key in doc ==> doc[key] == extra[key])
  }

  lemma TextIsStored(fields: seq<Field>, extra: Record, doc: Record, i: nat, key: string, s: string)
    requires Projects(fields, extra, doc) && Distinct(fields) && i < |fields| && fields[i] == Text(key, s)
    ensures StoredText(doc, extra, key, s)
  {
    if s == "" {
      assert !SetAmong(fields, |fields|, key);
    }
  }

  /** The texts of a record stand under their own names; an empty one leaves the name to the
      extra fields. */
  lemma DocumentTexts(rec: Rec, doc: Record)
    requires Projects(TypedFields(rec), rec.extra, doc)
    ensures StoredText(doc, rec.extra, "uid", rec.uid) && StoredText(doc, rec.extra, "host", rec.host)
    ensures StoredText(doc, rec.extra, "source", rec.source) && StoredText(doc, rec.extra, "process", rec.process)
    ensures StoredText(doc, rec.extra, "severity", rec.severity) && StoredText(doc, rec.extra, "message", rec.message)
    ensures StoredText(doc, rec.extra, "environment", rec.environment) && StoredText(doc, rec.extra, "hash", rec.hash)
    ensures StoredText(doc, rec.extra, "state", rec.state)
  {
    TypedFieldsDiffer(rec);
    TextsAreStored(TypedFields(rec), rec, doc);
  }

  lemma TextsAreStored(fields: seq<Field>, rec: Rec, doc: Record)
    requires Projects(fields, rec.extra, doc) && Distinct(fields) && |fields| > 13
    requires fields[0] == Text("uid", rec.uid) && fields[1] == Text("host", rec.host)
    requires fields[2] == Text("source", rec.source) && fields[3] == Text("process", rec.process)
    requires fields[4] == Text("severity", rec.severity) && fields[5] == Text("message", rec.message)
    requires fields[9] == Text("environment", rec.environment) && fields[10] == Text("hash", rec.hash)
    requires fields[13] == Text("state", rec.state)
    ensures StoredText(doc, rec.extra, "uid", rec.uid) && StoredText(doc, rec.extra, "host", rec.host)
    ensures StoredText(doc, rec.extra, "source", rec.source) && StoredText(doc, rec.extra, "process", rec.process)
    ensures StoredText(doc, rec.extra, "severity", rec.severity) && StoredText(doc, rec.extra, "message", rec.message)
    ensures StoredText(doc, rec.extra, "environment", rec.environment) && StoredText(doc, rec.extra, "hash", rec.hash)
    ensures StoredText(doc, rec.extra, "state", rec.state)
  {
    TextIsStored(fields, rec.extra, doc, 0, "uid", rec.uid);
    TextIsStored(fields, rec.extra, doc, 1, "host", rec.host);
    TextIsStored(fields, rec.extra, doc, 2, "source", rec.source);
    TextIsStored(fields, rec.extra, doc, 3, "process", rec.process);
    TextIsStored(fields, rec.extra, doc, 4, "severity", rec.severity);
    TextIsStored(fields, rec.extra, doc, 5, "message", rec.message);
    TextIsStored(fields, rec.extra, doc, 9, "environment", rec.environment);
    TextIsStored(fields, rec.extra, doc, 10, "hash", rec.hash);
    TextIsStored(fields, rec.extra, doc, 13, "state", rec.state);
  }

  ghost predicate StoredNames(doc: Record, key: string, ss: seq<string>) {
    && key in doc && doc[key].List? && |doc[key].elems| == |ss|
    && forall i :: 0 <= i < |ss| ==> doc[key].elems[i] == Str(ss[i])
  }

  /** The other typed fields, stored when they hold something. */
  lemma DocumentRest(rec: Rec, doc: Record)
    requires Projects(TypedFields(rec), rec.extra, doc)
    ensures rec.timestamp.Some? ==> "timestamp" in doc && doc["timestamp"] == Int(rec.timestamp.value)
    ensures rec.dateEpoch != 0 ==> "date_epoch" in doc && doc["date_epoch"] == Int(rec.dateEpoch)
    ensures rec.ttl != 0 ==> "ttl" in doc && doc["ttl"] == Int(rec.ttl)
    ensures rec.raw != map[] ==> "raw" in doc && doc["raw"] == Obj(rec.raw)
    ensures rec.tags != [] ==> StoredNames(doc, "tags", rec.tags)
    ensures rec.plugins != [] ==> StoredNames(doc, "plugins", rec.plugins)
  {
    var f := TypedFields(rec);
    assert f[6].name == "timestamp" && f[7].name == "date_epoch" && f[8].name == "ttl";
    assert f[11].name == "tags" && f[12].name == "raw" && f[14].name == "plugins";
  }
}
