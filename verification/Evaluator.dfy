/** Compiling a condition and matching the compiled form against a record, proved equal to
    a direct recursive meaning of the condition. */
module Evaluator {
  import opened Values
  import opened Conditions

  /** The foreign functions the evaluator calls. */
  datatype Engine = Engine(
    compiles: string -> bool,        // does the regexp library accept the pattern
    finds: (string, string) -> bool, // does the pattern occur in the text
    quote: string -> string,         // escape every metacharacter
    sprint: Value -> string,         // default formatting of a non-string value
    repr: Record -> string)          // the text SEARCH looks into

  // ---- Comparing values ----

  function AsNumber(v: Value): Option<real> {
    match v
    case Int(i) => Some(i as real)
    case Float(f) => Some(f)
    case _ => None
  }

  predicate EqualsValue(a: Value, b: Value) {
    if a.Null? || b.Null? then a.Null? && b.Null?
    else if a.Str? then b.Str? && a.s == b.s
    else if a.Bool? then b.Bool? && a.b == b.b
    else if AsNumber(a).Some? then AsNumber(b).Some? && AsNumber(a).value == AsNumber(b).value
    else a == b
  }

  /** Strict lexicographic order on strings. */
  predicate StringLess(a: string, b: string) {
    b != "" && (a == "" || a[0] < b[0] || (a[0] == b[0] && StringLess(a[1..], b[1..])))
  }

  /** -1, 0 or 1; `None` when the two are not comparable. */
  function CompareValues(a: Value, b: Value): Option<int> {
    if a.Str? then
      if !b.Str? then None
      else if StringLess(a.s, b.s) then Some(-1)
      else if StringLess(b.s, a.s) then Some(1)
      else Some(0)
    else
      var x, y := AsNumber(a), AsNumber(b);
      if x.None? || y.None? then None
      else if x.value < y.value then Some(-1)
      else if x.value > y.value then Some(1)
      else Some(0)
  }

  lemma {:induction false} StringOrder(a: string, b: string)
    ensures !(StringLess(a, b) && StringLess(b, a))
    ensures !StringLess(a, b) && !StringLess(b, a) <==> a == b
    decreases |a|
  {
    if a != "" && b != "" && a[0] == b[0] {
      StringOrder(a[1..], b[1..]);
      assert a == [a[0]] + a[1..] && b == [b[0]] + b[1..];
    }
  }

  /** Comparison is antisymmetric and its zero is exactly `=`. */
  lemma CompareIsAnOrder(a: Value, b: Value)
    ensures CompareValues(a, b).Some? <==> CompareValues(b, a).Some?
    ensures CompareValues(a, b).Some? ==> CompareValues(b, a).value == -CompareValues(a, b).value
    ensures CompareValues(a, b).Some? ==> (CompareValues(a, b).value == 0 <==> EqualsValue(a, b))
  {
    if a.Str? && b.Str? {
      StringOrder(a.s, b.s);
    }
  }

  // ---- Text ----

  function ToText(e: Engine, v: Value): string {
    if v.Str? then v.s else e.sprint(v)
  }

  predicate HasSubstring(text: string, needle: string) {
    exists i :: 0 <= i <= |text| && needle <= text[i..]
  }

  function Unsugar(s: string): string {
    if |s| >= 2 && s[0] == '/' && s[|s| - 1] == '/' then s[1..|s| - 1] else s
  }

  function MatchesPattern(v: Value): string {
    "(?i)" + Unsugar(if v.Str? then v.s else "")
  }

  function LazyPattern(e: Engine, text: string): string { "(?i)" + e.quote(text) }

  predicate LazySearch(e: Engine, value: Value, record: Value) {
    var p := LazyPattern(e, ToText(e, value));
    e.compiles(p) && e.finds(p, ToText(e, record))
  }

  /** The process-wide cache of lazily compiled patterns: keyed by the raw text, holding
      only accepted patterns, so a hit answers what compiling again would. */
  class LazyCache {
    var entries: map<string, string>

    ghost predicate Valid(e: Engine)
      reads this
    {
      forall text <- entries :: entries[text] == LazyPattern(e, text) && e.compiles(entries[text])
    }

    constructor (e: Engine)
      ensures Valid(e) && entries == map[]
    {
      entries := map[];
    }

    method Compile(e: Engine, text: string) returns (re: Option<string>)
      requires Valid(e)
      modifies this
      ensures Valid(e)
      ensures re == if e.compiles(LazyPattern(e, text)) then Some(LazyPattern(e, text)) else None
      ensures forall t <- old(entries) :: t in entries && entries[t] == old(entries)[t]
      ensures entries.Keys == old(entries).Keys + (if re.Some? then {text} else {})
    {
      if text in entries {
        return Some(entries[text]);
      }
      var p := LazyPattern(e, text);
      if !e.compiles(p) {
        return None;
      }
      entries := entries[text := p];
      re := Some(p);
    }

    method Search(e: Engine, value: Value, record: Value) returns (found: bool)
      requires Valid(e)
      modifies this
      ensures Valid(e)
      ensures found == LazySearch(e, value, record)
    {
      var re := Compile(e, ToText(e, value));
      found := re.Some? && e.finds(re.value, ToText(e, record));
    }
  }

  // ---- Compiling ----

  /** An IN value that is itself a list-form condition. */
  function EmbeddedCond(v: Value): Option<Cond> {
    if v.List? && v.elems != [] && v.elems[0].Str?
       && !OpOf(v.elems[0].s).Unknown? && !OpOf(v.elems[0].s).AlwaysTrue? then
      match FromListF(v)
      case Ok(c) => Some(c)
      case Bad(_, _) => None
    else None
  }

  /** The condition an IN node decodes out of its value, if any. */
  function SubCond(c: Cond): Option<Cond> {
    if c.op.In? then EmbeddedCond(c.value) else None
  }

  lemma SubCondSmaller(c: Cond)
    ensures SubCond(c).Some? ==> CondSize(SubCond(c).value) < CondSize(c)
  {
    if SubCond(c).Some? {
      DecodedNoLarger(c.value);
    }
  }

  datatype Compiled = Compiled(
    cond: Cond, regex: Option<string>, kids: seq<Compiled>, flat: seq<Value>, sub: Option<Compiled>)

  /** `Rejected` names the node whose pattern the regexp library refused. */
  datatype CompileResult = Ready(code: Compiled) | Rejected(node: Cond)
  datatype CompileAllResult = ReadyAll(codes: seq<Compiled>) | RejectedAll(node: Cond)

  function CompileF(e: Engine, c: Cond): CompileResult
    decreases CondSize(c), 1
  {
    SubCondSmaller(c);
    if c.op.Matches? && !e.compiles(MatchesPattern(c.value)) then Rejected(c)
    else if SubCond(c).Some? then
      match CompileF(e, SubCond(c).value)
      case Rejected(n) => Rejected(n)
      case Ready(s) => Assemble(e, c, Some(s))
    else Assemble(e, c, None)
  }

  function Assemble(e: Engine, c: Cond, sub: Option<Compiled>): CompileResult
    decreases CondSize(c), 0
  {
    match CompileAll(e, c.children)
    case RejectedAll(n) => Rejected(n)
    case ReadyAll(kids) => Ready(Compiled(c, OwnRegex(c), kids, OwnFlat(c), sub))
  }

  function OwnRegex(c: Cond): Option<string> {
    if c.op.Matches? then Some(MatchesPattern(c.value)) else None
  }

  function OwnFlat(c: Cond): seq<Value> {
    if c.op.Contains? || (c.op.In? && SubCond(c).None?) then FlattenF(List([c.value])) else []
  }

  function CompileAll(e: Engine, cs: seq<Cond>): CompileAllResult
    decreases CondSizes(cs), 2
  {
    if cs == [] then ReadyAll([])
    else
      match CompileF(e, cs[0])
      case Rejected(n) => RejectedAll(n)
      case Ready(k) =>
        match CompileAll(e, cs[1..])
        case RejectedAll(n) => RejectedAll(n)
        case ReadyAll(ks) => ReadyAll([k] + ks)
  }

  method Compile(e: Engine, c: Cond) returns (r: CompileResult)
    ensures r == CompileF(e, c)
    decreases CondSize(c), 1
  {
    SubCondSmaller(c);
    var regex, flat, sub := None, [], None;
    if c.op.Matches? {
      var pattern := MatchesPattern(c.value);
      if !e.compiles(pattern) {
        return Rejected(c);
      }
      regex := Some(pattern);
    } else if c.op.Contains? {
      flat := Flatten(List([c.value]));
    } else if c.op.In? {
      var embedded := EmbeddedCond(c.value);
      if embedded.Some? {
        var s := Compile(e, embedded.value);
        if s.Rejected? {
          return s;
        }
        sub := Some(s.code);
      } else {
        flat := Flatten(List([c.value]));
      }
    }
    var kids := CompileKids(e, c.children);
    r := if kids.ReadyAll? then Ready(Compiled(c, regex, kids.codes, flat, sub)) else Rejected(kids.node);
  }

  method CompileKids(e: Engine, cs: seq<Cond>) returns (r: CompileAllResult)
    ensures r == CompileAll(e, cs)
    decreases CondSizes(cs), 2
  {
    var kids: seq<Compiled> := [];
    for i := 0 to |cs|
      invariant CompileAll(e, cs) == PrependCode(kids, CompileAll(e, cs[i..]))
    {
      CondSizesAt(cs, i);
      var k := Compile(e, cs[i]);
      assert cs[i..][1..] == cs[i + 1..];
      if k.Rejected? {
        return RejectedAll(k.node);
      }
      kids := kids + [k.code];
    }
    r := ReadyAll(kids);
  }

  ghost function PrependCode(kids: seq<Compiled>, rest: CompileAllResult): CompileAllResult {
    match rest
    case ReadyAll(ks) => ReadyAll(kids + ks)
    case RejectedAll(n) => RejectedAll(n)
  }

  // ---- Matching the compiled form ----

  predicate MatchCompiled(e: Engine, cp: Compiled, rec: Record)
    decreases cp, 1, 0
  {
    var c := cp.cond;
    var got := Got(rec, c.field);
    match c.op
    case AlwaysTrue => true
    case And => AllMatch(e, cp, rec, 0)
    case Or => AnyMatch(e, cp, rec, 0)
    case Not => |cp.kids| == 1 && !MatchCompiled(e, cp.kids[0], rec)
    case Eq => EqualsValue(got, c.value)
    case Neq => !EqualsValue(got, c.value)
    case Gt => Ordered(rec, c, 1, 1)
    case Gte => Ordered(rec, c, 0, 1)
    case Lt => Ordered(rec, c, -1, -1)
    case Lte => Ordered(rec, c, -1, 0)
    case Matches => !got.Null? && cp.regex.Some? && e.finds(cp.regex.value, ToText(e, got))
    case Exists => !got.Null?
    case Contains => AnyLazy(e, cp.flat, FlattenF(List([got])))
    case In =>
      if cp.sub.Some? then got.List? && AnyItem(e, cp, got.elems, 0)
      else AnyEqual(FlattenF(List([got])), cp.flat)
    case Search => HasSubstring(e.repr(rec), ToText(e, c.value))
    case Unknown(_) => false
  }

  /** The field is present and compares with the value within `lo..hi`. */
  predicate Ordered(rec: Record, c: Cond, lo: int, hi: int) {
    var d := DotDig(rec, c.field);
    d.Some? && var r := CompareValues(d.value, c.value); r.Some? && lo <= r.value <= hi
  }

  predicate AllMatch(e: Engine, cp: Compiled, rec: Record, from: nat)
    requires from <= |cp.kids|
    decreases cp, 0, |cp.kids| - from
  {
    from == |cp.kids| || (MatchCompiled(e, cp.kids[from], rec) && AllMatch(e, cp, rec, from + 1))
  }

  predicate AnyMatch(e: Engine, cp: Compiled, rec: Record, from: nat)
    requires from <= |cp.kids|
    decreases cp, 0, |cp.kids| - from
  {
    from < |cp.kids| && (MatchCompiled(e, cp.kids[from], rec) || AnyMatch(e, cp, rec, from + 1))
  }

  predicate AnyItem(e: Engine, cp: Compiled, items: seq<Value>, from: nat)
    requires cp.sub.Some? && from <= |items|
    decreases cp, 0, |items| - from
  {
    from < |items|
    && ((items[from].Obj? && MatchCompiled(e, cp.sub.value, items[from].fields)) || AnyItem(e, cp, items, from + 1))
  }

  predicate AnyLazy(e: Engine, values: seq<Value>, records: seq<Value>) {
    exists v <- values, r <- records :: LazySearch(e, v, r)
  }

  predicate AnyEqual(records: seq<Value>, values: seq<Value>) {
    exists r <- records, v <- values :: EqualsValue(r, v)
  }

  /** Uncompiled matching: a condition that does not compile matches nothing. */
  predicate Match(e: Engine, rec: Record, c: Cond) {
    match CompileF(e, c)
    case Rejected(_) => false
    case Ready(code) => MatchCompiled(e, code, rec)
  }

  // ---- The direct meaning ----

  /** Every pattern in the tree, embedded conditions included, is accepted. */
  ghost predicate Compilable(e: Engine, c: Cond)
    decreases CondSize(c)
  {
    SubCondSmaller(c);
    && (c.op.Matches? ==> e.compiles(MatchesPattern(c.value)))
    && (SubCond(c).Some? ==> Compilable(e, SubCond(c).value))
    && forall i :: 0 <= i < |c.children| ==> (CondSizesAt(c.children, i); Compilable(e, c.children[i]))
  }

  ghost predicate Meaning(e: Engine, c: Cond, rec: Record)
    decreases CondSize(c)
  {
    SubCondSmaller(c);
    var got := Got(rec, c.field);
    match c.op
    case AlwaysTrue => true
    case And => forall i :: 0 <= i < |c.children| ==> (CondSizesAt(c.children, i); Meaning(e, c.children[i], rec))
    case Or => exists i :: 0 <= i < |c.children| && (CondSizesAt(c.children, i); Meaning(e, c.children[i], rec))
    case Not => |c.children| == 1 && (CondSizesAt(c.children, 0); !Meaning(e, c.children[0], rec))
    case Eq => EqualsValue(got, c.value)
    case Neq => !EqualsValue(got, c.value)
    case Gt => DotDig(rec, c.field).Some? && CompareValues(got, c.value) == Some(1)
    case Gte => DotDig(rec, c.field).Some? && CompareValues(got, c.value) in {Some(0), Some(1)}
    case Lt => DotDig(rec, c.field).Some? && CompareValues(got, c.value) == Some(-1)
    case Lte => DotDig(rec, c.field).Some? && CompareValues(got, c.value) in {Some(-1), Some(0)}
    case Matches => !got.Null? && e.finds(MatchesPattern(c.value), ToText(e, got))
    case Exists => !got.Null?
    case Contains => exists v, r :: IsLeafOf(v, c.value) && IsLeafOf(r, got) && LazySearch(e, v, r)
    case In =>
      if SubCond(c).Some? then
        got.List? && exists item <- got.elems :: item.Obj? && Meaning(e, SubCond(c).value, item.fields)
      else
        exists r, v :: IsLeafOf(r, got) && IsLeafOf(v, c.value) && EqualsValue(r, v)
    case Search => HasSubstring(e.repr(rec), ToText(e, c.value))
    case Unknown(_) => false
  }

  // ---- Compilation preserves meaning ----

  lemma {:induction false} CompilesIffCompilable(e: Engine, c: Cond)
    ensures CompileF(e, c).Ready? <==> Compilable(e, c)
    decreases CondSize(c), 1
  {
    SubCondSmaller(c);
    if SubCond(c).Some? {
      CompilesIffCompilable(e, SubCond(c).value);
    }
    CompilesAllIff(e, c.children);
    forall i | 0 <= i < |c.children| ensures CondSize(c.children[i]) < CondSize(c) {
      CondSizesAt(c.children, i);
    }
  }

  lemma {:induction false} CompilesAllIff(e: Engine, cs: seq<Cond>)
    ensures CompileAll(e, cs).ReadyAll? <==> forall i :: 0 <= i < |cs| ==> Compilable(e, cs[i])
    decreases CondSizes(cs), 2
  {
    if cs == [] {
    } else {
      CompilesIffCompilable(e, cs[0]);
      CompilesAllIff(e, cs[1..]);
      assert forall i :: 0 < i < |cs| ==> cs[i] == cs[1..][i - 1];
      assert forall i :: 0 <= i < |cs[1..]| ==> cs[1..][i] == cs[i + 1];
    }
  }

  lemma {:induction false} CompiledKids(e: Engine, cs: seq<Cond>)
    requires CompileAll(e, cs).ReadyAll?
    ensures |CompileAll(e, cs).codes| == |cs|
    ensures forall i :: 0 <= i < |cs| ==> CompileF(e, cs[i]) == Ready(CompileAll(e, cs).codes[i])
  {
    if cs == [] {
    } else {
      CompiledKids(e, cs[1..]);
      assert forall i :: 0 < i < |cs| ==> cs[i] == cs[1..][i - 1];
    }
  }

  /** Matching a compiled condition is the condition's meaning, for every record. */
  lemma {:induction false} CompiledMeaning(e: Engine, c: Cond, rec: Record)
    requires CompileF(e, c).Ready?
    ensures MatchCompiled(e, CompileF(e, c).code, rec) <==> Meaning(e, c, rec)
    decreases CondSize(c)
  {
    var cp := CompileF(e, c).code;
    match c.op {
      case And | Or | Not => CompiledMeaningBool(e, c, rec);
      case In => CompiledMeaningIn(e, c, rec);
      case Contains => LeavesOfSingleton(c.value); LeavesOfSingleton(Got(rec, c.field));
      case _ =>
    }
  }

  lemma LeavesOfSingleton(v: Value)
    ensures forall x :: x in FlattenF(List([v])) <==> IsLeafOf(x, v)
  {
    forall x ensures x in FlattenF(List([v])) <==> IsLeafOf(x, v) {
      FlattenHoldsLeaves(x, List([v]));
      assert List([v]).elems[0] == v;
    }
  }

  lemma {:induction false} CompiledMeaningBool(e: Engine, c: Cond, rec: Record)
    requires CompileF(e, c).Ready?
    requires c.op.And? || c.op.Or? || c.op.Not?
    ensures MatchCompiled(e, CompileF(e, c).code, rec) <==> Meaning(e, c, rec)
    decreases CondSize(c), 0
  {
    var cp := CompileF(e, c).code;
    CompiledKids(e, c.children);
    forall i | 0 <= i < |c.children|
      ensures MatchCompiled(e, cp.kids[i], rec) <==> Meaning(e, c.children[i], rec)
    {
      CondSizesAt(c.children, i);
      CompiledMeaning(e, c.children[i], rec);
    }
    if c.op.And? {
      AllMatchMeans(e, cp, rec, 0);
    } else if c.op.Or? {
      AnyMatchMeans(e, cp, rec, 0);
    }
  }

  lemma {:induction false} AllMatchMeans(e: Engine, cp: Compiled, rec: Record, from: nat)
    requires from <= |cp.kids|
    ensures AllMatch(e, cp, rec, from) <==> forall i :: from <= i < |cp.kids| ==> MatchCompiled(e, cp.kids[i], rec)
    decreases |cp.kids| - from
  {
    if from == |cp.kids| {
    } else {
      AllMatchMeans(e, cp, rec, from + 1);
    }
  }

  lemma {:induction false} AnyMatchMeans(e: Engine, cp: Compiled, rec: Record, from: nat)
    requires from <= |cp.kids|
    ensures AnyMatch(e, cp, rec, from) <==> exists i :: from <= i < |cp.kids| && MatchCompiled(e, cp.kids[i], rec)
    decreases |cp.kids| - from
  {
    if from == |cp.kids| {
    } else {
      AnyMatchMeans(e, cp, rec, from + 1);
    }
  }

  lemma {:induction false} AnyItemMeans(e: Engine, cp: Compiled, items: seq<Value>, from: nat)
    requires cp.sub.Some? && from <= |items|
    ensures AnyItem(e, cp, items, from) <==>
            exists i :: from <= i < |items| && items[i].Obj? && MatchCompiled(e, cp.sub.value, items[i].fields)
    decreases |items| - from
  {
    if from == |items| {
    } else {
      AnyItemMeans(e, cp, items, from + 1);
    }
  }

  lemma {:induction false} CompiledMeaningIn(e: Engine, c: Cond, rec: Record)
    requires CompileF(e, c).Ready? && c.op.In?
    ensures MatchCompiled(e, CompileF(e, c).code, rec) <==> Meaning(e, c, rec)
    decreases CondSize(c), 0
  {
    var cp, got := CompileF(e, c).code, Got(rec, c.field);
    SubCondSmaller(c);
    if SubCond(c).Some? {
      var sub := SubCond(c).value;
      if got.List? {
        AnyItemMeans(e, cp, got.elems, 0);
        forall item | item in got.elems && item.Obj?
          ensures MatchCompiled(e, cp.sub.value, item.fields) <==> Meaning(e, sub, item.fields)
        {
          CompiledMeaning(e, sub, item.fields);
        }
      }
    } else {
      LeavesOfSingleton(c.value);
      LeavesOfSingleton(got);
    }
  }

  /** `Match` holds exactly when everything compiles and the meaning holds. */
  lemma MatchMeans(e: Engine, rec: Record, c: Cond)
    ensures Match(e, rec, c) <==> Compilable(e, c) && Meaning(e, c, rec)
  {
    CompilesIffCompilable(e, c);
    if CompileF(e, c).Ready? {
      CompiledMeaning(e, c, rec);
    }
  }
}
