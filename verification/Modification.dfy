/** Record modifications: parsing, validating and applying them in place. */
module Modification {
  import opened Values

  /** Template rendering, the regexp library and default formatting. */
  datatype Env = Env(
    isTemplate: string -> bool,
    render: (string, Record) -> string,
    compiles: string -> bool,
    named: (string, string) -> Option<seq<(string, string)>>, // groups of the first match, unnamed ones as ""
    replaced: (string, string, string) -> string,
    sprint: Value -> string)

  datatype Op = Set | Delete | ArrayAppend | ArrayDelete | RegexParse | RegexSub | Unsupported(name: string)
  {
    function Arity(): nat {
      match this
      case Delete => 1
      case RegexSub => 4
      case Unsupported(_) => 0
      case _ => 2
    }
  }

  function OpOf(name: string): Op {
    if name == "SET" then Set
    else if name == "DELETE" then Delete
    else if name == "ARRAY_APPEND" then ArrayAppend
    else if name == "ARRAY_DELETE" then ArrayDelete
    else if name == "REGEX_PARSE" then RegexParse
    else if name == "REGEX_SUB" then RegexSub
    else Unsupported(name)
  }

  datatype Modification = Modification(op: Op, args: seq<Value>)

  datatype Fault = Empty | OpNotAString | NotSupported | NotAList | NilRecord | TooFewArgs

  datatype Parsed = Good(m: Modification) | Bad(fault: Fault)

  // ---- Parsing ----

  function Padded(args: seq<Value>, n: nat): (r: seq<Value>)
    ensures args <= r && |r| == (if |args| < n then n else |args|)
    ensures forall i :: |args| <= i < |r| ==> r[i] == Str("")
    decreases n - |args|
  {
    if |args| < n then Padded(args + [Str("")], n) else args
  }

  function ParseF(args: seq<Value>): Parsed {
    if args == [] then Bad(Empty)
    else if !args[0].Str? then Bad(OpNotAString)
    else
      var op := OpOf(args[0].s);
      if op.Arity() == 0 then Bad(NotSupported) else Good(Modification(op, Padded(args[1..], op.Arity())))
  }

  method Parse(args: seq<Value>) returns (r: Parsed)
    ensures r == ParseF(args)
  {
    if |args| == 0 {
      return Bad(Empty);
    }
    if !args[0].Str? {
      return Bad(OpNotAString);
    }
    var op := OpOf(args[0].s);
    if op.Arity() == 0 {
      return Bad(NotSupported);
    }
    var rest := args[1..];
    while |rest| < op.Arity()
      invariant Padded(rest, op.Arity()) == Padded(args[1..], op.Arity())
    {
      rest := rest + [Str("")];
    }
    r := Good(Modification(op, rest));
  }

  /** Each entry is a list that parses. */
  predicate Acceptable(entry: Value) { entry.List? && ParseF(entry.elems).Good? }

  predicate AllAcceptable(entries: seq<Value>) { forall i :: 0 <= i < |entries| ==> Acceptable(entries[i]) }

  predicate Valid(obj: Record) {
    "modifications" !in obj
    || (obj["modifications"].List? && AllAcceptable(obj["modifications"].elems))
  }

  method Validate(obj: Record) returns (ok: bool)
    ensures ok == Valid(obj)
  {
    if "modifications" !in obj {
      return true;
    }
    var raw := obj["modifications"];
    if !raw.List? {
      return false;
    }
    for i := 0 to |raw.elems|
      invariant forall j :: 0 <= j < i ==> Acceptable(raw.elems[j])
    {
      assert AllAcceptable(raw.elems) ==> Acceptable(raw.elems[i]);
      if !raw.elems[i].List? {
        return false;
      }
      var p := Parse(raw.elems[i].elems);
      if p.Bad? {
        return false;
      }
    }
    ok := true;
  }

  // ---- Applying ----

  function Resolve(e: Env, rec: Record, v: Value): Value {
    if v.Str? && e.isTemplate(v.s) then Str(e.render(v.s, rec)) else v
  }

  predicate Truthy(v: Value) {
    match v
    case Null => false
    case Str(s) => s != ""
    case Bool(b) => b
    case Int(i) => i != 0
    case Float(f) => f != 0.0
    case List(es) => es != []
    case Obj(m) => m != map[]
  }

  function AsReal(v: Value): Option<real> {
    match v
    case Int(i) => Some(i as real)
    case Float(f) => Some(f)
    case _ => None
  }

  predicate PyEqual(e: Env, a: Value, b: Value) {
    if a.Null? || b.Null? then a.Null? && b.Null?
    else if AsReal(a).Some? && AsReal(b).Some? then AsReal(a) == AsReal(b)
    else if a.Str? && b.Str? then a.s == b.s
    else e.sprint(a) == e.sprint(b)
  }

  function At(rec: Record, key: string): Value { if key in rec then rec[key] else Null }

  /** Position of the first list element equal to `v`, or the length. */
  function FirstEqual(e: Env, list: seq<Value>, v: Value, from: nat): (i: nat)
    requires from <= |list|
    ensures from <= i <= |list|
    decreases |list| - from
  {
    if from == |list| || PyEqual(e, list[from], v) then from else FirstEqual(e, list, v, from + 1)
  }

  /** The groups overwrite the record left to right. */
  function Merge(rec: Record, groups: seq<(string, string)>): Record
    decreases groups
  {
    if groups == [] then rec
    else Merge(if groups[0].0 == "" then rec else rec[groups[0].0 := Str(groups[0].1)], groups[1..])
  }

  datatype Applied = Done(rec: Record, changed: bool) | Failed(fault: Fault)

  function ApplyF(e: Env, rec: Record, m: Modification): Applied {
    if m.op.Arity() == 0 then Failed(NotSupported)
    else if |m.args| < m.op.Arity() then Failed(TooFewArgs)
    else
      var key := Resolve(e, rec, m.args[0]);
      if !key.Str? then Done(rec, false)
      else if m.op.Delete? then Done(rec - {key.s}, key.s in rec)
      else if m.op.RegexSub? then
        SubF(e, rec, key.s, Resolve(e, rec, m.args[1]), Resolve(e, rec, m.args[2]), Resolve(e, rec, m.args[3]))
      else TwoArgsF(e, rec, m.op, key.s, Resolve(e, rec, m.args[1]))
  }

  function TwoArgsF(e: Env, rec: Record, op: Op, key: string, value: Value): Applied {
    var cur := At(rec, key);
    match op
    case Set => Done(rec[key := value], Truthy(value) && !PyEqual(e, cur, value))
    case ArrayAppend =>
      if !cur.List? then Done(rec, false)
      else Done(rec[key := List(cur.elems + if value.List? then value.elems else [value])], true)
    case ArrayDelete =>
      if !cur.List? then Done(rec, false)
      else
        var i := FirstEqual(e, cur.elems, value, 0);
        if i == |cur.elems| then Done(rec, false)
        else Done(rec[key := List(cur.elems[..i] + cur.elems[i + 1..])], true)
    case _ =>
      if !value.Str? || !cur.Str? || !e.compiles(value.s) then Done(rec, false)
      else
        match e.named(value.s, cur.s)
        case None => Done(rec, false)
        case Some(groups) => Done(Merge(rec, groups), true)
  }

  function SubF(e: Env, rec: Record, key: string, out: Value, pattern: Value, sub: Value): Applied {
    var src := At(rec, key);
    if !out.Str? || !pattern.Str? || !sub.Str? || !src.Str? || !e.compiles(pattern.s) then Done(rec, false)
    else Done(rec[out.s := Str(e.replaced(pattern.s, src.s, sub.s))], true)
  }

  /** How a list of modifications went; `Stopped` tells which one failed and what the ones
      before it left. */
  datatype Outcome = AllDone(rec: Record) | Stopped(at: nat, fault: Fault, rec: Record)

  /** Left-to-right composition, stopping at the first fault. */
  function ApplyAllF(e: Env, rec: Record, ms: seq<Modification>): Outcome
    decreases ms
  {
    if ms == [] then AllDone(rec)
    else
      match ApplyF(e, rec, ms[0])
      case Failed(f) => Stopped(0, f, rec)
      case Done(next, _) => Shifted(1, ApplyAllF(e, next, ms[1..]))
  }

  function Shifted(n: nat, o: Outcome): Outcome { if o.Stopped? then o.(at := o.at + n) else o }

  /** A record the modifications mutate in place; `None` is the nil record. */
  class Target {
    var rec: Option<Record>

    constructor (rec: Option<Record>)
      ensures this.rec == rec
    {
      this.rec := rec;
    }

    /** The arguments with their templates expanded against the record. */
    method ResolveArgs(e: Env, args: seq<Value>) returns (out: seq<Value>)
      requires rec.Some?
      ensures |out| == |args| && forall i :: 0 <= i < |args| ==> out[i] == Resolve(e, rec.value, args[i])
    {
      out := [];
      for i := 0 to |args|
        invariant |out| == i && forall j :: 0 <= j < i ==> out[j] == Resolve(e, rec.value, args[j])
      {
        var a := args[i];
        if a.Str? && e.isTemplate(a.s) {
          a := Str(e.render(a.s, rec.value));
        }
        out := out + [a];
      }
    }

    method ApplySet(e: Env, args: seq<Value>) returns (changed: bool)
      requires rec.Some? && |args| >= 2
      modifies this
      ensures rec.Some? && Done(rec.value, changed) == ApplyF(e, old(rec).value, Modification(Set, args))
    {
      var resolved := ResolveArgs(e, args);
      if !resolved[0].Str? {
        return false;
      }
      var key, value := resolved[0].s, resolved[1];
      changed := Truthy(value) && !PyEqual(e, At(rec.value, key), value);
      rec := Some(rec.value[key := value]);
    }

    method ApplyDelete(e: Env, args: seq<Value>) returns (changed: bool)
      requires rec.Some? && |args| >= 1
      modifies this
      ensures rec.Some? && Done(rec.value, changed) == ApplyF(e, old(rec).value, Modification(Delete, args))
    {
      var resolved := ResolveArgs(e, args);
      if !resolved[0].Str? {
        return false;
      }
      var key := resolved[0].s;
      if key !in rec.value {
        assert rec.value - {key} == rec.value;
        return false;
      }
      rec := Some(rec.value - {key});
      changed := true;
    }

    method ApplyArrayAppend(e: Env, args: seq<Value>) returns (changed: bool)
      requires rec.Some? && |args| >= 2
      modifies this
      ensures rec.Some? && Done(rec.value, changed) == ApplyF(e, old(rec).value, Modification(ArrayAppend, args))
    {
      var resolved := ResolveArgs(e, args);
      if !resolved[0].Str? {
        return false;
      }
      var key, value := resolved[0].s, resolved[1];
      if key !in rec.value || !rec.value[key].List? {
        return false;
      }
      var cur := rec.value[key].elems;
      if value.List? {
        rec := Some(rec.value[key := List(cur + value.elems)]);
      } else {
        rec := Some(rec.value[key := List(cur + [value])]);
      }
      changed := true;
    }

    /** Removes the first equal element, if there is one. */
    method ApplyArrayDelete(e: Env, args: seq<Value>) returns (changed: bool)
      requires rec.Some? && |args| >= 2
      modifies this
      ensures rec.Some? && Done(rec.value, changed) == ApplyF(e, old(rec).value, Modification(ArrayDelete, args))
    {
      var resolved := ResolveArgs(e, args);
      if !resolved[0].Str? {
        return false;
      }
      var key, value := resolved[0].s, resolved[1];
      if key !in rec.value || !rec.value[key].List? {
        return false;
      }
      var cur := rec.value[key].elems;
      for i := 0 to |cur|
        invariant rec == old(rec) && FirstEqual(e, cur, value, 0) == FirstEqual(e, cur, value, i)
      {
        if PyEqual(e, cur[i], value) {
          rec := Some(rec.value[key := List(cur[..i] + cur[i + 1..])]);
          return true;
        }
      }
      changed := false;
    }

    /** Writes the named groups of the first match into the record, one after another. */
    method ApplyRegexParse(e: Env, args: seq<Value>) returns (changed: bool)
      requires rec.Some? && |args| >= 2
      modifies this
      ensures rec.Some? && Done(rec.value, changed) == ApplyF(e, old(rec).value, Modification(RegexParse, args))
    {
      var resolved := ResolveArgs(e, args);
      if !resolved[0].Str? || !resolved[1].Str? {
        return false;
      }
      var key, pattern := resolved[0].s, resolved[1].s;
      if key !in rec.value || !rec.value[key].Str? || !e.compiles(pattern) {
        return false;
      }
      var found := e.named(pattern, rec.value[key].s);
      if found.None? {
        return false;
      }
      var groups := found.value;
      for i := 0 to |groups|
        invariant rec.Some? && Merge(rec.value, groups[i..]) == Merge(old(rec).value, groups)
      {
        assert groups[i..][0] == groups[i] && groups[i..][1..] == groups[i + 1..];
        if groups[i].0 != "" {
          rec := Some(rec.value[groups[i].0 := Str(groups[i].1)]);
        }
      }
      changed := true;
    }

    method ApplyRegexSub(e: Env, args: seq<Value>) returns (changed: bool)
      requires rec.Some? && |args| >= 4
      modifies this
      ensures rec.Some? && Done(rec.value, changed) == ApplyF(e, old(rec).value, Modification(RegexSub, args))
    {
      var resolved := ResolveArgs(e, args);
      if !resolved[0].Str? || !resolved[1].Str? || !resolved[2].Str? || !resolved[3].Str? {
        return false;
      }
      var key := resolved[0].s;
      if key !in rec.value || !rec.value[key].Str? || !e.compiles(resolved[2].s) {
        return false;
      }
      var text := e.replaced(resolved[2].s, rec.value[key].s, resolved[3].s);
      rec := Some(rec.value[resolved[1].s := Str(text)]);
      changed := true;
    }

    method Apply(e: Env, m: Modification) returns (changed: bool, fault: Option<Fault>)
      modifies this
      ensures old(rec).None? ==> rec.None? && !changed && fault == Some(NilRecord)
      ensures old(rec).Some? ==>
                match ApplyF(e, old(rec).value, m)
                case Done(out, c) => rec == Some(out) && changed == c && fault == None
                case Failed(f) => rec == old(rec) && !changed && fault == Some(f)
    {
      changed, fault := false, None;
      if rec.None? {
        return false, Some(NilRecord);
      }
      if m.op.Arity() == 0 {
        return false, Some(NotSupported);
      }
      if |m.args| < m.op.Arity() {
        return false, Some(TooFewArgs);
      }
      match m.op {
        case Set => changed := ApplySet(e, m.args);
        case Delete => changed := ApplyDelete(e, m.args);
        case ArrayAppend => changed := ApplyArrayAppend(e, m.args);
        case ArrayDelete => changed := ApplyArrayDelete(e, m.args);
        case RegexParse => changed := ApplyRegexParse(e, m.args);
        case RegexSub => changed := ApplyRegexSub(e, m.args);
      }
    }

    method ApplyAll(e: Env, ms: seq<Modification>) returns (fault: Option<(nat, Fault)>)
      modifies this
      ensures old(rec).None? ==> rec.None? && fault == if ms == [] then None else Some((0, NilRecord))
      ensures old(rec).Some? ==>
                match ApplyAllF(e, old(rec).value, ms)
                case AllDone(out) => rec == Some(out) && fault == None
                case Stopped(at, f, out) => rec == Some(out) && fault == Some((at, f))
    {
      for i := 0 to |ms|
        invariant rec.None? <==> old(rec).None?
        invariant rec.None? ==> i == 0
        invariant rec.Some? ==> ApplyAllF(e, old(rec).value, ms) == Shifted(i, ApplyAllF(e, rec.value, ms[i..]))
      {
        assert ms[i..][0] == ms[i] && ms[i..][1..] == ms[i + 1..];
        var _, f := Apply(e, ms[i]);
        if f.Some? {
          return Some((i, f.value));
        }
      }
      fault := None;
    }
  }

  /** When a modification fails, the record is what the ones before it made of it, and the
      failing one would fail on exactly that record. */
  lemma {:induction false} StopLeavesThePrefix(e: Env, rec: Record, ms: seq<Modification>)
    requires ApplyAllF(e, rec, ms).Stopped?
    ensures var o := ApplyAllF(e, rec, ms);
            && o.at < |ms| && ApplyAllF(e, rec, ms[..o.at]) == AllDone(o.rec)
            && ApplyF(e, o.rec, ms[o.at]) == Failed(o.fault)
    decreases |ms|
  {
    var o, first := ApplyAllF(e, rec, ms), ApplyF(e, rec, ms[0]);
    if first.Done? {
      StopLeavesThePrefix(e, first.rec, ms[1..]);
      assert ms[..o.at][0] == ms[0] && ms[..o.at][1..] == ms[1..][..o.at - 1];
    } else {
      assert ms[..o.at] == [];
    }
  }

  // ---- Validated modifications never fail ----

  function ParseAll(entries: seq<Value>): seq<Modification>
    requires AllAcceptable(entries)
  {
    if entries == [] then []
    else
      assert Acceptable(entries[0]);
      [ParseF(entries[0].elems).m] + ParseAll(entries[1..])
  }

  lemma ParsedApplies(e: Env, rec: Record, args: seq<Value>)
    requires ParseF(args).Good?
    ensures ApplyF(e, rec, ParseF(args).m).Done?
  {
  }

  lemma {:induction false} ParsedNeverFail(e: Env, rec: Record, entries: seq<Value>)
    requires AllAcceptable(entries)
    ensures ApplyAllF(e, rec, ParseAll(entries)).AllDone?
    decreases |entries|
  {
    if entries == [] {
    } else {
      var ms := ParseAll(entries);
      assert Acceptable(entries[0]);
      ParsedApplies(e, rec, entries[0].elems);
      assert ms[1..] == ParseAll(entries[1..]);
      ParsedNeverFail(e, ApplyF(e, rec, ms[0]).rec, entries[1..]);
    }
  }

  /** The modifications of an accepted object; an absent list is an empty one. */
  function ModificationsOf(obj: Record): seq<Modification>
    requires Valid(obj)
  {
    if "modifications" in obj then ParseAll(obj["modifications"].elems) else []
  }

  /** If validation accepts an object, applying its modifications to any record succeeds. */
  lemma ValidatedNeverFails(e: Env, rec: Record, obj: Record)
    requires Valid(obj)
    ensures ApplyAllF(e, rec, ModificationsOf(obj)).AllDone?
  {
    if "modifications" in obj {
      ParsedNeverFail(e, rec, obj["modifications"].elems);
    }
  }

  /** Applying a concatenation is applying the parts in order. */
  lemma {:induction false} ApplyAllComposes(e: Env, rec: Record, xs: seq<Modification>, ys: seq<Modification>)
    ensures ApplyAllF(e, rec, xs + ys) ==
            match ApplyAllF(e, rec, xs)
            case Stopped(at, f, out) => Stopped(at, f, out)
            case AllDone(mid) => Shifted(|xs|, ApplyAllF(e, mid, ys))
    decreases |xs|
  {
    if xs == [] {
      assert xs + ys == ys;
    } else {
      assert (xs + ys)[0] == xs[0] && (xs + ys)[1..] == xs[1..] + ys;
      var first := ApplyF(e, rec, xs[0]);
      if first.Done? {
        ApplyAllComposes(e, first.rec, xs[1..], ys);
      }
    }
  }

  /** The keys a modification may change: its resolved target, or its named groups. */
  function Touched(e: Env, rec: Record, m: Modification): set<string> {
    if |m.args| < m.op.Arity() || m.op.Arity() == 0 || !Resolve(e, rec, m.args[0]).Str? then {}
    else
      var key := Resolve(e, rec, m.args[0]).s;
      if m.op.RegexSub? then
        var out := Resolve(e, rec, m.args[1]); if out.Str? then {out.s} else {}
      else if m.op.RegexParse? then
        var p := Resolve(e, rec, m.args[1]);
        if p.Str? && At(rec, key).Str? then GroupNames(e.named(p.s, At(rec, key).s)) else {}
      else {key}
  }

  function GroupNames(groups: Option<seq<(string, string)>>): set<string> {
    if groups.None? then {} else set g | g in groups.value && g.0 != "" :: g.0
  }

  lemma {:induction false} MergeTouchesGroups(rec: Record, groups: seq<(string, string)>, k: string)
    requires forall g <- groups :: g.0 != "" ==> g.0 != k
    ensures (k in Merge(rec, groups) <==> k in rec) && (k in rec ==> Merge(rec, groups)[k] == rec[k])
    decreases |groups|
  {
    if groups == [] {
    } else {
      assert groups[0] in groups;
      MergeTouchesGroups(if groups[0].0 == "" then rec else rec[groups[0].0 := Str(groups[0].1)], groups[1..], k);
    }
  }

  /** Every other key keeps its value, or its absence. */
  lemma OtherKeysAreKept(e: Env, rec: Record, m: Modification, k: string)
    requires ApplyF(e, rec, m).Done? && k !in Touched(e, rec, m)
    ensures var out := ApplyF(e, rec, m).rec; (k in out <==> k in rec) && (k in rec ==> out[k] == rec[k])
  {
    if m.op.RegexParse? && Resolve(e, rec, m.args[0]).Str? {
      var src, p := At(rec, Resolve(e, rec, m.args[0]).s), Resolve(e, rec, m.args[1]);
      if src.Str? && p.Str? && e.named(p.s, src.s).Some? {
        MergeTouchesGroups(rec, e.named(p.s, src.s).value, k);
      }
    }
  }

  // ---- Splitting template expressions ----

  /** Nesting depth after one character; a stray closing parenthesis is ignored. */
  function DepthAfter(depth: nat, c: char): nat {
    if c == '(' then depth + 1 else if c == ')' && depth > 0 then depth - 1 else depth
  }

  predicate Splits(c: char, sep: char, depth: nat) { c != '(' && c != ')' && c == sep && depth == 0 }

  function SplitFrom(s: string, sep: char, start: nat, i: nat, depth: nat): seq<string>
    requires start <= i <= |s|
    decreases |s| - i
  {
    if i == |s| then [s[start..]]
    else if Splits(s[i], sep, depth) then [s[start..i]] + SplitFrom(s, sep, i + 1, i + 1, 0)
    else SplitFrom(s, sep, start, i + 1, DepthAfter(depth, s[i]))
  }

  method SplitTopLevel(s: string, sep: char) returns (out: seq<string>)
    ensures out == SplitFrom(s, sep, 0, 0, 0)
    ensures Joined(out, sep) == s && forall piece <- out :: NoTopLevel(piece, sep, 0)
  {
    SplitRejoins(s, sep, 0, 0, 0);
    assert s[0..] == s;
    out := [];
    var depth, start := 0, 0;
    for i := 0 to |s|
      invariant start <= i && 0 <= depth
      invariant out + SplitFrom(s, sep, start, i, depth) == SplitFrom(s, sep, 0, 0, 0)
    {
      if s[i] == '(' {
        depth := depth + 1;
      } else if s[i] == ')' {
        if depth > 0 {
          depth := depth - 1;
        }
      } else if s[i] == sep && depth == 0 {
        var before := out;
        out := out + [s[start..i]];
        assert out + SplitFrom(s, sep, i + 1, i + 1, 0) == before + SplitFrom(s, sep, start, i, depth);
        start := i + 1;
      }
    }
    out := out + [s[start..]];
  }

  function Joined(pieces: seq<string>, sep: char): string {
    if |pieces| == 0 then "" else if |pieces| == 1 then pieces[0] else pieces[0] + [sep] + Joined(pieces[1..], sep)
  }

  /** No separator occurs outside parentheses, starting at this depth. */
  predicate NoTopLevel(s: string, sep: char, depth: nat)
    decreases |s|
  {
    s == "" || (!Splits(s[0], sep, depth) && NoTopLevel(s[1..], sep, DepthAfter(depth, s[0])))
  }

  function DepthOf(s: string, depth: nat): nat
    decreases |s|
  {
    if s == "" then depth else DepthOf(s[1..], DepthAfter(depth, s[0]))
  }

  lemma {:induction false} NoTopLevelExtends(s: string, sep: char, depth: nat, c: char)
    requires NoTopLevel(s, sep, depth) && !Splits(c, sep, DepthOf(s, depth))
    ensures NoTopLevel(s + [c], sep, depth) && DepthOf(s + [c], depth) == DepthAfter(DepthOf(s, depth), c)
    decreases |s|
  {
    if s == "" {
      assert s + [c] == [c] && [c][1..] == "";
    } else {
      assert (s + [c])[1..] == s[1..] + [c];
      NoTopLevelExtends(s[1..], sep, DepthAfter(depth, s[0]), c);
    }
  }

  /** The pieces rejoin to the input and hold no separator outside parentheses. */
  lemma {:induction false} SplitRejoins(s: string, sep: char, start: nat, i: nat, depth: nat)
    requires start <= i <= |s| && NoTopLevel(s[start..i], sep, 0) && DepthOf(s[start..i], 0) == depth
    ensures SplitFrom(s, sep, start, i, depth) != []
    ensures Joined(SplitFrom(s, sep, start, i, depth), sep) == s[start..]
    ensures forall piece <- SplitFrom(s, sep, start, i, depth) :: NoTopLevel(piece, sep, 0)
    decreases |s| - i
  {
    if i == |s| {
      assert s[start..i] == s[start..];
    } else if Splits(s[i], sep, depth) {
      SplitRejoins(s, sep, i + 1, i + 1, 0);
      assert s[start..] == s[start..i] + [sep] + s[i + 1..];
    } else {
      NoTopLevelExtends(s[start..i], sep, 0, s[i]);
      assert s[start..i + 1] == s[start..i] + [s[i]];
      SplitRejoins(s, sep, start, i + 1, DepthAfter(depth, s[i]));
    }
  }
}
