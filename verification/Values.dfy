/** Record and literal values, and the three ways the condition engine walks them:
    flattening nested lists, splitting dotted paths and digging into records. */
module Values {

  datatype Option<+T> = None | Some(value: T)

  /** A decoded JSON value. Integers and floats are kept apart because deep equality
      of nested values is type-aware, while top-level comparison coerces. */
  datatype Value =
    | Null
    | Bool(b: bool)
    | Int(i: int)
    | Float(f: real)
    | Str(s: string)
    | List(elems: seq<Value>)
    | Obj(fields: map<string, Value>)

  type Record = map<string, Value>

  /** The members outside `changed` are those of the earlier record. */
  ghost predicate KeepsAllBut(rec: Record, out: Record, changed: set<string>) {
    forall k :: k !in changed ==> (k in out <==> k in rec) && (k in rec ==> out[k] == rec[k])
  }

  /** Index of the first element from `from` on that satisfies `p`, or the length. */
  function FirstFrom<T>(xs: seq<T>, p: T -> bool, from: nat): (i: nat)
    requires from <= |xs|
    ensures from <= i <= |xs| && (i < |xs| ==> p(xs[i]))
    ensures forall j :: from <= j < i ==> !p(xs[j])
    decreases |xs| - from
  {
    if from == |xs| || p(xs[from]) then from else FirstFrom(xs, p, from + 1)
  }

  // ---- Flatten ----

  function FlattenF(v: Value): seq<Value>
    decreases v, 1, 0
  {
    if v.List? then FlattenFrom(v, 0) else [v]
  }

  function FlattenFrom(v: Value, from: nat): seq<Value>
    requires v.List? && from <= |v.elems|
    decreases v, 0, |v.elems| - from
  {
    if from == |v.elems| then [] else FlattenF(v.elems[from]) + FlattenFrom(v, from + 1)
  }

  /** `x` is reachable from `v` through lists alone and is not itself a list. */
  ghost predicate IsLeafOf(x: Value, v: Value)
    decreases v
  {
    if v.List? then exists e <- v.elems :: IsLeafOf(x, e) else x == v
  }

  method Flatten(v: Value) returns (out: seq<Value>)
    ensures out == FlattenF(v)
    ensures forall x :: x in out <==> IsLeafOf(x, v)
  {
    out := FlattenInto([], v);
    forall x ensures x in out <==> IsLeafOf(x, v) {
      FlattenHoldsLeaves(x, v);
    }
  }

  method FlattenInto(out: seq<Value>, v: Value) returns (grown: seq<Value>)
    ensures grown == out + FlattenF(v)
    decreases v
  {
    grown := out;
    if v.List? {
      for i := 0 to |v.elems|
        invariant grown + FlattenFrom(v, i) == out + FlattenFrom(v, 0)
      {
        var before := grown;
        grown := FlattenInto(grown, v.elems[i]);
        assert grown + FlattenFrom(v, i + 1) == before + FlattenFrom(v, i);
      }
    } else {
      grown := grown + [v];
    }
  }

  lemma {:induction false} FlattenHoldsLeaves(x: Value, v: Value)
    ensures x in FlattenF(v) <==> IsLeafOf(x, v)
    decreases v, 1, 0
  {
    if v.List? {
      FlattenFromHoldsLeaves(x, v, 0);
    }
  }

  lemma {:induction false} FlattenFromHoldsLeaves(x: Value, v: Value, from: nat)
    requires v.List? && from <= |v.elems|
    ensures x in FlattenFrom(v, from) <==> exists j :: from <= j < |v.elems| && IsLeafOf(x, v.elems[j])
    decreases v, 0, |v.elems| - from
  {
    if from == |v.elems| {
    } else {
      FlattenHoldsLeaves(x, v.elems[from]);
      FlattenFromHoldsLeaves(x, v, from + 1);
    }
  }

  lemma FlattenFromTail(v: Value, w: Value, from: nat)
    requires v.List? && w.List? && v.elems != [] && w.elems == v.elems[1..] && from <= |w.elems|
    ensures FlattenFrom(v, from + 1) == FlattenFrom(w, from)
    decreases |w.elems| - from
  {
    if from == |w.elems| {
    } else {
      FlattenFromTail(v, w, from + 1);
    }
  }

  /** Flattening keeps scalars and objects, drops empty lists, and goes through a list element
      by element in order. */
  lemma FlattenUnfolds(v: Value, head: Value, tail: seq<Value>)
    ensures !v.List? ==> FlattenF(v) == [v]
    ensures FlattenF(List([])) == []
    ensures FlattenF(List([head] + tail)) == FlattenF(head) + FlattenF(List(tail))
  {
    FlattenFromTail(List([head] + tail), List(tail), 0);
  }

  // ---- Dotted paths ----

  function SplitDotsFrom(s: string, start: nat, i: nat): seq<string>
    requires start <= i <= |s|
    decreases |s| - i
  {
    if i == |s| then [s[start..]]
    else if s[i] == '.' then [s[start..i]] + SplitDotsFrom(s, i + 1, i + 1)
    else SplitDotsFrom(s, start, i + 1)
  }

  function SplitDotsF(s: string): seq<string> {
    if s == "" then [] else SplitDotsFrom(s, 0, 0)
  }

  function JoinDots(parts: seq<string>): string {
    if |parts| == 0 then ""
    else if |parts| == 1 then parts[0]
    else parts[0] + "." + JoinDots(parts[1..])
  }

  method SplitDots(s: string) returns (parts: seq<string>)
    ensures parts == SplitDotsF(s)
    ensures JoinDots(parts) == s
    ensures forall p <- parts :: '.' !in p
  {
    SplitJoins(s);
    parts := [];
    if s == "" {
      return;
    }
    var start := 0;
    for i := 0 to |s|
      invariant start <= i
      invariant parts + SplitDotsFrom(s, start, i) == SplitDotsFrom(s, 0, 0)
    {
      if s[i] == '.' {
        var before := parts;
        parts := parts + [s[start..i]];
        assert parts + SplitDotsFrom(s, i + 1, i + 1) == before + SplitDotsFrom(s, start, i);
        start := i + 1;
      }
    }
    parts := parts + [s[start..]];
  }

  lemma {:induction false} SplitFromJoins(s: string, start: nat, i: nat)
    requires start <= i <= |s|
    requires '.' !in s[start..i]
    ensures |SplitDotsFrom(s, start, i)| > 0
    ensures JoinDots(SplitDotsFrom(s, start, i)) == s[start..]
    ensures forall p <- SplitDotsFrom(s, start, i) :: '.' !in p
    decreases |s| - i
  {
    if i == |s| {
    } else {
      if s[i] == '.' {
        SplitFromJoins(s, i + 1, i + 1);
        assert s[start..] == s[start..i] + "." + s[i + 1..];
      } else {
        assert s[start..i + 1] == s[start..i] + [s[i]];
        SplitFromJoins(s, start, i + 1);
      }
    }
  }

  lemma SplitJoins(s: string)
    ensures JoinDots(SplitDotsF(s)) == s
    ensures forall p <- SplitDotsF(s) :: '.' !in p
  {
    if s != "" {
      SplitFromJoins(s, 0, 0);
    }
  }

  // ---- Digging ----

  predicate IsDigitChar(c: char) { '0' <= c <= '9' }

  function DigitsValue(s: string): int
    requires forall c <- s :: IsDigitChar(c)
  {
    if s == "" then 0 else DigitsValue(s[..|s| - 1]) * 10 + (s[|s| - 1] as int - '0' as int)
  }

  const MIN_INT64: int := -0x8000_0000_0000_0000
  const MAX_INT64: int := 0x7FFF_FFFF_FFFF_FFFF

  /** `strconv.Atoi` on a 64-bit platform. */
  function Atoi(s: string): Option<int> {
    var signed := s != "" && (s[0] == '-' || s[0] == '+');
    var digits := if signed then s[1..] else s;
    if digits == "" || !(forall c <- digits :: IsDigitChar(c)) then None
    else
      var n := if signed && s[0] == '-' then -DigitsValue(digits) else DigitsValue(digits);
      if MIN_INT64 <= n <= MAX_INT64 then Some(n) else None
  }

  /** One path component: a numeric component indexes lists and is a plain key on objects. */
  function DigStep(cur: Value, p: string): Option<Value> {
    match cur
    case List(es) =>
      var n := Atoi(p);
      if n.Some? && 0 <= n.value < |es| then Some(es[n.value]) else None
    case Obj(m) => if p in m then Some(m[p]) else None
    case _ => None
  }

  function DigF(cur: Value, path: seq<string>): Option<Value> {
    if path == [] then Some(cur)
    else
      var next := DigStep(cur, path[0]);
      if next.None? then None else DigF(next.value, path[1..])
  }

  method Dig(rec: Value, path: seq<string>) returns (found: Option<Value>)
    ensures found == DigF(rec, path)
  {
    var cur := rec;
    for i := 0 to |path|
      invariant DigF(rec, path) == DigF(cur, path[i..])
    {
      if cur.Null? {
        return None;
      }
      assert path[i..][1..] == path[i + 1..];
      var n := Atoi(path[i]);
      if n.Some? && cur.List? {
        if n.value < 0 || n.value >= |cur.elems| {
          return None;
        }
        cur := cur.elems[n.value];
      } else if cur.Obj? {
        if path[i] !in cur.fields {
          return None;
        }
        cur := cur.fields[path[i]];
      } else {
        return None;
      }
    }
    found := Some(cur);
  }

  function DotDig(rec: Record, field: string): Option<Value> {
    DigF(Obj(rec), SplitDotsF(field))
  }

  /** What the evaluator sees: a miss reads as null. */
  function Got(rec: Record, field: string): Value {
    var d := DotDig(rec, field);
    if d.Some? then d.value else Null
  }

  /** Digging a concatenated path is digging twice. */
  lemma {:induction false} DigComposes(v: Value, p: seq<string>, q: seq<string>)
    ensures DigF(v, p + q) == (if DigF(v, p).Some? then DigF(DigF(v, p).value, q) else None)
    decreases p
  {
    if p == [] {
      assert p + q == q;
    } else {
      assert (p + q)[1..] == p[1..] + q;
      var next := DigStep(v, p[0]);
      if next.Some? {
        DigComposes(next.value, p[1..], q);
      }
    }
  }

  // ---- What a dotted path reads ----

  predicate AllDigits(s: string) { forall i :: 0 <= i < |s| ==> IsDigitChar(s[i]) }

  /** The decimal numeral of a number. */
  function ShowNat(n: nat): (s: string)
    ensures s != "" && AllDigits(s)
  {
    var d := [('0' as int + n % 10) as char];
    if n < 10 then d else ShowNat(n / 10) + d
  }

  lemma {:induction false} ShowNatReads(n: nat)
    ensures DigitsValue(ShowNat(n)) == n
  {
    var s := ShowNat(n);
    if n < 10 {
      assert s[..|s| - 1] == "";
    } else {
      ShowNatReads(n / 10);
      assert s[..|s| - 1] == ShowNat(n / 10);
    }
  }

  /** A dot ends the piece under way; the end of the text ends the last one. */
  lemma {:induction false} SplitPiece(s: string, start: nat, i: nat, end: nat)
    requires start <= i <= end <= |s| && '.' !in s[i..end] && (end < |s| ==> s[end] == '.')
    ensures SplitDotsFrom(s, start, i) ==
            if end == |s| then [s[start..]] else [s[start..end]] + SplitDotsFrom(s, end + 1, end + 1)
    decreases end - i
  {
    if i == end {
    } else {
      assert s[i] == s[i..end][0] && s[i + 1..end] == s[i..end][1..];
      SplitPiece(s, start, i + 1, end);
    }
  }

  predicate Undotted(parts: seq<string>) { forall p <- parts :: '.' !in p }

  lemma {:induction false} JoinedSplitsFrom(s: string, start: nat, parts: seq<string>)
    requires start <= |s| && parts != [] && Undotted(parts) && s[start..] == JoinDots(parts)
    ensures SplitDotsFrom(s, start, start) == parts
    decreases |parts|
  {
    var end := start + |parts[0]|;
    assert parts[0] in parts;
    if |parts| == 1 {
      assert s[start..end] == parts[0];
      SplitPiece(s, start, start, end);
    } else {
      var rest := JoinDots(parts[1..]);
      assert s[start..] == parts[0] + "." + rest;
      assert s[start..end] == s[start..][..|parts[0]|] == parts[0];
      assert s[end] == s[start..][|parts[0]|] == '.';
      SplitPiece(s, start, start, end);
      assert s[end + 1..] == s[start..][|parts[0]| + 1..] == rest;
      JoinedSplitsFrom(s, end + 1, parts[1..]);
    }
  }

  /** Splitting inverts joining: a dotted field reads the path of its components. */
  lemma PathReads(rec: Record, parts: seq<string>)
    requires parts != [] && parts != [""] && Undotted(parts)
    ensures SplitDotsF(JoinDots(parts)) == parts && DotDig(rec, JoinDots(parts)) == DigF(Obj(rec), parts)
  {
    var s := JoinDots(parts);
    assert s[0..] == s;
    JoinedSplitsFrom(s, 0, parts);
  }

  /** A field without dots is read off the record itself; the empty one is the record. */
  lemma FieldReads(rec: Record, field: string)
    requires '.' !in field
    ensures field != "" ==> DotDig(rec, field) == if field in rec then Some(rec[field]) else None
    ensures field == "" ==> DotDig(rec, field) == Some(Obj(rec))
  {
    if field != "" {
      PathReads(rec, [field]);
      OneStep(Obj(rec), field);
    }
  }

  lemma OneStep(v: Value, p: string)
    ensures DigF(v, [p]) == DigStep(v, p)
  {
    assert [p][1..] == [];
  }

  /** A numeral after a list's field reads the element with that index, or misses past the end. */
  lemma ElementReads(rec: Record, field: string, es: seq<Value>, n: nat)
    requires field in rec && field != "" && '.' !in field && rec[field] == List(es)
    ensures DotDig(rec, field + "." + ShowNat(n)) == if n < |es| && n <= MAX_INT64 then Some(es[n]) else None
  {
    NumeralReads(n);
    TwoSteps(rec, field, ShowNat(n));
  }

  /** Behind a list's field, a negative number and a text that is no number read nothing. */
  lemma ElementMisses(rec: Record, field: string, key: string)
    requires field in rec && field != "" && '.' !in field && '.' !in key && rec[field].List?
    requires (exists c <- key :: !IsDigitChar(c) && c != '-' && c != '+')
             || exists n: nat :: n > 0 && key == "-" + ShowNat(n)
    ensures DotDig(rec, field + "." + key) == None
  {
    TwoSteps(rec, field, key);
    if exists c <- key :: !IsDigitChar(c) && c != '-' && c != '+' {
      NotANumeral(key);
    } else {
      var n: nat :| n > 0 && key == "-" + ShowNat(n);
      NegativeReads(n);
    }
  }

  /** A component after the first reads a member of an object, numeral or not, and nothing of a scalar. */
  lemma MemberReads(rec: Record, field: string, key: string)
    requires field in rec && field != "" && '.' !in field && '.' !in key && !rec[field].List?
    ensures rec[field].Obj? && key in rec[field].fields ==>
              DotDig(rec, field + "." + key) == Some(rec[field].fields[key])
    ensures !(rec[field].Obj? && key in rec[field].fields) ==> DotDig(rec, field + "." + key) == None
  {
    TwoSteps(rec, field, key);
  }

  lemma TwoSteps(rec: Record, field: string, p: string)
    requires field in rec && field != "" && '.' !in field && '.' !in p
    ensures DotDig(rec, field + "." + p) == DigStep(rec[field], p)
  {
    var parts := [field, p];
    assert parts[1..] == [p];
    assert JoinDots(parts) == field + "." + p;
    PathReads(rec, parts);
    OneStep(rec[field], p);
  }

  lemma NumeralReads(n: nat)
    ensures '.' !in ShowNat(n)
    ensures Atoi(ShowNat(n)) == if n <= MAX_INT64 then Some(n) else None
  {
    ShowNatReads(n);
  }

  lemma NegativeReads(n: nat)
    ensures var r := Atoi("-" + ShowNat(n)); r.Some? ==> r.value + n == 0
  {
    ShowNatReads(n);
    assert ("-" + ShowNat(n))[1..] == ShowNat(n);
  }

  lemma NotANumeral(s: string)
    requires exists c <- s :: !IsDigitChar(c) && c != '-' && c != '+'
    ensures Atoi(s) == None
  {
    var c :| c in s && !IsDigitChar(c) && c != '-' && c != '+';
    if s[0] == '-' || s[0] == '+' {
      assert s == [s[0]] + s[1..];
      assert c in s[1..];
    }
  }
}
