/** What each operator answers, in terms of the record's own values: the matcher proved against
    the plain order of numbers and strings, field by field. */
module MatchTheorems {
  import opened Values
  import opened Conditions
  import opened Evaluator
  import WireCodec

  /** A field that names a top-level member of the record. */
  predicate Plain(field: string) { field != "" && '.' !in field }

  lemma PlainReads(rec: Record, field: string)
    requires Plain(field)
    ensures DotDig(rec, field) == if field in rec then Some(rec[field]) else None
    ensures Got(rec, field) == if field in rec then rec[field] else Null
  {
    FieldReads(rec, field);
  }

  // ---- The order of values ----

  /** The two agree up to `k`, where `s` has the smaller character or has ended. */
  predicate FirstDiffer(s: string, t: string, k: nat) {
    k <= |s| && k < |t| && s[..k] == t[..k] && (k == |s| || s[k] < t[k])
  }

  /** `s` comes first: at the first position where the two differ it has the smaller character,
      or it has ended there. */
  ghost predicate Precedes(s: string, t: string) { exists k :: FirstDiffer(s, t, k) }

  lemma {:induction false} StringLessPrecedes(s: string, t: string)
    ensures StringLess(s, t) <==> Precedes(s, t)
    decreases |s|
  {
    if s == "" || t == "" || s[0] != t[0] {
      PrecedesByHead(s, t);
    } else {
      StringLessPrecedes(s[1..], t[1..]);
      PrecedesByTail(s, t);
    }
  }

  lemma PrecedesByHead(s: string, t: string)
    requires s == "" || t == "" || s[0] != t[0]
    ensures Precedes(s, t) <==> t != "" && (s == "" || s[0] < t[0])
  {
    if t != "" && (s == "" || s[0] < t[0]) {
      assert FirstDiffer(s, t, 0);
    }
    if k :| FirstDiffer(s, t, k) {
      if k > 0 {
        HeadsAgree(s, t, k);
      }
    }
  }

  lemma HeadsAgree(s: string, t: string, k: nat)
    requires FirstDiffer(s, t, k) && k > 0
    ensures s != "" && t != "" && s[0] == t[0] && FirstDiffer(s[1..], t[1..], k - 1)
  {
    assert s[0] == s[..k][0] && t[0] == t[..k][0];
    assert s[1..][..k - 1] == s[..k][1..] && t[1..][..k - 1] == t[..k][1..];
  }

  lemma HeadsJoin(s: string, t: string, k: nat)
    requires s != "" && t != "" && s[0] == t[0] && FirstDiffer(s[1..], t[1..], k)
    ensures FirstDiffer(s, t, k + 1)
  {
    assert s[..k + 1] == [s[0]] + s[1..][..k] && t[..k + 1] == [t[0]] + t[1..][..k];
  }

  lemma PrecedesByTail(s: string, t: string)
    requires s != "" && t != "" && s[0] == t[0]
    ensures Precedes(s, t) <==> Precedes(s[1..], t[1..])
  {
    if k :| FirstDiffer(s, t, k) {
      HeadsAgree(s, t, k);
    }
    if k :| FirstDiffer(s[1..], t[1..], k) {
      HeadsJoin(s, t, k);
    }
  }

  /** Numbers by size, whatever their kinds, and strings character by character; nothing else is ordered. */
  ghost predicate Below(a: Value, b: Value) {
    match (a, b)
    case (Int(i), Int(j)) => i < j
    case (Int(i), Float(g)) => i as real < g
    case (Float(f), Int(j)) => f < j as real
    case (Float(f), Float(g)) => f < g
    case (Str(s), Str(t)) => Precedes(s, t)
    case _ => false
  }

  /** Equal as numbers, or equal values of one kind. */
  ghost predicate Same(a: Value, b: Value) {
    match (a, b)
    case (Int(i), Float(g)) => i as real == g
    case (Float(f), Int(j)) => f == j as real
    case _ => a == b
  }

  predicate Comparable(a: Value, b: Value) {
    (a.Str? && b.Str?) || ((a.Int? || a.Float?) && (b.Int? || b.Float?))
  }

  /** `=` is sameness. */
  lemma EqualsMeansSame(a: Value, b: Value)
    ensures EqualsValue(a, b) <==> Same(a, b)
    ensures a.Bool? && b.Bool? ==> (EqualsValue(a, b) <==> a.b == b.b)
  {
  }

  /** The sign of a comparison is that of the order of the two values. */
  lemma CompareSign(a: Value, b: Value)
    ensures CompareValues(a, b).Some? <==> Comparable(a, b)
    ensures CompareValues(a, b) == Some(-1) <==> Below(a, b)
    ensures CompareValues(a, b) == Some(1) <==> Below(b, a)
    ensures CompareValues(a, b) == Some(0) <==> Comparable(a, b) && Same(a, b)
  {
    CompareIsAnOrder(a, b);
    if a.Str? && b.Str? {
      StringLessPrecedes(a.s, b.s);
      StringLessPrecedes(b.s, a.s);
      StringOrder(a.s, b.s);
    }
  }

  /** The directions spelled out on numbers of either kind. */
  lemma NumbersCompare(i: int, j: int, f: real, g: real)
    ensures CompareValues(Int(i), Int(j)) == Some(if i < j then -1 else if i > j then 1 else 0)
    ensures CompareValues(Float(f), Float(g)) == Some(if f < g then -1 else if f > g then 1 else 0)
    ensures CompareValues(Int(i), Float(g)) == Some(if i as real < g then -1 else if i as real > g then 1 else 0)
    ensures CompareValues(Float(f), Int(j)) == Some(if f < j as real then -1 else if f > j as real then 1 else 0)
  {
    CompareSign(Int(i), Int(j));
  }

  // ---- Leaves ----

  /** A leaf's own field and value decide; no pattern, no child and no embedded condition is involved. */
  lemma LeafMatches(e: Engine, rec: Record, op: Op, field: string, v: Value)
    requires !op.Matches? && !op.In?
    ensures Match(e, rec, Leaf(op, field, v)) <==> Meaning(e, Leaf(op, field, v), rec)
  {
    MatchMeans(e, rec, Leaf(op, field, v));
  }

  /** A comparison matches exactly when the field is there and stands in that order to the value. */
  lemma OrderMatches(e: Engine, rec: Record, field: string, v: Value)
    requires Plain(field)
    ensures Match(e, rec, Leaf(Gt, field, v)) <==> field in rec && Below(v, rec[field])
    ensures Match(e, rec, Leaf(Lt, field, v)) <==> field in rec && Below(rec[field], v)
  {
    PlainReads(rec, field);
    LeafMatches(e, rec, Gt, field, v);
    LeafMatches(e, rec, Lt, field, v);
    if field in rec {
      CompareSign(rec[field], v);
    }
  }

  lemma WeakOrderMatches(e: Engine, rec: Record, field: string, v: Value)
    requires Plain(field)
    ensures Match(e, rec, Leaf(Gte, field, v)) <==>
            field in rec && Comparable(rec[field], v) && (Below(v, rec[field]) || Same(rec[field], v))
    ensures Match(e, rec, Leaf(Lte, field, v)) <==>
            field in rec && Comparable(rec[field], v) && (Below(rec[field], v) || Same(rec[field], v))
  {
    PlainReads(rec, field);
    LeafMatches(e, rec, Gte, field, v);
    LeafMatches(e, rec, Lte, field, v);
    if field in rec {
      CompareSign(rec[field], v);
    }
  }

  /** On integers the four comparisons are those of the integers. */
  lemma IntegersMatch(e: Engine, rec: Record, field: string, i: int, j: int)
    requires Plain(field) && field in rec && rec[field] == Int(i)
    ensures Match(e, rec, Leaf(Gt, field, Int(j))) <==> i > j
    ensures Match(e, rec, Leaf(Gte, field, Int(j))) <==> i >= j
    ensures Match(e, rec, Leaf(Lt, field, Int(j))) <==> i < j
    ensures Match(e, rec, Leaf(Lte, field, Int(j))) <==> i <= j
  {
    OrderMatches(e, rec, field, Int(j));
    WeakOrderMatches(e, rec, field, Int(j));
  }

  /** A missing field equals null and nothing else; EXISTS wants a field that is not null. */
  lemma EqualityMatches(e: Engine, rec: Record, field: string, v: Value)
    requires Plain(field)
    ensures Match(e, rec, Leaf(Eq, field, v)) <==> if field in rec then Same(rec[field], v) else v.Null?
    ensures Match(e, rec, Leaf(Neq, field, v)) <==> !Match(e, rec, Leaf(Eq, field, v))
    ensures Match(e, rec, Leaf(Exists, field, v)) <==> field in rec && !rec[field].Null?
  {
    PlainReads(rec, field);
    EqualsMeansSame(if field in rec then rec[field] else Null, v);
    LeafMatches(e, rec, Eq, field, v);
    LeafMatches(e, rec, Neq, field, v);
    LeafMatches(e, rec, Exists, field, v);
  }

  /** A scalar that went through JSON, an integer having become a float, compares as before. */
  lemma WireKeepsComparisons(e: Engine, rec: Record, op: Op, field: string, v: Value)
    requires op in {Eq, Neq, Gt, Gte, Lt, Lte} && !v.List? && !v.Obj?
    ensures Match(e, rec, Leaf(op, field, WireCodec.Jsoned(v))) <==> Match(e, rec, Leaf(op, field, v))
  {
    LeafMatches(e, rec, op, field, v);
    LeafMatches(e, rec, op, field, WireCodec.Jsoned(v));
  }

  // ---- Text ----

  /** The text of a value: a string itself, anything else as it is formatted. */
  function TextOf(e: Engine, v: Value): string {
    match v
    case Str(s) => s
    case _ => e.sprint(v)
  }

  /** The pattern, made case-insensitive, is accepted and occurs in the field's text. */
  ghost predicate PatternFound(e: Engine, rec: Record, field: string, pattern: string) {
    e.compiles("(?i)" + pattern) && field in rec && !rec[field].Null?
    && e.finds("(?i)" + pattern, TextOf(e, rec[field]))
  }

  /** MATCHES searches the pattern, without the slashes around it if it has both; a value that
      is not a string is the empty pattern. */
  lemma PatternMatches(e: Engine, rec: Record, field: string, pattern: string, v: Value)
    requires Plain(field)
    ensures Match(e, rec, Leaf(Matches, field, Str("/" + pattern + "/"))) <==> PatternFound(e, rec, field, pattern)
    ensures !(|pattern| >= 2 && pattern[0] == '/' && pattern[|pattern| - 1] == '/') ==>
              (Match(e, rec, Leaf(Matches, field, Str(pattern))) <==> PatternFound(e, rec, field, pattern))
    ensures !v.Str? ==> (Match(e, rec, Leaf(Matches, field, v)) <==> PatternFound(e, rec, field, ""))
  {
    PlainReads(rec, field);
    var sugared := "/" + pattern + "/";
    assert sugared[1..|sugared| - 1] == pattern;
    MatchMeans(e, rec, Leaf(Matches, field, Str(sugared)));
    MatchMeans(e, rec, Leaf(Matches, field, Str(pattern)));
    MatchMeans(e, rec, Leaf(Matches, field, v));
  }

  /** The quoted needle, made case-insensitive, occurs in the text. */
  ghost predicate NeedleFound(e: Engine, needle: Value, hay: Value) {
    e.compiles("(?i)" + e.quote(TextOf(e, needle)))
    && e.finds("(?i)" + e.quote(TextOf(e, needle)), TextOf(e, hay))
  }

  /** CONTAINS holds when some leaf of the value occurs in some leaf of the field. */
  lemma ContainsMatches(e: Engine, rec: Record, field: string, v: Value)
    requires Plain(field)
    ensures Match(e, rec, Leaf(Contains, field, v)) <==>
            exists n, h :: && IsLeafOf(n, v) && IsLeafOf(h, if field in rec then rec[field] else Null)
                           && NeedleFound(e, n, h)
  {
    PlainReads(rec, field);
    LeafMatches(e, rec, Contains, field, v);
    forall n, h ensures LazySearch(e, n, h) <==> NeedleFound(e, n, h) {
    }
  }

  /** SEARCH holds when the value's text stands somewhere in the record's text. */
  lemma SearchMatches(e: Engine, rec: Record, v: Value)
    ensures Match(e, rec, Leaf(Search, "", v)) <==>
            exists i, j :: 0 <= i <= j <= |e.repr(rec)| && e.repr(rec)[i..j] == TextOf(e, v)
  {
    LeafMatches(e, rec, Search, "", v);
    var text, needle := e.repr(rec), TextOf(e, v);
    if HasSubstring(text, needle) {
      var i :| 0 <= i <= |text| && needle <= text[i..];
      assert text[i..i + |needle|] == needle;
    }
    if i, j :| 0 <= i <= j <= |text| && text[i..j] == needle {
      assert needle <= text[i..];
    }
  }

  // ---- Membership ----

  predicate OperatorName(s: string) {
    s in {"AND", "OR", "NOT", "=", "!=", ">", ">=", "<", "<=", "MATCHES", "EXISTS", "CONTAINS", "IN", "SEARCH"}
  }

  /** The value reads like a condition: a list that starts with an operator's name. */
  predicate ReadsLikeCond(v: Value) { v.List? && v.elems != [] && v.elems[0].Str? && OperatorName(v.elems[0].s) }

  /** IN with plain values: some leaf of the field is the same as some leaf of the value. */
  lemma MemberMatches(e: Engine, rec: Record, field: string, v: Value)
    requires Plain(field) && (ReadsLikeCond(v) ==> FromListF(v).Bad?)
    ensures Match(e, rec, Leaf(In, field, v)) <==>
            exists m, x :: IsLeafOf(m, if field in rec then rec[field] else Null) && IsLeafOf(x, v) && Same(m, x)
  {
    PlainReads(rec, field);
    MatchMeans(e, rec, Leaf(In, field, v));
    forall m, x ensures EqualsValue(m, x) <==> Same(m, x) {
      EqualsMeansSame(m, x);
    }
  }

  /** IN with a condition: the field is a list and the condition matches one of its objects. */
  lemma ElementMatches(e: Engine, rec: Record, field: string, v: Value, c: Cond)
    requires Plain(field) && ReadsLikeCond(v) && FromListF(v) == Ok(c)
    ensures Match(e, rec, Leaf(In, field, v)) <==>
            field in rec && rec[field].List? && exists x <- rec[field].elems :: x.Obj? && Match(e, x.fields, c)
  {
    PlainReads(rec, field);
    MatchMeans(e, rec, Leaf(In, field, v));
    if field in rec && rec[field].List? {
      forall x | x in rec[field].elems && x.Obj?
        ensures Match(e, x.fields, c) <==> Compilable(e, c) && Meaning(e, c, x.fields)
      {
        MatchMeans(e, x.fields, c);
      }
    }
  }

  // ---- Nodes ----

  /** AND of any number of operands holds when all do, compiling or not; of none, always. */
  lemma AllOf(e: Engine, rec: Record, cs: seq<Cond>)
    ensures Match(e, rec, Node(And, cs)) <==> forall i :: 0 <= i < |cs| ==> Match(e, rec, cs[i])
  {
    EachMeans(e, rec, cs);
    MatchMeans(e, rec, Node(And, cs));
  }

  /** OR holds when all operands compile and one holds; of none, never. */
  lemma AnyOf(e: Engine, rec: Record, cs: seq<Cond>)
    ensures Match(e, rec, Node(Or, cs)) <==>
            && (forall i :: 0 <= i < |cs| ==> CompileF(e, cs[i]).Ready?)
            && exists i :: 0 <= i < |cs| && Match(e, rec, cs[i])
  {
    EachMeans(e, rec, cs);
    MatchMeans(e, rec, Node(Or, cs));
  }

  /** NOT holds of a single operand that compiles and fails; with more or fewer operands, never. */
  lemma NoneOf(e: Engine, rec: Record, cs: seq<Cond>)
    ensures Match(e, rec, Node(Op.Not, cs)) <==>
            |cs| == 1 && CompileF(e, cs[0]).Ready? && !Match(e, rec, cs[0])
  {
    EachMeans(e, rec, cs);
    MatchMeans(e, rec, Node(Op.Not, cs));
  }

  lemma EachMeans(e: Engine, rec: Record, cs: seq<Cond>)
    ensures forall i :: 0 <= i < |cs| ==> (Match(e, rec, cs[i]) <==> Compilable(e, cs[i]) && Meaning(e, cs[i], rec))
    ensures forall i :: 0 <= i < |cs| ==> (CompileF(e, cs[i]).Ready? <==> Compilable(e, cs[i]))
  {
    forall i | 0 <= i < |cs|
      ensures Match(e, rec, cs[i]) <==> Compilable(e, cs[i]) && Meaning(e, cs[i], rec)
      ensures CompileF(e, cs[i]).Ready? <==> Compilable(e, cs[i])
    {
      MatchMeans(e, rec, cs[i]);
      CompilesIffCompilable(e, cs[i]);
    }
  }

  /** The empty condition matches every record, an unknown operator none. */
  lemma ConstantMatches(e: Engine, rec: Record, name: string, field: string, v: Value)
    ensures Match(e, rec, ZERO) && !Match(e, rec, Leaf(Unknown(name), field, v))
  {
    MatchMeans(e, rec, ZERO);
    MatchMeans(e, rec, Leaf(Unknown(name), field, v));
  }

  // ---- What a refused compilation blames ----

  /** `n` is the node itself, or a node of one of its operands or of its embedded condition. */
  ghost predicate Within(n: Cond, c: Cond)
    decreases CondSize(c)
  {
    SubCondSmaller(c);
    || n == c
    || (SubCond(c).Some? && Within(n, SubCond(c).value))
    || exists i :: 0 <= i < |c.children| && (CondSizesAt(c.children, i); Within(n, c.children[i]))
  }

  ghost predicate Refused(e: Engine, n: Cond) { n.op.Matches? && !e.compiles(MatchesPattern(n.value)) }

  /** A refused compilation names a MATCHES node of the tree whose pattern is refused. */
  lemma {:induction false} RejectedIsRefused(e: Engine, c: Cond)
    ensures CompileF(e, c).Rejected? ==> Refused(e, CompileF(e, c).node) && Within(CompileF(e, c).node, c)
    decreases CondSize(c), 1
  {
    SubCondSmaller(c);
    if SubCond(c).Some? {
      RejectedIsRefused(e, SubCond(c).value);
    }
    if CompileAll(e, c.children).RejectedAll? {
      var i := RejectedKid(e, c.children);
      CondSizesAt(c.children, i);
    }
  }

  lemma {:induction false} RejectedKid(e: Engine, cs: seq<Cond>) returns (i: nat)
    requires CompileAll(e, cs).RejectedAll?
    ensures i < |cs| && Refused(e, CompileAll(e, cs).node) && Within(CompileAll(e, cs).node, cs[i])
    decreases CondSizes(cs), 2
  {
    RejectedIsRefused(e, cs[0]);
    i := 0;
    if CompileF(e, cs[0]).Ready? {
      i := RejectedKid(e, cs[1..]);
      i := i + 1;
    }
  }
}
