/** What each modification leaves under the key it names, and when it counts as a change. */
module ModificationTheorems {
  import opened Values
  import opened Modification

  /** What an argument stands for: a template for its text rendered against the record, anything
      else for itself. */
  ghost predicate StandsFor(e: Env, rec: Record, arg: Value, v: Value) {
    v == match arg
         case Str(s) => if e.isTemplate(s) then Str(e.render(s, rec)) else arg
         case _ => arg
  }

  /** The first arguments stand for these values. */
  ghost predicate Given(e: Env, rec: Record, args: seq<Value>, vs: seq<Value>) {
    |vs| <= |args| && forall i :: 0 <= i < |vs| ==> StandsFor(e, rec, args[i], vs[i])
  }

  /** The values that count as nothing. */
  ghost predicate Nothing(v: Value) {
    v in {Null, Str(""), Bool(false), Int(0), Float(0.0), List([]), Obj(map[])}
  }

  /** Equal numbers, equal strings, or values that are formatted alike; null only equals null. */
  ghost predicate Alike(e: Env, a: Value, b: Value) {
    match (a, b)
    case (Null, _) => b == Null
    case (_, Null) => false
    case (Int(i), Int(j)) => i == j
    case (Int(i), Float(g)) => i as real == g
    case (Float(f), Int(j)) => f == j as real
    case (Float(f), Float(g)) => f == g
    case (Str(s), Str(t)) => s == t
    case _ => e.sprint(a) == e.sprint(b)
  }

  lemma EqualMeansAlike(e: Env, a: Value, b: Value)
    ensures PyEqual(e, a, b) <==> Alike(e, a, b)
    ensures Truthy(a) <==> !Nothing(a)
  {
  }

  lemma FirstTwo(e: Env, rec: Record, args: seq<Value>, a: Value, b: Value)
    requires Given(e, rec, args, [a, b])
    ensures |args| >= 2 && Resolve(e, rec, args[0]) == a && Resolve(e, rec, args[1]) == b
  {
    assert [a, b][0] == a && [a, b][1] == b;
  }

  // ---- The operations ----

  /** SET stores the value under the key. It counts as a change when the value is something and
      differs from what was there. */
  lemma SetStores(e: Env, rec: Record, args: seq<Value>, key: string, value: Value)
    requires Given(e, rec, args, [Str(key), value])
    ensures var r := ApplyF(e, rec, Modification(Set, args));
            && r.Done? && key in r.rec && r.rec[key] == value && KeepsAllBut(rec, r.rec, {key})
            && (r.changed <==> !Nothing(value) && !Alike(e, if key in rec then rec[key] else Null, value))
  {
    FirstTwo(e, rec, args, Str(key), value);
    EqualMeansAlike(e, value, value);
    EqualMeansAlike(e, if key in rec then rec[key] else Null, value);
  }

  /** DELETE leaves the key absent, and is a change when it was there. */
  lemma DeleteRemoves(e: Env, rec: Record, args: seq<Value>, key: string)
    requires Given(e, rec, args, [Str(key)])
    ensures var r := ApplyF(e, rec, Modification(Delete, args));
            r.Done? && key !in r.rec && KeepsAllBut(rec, r.rec, {key}) && (r.changed <==> key in rec)
  {
    assert StandsFor(e, rec, args[0], [Str(key)][0]);
  }

  /** ARRAY_APPEND keeps the list and adds the elements of a list, or one value, at its end. */
  lemma AppendExtends(e: Env, rec: Record, args: seq<Value>, key: string, es: seq<Value>, value: Value)
    requires Given(e, rec, args, [Str(key), value]) && key in rec && rec[key] == List(es)
    ensures var r := ApplyF(e, rec, Modification(ArrayAppend, args));
            && r.Done? && r.changed && KeepsAllBut(rec, r.rec, {key}) && key in r.rec && r.rec[key].List?
            && es <= r.rec[key].elems
            && r.rec[key].elems[|es|..] == match value { case List(vs) => vs case _ => [value] }
  {
    FirstTwo(e, rec, args, Str(key), value);
  }

  /** ARRAY_DELETE takes out the first element like the value, and only that one. */
  lemma ArrayDeleteTakesFirst(e: Env, rec: Record, args: seq<Value>, key: string, es: seq<Value>, value: Value, i: nat)
    requires Given(e, rec, args, [Str(key), value]) && key in rec && rec[key] == List(es)
    requires i < |es| && Alike(e, es[i], value) && forall j :: 0 <= j < i ==> !Alike(e, es[j], value)
    ensures var r := ApplyF(e, rec, Modification(ArrayDelete, args));
            && r.Done? && r.changed && KeepsAllBut(rec, r.rec, {key}) && key in r.rec && r.rec[key].List?
            && |r.rec[key].elems| == |es| - 1
            && (forall j :: 0 <= j < i ==> r.rec[key].elems[j] == es[j])
            && (forall j :: i < j < |es| ==> r.rec[key].elems[j - 1] == es[j])
  {
    FirstTwo(e, rec, args, Str(key), value);
    FirstAlike(e, es, value, 0, i);
  }

  /** Without such an element, or without a list, ARRAY_DELETE changes nothing; nor does
      ARRAY_APPEND without a list. */
  lemma ArrayMisses(e: Env, rec: Record, args: seq<Value>, key: string, value: Value)
    requires Given(e, rec, args, [Str(key), value])
    ensures !(key in rec && rec[key].List?) ==> ApplyF(e, rec, Modification(ArrayAppend, args)) == Done(rec, false)
    ensures !(key in rec && rec[key].List? && exists x <- rec[key].elems :: Alike(e, x, value)) ==>
              ApplyF(e, rec, Modification(ArrayDelete, args)) == Done(rec, false)
  {
    FirstTwo(e, rec, args, Str(key), value);
    if key in rec && rec[key].List? && !exists x <- rec[key].elems :: Alike(e, x, value) {
      FirstAlike(e, rec[key].elems, value, 0, |rec[key].elems|);
    }
  }

  lemma {:induction false} FirstAlike(e: Env, es: seq<Value>, value: Value, from: nat, i: nat)
    requires from <= i <= |es| && (i < |es| ==> Alike(e, es[i], value))
    requires forall j :: from <= j < i ==> !Alike(e, es[j], value)
    ensures FirstEqual(e, es, value, from) == i
    decreases i - from
  {
    if from < |es| {
      EqualMeansAlike(e, es[from], value);
    }
    if from == i {
    } else {
      FirstAlike(e, es, value, from + 1, i);
    }
  }

  /** The last group of that name. */
  ghost predicate LastNamed(groups: seq<(string, string)>, i: nat, name: string) {
    i < |groups| && groups[i].0 == name && forall j :: i < j < |groups| ==> groups[j].0 != name
  }

  /** REGEX_PARSE leaves under each group's name the text the last group of that name captured. */
  lemma ParseCaptures(e: Env, rec: Record, args: seq<Value>, key: string, pattern: string,
                      groups: seq<(string, string)>, i: nat)
    requires Given(e, rec, args, [Str(key), Str(pattern)]) && key in rec && rec[key].Str? && e.compiles(pattern)
    requires e.named(pattern, rec[key].s) == Some(groups)
    ensures var r := ApplyF(e, rec, Modification(RegexParse, args));
            && r.Done? && r.changed && KeepsAllBut(rec, r.rec, set g | g in groups && g.0 != "" :: g.0)
            && (i < |groups| && groups[i].0 != "" && LastNamed(groups, i, groups[i].0) ==>
                  groups[i].0 in r.rec && r.rec[groups[i].0] == Str(groups[i].1))
  {
    FirstTwo(e, rec, args, Str(key), Str(pattern));
    if i < |groups| && groups[i].0 != "" && LastNamed(groups, i, groups[i].0) {
      MergeKeepsLast(rec, groups, i);
    }
    var names := set g | g in groups && g.0 != "" :: g.0;
    forall k | k !in names
      ensures (k in Merge(rec, groups) <==> k in rec) && (k in rec ==> Merge(rec, groups)[k] == rec[k])
    {
      MergeTouchesGroups(rec, groups, k);
    }
  }

  lemma {:induction false} MergeKeepsLast(rec: Record, groups: seq<(string, string)>, i: nat)
    requires i < |groups| && groups[i].0 != "" && LastNamed(groups, i, groups[i].0)
    ensures groups[i].0 in Merge(rec, groups) && Merge(rec, groups)[groups[i].0] == Str(groups[i].1)
    decreases |groups|
  {
    var next := if groups[0].0 == "" then rec else rec[groups[0].0 := Str(groups[0].1)];
    if i == 0 {
      assert forall g <- groups[1..] :: g.0 != "" ==> g.0 != groups[0].0;
      MergeTouchesGroups(next, groups[1..], groups[0].0);
    } else {
      MergeKeepsLast(next, groups[1..], i - 1);
    }
  }

  /** REGEX_PARSE changes nothing when the pattern is no string or is refused, the field is no
      string, or nothing matches. */
  lemma ParseMisses(e: Env, rec: Record, args: seq<Value>, key: string, pattern: Value)
    requires Given(e, rec, args, [Str(key), pattern])
    requires !(key in rec && rec[key].Str? && pattern.Str?) || !e.compiles(pattern.s)
             || e.named(pattern.s, rec[key].s).None?
    ensures ApplyF(e, rec, Modification(RegexParse, args)) == Done(rec, false)
  {
    FirstTwo(e, rec, args, Str(key), pattern);
  }

  /** REGEX_SUB stores the source text with the pattern replaced under the output key; if any
      argument or the source is no string, or the pattern is refused, it changes nothing. */
  lemma SubReplaces(e: Env, rec: Record, args: seq<Value>, key: string, out: Value, pattern: Value, sub: Value)
    requires Given(e, rec, args, [Str(key), out, pattern, sub])
    ensures var r := ApplyF(e, rec, Modification(RegexSub, args));
            if key in rec && rec[key].Str? && out.Str? && pattern.Str? && sub.Str? && e.compiles(pattern.s) then
              && r.Done? && r.changed && KeepsAllBut(rec, r.rec, {out.s})
              && out.s in r.rec && r.rec[out.s] == Str(e.replaced(pattern.s, rec[key].s, sub.s))
            else r == Done(rec, false)
  {
    var vs := [Str(key), out, pattern, sub];
    assert vs[0] == Str(key) && vs[1] == out && vs[2] == pattern && vs[3] == sub;
    assert Resolve(e, rec, args[0]) == Str(key) && Resolve(e, rec, args[1]) == out;
    assert Resolve(e, rec, args[2]) == pattern && Resolve(e, rec, args[3]) == sub;
  }

  /** A key that is not a string is not an error, and changes nothing; too few arguments and
      unknown operations are errors. */
  lemma OddModifications(e: Env, rec: Record, m: Modification, key: Value)
    ensures m.op.Unsupported? ==> ApplyF(e, rec, m) == Failed(NotSupported)
    ensures !m.op.Unsupported? && |m.args| < Needs(m.op) ==> ApplyF(e, rec, m) == Failed(TooFewArgs)
    ensures !m.op.Unsupported? && |m.args| >= Needs(m.op) && StandsFor(e, rec, m.args[0], key) && !key.Str? ==>
              ApplyF(e, rec, m) == Done(rec, false)
  {
  }

  /** How many arguments an operation needs. */
  function Needs(op: Op): nat {
    match op
    case Set => 2
    case Delete => 1
    case ArrayAppend => 2
    case ArrayDelete => 2
    case RegexParse => 2
    case RegexSub => 4
    case Unsupported(_) => 0
  }

  // ---- Parsing ----

  /** The name of an operation. */
  ghost predicate Names(name: string, op: Op) {
    match op
    case Set => name == "SET"
    case Delete => name == "DELETE"
    case ArrayAppend => name == "ARRAY_APPEND"
    case ArrayDelete => name == "ARRAY_DELETE"
    case RegexParse => name == "REGEX_PARSE"
    case RegexSub => name == "REGEX_SUB"
    case Unsupported(n) => false
  }

  /** A list parses to an operation exactly when it starts with its name; the arguments follow,
      made up to the number it needs with empty strings. */
  lemma ParsesByName(args: seq<Value>, op: Op)
    requires !op.Unsupported?
    ensures (ParseF(args).Good? && ParseF(args).m.op == op) <==> args != [] && args[0].Str? && Names(args[0].s, op)
    ensures ParseF(args).Good? && ParseF(args).m.op == op ==>
              var given, padded := args[1..], ParseF(args).m.args;
              && given <= padded && |padded| == (if |given| < Needs(op) then Needs(op) else |given|)
              && forall i :: |given| <= i < |padded| ==> padded[i] == Str("")
  {
  }

  /** Anything else is refused: an empty list, a head that is no string, an unknown name. */
  lemma RefusesTheRest(args: seq<Value>)
    ensures ParseF(args) == Bad(Empty) <==> args == []
    ensures ParseF(args) == Bad(OpNotAString) <==> args != [] && !args[0].Str?
    ensures ParseF(args) == Bad(NotSupported) <==>
            args != [] && args[0].Str? && !exists op: Op :: Names(args[0].s, op)
  {
    if args != [] && args[0].Str? {
      var name := args[0].s;
      if !OpOf(name).Unsupported? {
        assert Names(name, OpOf(name));
      }
    }
  }

  /** An object is valid unless its modifications are something other than a list of lists that
      each start with the name of an operation. */
  lemma ValidExactly(obj: Record)
    ensures Valid(obj) <==>
            ("modifications" in obj ==>
               && obj["modifications"].List?
               && forall i :: 0 <= i < |obj["modifications"].elems| ==> IsModification(obj["modifications"].elems[i]))
  {
    if "modifications" in obj && obj["modifications"].List? {
      var entries := obj["modifications"].elems;
      forall i | 0 <= i < |entries| ensures Acceptable(entries[i]) <==> IsModification(entries[i]) {
        if entries[i].List? {
          AcceptsByName(entries[i].elems);
        }
      }
    }
  }

  /** A list that starts with the name of an operation. */
  ghost predicate IsModification(v: Value) {
    v.List? && v.elems != [] && v.elems[0].Str? && exists op: Op :: Names(v.elems[0].s, op)
  }

  lemma AcceptsByName(args: seq<Value>)
    ensures ParseF(args).Good? <==> args != [] && args[0].Str? && exists op: Op :: Names(args[0].s, op)
  {
    RefusesTheRest(args);
  }

  // ---- Splitting template expressions ----

  predicate NoParens(s: string) { '(' !in s && ')' !in s }

  /** Without parentheses, an expression is split at every separator. */
  lemma {:induction false} PlainSplits(s: string, sep: char, start: nat, i: nat)
    requires NoParens(s) && start <= i <= |s| && sep !in s[start..i]
    ensures forall piece <- SplitFrom(s, sep, start, i, 0) :: sep !in piece
    decreases |s| - i
  {
    if i == |s| {
      assert s[start..i] == s[start..];
    } else {
      assert s[i] in s;
      if s[i] == sep {
        PlainSplits(s, sep, i + 1, i + 1);
      } else {
        assert s[start..i + 1] == s[start..i] + [s[i]];
        PlainSplits(s, sep, start, i + 1);
      }
    }
  }

  /** A parenthesised expression is not split. */
  lemma ParenthesesProtect(t: string, sep: char)
    requires NoParens(t) && sep != '(' && sep != ')'
    ensures SplitFrom("(" + t + ")", sep, 0, 0, 0) == ["(" + t + ")"]
  {
    var s := "(" + t + ")";
    assert forall i :: 1 <= i <= |t| ==> s[i] == t[i - 1];
    InsideIsKept(s, sep, 1);
    assert s[0..] == s;
  }

  lemma {:induction false} InsideIsKept(s: string, sep: char, i: nat)
    requires 1 <= i < |s| && s[|s| - 1] == ')' && sep != ')'
    requires forall j :: 1 <= j < |s| - 1 ==> s[j] != '(' && s[j] != ')'
    ensures SplitFrom(s, sep, 0, i, 1) == [s[0..]]
    decreases |s| - i
  {
    if i == |s| - 1 {
      assert SplitFrom(s, sep, 0, |s|, 0) == [s[0..]];
    } else {
      InsideIsKept(s, sep, i + 1);
    }
  }
}
