/** The trees the parser produces, rendering them back to tokens, and what its rewrites mean. */
module NormalForm {
  import opened Values
  import opened Conditions
  import opened Grammar
  import opened Parser
  import opened ParserTheorems
  import opened Evaluator

  // ---- Explicit AND is optional ----

  /** The tokens without any explicit AND. */
  function Erase(ts: seq<Tok>): seq<Tok> {
    if ts == [] then []
    else (if ts[0] == AndMark then [] else [ts[0]]) + Erase(ts[1..])
  }

  lemma {:induction false} EraseAppends(a: seq<Tok>, b: seq<Tok>)
    ensures Erase(a + b) == Erase(a) + Erase(b)
  {
    if a == [] {
      assert a + b == b;
    } else {
      assert (a + b)[1..] == a[1..] + b;
      EraseAppends(a[1..], b);
    }
  }

  predicate NoAnds(ts: seq<Tok>) { forall i :: 0 <= i < |ts| ==> ts[i] != AndMark }

  lemma {:induction false} EraseKeeps(ts: seq<Tok>)
    requires NoAnds(ts)
    ensures Erase(ts) == ts
  {
    if ts == [] {
    } else {
      EraseKeeps(ts[1..]);
      assert ts == [ts[0]] + ts[1..];
    }
  }

  lemma {:induction false} LitHasNoAnds(l: Lit)
    ensures NoAnds(LitToks(l))
  {
    match l {
      case Array(items) => ItemsHaveNoAnds(items);
      case Table(entries) => EntriesHaveNoAnds(entries);
      case _ =>
    }
  }

  lemma {:induction false} ItemsHaveNoAnds(items: Lits)
    ensures NoAnds(ItemToks(items))
  {
    if items.MoreLit? {
      LitHasNoAnds(items.head);
      ItemsHaveNoAnds(items.tail);
    }
  }

  lemma {:induction false} EntriesHaveNoAnds(entries: Entries)
    ensures NoAnds(EntryToks(entries))
  {
    if entries.MoreEntry? {
      LitHasNoAnds(entries.val);
      EntriesHaveNoAnds(entries.tail);
    }
  }

  function ImplicitAnd(a: AndE): AndE { AndE(ImplicitOr(a.head), ImplicitAndTail(a.tail)) }

  function ImplicitAndTail(t: AndTail): AndTail {
    match t
    case AndEnd => AndEnd
    case AndMore(_, e, rest) => AndMore(false, ImplicitOr(e), ImplicitAndTail(rest))
  }

  function ImplicitOr(o: OrE): OrE { OrE(ImplicitNot(o.head), ImplicitOrTail(o.tail)) }

  function ImplicitOrTail(t: OrTail): OrTail {
    match t
    case OrEnd => OrEnd
    case OrMore(e, rest) => OrMore(ImplicitNot(e), ImplicitOrTail(rest))
  }

  function ImplicitNot(n: NotE): NotE {
    match n
    case Negated(e) => Negated(ImplicitNot(e))
    case Plain(t) => Plain(if t.Paren? then Paren(ImplicitAnd(t.e)) else t)
  }

  lemma {:induction false} ImplicitSpellsErased(a: AndE)
    ensures AndToks(ImplicitAnd(a)) == Erase(AndToks(a))
    ensures AndCond(ImplicitAnd(a)) == AndCond(a)
  {
    ImplicitOrSpells(a.head);
    ImplicitTailSpells(OrCond(a.head), a.tail);
    EraseAppends(OrToks(a.head), AndTailToks(a.tail));
  }

  lemma {:induction false} ImplicitTailSpells(left: Cond, t: AndTail)
    ensures AndTailToks(ImplicitAndTail(t)) == Erase(AndTailToks(t))
    ensures AndTailCond(left, ImplicitAndTail(t)) == AndTailCond(left, t)
    decreases t
  {
    if t.AndMore? {
      ImplicitOrSpells(t.e);
      ImplicitTailSpells(Merge(Op.And, left, OrCond(t.e)), t.rest);
      EraseAppends(OrToks(t.e), AndTailToks(t.rest));
      var body := OrToks(t.e) + AndTailToks(t.rest);
      EraseAppends(if t.explicit then [AndMark] else [], body);
      assert Erase(if t.explicit then [AndMark] else []) == [];
    }
  }

  lemma {:induction false} ImplicitOrSpells(o: OrE)
    ensures OrToks(ImplicitOr(o)) == Erase(OrToks(o))
    ensures OrCond(ImplicitOr(o)) == OrCond(o)
  {
    ImplicitNotSpells(o.head);
    ImplicitOrTailSpells(NotCond(o.head), o.tail);
    EraseAppends(NotToks(o.head), OrTailToks(o.tail));
  }

  lemma {:induction false} ImplicitOrTailSpells(left: Cond, t: OrTail)
    ensures OrTailToks(ImplicitOrTail(t)) == Erase(OrTailToks(t))
    ensures OrTailCond(left, ImplicitOrTail(t)) == OrTailCond(left, t)
    decreases t
  {
    if t.OrMore? {
      ImplicitNotSpells(t.e);
      ImplicitOrTailSpells(Merge(Op.Or, left, NotCond(t.e)), t.rest);
      EraseAppends(NotToks(t.e), OrTailToks(t.rest));
      var body := NotToks(t.e) + OrTailToks(t.rest);
      EraseAppends([OrMark], body);
      assert Erase([OrMark]) == [OrMark];
    }
  }

  lemma {:induction false} ImplicitNotSpells(n: NotE)
    ensures NotToks(ImplicitNot(n)) == Erase(NotToks(n))
    ensures NotCond(ImplicitNot(n)) == NotCond(n)
  {
    match n {
      case Negated(e) =>
        ImplicitNotSpells(e);
        EraseAppends([NotMark], NotToks(e));
        assert Erase([NotMark]) == [NotMark];
      case Plain(t) =>
        if t.Paren? {
          ImplicitSpellsErased(t.e);
          EraseAppends(AndToks(t.e), [RParen]);
          EraseAppends([LParen], AndToks(t.e) + [RParen]);
          assert Erase([LParen]) == [LParen] && Erase([RParen]) == [RParen];
        } else {
          LeafHasNoAnds(t);
          EraseKeeps(TermToks(t));
        }
    }
  }

  lemma {:induction false} LeafHasNoAnds(t: Term)
    requires !t.Paren?
    ensures NoAnds(TermToks(t))
  {
    match t {
      case Comparison(_, _, _, v) => LitHasNoAnds(v);
      case Membership(l, _, _) => LitHasNoAnds(l);
      case FullText(l) => LitHasNoAnds(l);
      case _ =>
    }
  }

  /** Erasing every explicit AND from an accepted query leaves its tree unchanged. */
  lemma ErasingAndsKeepsTheTree(ts: seq<Tok>)
    requires Stream(ts) && ParseF(ts).Good?
    ensures Stream(Erase(ts)) && ParseF(Erase(ts)).Good? && ParseF(Erase(ts)).val == ParseF(ts).val
  {
    var c := ParseF(ts).val;
    ParserIsTheGrammar(ts, c);
    var a :| Spells(a, ts) && AndCond(a) == c;
    ImplicitSpellsErased(a);
    EraseAppends(AndToks(a), [EOF]);
    assert Erase([EOF]) == [EOF];
    assert Spells(ImplicitAnd(a), Erase(ts));
    EraseStreams(ts);
    ParserIsTheGrammar(Erase(ts), c);
  }

  lemma {:induction false} EraseStreams(ts: seq<Tok>)
    requires Stream(ts)
    ensures Stream(Erase(ts))
  {
    if |ts| > 1 {
      assert Stream(ts[1..]) by {
        assert forall i :: 0 <= i < |ts[1..]| ==> ts[1..][i] == ts[i + 1];
      }
      EraseStreams(ts[1..]);
      assert ts[0] != EOF;
    }
  }

  // ---- Parser normal form ----

  ghost predicate IsLiteral(v: Value)
    decreases v
  {
    match v
    case Null => false
    case List(es) => forall e <- es :: IsLiteral(e)
    case Obj(m) => forall k <- m :: IsLiteral(m[k])
    case _ => true
  }

  /** Binary AND/OR whose left child is not the same operator, one-child NOT, and leaves
      holding literals. */
  ghost predicate ParserNormal(c: Cond)
    decreases c
  {
    match c.op
    case And => Binary(c) && c.children[0].op != c.op && ParserNormal(c.children[0]) && ParserNormal(c.children[1])
    case Or => Binary(c) && c.children[0].op != c.op && ParserNormal(c.children[0]) && ParserNormal(c.children[1])
    case Not => |c.children| == 1 && c == Node(Op.Not, c.children) && ParserNormal(c.children[0])
    case Exists => c == Leaf(c.op, c.field, Null)
    case In => c == Leaf(c.op, c.field, c.value) && IsLiteral(c.value)
    case Search => c == Leaf(c.op, "", c.value) && IsLiteral(c.value)
    case _ => c.op.IsBinary() && c == Leaf(c.op, c.field, c.value) && IsLiteral(c.value)
  }

  predicate Binary(c: Cond) { |c.children| == 2 && c == Node(c.op, c.children) }

  // ---- Everything parsed is normal ----

  lemma {:induction false} LitIsLiteral(l: Lit)
    ensures IsLiteral(LitValue(l))
  {
    match l {
      case Array(items) => ItemsAreLiteral(items);
      case Table(entries) => EntriesAreLiteral(map[], entries);
      case _ =>
    }
  }

  lemma {:induction false} ItemsAreLiteral(items: Lits)
    ensures forall v <- ItemValues(items) :: IsLiteral(v)
  {
    if items.MoreLit? {
      LitIsLiteral(items.head);
      ItemsAreLiteral(items.tail);
    }
  }

  lemma {:induction false} EntriesAreLiteral(acc: map<string, Value>, entries: Entries)
    requires forall k <- acc :: IsLiteral(acc[k])
    ensures forall k <- EntryValues(acc, entries) :: IsLiteral(EntryValues(acc, entries)[k])
    decreases entries
  {
    if entries.MoreEntry? {
      LitIsLiteral(entries.val);
      EntriesAreLiteral(acc[entries.key := LitValue(entries.val)], entries.tail);
    }
  }

  lemma {:induction false} MergeIsNormal(op: Op, left: Cond, right: Cond)
    requires op.And? || op.Or?
    requires ParserNormal(left) && ParserNormal(right)
    ensures ParserNormal(Merge(op, left, right)) && Merge(op, left, right).op == op
    decreases left
  {
    if left.op == op && |left.children| == 2 {
      MergeIsNormal(op, left.children[1], right);
    }
  }

  lemma {:induction false} AndIsNormal(a: AndE)
    ensures ParserNormal(AndCond(a))
  {
    OrIsNormal(a.head);
    AndTailIsNormal(OrCond(a.head), a.tail);
  }

  lemma {:induction false} AndTailIsNormal(left: Cond, t: AndTail)
    requires ParserNormal(left)
    ensures ParserNormal(AndTailCond(left, t))
    decreases t
  {
    if t.AndMore? {
      OrIsNormal(t.e);
      MergeIsNormal(Op.And, left, OrCond(t.e));
      AndTailIsNormal(Merge(Op.And, left, OrCond(t.e)), t.rest);
    }
  }

  lemma {:induction false} OrIsNormal(o: OrE)
    ensures ParserNormal(OrCond(o))
  {
    NotIsNormal(o.head);
    OrTailIsNormal(NotCond(o.head), o.tail);
  }

  lemma {:induction false} OrTailIsNormal(left: Cond, t: OrTail)
    requires ParserNormal(left)
    ensures ParserNormal(OrTailCond(left, t))
    decreases t
  {
    if t.OrMore? {
      NotIsNormal(t.e);
      MergeIsNormal(Op.Or, left, NotCond(t.e));
      OrTailIsNormal(Merge(Op.Or, left, NotCond(t.e)), t.rest);
    }
  }

  lemma {:induction false} NotIsNormal(n: NotE)
    ensures ParserNormal(NotCond(n))
  {
    match n {
      case Negated(e) => NotIsNormal(e);
      case Plain(t) =>
        match t {
          case Paren(e) => AndIsNormal(e);
          case Comparison(_, _, _, v) => LitIsLiteral(v);
          case Membership(l, _, _) => LitIsLiteral(l);
          case FullText(l) => LitIsLiteral(l);
          case Presence(_, _, _) =>
        }
    }
  }

  // ---- Rendering a normal tree, with parentheses only where precedence needs them ----

  ghost function LitOf(v: Value): Lit
    requires IsLiteral(v)
    decreases v, 1
  {
    match v
    case Bool(b) => Truth(b)
    case Int(i) => Integer(i)
    case Float(f) => Decimal(f)
    case Str(s) => Word(s, true)
    case List(es) => Array(LitsOf(v, |es|))
    case Obj(m) => Table(EntriesOf(v, m.Keys))
  }

  /** The last `left` items. */
  ghost function LitsOf(v: Value, left: nat): Lits
    requires IsLiteral(v) && v.List? && left <= |v.elems|
    decreases v, 0, left
  {
    if left == 0 then NoLit else MoreLit(LitOf(v.elems[|v.elems| - left]), LitsOf(v, left - 1))
  }

  /** The entries of `keys`, in some order. */
  ghost function EntriesOf(v: Value, keys: set<string>): Entries
    requires IsLiteral(v) && v.Obj? && keys <= v.fields.Keys
    decreases v, 0, keys
  {
    if keys == {} then NoEntry
    else var k :| k in keys; MoreEntry(k, true, LitOf(v.fields[k]), EntriesOf(v, keys - {k}))
  }

  lemma {:induction false} LitOfDenotes(v: Value)
    requires IsLiteral(v)
    ensures LitValue(LitOf(v)) == v
    decreases v, 1
  {
    match v {
      case List(es) =>
        LitsOfDenote(v, |es|);
      case Obj(m) =>
        EntriesOfDenote(map[], v, m.Keys);
      case _ =>
    }
  }

  lemma {:induction false} LitsOfDenote(v: Value, left: nat)
    requires IsLiteral(v) && v.List? && left <= |v.elems|
    ensures ItemValues(LitsOf(v, left)) == v.elems[|v.elems| - left..]
    decreases v, 0, left
  {
    if left == 0 {
    } else {
      LitOfDenotes(v.elems[|v.elems| - left]);
      LitsOfDenote(v, left - 1);
    }
  }

  lemma {:induction false} EntriesOfDenote(acc: map<string, Value>, v: Value, keys: set<string>)
    requires IsLiteral(v) && v.Obj? && keys <= v.fields.Keys && acc.Keys == v.fields.Keys - keys
    requires forall k <- acc :: acc[k] == v.fields[k]
    ensures EntryValues(acc, EntriesOf(v, keys)) == v.fields
    decreases v, 0, keys
  {
    if keys == {} {
    } else {
      var e := EntriesOf(v, keys);
      var k := e.key;
      assert k in keys && e == MoreEntry(k, true, LitOf(v.fields[k]), EntriesOf(v, keys - {k}));
      LitOfDenotes(v.fields[k]);
      EntriesOfDenote(acc[k := v.fields[k]], v, keys - {k});
    }
  }

  ghost function RenderAnd(c: Cond): AndE
    requires ParserNormal(c)
    decreases c, 3
  {
    if c.op.And? then AndE(RenderOr(c.children[0]), RenderAndTail(c.children[1])) else AndE(RenderOr(c), AndEnd)
  }

  ghost function RenderAndTail(c: Cond): AndTail
    requires ParserNormal(c)
    decreases c, 3
  {
    if c.op.And? then AndMore(true, RenderOr(c.children[0]), RenderAndTail(c.children[1]))
    else AndMore(true, RenderOr(c), AndEnd)
  }

  ghost function RenderOr(c: Cond): OrE
    requires ParserNormal(c)
    decreases c, 2
  {
    if c.op.Or? then OrE(RenderNot(c.children[0]), RenderOrTail(c.children[1])) else OrE(RenderNot(c), OrEnd)
  }

  ghost function RenderOrTail(c: Cond): OrTail
    requires ParserNormal(c)
    decreases c, 2
  {
    if c.op.Or? then OrMore(RenderNot(c.children[0]), RenderOrTail(c.children[1]))
    else OrMore(RenderNot(c), OrEnd)
  }

  ghost function RenderNot(c: Cond): NotE
    requires ParserNormal(c)
    decreases c, 1
  {
    match c.op
    case And => Plain(Paren(AndE(RenderOr(c.children[0]), RenderAndTail(c.children[1]))))
    case Or => Plain(Paren(AndE(OrE(RenderNot(c.children[0]), RenderOrTail(c.children[1])), AndEnd)))
    case Not => Negated(RenderNot(c.children[0]))
    case Exists => Plain(Presence(c.field, true, true))
    case In => Plain(Membership(LitOf(c.value), c.field, true))
    case Search => Plain(FullText(LitOf(c.value)))
    case _ => Plain(Comparison(c.field, true, CmpOf(c.op), LitOf(c.value)))
  }

  function CmpOf(op: Op): (cmp: Cmp)
    ensures op.IsBinary() ==> cmp.ToOp() == op
  {
    match op
    case Neq => CmpNeq
    case Lt => CmpLt
    case Lte => CmpLte
    case Gt => CmpGt
    case Gte => CmpGte
    case Matches => CmpMatches
    case Contains => CmpContains
    case _ => CmpEq
  }

  /** Appending one item and then a tail is appending the node of the two. */
  lemma {:induction false} MergeAssociates(op: Op, acc: Cond, l: Cond, r: Cond)
    requires l.op != op
    ensures Merge(op, Merge(op, acc, l), r) == Merge(op, acc, Node(op, [l, r]))
    decreases acc
  {
    if acc.op == op && |acc.children| == 2 {
      MergeAssociates(op, acc.children[1], l, r);
    } else {
      var m := Merge(op, acc, l);
      assert m == Node(op, [acc, l]) && m.children[1] == l;
    }
  }

  lemma {:induction false} RenderAndDenotes(c: Cond)
    requires ParserNormal(c)
    ensures AndCond(RenderAnd(c)) == c
    decreases c, 3
  {
    if c.op.And? {
      SpineDenotes(c);
    } else {
      RenderOrDenotes(c);
    }
  }

  lemma {:induction false} SpineDenotes(c: Cond)
    requires ParserNormal(c) && c.op.And?
    ensures AndCond(AndE(RenderOr(c.children[0]), RenderAndTail(c.children[1]))) == c
    decreases c, 0
  {
    var l, r := c.children[0], c.children[1];
    RenderOrDenotes(l);
    RenderAndTailDenotes(l, r);
    assert c.children == [l, r];
  }

  lemma {:induction false} RenderAndTailDenotes(left: Cond, c: Cond)
    requires ParserNormal(c)
    ensures AndTailCond(left, RenderAndTail(c)) == Merge(Op.And, left, c)
    decreases c, 3
  {
    if c.op.And? {
      var l, r := c.children[0], c.children[1];
      RenderOrDenotes(l);
      RenderAndTailDenotes(Merge(Op.And, left, l), r);
      MergeAssociates(Op.And, left, l, r);
      assert c.children == [l, r];
    } else {
      RenderOrDenotes(c);
      assert AndTailCond(Merge(Op.And, left, c), AndEnd) == Merge(Op.And, left, c);
    }
  }

  lemma {:induction false} RenderOrDenotes(c: Cond)
    requires ParserNormal(c)
    ensures OrCond(RenderOr(c)) == c
    decreases c, 2
  {
    if c.op.Or? {
      OrSpineDenotes(c);
    } else {
      RenderNotDenotes(c);
    }
  }

  lemma {:induction false} OrSpineDenotes(c: Cond)
    requires ParserNormal(c) && c.op.Or?
    ensures OrCond(OrE(RenderNot(c.children[0]), RenderOrTail(c.children[1]))) == c
    decreases c, 0
  {
    var l, r := c.children[0], c.children[1];
    RenderNotDenotes(l);
    RenderOrTailDenotes(l, r);
    assert c.children == [l, r];
  }

  lemma {:induction false} RenderOrTailDenotes(left: Cond, c: Cond)
    requires ParserNormal(c)
    ensures OrTailCond(left, RenderOrTail(c)) == Merge(Op.Or, left, c)
    decreases c, 2
  {
    if c.op.Or? {
      var l, r := c.children[0], c.children[1];
      RenderNotDenotes(l);
      RenderOrTailDenotes(Merge(Op.Or, left, l), r);
      MergeAssociates(Op.Or, left, l, r);
      assert c.children == [l, r];
    } else {
      RenderNotDenotes(c);
      assert OrTailCond(Merge(Op.Or, left, c), OrEnd) == Merge(Op.Or, left, c);
    }
  }

  lemma {:induction false} RenderNotDenotes(c: Cond)
    requires ParserNormal(c)
    ensures NotCond(RenderNot(c)) == c
    decreases c, 1
  {
    match c.op {
      case And => SpineDenotes(c);
      case Or =>
        OrSpineDenotes(c);
        var o := OrE(RenderNot(c.children[0]), RenderOrTail(c.children[1]));
        assert AndCond(AndE(o, AndEnd)) == OrCond(o);
      case Not => RenderNotDenotes(c.children[0]); assert c.children == [c.children[0]];
      case Exists =>
      case _ => LitOfDenotes(c.value);
    }
  }

  /** The tokens of a normal tree. */
  ghost function Render(c: Cond): seq<Tok>
    requires ParserNormal(c)
  {
    AndToks(RenderAnd(c)) + [EOF]
  }

  /** Rendering and parsing a normal tree gives back exactly that tree. */
  lemma RenderParses(c: Cond)
    requires ParserNormal(c)
    ensures ParseF(Render(c)) == Good(c, [EOF])
  {
    RenderAndDenotes(c);
    AndReads(RenderAnd(c), [EOF]);
  }

  /** The trees some query parses to are exactly the normal ones. */
  lemma ParsedTreesAreTheNormalOnes(c: Cond)
    ensures ParserNormal(c) <==> exists ts :: Ends(ts) && ParseF(ts).Good? && ParseF(ts).val == c
  {
    if ParserNormal(c) {
      RenderParses(c);
      assert Ends(Render(c));
    }
    if ts :| Ends(ts) && ParseF(ts).Good? && ParseF(ts).val == c {
      var a := AndWitness(ts);
      AndIsNormal(a);
    }
  }

  // ---- Queries in list form ----

  /** No comparison in the tree has an empty field name. */
  ghost predicate FieldsNamed(c: Cond)
    decreases c
  {
    (c.op.IsBinary() ==> c.field != "") && forall k <- c.children :: FieldsNamed(k)
  }

  lemma {:induction false} NormalIsListNormal(c: Cond)
    requires ParserNormal(c)
    ensures ListNormal(c) <==> FieldsNamed(c)
    decreases c
  {
    forall k | k in c.children ensures ListNormal(k) <==> FieldsNamed(k) {
      NormalIsListNormal(k);
    }
  }

  /** A parsed query survives the list form exactly when no comparison field is empty. */
  lemma QuerySurvivesListForm(ts: seq<Tok>)
    requires Ends(ts) && ParseF(ts).Good?
    ensures var c := ParseF(ts).val; FromListF(ToListF(c)) == Ok(c) <==> FieldsNamed(c)
  {
    var a := AndWitness(ts);
    AndIsNormal(a);
    NormalIsListNormal(AndCond(a));
    ListRoundTrip(AndCond(a));
  }

  /** A comparison on a quoted empty field, such as `"" = 1`, is accepted by the parser and
      refused by the list decoder. */
  lemma EmptyFieldParsesButIsNotAList(cmp: Cmp, v: Lit)
    ensures var ts := [Quoted(""), Compare(cmp)] + LitToks(v) + [EOF];
            ParseF(ts) == Good(Leaf(cmp.ToOp(), "", LitValue(v)), [EOF])
    ensures FromListF(ToListF(Leaf(cmp.ToOp(), "", LitValue(v)))).Bad?
  {
    TermAloneParses(Comparison("", true, cmp, v));
    EmptyFieldIsNoList(cmp, LitValue(v));
  }

  lemma TermAloneParses(t: Term)
    ensures ParseF(TermToks(t) + [EOF]) == Good(TermCond(t), [EOF])
  {
    var o := OrE(Plain(t), OrEnd);
    assert OrCond(o) == OrTailCond(TermCond(t), OrEnd) == TermCond(t);
    assert AndCond(AndE(o, AndEnd)) == AndTailCond(OrCond(o), AndEnd) == OrCond(o);
    assert AndToks(AndE(o, AndEnd)) == OrToks(o) == NotToks(o.head) == TermToks(t);
    AndReads(AndE(o, AndEnd), [EOF]);
  }

  lemma EmptyFieldIsNoList(cmp: Cmp, v: Value)
    ensures FromListF(ToListF(Leaf(cmp.ToOp(), "", v))).Bad?
  {
    OpNamesRoundTrip(cmp.ToOp());
  }

  // ---- The rotations keep the meaning ----

  /** What a two-child AND or OR node needs of its children. */
  lemma TwoChildrenCompile(e: Engine, c: Cond)
    requires (c.op.And? || c.op.Or?) && |c.children| == 2
    ensures Compilable(e, c) <==> Compilable(e, c.children[0]) && Compilable(e, c.children[1])
  {
  }

  lemma TwoChildrenMean(e: Engine, rec: Record, c: Cond)
    requires (c.op.And? || c.op.Or?) && |c.children| == 2
    ensures Meaning(e, c, rec) <==>
            if c.op.And? then Meaning(e, c.children[0], rec) && Meaning(e, c.children[1], rec)
            else Meaning(e, c.children[0], rec) || Meaning(e, c.children[1], rec)
  {
  }

  /** The merged node compiles when both operands do, and means their AND or OR. */
  lemma {:induction false} MergeMeans(e: Engine, op: Op, rec: Record, l: Cond, r: Cond)
    requires op.And? || op.Or?
    ensures Compilable(e, Merge(op, l, r)) <==> Compilable(e, l) && Compilable(e, r)
    ensures Meaning(e, Merge(op, l, r), rec) <==>
            if op.And? then Meaning(e, l, rec) && Meaning(e, r, rec) else Meaning(e, l, rec) || Meaning(e, r, rec)
    decreases l
  {
    if l.op == op && |l.children| == 2 {
      MergeMeans(e, op, rec, l.children[1], r);
      TwoChildrenCompile(e, l);
      TwoChildrenMean(e, rec, l);
    }
    TwoChildrenCompile(e, Merge(op, l, r));
    TwoChildrenMean(e, rec, Merge(op, l, r));
  }

  /** A merged AND matches exactly when both operands do, compiling or not. */
  lemma MergeAndMatches(e: Engine, rec: Record, l: Cond, r: Cond)
    ensures Match(e, rec, Merge(Op.And, l, r)) <==> Match(e, rec, l) && Match(e, rec, r)
  {
    MergeMeans(e, Op.And, rec, l, r);
    MatchMeans(e, rec, Merge(Op.And, l, r));
    MatchMeans(e, rec, l);
    MatchMeans(e, rec, r);
  }

  /** A merged OR matches when either operand does, provided both compile; else nothing. */
  lemma MergeOrMatches(e: Engine, rec: Record, l: Cond, r: Cond)
    ensures Match(e, rec, Merge(Op.Or, l, r)) <==>
            Compilable(e, l) && Compilable(e, r) && (Match(e, rec, l) || Match(e, rec, r))
  {
    MergeMeans(e, Op.Or, rec, l, r);
    MatchMeans(e, rec, Merge(Op.Or, l, r));
    MatchMeans(e, rec, l);
    MatchMeans(e, rec, r);
  }
}
