/** A rendered condition has as few parentheses as any query for it. */
module MinimalParens {
  import opened Values
  import opened Conditions
  import opened Grammar
  import opened Parser
  import opened ParserTheorems
  import opened NormalForm

  /** How many parentheses a token sequence opens. */
  ghost function Opened(ts: seq<Tok>): nat { multiset(ts)[LParen] }

  lemma OpenedAppends(a: seq<Tok>, b: seq<Tok>)
    ensures Opened(a + b) == Opened(a) + Opened(b)
  {
  }

  // ---- What precedence needs ----

  predicate Pair(c: Cond, op: Op) { c.op == op && |c.children| == 2 }

  /** Parentheses needed to spell a condition where a conjunction may stand. */
  ghost function AndNeeds(c: Cond): nat
    decreases c, 2
  {
    if Pair(c, Op.And) then OrNeeds(c.children[0]) + AndNeeds(c.children[1]) else OrNeeds(c)
  }

  /** The same where a disjunction may stand. */
  ghost function OrNeeds(c: Cond): nat
    decreases c, 1
  {
    if Pair(c, Op.Or) then NotNeeds(c.children[0]) + OrNeeds(c.children[1]) else NotNeeds(c)
  }

  /** The same where only a negation or a term may stand. */
  ghost function NotNeeds(c: Cond): nat
    decreases c, 0
  {
    if Pair(c, Op.And) then 1 + OrNeeds(c.children[0]) + AndNeeds(c.children[1])
    else if Pair(c, Op.Or) then 1 + NotNeeds(c.children[0]) + OrNeeds(c.children[1])
    else if c.op.Not? && |c.children| == 1 then NotNeeds(c.children[0])
    else 0
  }

  lemma NeedsGrow(c: Cond)
    ensures AndNeeds(c) <= OrNeeds(c) <= NotNeeds(c) <= 1 + AndNeeds(c)
  {
  }

  lemma {:induction false} AndMergeNeeds(l: Cond, r: Cond)
    ensures AndNeeds(Merge(Op.And, l, r)) <= AndNeeds(l) + OrNeeds(r)
    decreases l
  {
    if Pair(l, Op.And) {
      AndMergeNeeds(l.children[1], r);
    } else {
      NeedsGrow(r);
    }
  }

  lemma {:induction false} OrMergeNeeds(l: Cond, r: Cond)
    ensures OrNeeds(Merge(Op.Or, l, r)) <= OrNeeds(l) + NotNeeds(r)
    decreases l
  {
    if Pair(l, Op.Or) {
      OrMergeNeeds(l.children[1], r);
    } else {
      NeedsGrow(r);
    }
  }

  // ---- Literals open none ----

  lemma {:induction false} LitOpensNone(l: Lit)
    ensures Opened(LitToks(l)) == 0
    decreases l, 1
  {
    match l {
      case Array(items) =>
        ItemsOpenNone(items);
        OpenedAppends([LBrack], ItemToks(items));
      case Table(entries) =>
        EntriesOpenNone(entries);
        OpenedAppends([LBrace], EntryToks(entries));
      case _ =>
    }
  }

  lemma {:induction false} ItemsOpenNone(items: Lits)
    ensures Opened(ItemToks(items)) == 0
    decreases items, 0
  {
    if items.MoreLit? {
      LitOpensNone(items.head);
      ItemsOpenNone(items.tail);
      OpenedAppends([Comma], ItemToks(items.tail));
      OpenedAppends(LitToks(items.head), if items.tail.NoLit? then [RBrack] else [Comma] + ItemToks(items.tail));
    }
  }

  lemma {:induction false} EntriesOpenNone(entries: Entries)
    ensures Opened(EntryToks(entries)) == 0
    decreases entries, 0
  {
    if entries.MoreEntry? {
      var head, last := [WordTok(entries.key, entries.quoted), Colon], AfterEntry(entries.tail);
      LitOpensNone(entries.val);
      EntriesOpenNone(entries.tail);
      OpenedAppends([Comma], EntryToks(entries.tail));
      OpenedAppends(LitToks(entries.val), last);
      OpenedAppends(head, LitToks(entries.val) + last);
    }
  }

  lemma {:induction false} ParenOpens(e: AndE)
    ensures Opened(TermToks(Paren(e))) == 1 + Opened(AndToks(e))
  {
    OpenedAppends(AndToks(e), [RParen]);
    OpenedAppends([LParen], AndToks(e) + [RParen]);
  }

  lemma {:induction false} LeafOpensNone(t: Term)
    requires !t.Paren?
    ensures Opened(TermToks(t)) == 0
  {
    if t.Comparison? {
      LitOpensNone(t.value);
      OpenedAppends([WordTok(t.field, t.quoted), Compare(t.cmp)], LitToks(t.value));
    } else if t.Membership? {
      LitOpensNone(t.first);
      OpenedAppends(LitToks(t.first), [InMark, WordTok(t.field, t.quoted)]);
    } else if t.FullText? {
      LitOpensNone(t.first);
    }
  }

  // ---- Every spelling opens what is needed ----

  lemma {:induction false} AndSpends(a: AndE)
    ensures AndNeeds(AndCond(a)) <= Opened(AndToks(a))
    decreases a, 4
  {
    OrSpends(a.head);
    NeedsGrow(OrCond(a.head));
    AndTailSpends(OrCond(a.head), a.tail);
    OpenedAppends(OrToks(a.head), AndTailToks(a.tail));
  }

  lemma {:induction false} AndTailSpends(left: Cond, t: AndTail)
    ensures AndNeeds(AndTailCond(left, t)) <= AndNeeds(left) + Opened(AndTailToks(t))
    decreases t, 3
  {
    if t.AndMore? {
      OrSpends(t.e);
      AndMergeNeeds(left, OrCond(t.e));
      AndTailSpends(Merge(Op.And, left, OrCond(t.e)), t.rest);
      OpenedAppends(OrToks(t.e), AndTailToks(t.rest));
      OpenedAppends(if t.explicit then [AndMark] else [], OrToks(t.e) + AndTailToks(t.rest));
    }
  }

  lemma {:induction false} OrSpends(o: OrE)
    ensures OrNeeds(OrCond(o)) <= Opened(OrToks(o))
    decreases o, 2
  {
    NotSpends(o.head);
    NeedsGrow(NotCond(o.head));
    OrTailSpends(NotCond(o.head), o.tail);
    OpenedAppends(NotToks(o.head), OrTailToks(o.tail));
  }

  lemma {:induction false} OrTailSpends(left: Cond, t: OrTail)
    ensures OrNeeds(OrTailCond(left, t)) <= OrNeeds(left) + Opened(OrTailToks(t))
    decreases t, 1
  {
    if t.OrMore? {
      NotSpends(t.e);
      OrMergeNeeds(left, NotCond(t.e));
      OrTailSpends(Merge(Op.Or, left, NotCond(t.e)), t.rest);
      OpenedAppends(NotToks(t.e), OrTailToks(t.rest));
      OpenedAppends([OrMark], NotToks(t.e) + OrTailToks(t.rest));
    }
  }

  lemma {:induction false} NotSpends(n: NotE)
    ensures NotNeeds(NotCond(n)) <= Opened(NotToks(n))
    decreases n, 0
  {
    match n {
      case Negated(e) =>
        NotSpends(e);
        OpenedAppends([NotMark], NotToks(e));
      case Plain(t) =>
        TermSpends(t);
    }
  }

  lemma {:induction false} TermSpends(t: Term)
    ensures NotNeeds(TermCond(t)) <= Opened(TermToks(t))
    decreases t, 5
  {
    if t.Paren? {
      ParenOpens(t.e);
      AndSpends(t.e);
      NeedsGrow(AndCond(t.e));
    }
  }

  // ---- Rendering opens no more ----

  lemma {:induction false} RenderAndOpens(c: Cond)
    requires ParserNormal(c)
    ensures Opened(AndToks(RenderAnd(c))) == AndNeeds(c)
    decreases c, 3
  {
    if c.op.And? {
      AndSpineOpens(c);
    } else {
      RenderOrOpens(c);
      OpenedAppends(OrToks(RenderOr(c)), []);
    }
  }

  lemma {:induction false} AndSpineOpens(c: Cond)
    requires ParserNormal(c) && c.op.And?
    ensures Opened(AndToks(AndE(RenderOr(c.children[0]), RenderAndTail(c.children[1])))) == AndNeeds(c)
    decreases c, 0, 0
  {
    RenderOrOpens(c.children[0]);
    RenderAndTailOpens(c.children[1]);
    OpenedAppends(OrToks(RenderOr(c.children[0])), AndTailToks(RenderAndTail(c.children[1])));
  }

  lemma {:induction false} RenderAndTailOpens(c: Cond)
    requires ParserNormal(c)
    ensures Opened(AndTailToks(RenderAndTail(c))) == AndNeeds(c)
    decreases c, 3
  {
    var t := RenderAndTail(c);
    OpenedAppends(OrToks(t.e), AndTailToks(t.rest));
    OpenedAppends([AndMark], OrToks(t.e) + AndTailToks(t.rest));
    if c.op.And? {
      RenderOrOpens(c.children[0]);
      RenderAndTailOpens(c.children[1]);
    } else {
      RenderOrOpens(c);
    }
  }

  lemma {:induction false} RenderOrOpens(c: Cond)
    requires ParserNormal(c)
    ensures Opened(OrToks(RenderOr(c))) == OrNeeds(c)
    decreases c, 2
  {
    if c.op.Or? {
      OrSpineOpens(c);
    } else {
      RenderNotOpens(c);
      OpenedAppends(NotToks(RenderNot(c)), []);
    }
  }

  lemma {:induction false} OrSpineOpens(c: Cond)
    requires ParserNormal(c) && c.op.Or?
    ensures Opened(OrToks(OrE(RenderNot(c.children[0]), RenderOrTail(c.children[1])))) == OrNeeds(c)
    decreases c, 0, 0
  {
    RenderNotOpens(c.children[0]);
    RenderOrTailOpens(c.children[1]);
    OpenedAppends(NotToks(RenderNot(c.children[0])), OrTailToks(RenderOrTail(c.children[1])));
  }

  lemma {:induction false} RenderOrTailOpens(c: Cond)
    requires ParserNormal(c)
    ensures Opened(OrTailToks(RenderOrTail(c))) == OrNeeds(c)
    decreases c, 2
  {
    var t := RenderOrTail(c);
    OpenedAppends(NotToks(t.e), OrTailToks(t.rest));
    OpenedAppends([OrMark], NotToks(t.e) + OrTailToks(t.rest));
    if c.op.Or? {
      RenderNotOpens(c.children[0]);
      RenderOrTailOpens(c.children[1]);
    } else {
      RenderNotOpens(c);
    }
  }

  lemma {:induction false} RenderNotOpens(c: Cond)
    requires ParserNormal(c)
    ensures Opened(NotToks(RenderNot(c))) == NotNeeds(c)
    decreases c, 1
  {
    if c.op.And? || c.op.Or? {
      RenderParenOpens(c);
    } else if c.op.Not? {
      RenderNotOpens(c.children[0]);
      OpenedAppends([NotMark], NotToks(RenderNot(c.children[0])));
    } else {
      LeafOpensNone(RenderNot(c).t);
    }
  }

  lemma {:induction false} RenderParenOpens(c: Cond)
    requires ParserNormal(c) && (c.op.And? || c.op.Or?)
    ensures Opened(NotToks(RenderNot(c))) == NotNeeds(c)
    decreases c, 0, 1
  {
    var e := RenderNot(c).t.e;
    ParenOpens(e);
    if c.op.And? {
      AndSpineOpens(c);
    } else {
      OrSpineOpens(c);
      OpenedAppends(OrToks(e.head), []);
    }
  }

  /** No query for a condition has fewer parentheses than its rendering. */
  lemma RenderIsLeast(c: Cond, ts: seq<Tok>)
    requires ParserNormal(c) && Ends(ts) && ParseF(ts).Good? && ParseF(ts).val == c
    ensures Opened(Render(c)) <= Opened(ts)
  {
    var a := AndWitness(ts);
    AndSpends(a);
    RenderAndOpens(c);
    OpenedAppends(AndToks(RenderAnd(c)), [EOF]);
    OpenedAppends(AndToks(a), AndF(ts).rest);
  }

  /** Leaving out any pair of the rendered parentheses gives a query that is refused or that means
      another tree. */
  lemma UnwrappingChangesTheTree(c: Cond, before: seq<Tok>, inner: seq<Tok>, after: seq<Tok>)
    requires ParserNormal(c) && Ends(after)
    requires Render(c) == before + ([LParen] + (inner + ([RParen] + after)))
    ensures var ts := before + (inner + after); ParseF(ts).Good? ==> ParseF(ts).val != c
  {
    var ts := before + (inner + after);
    OpenedAppends(before, [LParen] + (inner + ([RParen] + after)));
    OpenedAppends([LParen], inner + ([RParen] + after));
    OpenedAppends(inner, [RParen] + after);
    OpenedAppends([RParen], after);
    OpenedAppends(before, inner + after);
    OpenedAppends(inner, after);
    if ParseF(ts).Good? && ParseF(ts).val == c {
      RenderIsLeast(c, ts);
    }
  }
}
