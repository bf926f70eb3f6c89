/** What the parser computes: it accepts exactly the token sequences the grammar spells and
    returns the condition the grammar denotes. */
module ParserTheorems {
  import opened Values
  import opened Conditions
  import opened Grammar
  import opened Parser

  lemma Glue<T>(ts: seq<T>, a: seq<T>, mid: seq<T>, b: seq<T>, rest: seq<T>)
    requires ts == a + mid && mid == b + rest
    ensures ts == (a + b) + rest
  {
  }

  lemma Split<T>(a: seq<T>, b: seq<T>, rest: seq<T>)
    ensures (a + b) + rest == a + (b + rest)
  {
  }

  lemma AppendEnds(a: seq<Tok>, rest: seq<Tok>)
    requires Ends(rest)
    ensures Ends(a + rest)
  {
  }

  // ---- Every spelling parses to what it denotes ----

  lemma {:induction false} LitStarts(l: Lit)
    ensures LitToks(l) != [] && LitToks(l)[0].StartsTerm() && !LitToks(l)[0].LParen? && !LitToks(l)[0].NotMark?
  {
  }

  lemma {:induction false} LitReads(l: Lit, rest: seq<Tok>)
    requires Ends(rest)
    ensures LiteralF(LitToks(l) + rest) == Good(LitValue(l), rest)
    decreases l, 1
  {
    match l {
      case Array(items) => ArrayReads(items, rest);
      case Table(entries) => TableReads(entries, rest);
      case _ => assert (LitToks(l) + rest)[1..] == rest;
    }
  }

  lemma {:induction false} ArrayReads(items: Lits, rest: seq<Tok>)
    requires Ends(rest)
    ensures LiteralF(LitToks(Array(items)) + rest) == Good(LitValue(Array(items)), rest)
    decreases items, 1
  {
    var ts := LitToks(Array(items)) + rest;
    assert ts[1..] == ItemToks(items) + rest;
    if items.MoreLit? {
      LitStarts(items.head);
      ItemsRead([], items, rest);
      assert [] + ItemValues(items) == ItemValues(items);
    } else {
      assert ts[1..][1..] == rest;
    }
  }

  lemma {:induction false} TableReads(entries: Entries, rest: seq<Tok>)
    requires Ends(rest)
    ensures LiteralF(LitToks(Table(entries)) + rest) == Good(LitValue(Table(entries)), rest)
    decreases entries, 1
  {
    var ts := LitToks(Table(entries)) + rest;
    assert ts[1..] == EntryToks(entries) + rest;
    if entries.MoreEntry? {
      EntriesRead(map[], entries, rest);
    } else {
      assert ts[1..][1..] == rest;
    }
  }

  lemma {:induction false} ItemsRead(acc: seq<Value>, items: Lits, rest: seq<Tok>)
    requires Ends(rest) && items.MoreLit?
    ensures ItemsF(acc, ItemToks(items) + rest) == Good(List(acc + ItemValues(items)), rest)
    decreases items, 0
  {
    var h, t := items.head, items.tail;
    var after := (if t.NoLit? then [RBrack] else [Comma] + ItemToks(t)) + rest;
    Split(LitToks(h), if t.NoLit? then [RBrack] else [Comma] + ItemToks(t), rest);
    LitReads(h, after);
    if t.NoLit? {
      assert after[1..] == rest;
      assert ItemValues(items) == [LitValue(h)];
    } else {
      assert after[1..] == ItemToks(t) + rest;
      ItemsRead(acc + [LitValue(h)], t, rest);
      assert acc + [LitValue(h)] + ItemValues(t) == acc + ItemValues(items);
    }
  }

  lemma {:induction false} EntriesRead(acc: map<string, Value>, entries: Entries, rest: seq<Tok>)
    requires Ends(rest) && entries.MoreEntry?
    ensures EntriesF(acc, EntryToks(entries) + rest) == Good(Obj(EntryValues(acc, entries)), rest)
    decreases entries, 0
  {
    var t := entries.tail;
    EntryHeadReads(entries, rest);
    var after := AfterEntry(t) + rest;
    if t.NoEntry? {
      assert after[1..] == rest;
    } else {
      assert after[1..] == EntryToks(t) + rest;
      EntriesRead(acc[entries.key := LitValue(entries.val)], t, rest);
    }
  }

  function AfterEntry(t: Entries): seq<Tok> { if t.NoEntry? then [RBrace] else [Comma] + EntryToks(t) }

  lemma {:induction false} EntryHeadReads(entries: Entries, rest: seq<Tok>)
    requires Ends(rest) && entries.MoreEntry?
    ensures EntryF(EntryToks(entries) + rest) ==
            Good((entries.key, LitValue(entries.val)), AfterEntry(entries.tail) + rest)
    decreases entries.val, 3
  {
    var head, last := [WordTok(entries.key, entries.quoted), Colon], AfterEntry(entries.tail);
    Split(head, LitToks(entries.val) + last, rest);
    Split(LitToks(entries.val), last, rest);
    EntryReads(entries.key, entries.quoted, entries.val, last + rest);
  }

  lemma {:induction false} EntryReads(k: string, q: bool, v: Lit, after: seq<Tok>)
    requires Ends(after)
    ensures EntryF([WordTok(k, q), Colon] + (LitToks(v) + after)) == Good((k, LitValue(v)), after)
    decreases v, 2
  {
    var ts := [WordTok(k, q), Colon] + (LitToks(v) + after);
    assert ts[1..][1..] == LitToks(v) + after;
    LitReads(v, after);
  }

  lemma {:induction false} TermStarts(t: Term)
    ensures TermToks(t) != [] && TermToks(t)[0].StartsTerm() && !TermToks(t)[0].NotMark?
  {
    match t {
      case Membership(l, _, _) => LitStarts(l);
      case FullText(l) => LitStarts(l);
      case _ =>
    }
  }

  lemma {:induction false} OrStarts(o: OrE)
    ensures OrToks(o) != [] && OrToks(o)[0].StartsTerm()
  {
    if o.head.Plain? {
      TermStarts(o.head.t);
    }
  }

  /** Tokens that may follow a complete expression. */
  predicate Closes(t: Tok) { !t.StartsTerm() && !t.ExtendsAtom() && !t.AndMark? && !t.OrMark? }

  lemma {:induction false} AtomReads(l: Lit, after: seq<Tok>, ts: seq<Tok>)
    requires Ends(after) && ts == LitToks(l) + after
    ensures TermF(ts) == AfterAtomF(LitValue(l), after)
  {
    LitStarts(l);
    LitReads(l, after);
  }

  lemma {:induction false} ComparisonReads(f: string, q: bool, cmp: Cmp, v: Lit, rest: seq<Tok>)
    requires Ends(rest)
    ensures TermF(TermToks(Comparison(f, q, cmp, v)) + rest) == Good(Leaf(cmp.ToOp(), f, LitValue(v)), rest)
  {
    var after := [Compare(cmp)] + (LitToks(v) + rest);
    AfterCompareReads(f, cmp, v, rest);
    CompareSplits(f, q, cmp, v, rest);
    AppendEnds(LitToks(v), rest);
    AppendEnds([Compare(cmp)], LitToks(v) + rest);
    AtomReads(Word(f, q), after, TermToks(Comparison(f, q, cmp, v)) + rest);
  }

  lemma {:induction false} CompareSplits(f: string, q: bool, cmp: Cmp, v: Lit, rest: seq<Tok>)
    ensures TermToks(Comparison(f, q, cmp, v)) + rest ==
            LitToks(Word(f, q)) + ([Compare(cmp)] + (LitToks(v) + rest))
  {
  }

  lemma {:induction false} AfterCompareReads(f: string, cmp: Cmp, v: Lit, rest: seq<Tok>)
    requires Ends(rest)
    ensures AfterAtomF(Str(f), [Compare(cmp)] + (LitToks(v) + rest)) == Good(Leaf(cmp.ToOp(), f, LitValue(v)), rest)
  {
    assert ([Compare(cmp)] + (LitToks(v) + rest))[1..] == LitToks(v) + rest;
    LitReads(v, rest);
  }

  lemma {:induction false} PresenceReads(f: string, q: bool, w: bool, rest: seq<Tok>)
    requires Ends(rest)
    ensures TermF(TermToks(Presence(f, q, w)) + rest) == Good(Leaf(Op.Exists, f, Null), rest)
  {
    var after := [ExistsMark(w)] + rest;
    assert after[1..] == rest;
    var ts := TermToks(Presence(f, q, w)) + rest;
    assert ts == LitToks(Word(f, q)) + after;
    AtomReads(Word(f, q), after, ts);
  }

  lemma {:induction false} MembershipReads(l: Lit, f: string, q: bool, rest: seq<Tok>)
    requires Ends(rest)
    ensures TermF(TermToks(Membership(l, f, q)) + rest) == Good(Leaf(Op.In, f, LitValue(l)), rest)
  {
    var after := [InMark, WordTok(f, q)] + rest;
    assert after[1..][1..] == rest;
    assert AfterAtomF(LitValue(l), after) == Good(Leaf(Op.In, f, LitValue(l)), rest);
    Split(LitToks(l), [InMark, WordTok(f, q)], rest);
    AtomReads(l, after, TermToks(Membership(l, f, q)) + rest);
  }

  lemma {:induction false} TermReads(t: Term, rest: seq<Tok>)
    requires Ends(rest) && !rest[0].ExtendsAtom()
    ensures TermF(TermToks(t) + rest) == Good(TermCond(t), rest)
    decreases t, 0
  {
    match t {
      case Paren(e) => ParenReads(e, rest);
      case Comparison(f, q, cmp, v) => ComparisonReads(f, q, cmp, v, rest);
      case Presence(f, q, w) => PresenceReads(f, q, w, rest);
      case Membership(l, f, q) => MembershipReads(l, f, q, rest);
      case FullText(l) => AtomReads(l, rest, TermToks(t) + rest);
    }
  }

  lemma {:induction false} ParenReads(e: AndE, rest: seq<Tok>)
    requires Ends(rest)
    ensures TermF(TermToks(Paren(e)) + rest) == Good(AndCond(e), rest)
    decreases e, 4
  {
    var ts, after := TermToks(Paren(e)) + rest, [RParen] + rest;
    assert ts[1..] == AndToks(e) + after;
    AndReads(e, after);
    assert after[1..] == rest;
  }

  lemma {:induction false} NotReads(n: NotE, rest: seq<Tok>)
    requires Ends(rest) && !rest[0].ExtendsAtom()
    ensures NotF(NotToks(n) + rest) == Good(NotCond(n), rest)
    decreases n, 1
  {
    var ts := NotToks(n) + rest;
    match n {
      case Negated(e) =>
        assert ts[1..] == NotToks(e) + rest;
        NotReads(e, rest);
      case Plain(t) =>
        TermStarts(t);
        TermReads(t, rest);
    }
  }

  lemma {:induction false} OrReads(o: OrE, rest: seq<Tok>)
    requires Ends(rest) && !rest[0].ExtendsAtom() && !rest[0].OrMark?
    ensures OrF(OrToks(o) + rest) == Good(OrCond(o), rest)
    decreases o, 2
  {
    var after := OrTailToks(o.tail) + rest;
    assert OrToks(o) + rest == NotToks(o.head) + after;
    NotReads(o.head, after);
    OrTailReads(NotCond(o.head), o.tail, rest);
  }

  lemma {:induction false} OrTailReads(left: Cond, t: OrTail, rest: seq<Tok>)
    requires Ends(rest) && !rest[0].ExtendsAtom() && !rest[0].OrMark?
    ensures OrLoopF(left, OrTailToks(t) + rest) == Good(OrTailCond(left, t), rest)
    decreases t, 2
  {
    match t {
      case OrEnd =>
        assert OrTailToks(t) + rest == rest;
      case OrMore(e, more) =>
        var after := OrTailToks(more) + rest;
        assert (OrTailToks(t) + rest)[1..] == NotToks(e) + after;
        NotReads(e, after);
        OrTailReads(Merge(Op.Or, left, NotCond(e)), more, rest);
    }
  }

  lemma {:induction false} AndReads(a: AndE, rest: seq<Tok>)
    requires Ends(rest) && Closes(rest[0])
    ensures AndF(AndToks(a) + rest) == Good(AndCond(a), rest)
    decreases a, 3
  {
    var after := AndTailToks(a.tail) + rest;
    assert AndToks(a) + rest == OrToks(a.head) + after;
    AndTailStarts(a.tail, rest);
    OrReads(a.head, after);
    AndTailReads(OrCond(a.head), a.tail, rest);
  }

  lemma {:induction false} AndTailStarts(t: AndTail, rest: seq<Tok>)
    requires Ends(rest) && Closes(rest[0])
    ensures var after := AndTailToks(t) + rest;
            Ends(after) && !after[0].ExtendsAtom() && !after[0].OrMark?
    ensures t.AndMore? ==> var after := AndTailToks(t) + rest;
            if t.explicit then after[0] == AndMark else after[0].StartsTerm()
  {
    if t.AndMore? {
      OrStarts(t.e);
    }
  }

  lemma {:induction false} AndTailReads(left: Cond, t: AndTail, rest: seq<Tok>)
    requires Ends(rest) && Closes(rest[0])
    ensures AndLoopF(left, AndTailToks(t) + rest) == Good(AndTailCond(left, t), rest)
    decreases t, 3
  {
    AndTailStarts(t, rest);
    var ts := AndTailToks(t) + rest;
    match t {
      case AndEnd =>
        assert ts == rest;
      case AndMore(explicit, e, more) =>
        var after := AndTailToks(more) + rest;
        AndTailStarts(more, rest);
        assert (if explicit then ts[1..] else ts) == OrToks(e) + after;
        OrReads(e, after);
        AndTailReads(Merge(Op.And, left, OrCond(e)), more, rest);
    }
  }

  // ---- Every accepted sequence is a spelling ----

  lemma {:induction false} LitWitness(ts: seq<Tok>) returns (l: Lit)
    requires Ends(ts) && LiteralF(ts).Good?
    ensures ts == LitToks(l) + LiteralF(ts).rest && LitValue(l) == LiteralF(ts).val
    decreases |ts|, 1
  {
    var rest := LiteralF(ts).rest;
    match ts[0] {
      case Quoted(t) => l := Word(t, true);
      case Ident(t) => l := Word(t, false);
      case IntLit(i) => l := Integer(i);
      case FloatLit(f) => l := Decimal(f);
      case BoolLit(b) => l := Truth(b);
      case LBrack => l := ArrayWitness(ts);
      case LBrace => l := TableWitness(ts);
    }
  }

  lemma {:induction false} ArrayWitness(ts: seq<Tok>) returns (l: Lit)
    requires Ends(ts) && ts[0] == LBrack && LiteralF(ts).Good?
    ensures ts == LitToks(l) + LiteralF(ts).rest && LitValue(l) == LiteralF(ts).val
    decreases |ts|, 0
  {
    if ts[1] == RBrack {
      l := Array(NoLit);
    } else {
      var items := ItemsWitness([], ts[1..]);
      l := Array(items);
      assert [] + ItemValues(items) == ItemValues(items);
      ConsSplits(ts, ItemToks(items), LiteralF(ts).rest);
    }
  }

  lemma {:induction false} TableWitness(ts: seq<Tok>) returns (l: Lit)
    requires Ends(ts) && ts[0] == LBrace && LiteralF(ts).Good?
    ensures ts == LitToks(l) + LiteralF(ts).rest && LitValue(l) == LiteralF(ts).val
    decreases |ts|, 0
  {
    if ts[1] == RBrace {
      l := Table(NoEntry);
    } else {
      var entries := EntriesWitness(map[], ts[1..]);
      l := Table(entries);
      ConsSplits(ts, EntryToks(entries), LiteralF(ts).rest);
    }
  }

  lemma {:induction false} ItemsWitness(acc: seq<Value>, ts: seq<Tok>) returns (items: Lits)
    requires Ends(ts) && ItemsF(acc, ts).Good?
    ensures items.MoreLit? && ts == ItemToks(items) + ItemsF(acc, ts).rest
    ensures ItemsF(acc, ts).val == List(acc + ItemValues(items))
    decreases |ts|, 2
  {
    var h := LitWitness(ts);
    var rest := LiteralF(ts).rest;
    if rest[0] == Comma {
      items := MoreItemsWitness(acc, ts, h, rest);
    } else {
      items := MoreLit(h, NoLit);
      assert rest == [RBrack] + rest[1..];
      Glue(ts, LitToks(h), rest, [RBrack], rest[1..]);
      assert ItemValues(items) == [LitValue(h)];
    }
  }

  lemma {:induction false} MoreItemsWitness(acc: seq<Value>, ts: seq<Tok>, h: Lit, rest: seq<Tok>) returns (items: Lits)
    requires ts == LitToks(h) + rest && Ends(rest) && rest[0] == Comma
    requires ItemsF(acc + [LitValue(h)], rest[1..]).Good?
    ensures var more := ItemsF(acc + [LitValue(h)], rest[1..]);
            items.MoreLit? && ts == ItemToks(items) + more.rest && more.val == List(acc + ItemValues(items))
    decreases |rest|, 3
  {
    var t := ItemsWitness(acc + [LitValue(h)], rest[1..]);
    items := MoreLit(h, t);
    GlueComma(ts, LitToks(h), rest, ItemToks(t), ItemsF(acc + [LitValue(h)], rest[1..]).rest);
    assert acc + [LitValue(h)] + ItemValues(t) == acc + ItemValues(items);
  }

  lemma GlueComma(ts: seq<Tok>, a: seq<Tok>, mid: seq<Tok>, b: seq<Tok>, rest: seq<Tok>)
    requires mid != [] && mid[0] == Comma
    requires ts == a + mid && mid[1..] == b + rest
    ensures ts == (a + ([Comma] + b)) + rest
  {
    assert mid == [Comma] + mid[1..];
    Glue(mid, [Comma], mid[1..], b, rest);
    Glue(ts, a, mid, [Comma] + b, rest);
  }

  lemma {:induction false} EntriesWitness(acc: map<string, Value>, ts: seq<Tok>) returns (entries: Entries)
    requires Ends(ts) && EntriesF(acc, ts).Good?
    ensures entries.MoreEntry? && ts == EntryToks(entries) + EntriesF(acc, ts).rest
    ensures EntriesF(acc, ts).val == Obj(EntryValues(acc, entries))
    decreases |ts|, 3
  {
    var k, q, v := EntryWitness(ts);
    var rest := EntryF(ts).rest;
    if rest[0] == Comma {
      entries := MoreEntriesWitness(acc, ts, k, q, v, rest);
    } else {
      entries := MoreEntry(k, q, v, NoEntry);
      LastEntryJoins(ts, k, q, v, rest);
    }
  }

  lemma {:induction false} MoreEntriesWitness(acc: map<string, Value>, ts: seq<Tok>, k: string, q: bool, v: Lit,
                                              rest: seq<Tok>) returns (entries: Entries)
    requires ts == [WordTok(k, q), Colon] + (LitToks(v) + rest) && Ends(rest) && rest[0] == Comma
    requires EntriesF(acc[k := LitValue(v)], rest[1..]).Good?
    ensures var more := EntriesF(acc[k := LitValue(v)], rest[1..]);
            entries.MoreEntry? && ts == EntryToks(entries) + more.rest && more.val == Obj(EntryValues(acc, entries))
    decreases |rest|, 3
  {
    var t := EntriesWitness(acc[k := LitValue(v)], rest[1..]);
    entries := MoreEntry(k, q, v, t);
    EntryJoins(ts, entries, rest, EntriesF(acc[k := LitValue(v)], rest[1..]).rest);
  }

  lemma {:induction false} LastEntryJoins(ts: seq<Tok>, k: string, q: bool, v: Lit, rest: seq<Tok>)
    requires rest != [] && rest[0] == RBrace && ts == [WordTok(k, q), Colon] + (LitToks(v) + rest)
    ensures ts == EntryToks(MoreEntry(k, q, v, NoEntry)) + rest[1..]
  {
    assert rest == [RBrace] + rest[1..];
    GlueEntry(ts, [WordTok(k, q), Colon], LitToks(v), rest, [RBrace], rest[1..]);
  }

  lemma {:induction false} EntryJoins(ts: seq<Tok>, entries: Entries, rest: seq<Tok>, end: seq<Tok>)
    requires entries.MoreEntry? && entries.tail.MoreEntry?
    requires ts == [WordTok(entries.key, entries.quoted), Colon] + (LitToks(entries.val) + rest)
    requires rest != [] && rest[0] == Comma && rest[1..] == EntryToks(entries.tail) + end
    ensures ts == EntryToks(entries) + end
  {
    ConsSplits(rest, EntryToks(entries.tail), end);
    GlueEntry(ts, [WordTok(entries.key, entries.quoted), Colon], LitToks(entries.val), rest,
              [Comma] + EntryToks(entries.tail), end);
  }

  lemma ConsSplits(ts: seq<Tok>, b: seq<Tok>, rest: seq<Tok>)
    requires ts != [] && ts[1..] == b + rest
    ensures ts == ([ts[0]] + b) + rest
  {
  }

  lemma {:induction false} EntryWitness(ts: seq<Tok>) returns (k: string, q: bool, v: Lit)
    requires Ends(ts) && EntryF(ts).Good?
    ensures ts == [WordTok(k, q), Colon] + (LitToks(v) + EntryF(ts).rest)
    ensures EntryF(ts).val == (k, LitValue(v))
    decreases |ts|, 1
  {
    k, q := ts[0].text, ts[0].Quoted?;
    v := LitWitness(ts[1..][1..]);
    assert ts == [WordTok(k, q), Colon] + ts[1..][1..];
  }

  lemma GlueEntry(ts: seq<Tok>, head: seq<Tok>, lit: seq<Tok>, rest: seq<Tok>, after: seq<Tok>, end: seq<Tok>)
    requires ts == head + (lit + rest) && rest == after + end
    ensures ts == (head + (lit + after)) + end
  {
    Glue(lit + rest, lit, rest, after, end);
    Glue(ts, head, lit + rest, lit + after, end);
  }

  lemma {:induction false} TermWitness(ts: seq<Tok>) returns (t: Term)
    requires Ends(ts) && TermF(ts).Good?
    ensures ts == TermToks(t) + TermF(ts).rest && TermCond(t) == TermF(ts).val
    decreases |ts|, 0
  {
    if ts[0] == LParen {
      var e := AndWitness(ts[1..]);
      t := Paren(e);
      assert ts == [LParen] + ts[1..];
      assert AndF(ts[1..]).rest == [RParen] + TermF(ts).rest;
    } else {
      var l := LitWitness(ts);
      t := AfterAtomWitness(l, LiteralF(ts).rest);
    }
  }

  lemma {:induction false} AfterAtomWitness(l: Lit, ts: seq<Tok>) returns (t: Term)
    requires Ends(ts) && AfterAtomF(LitValue(l), ts).Good?
    ensures LitToks(l) + ts == TermToks(t) + AfterAtomF(LitValue(l), ts).rest
    ensures TermCond(t) == AfterAtomF(LitValue(l), ts).val
  {
    match ts[0] {
      case Compare(cmp) =>
        t := ComparisonWitness(l, cmp, ts);
      case ExistsMark(w) =>
        PresenceWitness(l, w, ts);
        t := Presence(l.text, l.quoted, w);
      case InMark =>
        MembershipWitness(l, ts);
        t := Membership(l, ts[1].text, ts[1].Quoted?);
      case _ =>
        t := FullText(l);
    }
  }

  lemma {:induction false} PresenceWitness(l: Lit, w: bool, ts: seq<Tok>)
    requires Ends(ts) && ts[0] == ExistsMark(w) && AfterAtomF(LitValue(l), ts).Good?
    ensures l.Word? && LitToks(l) + ts == TermToks(Presence(l.text, l.quoted, w)) + AfterAtomF(LitValue(l), ts).rest
    ensures TermCond(Presence(l.text, l.quoted, w)) == AfterAtomF(LitValue(l), ts).val
  {
    assert ts == [ts[0]] + ts[1..];
    Glue(LitToks(l) + ts, LitToks(l), ts, [ts[0]], ts[1..]);
  }

  lemma {:induction false} MembershipWitness(l: Lit, ts: seq<Tok>)
    requires Ends(ts) && ts[0] == InMark && AfterAtomF(LitValue(l), ts).Good?
    ensures ts[1].Ident? || ts[1].Quoted?
    ensures LitToks(l) + ts == TermToks(Membership(l, ts[1].text, ts[1].Quoted?)) + AfterAtomF(LitValue(l), ts).rest
    ensures TermCond(Membership(l, ts[1].text, ts[1].Quoted?)) == AfterAtomF(LitValue(l), ts).val
  {
    assert ts == [InMark, ts[1]] + ts[1..][1..];
    Glue(LitToks(l) + ts, LitToks(l), ts, [InMark, ts[1]], ts[1..][1..]);
  }

  lemma {:induction false} ComparisonWitness(l: Lit, cmp: Cmp, ts: seq<Tok>) returns (t: Term)
    requires Ends(ts) && ts[0] == Compare(cmp) && ComparisonF(LitValue(l), cmp, ts).Good?
    ensures LitToks(l) + ts == TermToks(t) + ComparisonF(LitValue(l), cmp, ts).rest
    ensures TermCond(t) == ComparisonF(LitValue(l), cmp, ts).val
  {
    var v := LitWitness(ts[1..]);
    t := Comparison(l.text, l.quoted, cmp, v);
    var head := [WordTok(l.text, l.quoted), Compare(cmp)];
    assert LitToks(l) + ts == head + ts[1..];
    Glue(LitToks(l) + ts, head, ts[1..], LitToks(v), LiteralF(ts[1..]).rest);
  }

  lemma {:induction false} NotWitness(ts: seq<Tok>) returns (n: NotE)
    requires Ends(ts) && NotF(ts).Good?
    ensures ts == NotToks(n) + NotF(ts).rest && NotCond(n) == NotF(ts).val
    decreases |ts|, 1
  {
    if ts[0] == NotMark {
      var e := NotWitness(ts[1..]);
      n := Negated(e);
      Glue(ts, [NotMark], ts[1..], NotToks(e), NotF(ts).rest);
    } else {
      var t := TermWitness(ts);
      n := Plain(t);
    }
  }

  lemma {:induction false} OrWitness(ts: seq<Tok>) returns (o: OrE)
    requires Ends(ts) && OrF(ts).Good?
    ensures ts == OrToks(o) + OrF(ts).rest && OrCond(o) == OrF(ts).val
    decreases |ts|, 2
  {
    var n := NotWitness(ts);
    var t := OrTailWitness(NotCond(n), NotF(ts).rest);
    o := OrE(n, t);
    Glue(ts, NotToks(n), NotF(ts).rest, OrTailToks(t), OrF(ts).rest);
  }

  lemma {:induction false} OrTailWitness(left: Cond, ts: seq<Tok>) returns (t: OrTail)
    requires Ends(ts) && OrLoopF(left, ts).Good?
    ensures ts == OrTailToks(t) + OrLoopF(left, ts).rest && OrTailCond(left, t) == OrLoopF(left, ts).val
    decreases |ts|, 3
  {
    if ts[0] == OrMark {
      var n := NotWitness(ts[1..]);
      var more := OrTailWitness(Merge(Op.Or, left, NotCond(n)), NotF(ts[1..]).rest);
      t := OrMore(n, more);
      var end := OrLoopF(left, ts).rest;
      Glue(ts[1..], NotToks(n), NotF(ts[1..]).rest, OrTailToks(more), end);
      Glue(ts, [OrMark], ts[1..], NotToks(n) + OrTailToks(more), end);
    } else {
      t := OrEnd;
    }
  }

  lemma {:induction false} AndWitness(ts: seq<Tok>) returns (a: AndE)
    requires Ends(ts) && AndF(ts).Good?
    ensures ts == AndToks(a) + AndF(ts).rest && AndCond(a) == AndF(ts).val
    decreases |ts|, 4
  {
    var o := OrWitness(ts);
    var t := AndTailWitness(OrCond(o), OrF(ts).rest);
    a := AndE(o, t);
    Glue(ts, OrToks(o), OrF(ts).rest, AndTailToks(t), AndF(ts).rest);
  }

  lemma {:induction false} AndTailWitness(left: Cond, ts: seq<Tok>) returns (t: AndTail)
    requires Ends(ts) && AndLoopF(left, ts).Good?
    ensures ts == AndTailToks(t) + AndLoopF(left, ts).rest && AndTailCond(left, t) == AndLoopF(left, ts).val
    decreases |ts|, 5
  {
    if ts[0] == AndMark {
      assert ts == [AndMark] + ts[1..];
      t := AndStepWitness(left, [AndMark], ts[1..]);
      Split([AndMark], OrToks(t.e) + AndTailToks(t.rest), AndLoopF(left, ts).rest);
    } else if ts[0].StartsTerm() {
      t := AndStepWitness(left, [], ts);
      assert AndTailToks(t) == OrToks(t.e) + AndTailToks(t.rest);
    } else {
      t := AndEnd;
    }
  }

  /** One round of the AND loop, after the optional separator. */
  lemma {:induction false} AndStepWitness(left: Cond, sep: seq<Tok>, body: seq<Tok>) returns (t: AndTail)
    requires Ends(body) && OrF(body).Good?
    requires AndLoopF(Merge(Op.And, left, OrF(body).val), OrF(body).rest).Good?
    requires sep == [AndMark] || sep == []
    ensures t.AndMore? && t.explicit == (sep == [AndMark])
    ensures var end := AndLoopF(Merge(Op.And, left, OrF(body).val), OrF(body).rest);
            body == (OrToks(t.e) + AndTailToks(t.rest)) + end.rest && AndTailCond(left, t) == end.val
    decreases |body|, 4
  {
    var o := OrWitness(body);
    var after := OrF(body).rest;
    var more := AndTailWitness(Merge(Op.And, left, OrCond(o)), after);
    t := AndMore(sep == [AndMark], o, more);
    Glue(body, OrToks(o), after, AndTailToks(more), AndLoopF(Merge(Op.And, left, OrCond(o)), after).rest);
  }

  // ---- The grammar theorem ----

  /** What the lexer emits: one EOF, at the end. */
  predicate Stream(ts: seq<Tok>) { Ends(ts) && forall i :: 0 <= i < |ts| - 1 ==> ts[i] != EOF }

  ghost predicate Spells(a: AndE, ts: seq<Tok>) { ts == AndToks(a) + [EOF] }

  /** The parser returns `c` exactly when the tokens spell a tree denoting `c`. */
  lemma ParserIsTheGrammar(ts: seq<Tok>, c: Cond)
    requires Stream(ts)
    ensures (ParseF(ts).Good? && ParseF(ts).val == c) <==> exists a :: Spells(a, ts) && AndCond(a) == c
  {
    if ParseF(ts).Good? {
      var rest := AndF(ts).rest;
      var a := AndWitness(ts);
      assert ts[|AndToks(a)|] == EOF;
      assert |rest| == 1 && rest == [EOF];
      assert Spells(a, ts);
    }
    if a :| Spells(a, ts) && AndCond(a) == c {
      AndReads(a, [EOF]);
    }
  }

  /** No token sequence spells two trees that denote different conditions. */
  lemma GrammarIsUnambiguous(a: AndE, b: AndE)
    requires AndToks(a) == AndToks(b)
    ensures AndCond(a) == AndCond(b)
  {
    AndReads(a, [EOF]);
    AndReads(b, [EOF]);
  }
}
