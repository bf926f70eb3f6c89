/** From query text to condition and back: the lexer and the parser together. */
module Queries {
  import opened Values
  import opened Conditions
  import opened Grammar
  import opened Parser
  import opened ParserTheorems
  import opened NormalForm
  import F = ParserFaults
  import L = Lexer
  import T = LexerTheorems

  datatype Query = Accepted(cond: Cond) | BadToken(pos: nat, fault: L.Fault) | BadSyntax(pos: nat, why: Why)

  /** Accepted tokens are what the parser expects: one EOF, at the end. */
  lemma LexedIsStream(a: L.Alphabet, src: string)
    requires L.LexF(a, src, 0).Spans?
    ensures Stream(T.Toks(L.LexF(a, src, 0).spans))
  {
    var spans := L.LexF(a, src, 0).spans;
    T.LexTiles(a, src, 0);
    forall j | 0 <= j < |spans| ensures spans[j].tok == EOF <==> j == |spans| - 1 {
      T.TileAt(a, src, 0, spans, j);
    }
  }

  /** A syntax error is reported at the source position of the offending token. */
  function QueryF(a: L.Alphabet, src: string): Query {
    match L.LexF(a, src, 0)
    case Rejected(p, f) => BadToken(p, f)
    case Spans(spans) =>
      LexedIsStream(a, src);
      match ParseF(T.Toks(spans))
      case Good(c, _) => Accepted(c)
      case Fail(left, why) => BadSyntax(ErrorPos(spans, left), why)
  }

  function ErrorPos(spans: seq<L.Span>, left: nat): nat
    requires 0 < left <= |spans|
  {
    spans[|spans| - left].start
  }

  method ParseQuery(a: L.Alphabet, src: string) returns (r: Query)
    ensures r == QueryF(a, src)
  {
    var scanner := new L.Scanner(a, src);
    var lexed := scanner.Run();
    if lexed.Rejected? {
      return BadToken(lexed.pos, lexed.fault);
    }
    LexedIsStream(a, src);
    var parsed := Parse(T.Toks(lexed.spans));
    if parsed.Value? {
      return Accepted(parsed.val);
    }
    r := BadSyntax(lexed.spans[parsed.at].start, parsed.why);
  }

  /** A syntax error points at the start of a token that cannot stand there. */
  lemma ErrorPointsAtToken(a: L.Alphabet, src: string) returns (j: nat)
    requires QueryF(a, src).BadSyntax?
    ensures L.LexF(a, src, 0).Spans? && j < |L.LexF(a, src, 0).spans|
    ensures var at := L.LexF(a, src, 0).spans[j];
            QueryF(a, src).pos == at.start && F.Offends(at.tok, QueryF(a, src).why)
  {
    var spans := L.LexF(a, src, 0).spans;
    LexedIsStream(a, src);
    F.ErrorOffends(T.Toks(spans));
    j := |spans| - ParseF(T.Toks(spans)).left;
  }

  // ---- Printing a condition ----

  /** Literals with a printed form: integers that fit in 64 bits, and floats the formatter shows
      as decimals that read back. */
  ghost predicate PlainValue(a: L.Alphabet, v: Value)
    decreases v
  {
    match v
    case Float(f) => T.Formats(a, f)
    case Int(i) => -L.TWO63 <= i < L.TWO63
    case List(es) => forall e <- es :: PlainValue(a, e)
    case Obj(m) => forall k <- m :: PlainValue(a, m[k])
    case _ => true
  }

  ghost predicate PlainCond(a: L.Alphabet, c: Cond)
    decreases c
  {
    PlainValue(a, c.value) && forall k <- c.children :: PlainCond(a, k)
  }

  ghost function PrintQuery(a: L.Alphabet, c: Cond): string
    requires ParserNormal(c)
  {
    T.PrintAll(a, AndToks(RenderAnd(c)))
  }

  ghost predicate AllPrintable(a: L.Alphabet, ts: seq<Tok>) { forall k :: 0 <= k < |ts| ==> T.Printable(a, ts[k]) }

  lemma Both(a: L.Alphabet, x: seq<Tok>, y: seq<Tok>)
    requires AllPrintable(a, x) && AllPrintable(a, y)
    ensures AllPrintable(a, x + y)
  {
  }

  lemma {:induction false} LitPrints(a: L.Alphabet, v: Value)
    requires IsLiteral(v) && PlainValue(a, v)
    ensures AllPrintable(a, LitToks(LitOf(v)))
    decreases v, 1
  {
    match v {
      case List(es) =>
        ItemsPrint(a, v, |es|);
        Both(a, [LBrack], ItemToks(LitsOf(v, |es|)));
      case Obj(m) =>
        EntriesPrint(a, v, m.Keys);
        Both(a, [LBrace], EntryToks(EntriesOf(v, m.Keys)));
      case _ =>
    }
  }

  lemma {:induction false} ItemsPrint(a: L.Alphabet, v: Value, left: nat)
    requires IsLiteral(v) && PlainValue(a, v) && v.List? && left <= |v.elems|
    ensures AllPrintable(a, ItemToks(LitsOf(v, left)))
    decreases v, 0, left
  {
    if left == 0 {
    } else {
      var h, t := v.elems[|v.elems| - left], LitsOf(v, left - 1);
      LitPrints(a, h);
      ItemsPrint(a, v, left - 1);
      Both(a, [Comma], ItemToks(t));
      Both(a, LitToks(LitOf(h)), if t.NoLit? then [RBrack] else [Comma] + ItemToks(t));
    }
  }

  lemma {:induction false} EntriesPrint(a: L.Alphabet, v: Value, keys: set<string>)
    requires IsLiteral(v) && PlainValue(a, v) && v.Obj? && keys <= v.fields.Keys
    ensures AllPrintable(a, EntryToks(EntriesOf(v, keys)))
    decreases v, 0, keys
  {
    if keys == {} {
    } else {
      var e := EntriesOf(v, keys);
      var k := e.key;
      assert k in keys && e == MoreEntry(k, true, LitOf(v.fields[k]), EntriesOf(v, keys - {k}));
      LitPrints(a, v.fields[k]);
      EntriesPrint(a, v, keys - {k});
      var last := if e.tail.NoEntry? then [RBrace] else [Comma] + EntryToks(e.tail);
      Both(a, [Comma], EntryToks(e.tail));
      Both(a, LitToks(e.val), last);
      Both(a, [WordTok(k, true), Colon], LitToks(e.val) + last);
    }
  }

  lemma {:induction false} AndPrints(a: L.Alphabet, c: Cond)
    requires ParserNormal(c) && PlainCond(a, c)
    ensures AllPrintable(a, AndToks(RenderAnd(c)))
    decreases c, 3
  {
    if c.op.And? {
      SpinePrints(a, c);
    } else {
      OrPrints(a, c);
      Both(a, OrToks(RenderOr(c)), []);
    }
  }

  lemma {:induction false} SpinePrints(a: L.Alphabet, c: Cond)
    requires ParserNormal(c) && PlainCond(a, c) && c.op.And?
    ensures AllPrintable(a, AndToks(AndE(RenderOr(c.children[0]), RenderAndTail(c.children[1]))))
    decreases c, 0
  {
    OrPrints(a, c.children[0]);
    AndTailPrints(a, c.children[1]);
    Both(a, OrToks(RenderOr(c.children[0])), AndTailToks(RenderAndTail(c.children[1])));
  }

  lemma {:induction false} AndTailPrints(a: L.Alphabet, c: Cond)
    requires ParserNormal(c) && PlainCond(a, c)
    ensures AllPrintable(a, AndTailToks(RenderAndTail(c)))
    decreases c, 3
  {
    var t := RenderAndTail(c);
    if c.op.And? {
      OrPrints(a, c.children[0]);
      AndTailPrints(a, c.children[1]);
    } else {
      OrPrints(a, c);
      assert AndTailToks(AndEnd) == [];
    }
    Both(a, OrToks(t.e), AndTailToks(t.rest));
    Both(a, [AndMark], OrToks(t.e) + AndTailToks(t.rest));
  }

  lemma {:induction false} OrPrints(a: L.Alphabet, c: Cond)
    requires ParserNormal(c) && PlainCond(a, c)
    ensures AllPrintable(a, OrToks(RenderOr(c)))
    decreases c, 2
  {
    if c.op.Or? {
      OrSpinePrints(a, c);
    } else {
      NotPrints(a, c);
      Both(a, NotToks(RenderNot(c)), []);
    }
  }

  lemma {:induction false} OrSpinePrints(a: L.Alphabet, c: Cond)
    requires ParserNormal(c) && PlainCond(a, c) && c.op.Or?
    ensures AllPrintable(a, OrToks(OrE(RenderNot(c.children[0]), RenderOrTail(c.children[1]))))
    decreases c, 0
  {
    NotPrints(a, c.children[0]);
    OrTailPrints(a, c.children[1]);
    Both(a, NotToks(RenderNot(c.children[0])), OrTailToks(RenderOrTail(c.children[1])));
  }

  lemma {:induction false} OrTailPrints(a: L.Alphabet, c: Cond)
    requires ParserNormal(c) && PlainCond(a, c)
    ensures AllPrintable(a, OrTailToks(RenderOrTail(c)))
    decreases c, 2
  {
    var t := RenderOrTail(c);
    if c.op.Or? {
      NotPrints(a, c.children[0]);
      OrTailPrints(a, c.children[1]);
    } else {
      NotPrints(a, c);
      assert OrTailToks(OrEnd) == [];
    }
    Both(a, NotToks(t.e), OrTailToks(t.rest));
    Both(a, [OrMark], NotToks(t.e) + OrTailToks(t.rest));
  }

  lemma {:induction false} ParenPrints(a: L.Alphabet, e: AndE)
    requires AllPrintable(a, AndToks(e))
    ensures AllPrintable(a, NotToks(Plain(Paren(e))))
  {
    Both(a, AndToks(e), [RParen]);
    Both(a, [LParen], AndToks(e) + [RParen]);
  }

  lemma {:induction false} NotPrints(a: L.Alphabet, c: Cond)
    requires ParserNormal(c) && PlainCond(a, c)
    ensures AllPrintable(a, NotToks(RenderNot(c)))
    decreases c, 1
  {
    if c.op.And? {
      SpinePrints(a, c);
      ParenPrints(a, AndE(RenderOr(c.children[0]), RenderAndTail(c.children[1])));
    } else if c.op.Or? {
      OrSpinePrints(a, c);
      var o := OrE(RenderNot(c.children[0]), RenderOrTail(c.children[1]));
      assert AndToks(AndE(o, AndEnd)) == OrToks(o);
      ParenPrints(a, AndE(o, AndEnd));
    } else if c.op.Not? {
      NotPrints(a, c.children[0]);
      Both(a, [NotMark], NotToks(RenderNot(c.children[0])));
    } else if !c.op.Exists? {
      LeafPrints(a, c);
    }
  }

  lemma {:induction false} LeafPrints(a: L.Alphabet, c: Cond)
    requires ParserNormal(c) && PlainCond(a, c) && (c.op.IsBinary() || c.op.In? || c.op.Search?)
    ensures AllPrintable(a, NotToks(RenderNot(c)))
  {
    LitPrints(a, c.value);
    if c.op.In? {
      Both(a, LitToks(LitOf(c.value)), [InMark, WordTok(c.field, true)]);
    } else if c.op.IsBinary() {
      Both(a, [WordTok(c.field, true), Compare(CmpOf(c.op))], LitToks(LitOf(c.value)));
    }
  }

  /** Printing a normal condition as text and parsing the text gives back the condition. */
  lemma TextRoundTrip(a: L.Alphabet, c: Cond)
    requires T.Sane(a) && ParserNormal(c) && PlainCond(a, c)
    ensures QueryF(a, PrintQuery(a, c)) == Accepted(c)
  {
    AndPrints(a, c);
    T.LexOfPrint(a, AndToks(RenderAnd(c)));
    RenderParses(c);
  }
}
