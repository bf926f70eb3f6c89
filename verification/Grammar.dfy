/** Tokens of the query language and its concrete syntax trees: the reference grammar the
    parser is measured against. Every tree spells a token sequence and denotes a condition. */
module Grammar {
  import opened Values
  import opened Conditions

  datatype Cmp = CmpEq | CmpNeq | CmpLt | CmpLte | CmpGt | CmpGte | CmpMatches | CmpContains
  {
    function ToOp(): Op {
      match this
      case CmpEq => Op.Eq
      case CmpNeq => Op.Neq
      case CmpLt => Op.Lt
      case CmpLte => Op.Lte
      case CmpGt => Op.Gt
      case CmpGte => Op.Gte
      case CmpMatches => Op.Matches
      case CmpContains => Op.Contains
    }
  }

  datatype Tok =
    | EOF
    | Ident(text: string) | Quoted(text: string)
    | IntLit(i: int) | FloatLit(f: real) | BoolLit(b: bool)
    | LBrack | RBrack | LBrace | RBrace | LParen | RParen | Comma | Colon
    | Compare(cmp: Cmp) | ExistsMark(word: bool) | InMark
    | AndMark | OrMark | NotMark
  {
    predicate StartsTerm() {
      Ident? || Quoted? || IntLit? || FloatLit? || BoolLit? || LParen? || LBrack? || LBrace? || NotMark?
    }

    /** Tokens that, after a first atom, make it something other than a search. */
    predicate ExtendsAtom() { Compare? || ExistsMark? || InMark? }
  }

  function WordTok(text: string, quoted: bool): Tok { if quoted then Quoted(text) else Ident(text) }

  // ---- Literals ----

  datatype Lit =
    | Word(text: string, quoted: bool)
    | Integer(i: int) | Decimal(f: real) | Truth(b: bool)
    | Array(items: Lits) | Table(entries: Entries)
  datatype Lits = NoLit | MoreLit(head: Lit, tail: Lits)
  datatype Entries = NoEntry | MoreEntry(key: string, quoted: bool, val: Lit, tail: Entries)

  function LitToks(l: Lit): seq<Tok> {
    match l
    case Word(t, q) => [WordTok(t, q)]
    case Integer(i) => [IntLit(i)]
    case Decimal(f) => [FloatLit(f)]
    case Truth(b) => [BoolLit(b)]
    case Array(items) => [LBrack] + ItemToks(items)
    case Table(entries) => [LBrace] + EntryToks(entries)
  }

  function ItemToks(items: Lits): seq<Tok> {
    match items
    case NoLit => [RBrack]
    case MoreLit(h, t) => LitToks(h) + if t.NoLit? then [RBrack] else [Comma] + ItemToks(t)
  }

  function EntryToks(entries: Entries): seq<Tok> {
    match entries
    case NoEntry => [RBrace]
    case MoreEntry(k, q, v, t) =>
      [WordTok(k, q), Colon] + (LitToks(v) + if t.NoEntry? then [RBrace] else [Comma] + EntryToks(t))
  }

  function LitValue(l: Lit): Value {
    match l
    case Word(t, _) => Str(t)
    case Integer(i) => Int(i)
    case Decimal(f) => Float(f)
    case Truth(b) => Bool(b)
    case Array(items) => List(ItemValues(items))
    case Table(entries) => Obj(EntryValues(map[], entries))
  }

  function ItemValues(items: Lits): seq<Value> {
    match items
    case NoLit => []
    case MoreLit(h, t) => [LitValue(h)] + ItemValues(t)
  }

  /** A repeated key keeps its last value. */
  function EntryValues(acc: map<string, Value>, entries: Entries): map<string, Value>
    decreases entries
  {
    match entries
    case NoEntry => acc
    case MoreEntry(k, _, v, t) => EntryValues(acc[k := LitValue(v)], t)
  }

  // ---- Conditions: AND binds loosest, then OR, then NOT ----

  datatype AndE = AndE(head: OrE, tail: AndTail)
  datatype AndTail = AndEnd | AndMore(explicit: bool, e: OrE, rest: AndTail)
  datatype OrE = OrE(head: NotE, tail: OrTail)
  datatype OrTail = OrEnd | OrMore(e: NotE, rest: OrTail)
  datatype NotE = Negated(e: NotE) | Plain(t: Term)
  datatype Term =
    | Paren(e: AndE)
    | Comparison(field: string, quoted: bool, cmp: Cmp, value: Lit)
    | Presence(field: string, quoted: bool, word: bool)
    | Membership(first: Lit, field: string, quoted: bool)
    | FullText(first: Lit)

  function AndToks(a: AndE): seq<Tok> { OrToks(a.head) + AndTailToks(a.tail) }

  function AndTailToks(t: AndTail): seq<Tok> {
    match t
    case AndEnd => []
    case AndMore(explicit, e, rest) => (if explicit then [AndMark] else []) + (OrToks(e) + AndTailToks(rest))
  }

  function OrToks(o: OrE): seq<Tok> { NotToks(o.head) + OrTailToks(o.tail) }

  function OrTailToks(t: OrTail): seq<Tok> {
    match t
    case OrEnd => []
    case OrMore(e, rest) => [OrMark] + (NotToks(e) + OrTailToks(rest))
  }

  function NotToks(n: NotE): seq<Tok> {
    match n
    case Negated(e) => [NotMark] + NotToks(e)
    case Plain(t) => TermToks(t)
  }

  function TermToks(t: Term): seq<Tok> {
    match t
    case Paren(e) => [LParen] + (AndToks(e) + [RParen])
    case Comparison(f, q, cmp, v) => [WordTok(f, q), Compare(cmp)] + LitToks(v)
    case Presence(f, q, w) => [WordTok(f, q), ExistsMark(w)]
    case Membership(l, f, q) => LitToks(l) + [InMark, WordTok(f, q)]
    case FullText(l) => LitToks(l)
  }

  /** `left` with `right` appended at the end of its right spine of binary `op` nodes. */
  function Merge(op: Op, left: Cond, right: Cond): Cond
    decreases left
  {
    if left.op == op && |left.children| == 2
    then Node(op, [left.children[0], Merge(op, left.children[1], right)])
    else Node(op, [left, right])
  }

  function AndCond(a: AndE): Cond { AndTailCond(OrCond(a.head), a.tail) }

  function AndTailCond(left: Cond, t: AndTail): Cond
    decreases t
  {
    match t
    case AndEnd => left
    case AndMore(_, e, rest) => AndTailCond(Merge(Op.And, left, OrCond(e)), rest)
  }

  function OrCond(o: OrE): Cond { OrTailCond(NotCond(o.head), o.tail) }

  function OrTailCond(left: Cond, t: OrTail): Cond
    decreases t
  {
    match t
    case OrEnd => left
    case OrMore(e, rest) => OrTailCond(Merge(Op.Or, left, NotCond(e)), rest)
  }

  function NotCond(n: NotE): Cond {
    match n
    case Negated(e) => Node(Op.Not, [NotCond(e)])
    case Plain(t) => TermCond(t)
  }

  function TermCond(t: Term): Cond {
    match t
    case Paren(e) => AndCond(e)
    case Comparison(f, _, cmp, v) => Leaf(cmp.ToOp(), f, LitValue(v))
    case Presence(f, _, _) => Leaf(Op.Exists, f, Null)
    case Membership(l, f, _) => Leaf(Op.In, f, LitValue(l))
    case FullText(l) => Leaf(Op.Search, "", LitValue(l))
  }
}
