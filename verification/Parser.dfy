/** The recursive-descent parser: imperative methods over a token cursor, each proved to
    compute a function of the tokens still to be read. */
module Parser {
  import opened Values
  import opened Conditions
  import opened Grammar

  datatype Why =
    | ExpectedLiteral | ExpectedRParen | ExpectedRBrack | ExpectedRBrace
    | ExpectedKey | ExpectedColon | LeftNotField | RightNotField | Trailing

  /** A parse of a token suffix: the value and what is left, or where it failed, counted
      in tokens from the end. */
  datatype Parsed<+T> = Good(val: T, rest: seq<Tok>) | Fail(left: nat, why: Why)

  predicate Ends(ts: seq<Tok>) { ts != [] && ts[|ts| - 1] == EOF }

  // ---- Literals ----

  function LiteralF(ts: seq<Tok>): (r: Parsed<Value>)
    requires Ends(ts)
    ensures r.Good? ==> Ends(r.rest) && |r.rest| < |ts|
    ensures r.Fail? ==> 0 < r.left <= |ts|
    decreases |ts|, 1
  {
    match ts[0]
    case Quoted(t) => Good(Str(t), ts[1..])
    case Ident(t) => Good(Str(t), ts[1..])
    case IntLit(i) => Good(Int(i), ts[1..])
    case FloatLit(f) => Good(Float(f), ts[1..])
    case BoolLit(b) => Good(Bool(b), ts[1..])
    case LBrack => if ts[1] == RBrack then Good(List([]), ts[1..][1..]) else ItemsF([], ts[1..])
    case LBrace => if ts[1] == RBrace then Good(Obj(map[]), ts[1..][1..]) else EntriesF(map[], ts[1..])
    case _ => Fail(|ts|, ExpectedLiteral)
  }

  function ItemsF(acc: seq<Value>, ts: seq<Tok>): (r: Parsed<Value>)
    requires Ends(ts)
    ensures r.Good? ==> Ends(r.rest) && |r.rest| < |ts|
    ensures r.Fail? ==> 0 < r.left <= |ts|
    decreases |ts|, 2
  {
    match LiteralF(ts)
    case Fail(l, w) => Fail(l, w)
    case Good(v, rest) =>
      if rest[0] == Comma then ItemsF(acc + [v], rest[1..])
      else if rest[0] == RBrack then Good(List(acc + [v]), rest[1..])
      else Fail(|rest|, ExpectedRBrack)
  }

  function EntryF(ts: seq<Tok>): (r: Parsed<(string, Value)>)
    requires Ends(ts)
    ensures r.Good? ==> Ends(r.rest) && |r.rest| < |ts|
    ensures r.Fail? ==> 0 < r.left <= |ts|
    decreases |ts|, 2
  {
    if !ts[0].Quoted? && !ts[0].Ident? then Fail(|ts|, ExpectedKey)
    else if ts[1] != Colon then Fail(|ts| - 1, ExpectedColon)
    else
      match LiteralF(ts[1..][1..])
      case Fail(l, w) => Fail(l, w)
      case Good(v, rest) => Good((ts[0].text, v), rest)
  }

  function EntriesF(acc: map<string, Value>, ts: seq<Tok>): (r: Parsed<Value>)
    requires Ends(ts)
    ensures r.Good? ==> Ends(r.rest) && |r.rest| < |ts|
    ensures r.Fail? ==> 0 < r.left <= |ts|
    decreases |ts|, 3
  {
    match EntryF(ts)
    case Fail(l, w) => Fail(l, w)
    case Good(kv, rest) =>
      if rest[0] == Comma then EntriesF(acc[kv.0 := kv.1], rest[1..])
      else if rest[0] == RBrace then Good(Obj(acc[kv.0 := kv.1]), rest[1..])
      else Fail(|rest|, ExpectedRBrace)
  }

  // ---- Conditions ----

  function ComparisonF(first: Value, cmp: Cmp, ts: seq<Tok>): (r: Parsed<Cond>)
    requires Ends(ts) && ts[0] == Compare(cmp)
    ensures r.Good? ==> Ends(r.rest) && |r.rest| <= |ts|
    ensures r.Fail? ==> 0 < r.left <= |ts|
  {
    match LiteralF(ts[1..])
    case Fail(l, w) => Fail(l, w)
    case Good(v, rest) =>
      if first.Str? then Good(Leaf(cmp.ToOp(), first.s, v), rest) else Fail(|ts|, LeftNotField)
  }

  /** What follows the first atom of a term decides its form. */
  function AfterAtomF(first: Value, ts: seq<Tok>): (r: Parsed<Cond>)
    requires Ends(ts)
    ensures r.Good? ==> Ends(r.rest) && |r.rest| <= |ts|
    ensures r.Fail? ==> 0 < r.left <= |ts|
  {
    match ts[0]
    case Compare(cmp) => ComparisonF(first, cmp, ts)
    case ExistsMark(_) =>
      if first.Str? then Good(Leaf(Op.Exists, first.s, Null), ts[1..]) else Fail(|ts|, LeftNotField)
    case InMark =>
      if ts[1].Ident? || ts[1].Quoted? then Good(Leaf(Op.In, ts[1].text, first), ts[1..][1..])
      else Fail(|ts| - 1, RightNotField)
    case _ => Good(Leaf(Op.Search, "", first), ts)
  }

  function TermF(ts: seq<Tok>): (r: Parsed<Cond>)
    requires Ends(ts)
    ensures r.Good? ==> Ends(r.rest) && |r.rest| < |ts|
    ensures r.Fail? ==> 0 < r.left <= |ts|
    decreases |ts|, 0
  {
    if ts[0] == LParen then
      match AndF(ts[1..])
      case Fail(l, w) => Fail(l, w)
      case Good(c, rest) => if rest[0] == RParen then Good(c, rest[1..]) else Fail(|rest|, ExpectedRParen)
    else
      match LiteralF(ts)
      case Fail(l, w) => Fail(l, w)
      case Good(first, rest) => AfterAtomF(first, rest)
  }

  function NotF(ts: seq<Tok>): (r: Parsed<Cond>)
    requires Ends(ts)
    ensures r.Good? ==> Ends(r.rest) && |r.rest| < |ts|
    ensures r.Fail? ==> 0 < r.left <= |ts|
    decreases |ts|, 1
  {
    if ts[0] == NotMark then
      match NotF(ts[1..])
      case Fail(l, w) => Fail(l, w)
      case Good(c, rest) => Good(Node(Op.Not, [c]), rest)
    else TermF(ts)
  }

  function OrF(ts: seq<Tok>): (r: Parsed<Cond>)
    requires Ends(ts)
    ensures r.Good? ==> Ends(r.rest) && |r.rest| < |ts|
    ensures r.Fail? ==> 0 < r.left <= |ts|
    decreases |ts|, 2
  {
    match NotF(ts)
    case Fail(l, w) => Fail(l, w)
    case Good(c, rest) => OrLoopF(c, rest)
  }

  function OrLoopF(left: Cond, ts: seq<Tok>): (r: Parsed<Cond>)
    requires Ends(ts)
    ensures r.Good? ==> Ends(r.rest) && |r.rest| <= |ts|
    ensures r.Fail? ==> 0 < r.left <= |ts|
    decreases |ts|, 3
  {
    if ts[0] != OrMark then Good(left, ts)
    else
      match NotF(ts[1..])
      case Fail(l, w) => Fail(l, w)
      case Good(c, rest) => OrLoopF(Merge(Op.Or, left, c), rest)
  }

  function AndF(ts: seq<Tok>): (r: Parsed<Cond>)
    requires Ends(ts)
    ensures r.Good? ==> Ends(r.rest) && |r.rest| < |ts|
    ensures r.Fail? ==> 0 < r.left <= |ts|
    decreases |ts|, 4
  {
    match OrF(ts)
    case Fail(l, w) => Fail(l, w)
    case Good(c, rest) => AndLoopF(c, rest)
  }

  function AndLoopF(left: Cond, ts: seq<Tok>): (r: Parsed<Cond>)
    requires Ends(ts)
    ensures r.Good? ==> Ends(r.rest) && |r.rest| <= |ts|
    ensures r.Fail? ==> 0 < r.left <= |ts|
    decreases |ts|, 5
  {
    if ts[0] != AndMark && !ts[0].StartsTerm() then Good(left, ts)
    else
      match OrF(if ts[0] == AndMark then ts[1..] else ts)
      case Fail(l, w) => Fail(l, w)
      case Good(c, rest) => AndLoopF(Merge(Op.And, left, c), rest)
  }

  function ParseF(ts: seq<Tok>): (r: Parsed<Cond>)
    requires Ends(ts)
    ensures r.Fail? ==> 0 < r.left <= |ts|
  {
    match AndF(ts)
    case Fail(l, w) => Fail(l, w)
    case Good(c, rest) => if rest[0] == EOF then Good(c, rest) else Fail(|rest|, Trailing)
  }

  // ---- The cursor ----

  datatype Outcome<+T> = Value(val: T) | Error(at: int, why: Why)

  /** The unread tokens at a cursor position; the last one is always EOF. */
  ghost function From(toks: seq<Tok>, pos: nat): (ts: seq<Tok>)
    requires pos < |toks| && Ends(toks)
    ensures Ends(ts) && |ts| == |toks| - pos && ts[0] == toks[pos]
    ensures toks[pos] != EOF ==> pos + 1 < |toks| && ts[1..] == toks[pos + 1..]
  {
    toks[pos..]
  }

  /** The outcome and the new cursor position are what `spec` says. */
  ghost predicate Agrees<T>(r: Outcome<T>, spec: Parsed<T>, toks: seq<Tok>, pos: nat)
    requires pos < |toks| && Ends(toks)
  {
    match spec
    case Good(v, rest) => r == Value(v) && From(toks, pos) == rest
    case Fail(left, w) => r == Error(|toks| - left, w)
  }

  class Cursor {
    const toks: seq<Tok>
    var pos: nat

    ghost predicate Valid()
      reads this
    {
      pos < |toks| && Ends(toks)
    }

    constructor (toks: seq<Tok>)
      requires Ends(toks)
      ensures Valid() && this.toks == toks && pos == 0
    {
      this.toks := toks;
      pos := 0;
    }

    function Peek(): Tok
      requires Valid()
      reads this
    {
      toks[pos]
    }

    method Advance() returns (t: Tok)
      requires Valid()
      modifies this
      ensures Valid() && t == old(toks[pos])
      ensures pos == if t == EOF then old(pos) else old(pos) + 1
    {
      t := toks[pos];
      if t != EOF {
        pos := pos + 1;
      }
    }

    method ParseLiteral() returns (r: Outcome<Value>)
      requires Valid()
      modifies this
      ensures Valid() && Agrees(r, LiteralF(From(toks, old(pos))), toks, pos)
      ensures old(pos) <= pos && (r.Value? ==> old(pos) < pos)
      decreases |toks| - pos, 1
    {
      var t := Peek();
      match t {
        case Quoted(s) => var _ := Advance(); r := Value(Str(s));
        case Ident(s) => var _ := Advance(); r := Value(Str(s));
        case IntLit(i) => var _ := Advance(); r := Value(Int(i));
        case FloatLit(f) => var _ := Advance(); r := Value(Float(f));
        case BoolLit(b) => var _ := Advance(); r := Value(Bool(b));
        case LBrack => r := ParseArray();
        case LBrace => r := ParseObject();
        case _ => r := Error(pos, ExpectedLiteral);
      }
    }

    method ParseArray() returns (r: Outcome<Value>)
      requires Valid() && Peek() == LBrack
      modifies this
      ensures Valid() && Agrees(r, LiteralF(From(toks, old(pos))), toks, pos)
      ensures old(pos) < pos
      decreases |toks| - pos, 0
    {
      var _ := Advance();
      if Peek() == RBrack {
        var _ := Advance();
        return Value(List([]));
      }
      r := ParseItems();
    }

    method ParseItems() returns (r: Outcome<Value>)
      requires Valid()
      modifies this
      ensures Valid() && Agrees(r, ItemsF([], From(toks, old(pos))), toks, pos)
      ensures old(pos) <= pos
      decreases |toks| - pos, 2
    {
      ghost var spec := ItemsF([], From(toks, pos));
      var out: seq<Value> := [];
      while true
        invariant Valid() && old(pos) <= pos
        invariant spec == ItemsF(out, From(toks, pos))
        decreases |toks| - pos
      {
        var v := ParseLiteral();
        if v.Error? {
          return Error(v.at, v.why);
        }
        out := out + [v.val];
        if Peek() == RBrack {
          var _ := Advance();
          return Value(List(out));
        } else if Peek() != Comma {
          return Error(pos, ExpectedRBrack);
        }
        var _ := Advance();
      }
    }

    method ParseObject() returns (r: Outcome<Value>)
      requires Valid() && Peek() == LBrace
      modifies this
      ensures Valid() && Agrees(r, LiteralF(From(toks, old(pos))), toks, pos)
      ensures old(pos) < pos
      decreases |toks| - pos, 0
    {
      var _ := Advance();
      if Peek() == RBrace {
        var _ := Advance();
        return Value(Obj(map[]));
      }
      r := ParseEntries();
    }

    method ParseEntries() returns (r: Outcome<Value>)
      requires Valid()
      modifies this
      ensures Valid() && Agrees(r, EntriesF(map[], From(toks, old(pos))), toks, pos)
      ensures old(pos) <= pos
      decreases |toks| - pos, 3
    {
      ghost var spec := EntriesF(map[], From(toks, pos));
      var out: map<string, Value> := map[];
      while true
        invariant Valid() && old(pos) <= pos
        invariant spec == EntriesF(out, From(toks, pos))
        decreases |toks| - pos
      {
        var kv := ParseEntry();
        if kv.Error? {
          return Error(kv.at, kv.why);
        }
        out := out[kv.val.0 := kv.val.1];
        if Peek() == RBrace {
          var _ := Advance();
          return Value(Obj(out));
        } else if Peek() != Comma {
          return Error(pos, ExpectedRBrace);
        }
        var _ := Advance();
      }
    }

    method ParseEntry() returns (r: Outcome<(string, Value)>)
      requires Valid()
      modifies this
      ensures Valid() && Agrees(r, EntryF(From(toks, old(pos))), toks, pos)
      ensures old(pos) <= pos && (r.Value? ==> old(pos) < pos)
      decreases |toks| - pos, 2
    {
      var kt := Peek();
      if !kt.Quoted? && !kt.Ident? {
        return Error(pos, ExpectedKey);
      }
      var _ := Advance();
      if Peek() != Colon {
        return Error(pos, ExpectedColon);
      }
      var _ := Advance();
      var v := ParseLiteral();
      r := if v.Value? then Value((kt.text, v.val)) else Error(v.at, v.why);
    }

    method ParseTerm() returns (r: Outcome<Cond>)
      requires Valid()
      modifies this
      ensures Valid() && Agrees(r, TermF(From(toks, old(pos))), toks, pos)
      ensures old(pos) <= pos && (r.Value? ==> old(pos) < pos)
      decreases |toks| - pos, 3
    {
      if Peek() == LParen {
        var _ := Advance();
        r := ParseAnd();
        if r.Value? {
          if Peek() != RParen {
            return Error(pos, ExpectedRParen);
          }
          var _ := Advance();
        }
        return;
      }
      var first := ParseLiteral();
      if first.Error? {
        return Error(first.at, first.why);
      }
      r := AfterAtom(first.val);
    }

    method ParseComparison(first: Value, cmp: Cmp) returns (r: Outcome<Cond>)
      requires Valid() && Peek() == Compare(cmp)
      modifies this
      ensures Valid() && old(pos) <= pos
      ensures Agrees(r, ComparisonF(first, cmp, From(toks, old(pos))), toks, pos)
    {
      var at := pos;
      var _ := Advance();
      var v := ParseLiteral();
      if v.Error? {
        return Error(v.at, v.why);
      }
      r := if first.Str? then Value(Leaf(cmp.ToOp(), first.s, v.val)) else Error(at, LeftNotField);
    }

    method AfterAtom(first: Value) returns (r: Outcome<Cond>)
      requires Valid()
      modifies this
      ensures Valid() && old(pos) <= pos
      ensures Agrees(r, AfterAtomF(first, From(toks, old(pos))), toks, pos)
    {
      var t, at := Peek(), pos;
      match t {
        case Compare(cmp) =>
          r := ParseComparison(first, cmp);
        case ExistsMark(_) =>
          var _ := Advance();
          r := if first.Str? then Value(Leaf(Op.Exists, first.s, Null)) else Error(at, LeftNotField);
        case InMark =>
          var _ := Advance();
          var rt := Peek();
          if !rt.Ident? && !rt.Quoted? {
            return Error(pos, RightNotField);
          }
          var _ := Advance();
          r := Value(Leaf(Op.In, rt.text, first));
        case _ =>
          r := Value(Leaf(Op.Search, "", first));
      }
    }

    method ParseNot() returns (r: Outcome<Cond>)
      requires Valid()
      modifies this
      ensures Valid() && Agrees(r, NotF(From(toks, old(pos))), toks, pos)
      ensures old(pos) <= pos && (r.Value? ==> old(pos) < pos)
      decreases |toks| - pos, 4
    {
      if Peek() == NotMark {
        var _ := Advance();
        var inner := ParseNot();
        r := if inner.Value? then Value(Node(Op.Not, [inner.val])) else inner;
      } else {
        r := ParseTerm();
      }
    }

    method ParseOr() returns (r: Outcome<Cond>)
      requires Valid()
      modifies this
      ensures Valid() && Agrees(r, OrF(From(toks, old(pos))), toks, pos)
      ensures old(pos) <= pos && (r.Value? ==> old(pos) < pos)
      decreases |toks| - pos, 5
    {
      ghost var spec := OrF(From(toks, pos));
      r := ParseNot();
      if r.Error? {
        return;
      }
      var left := r.val;
      while Peek() == OrMark
        invariant Valid() && old(pos) < pos
        invariant spec == OrLoopF(left, From(toks, pos))
        decreases |toks| - pos
      {
        var _ := Advance();
        r := ParseNot();
        if r.Error? {
          return;
        }
        left := Merge(Op.Or, left, r.val);
      }
      r := Value(left);
    }

    /** One more conjunct, after its AND if there is one. */
    method AndRound(left: Cond) returns (r: Outcome<Cond>)
      requires Valid() && (Peek() == AndMark || Peek().StartsTerm())
      modifies this
      ensures Valid() && old(pos) <= pos && (r.Value? ==> old(pos) < pos)
      ensures var spec := AndLoopF(left, From(toks, old(pos)));
              if r.Value? then spec == AndLoopF(r.val, From(toks, pos)) else Agrees(r, spec, toks, pos)
      decreases |toks| - pos, 6
    {
      if Peek() == AndMark {
        var _ := Advance();
      }
      r := ParseOr();
      if r.Value? {
        r := Value(Merge(Op.And, left, r.val));
      }
    }

    method ParseAnd() returns (r: Outcome<Cond>)
      requires Valid()
      modifies this
      ensures Valid() && Agrees(r, AndF(From(toks, old(pos))), toks, pos)
      ensures old(pos) <= pos && (r.Value? ==> old(pos) < pos)
      decreases |toks| - pos, 6
    {
      ghost var spec := AndF(From(toks, pos));
      r := ParseOr();
      if r.Error? {
        return;
      }
      var left := r.val;
      while Peek() == AndMark || Peek().StartsTerm()
        invariant Valid() && old(pos) < pos
        invariant spec == AndLoopF(left, From(toks, pos))
        decreases |toks| - pos
      {
        r := AndRound(left);
        if r.Error? {
          return;
        }
        left := r.val;
      }
      r := Value(left);
    }
  }

  method Parse(toks: seq<Tok>) returns (r: Outcome<Cond>)
    requires Ends(toks)
    ensures match ParseF(toks)
            case Good(c, _) => r == Value(c)
            case Fail(left, w) => r == Error(|toks| - left, w)
  {
    var p := new Cursor(toks);
    r := p.ParseAnd();
    if r.Value? && p.Peek() != EOF {
      r := Error(p.pos, Trailing);
    }
  }
}
