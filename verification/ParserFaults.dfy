/** What a syntax error says: the token it points at is out of place, and no query that goes on
    differently after that token is accepted either. */
module ParserFaults {
  import opened Values
  import opened Conditions
  import opened Grammar
  import opened Parser

  /** What is wrong with the token an error points at. */
  predicate Offends(t: Tok, why: Why) {
    match why
    case ExpectedLiteral =>
      !t.Quoted? && !t.Ident? && !t.IntLit? && !t.FloatLit? && !t.BoolLit? && !t.LBrack? && !t.LBrace?
    case ExpectedRParen => t != RParen && EndsChain(t)
    case ExpectedRBrack => t != RBrack && t != Comma
    case ExpectedRBrace => t != RBrace && t != Comma
    case ExpectedKey => !t.Quoted? && !t.Ident?
    case ExpectedColon => t != Colon
    case LeftNotField => t.Compare? || t.ExistsMark?
    case RightNotField => !t.Quoted? && !t.Ident?
    case Trailing => t != EOF && EndsChain(t)
  }

  /** The token neither joins another operand nor starts one. */
  predicate EndsChain(t: Tok) { t != OrMark && t != AndMark && !t.StartsTerm() }

  /** Both start with the same `n` tokens. */
  predicate Shares(ts: seq<Tok>, us: seq<Tok>, n: nat) { n <= |ts| && n <= |us| && ts[..n] == us[..n] }

  /** `r` is a parse of `ts`: it leaves a suffix or points at an offending token. If that lies
      within the first `n` tokens, then `q`, the parse of `us`, goes the same way. */
  ghost predicate Steady<T>(r: Parsed<T>, q: Parsed<T>, ts: seq<Tok>, us: seq<Tok>, n: nat)
    requires n <= |us|
  {
    match r
    case Good(v, rest) =>
      && |rest| <= |ts| && rest == ts[|ts| - |rest|..]
      && (|ts| - |rest| < n ==> q == Good(v, us[|ts| - |rest|..]))
    case Fail(left, why) =>
      0 < left <= |ts| && Offends(ts[|ts| - left], why) && (|ts| - left < n ==> q.Fail?)
  }

  // ---- Moving on by `k` tokens ----

  /** What to compare the suffix `ts[k..]` with: the same suffix of `us`, as far as they agree. */
  function Other(ts: seq<Tok>, us: seq<Tok>, n: nat, k: nat): seq<Tok>
    requires k <= |ts| && n <= |us|
  {
    if k < n then us[k..] else ts[k..]
  }

  function Less(n: nat, k: nat): nat { if k < n then n - k else 0 }

  lemma OtherShares(ts: seq<Tok>, us: seq<Tok>, n: nat, k: nat)
    requires Shares(ts, us, n) && k < |ts| && Ends(ts) && Ends(us)
    ensures Ends(ts[k..]) && Ends(Other(ts, us, n, k)) && Shares(ts[k..], Other(ts, us, n, k), Less(n, k))
    ensures ts[k..][0] == ts[k] && (k < n ==> us[k] == ts[k])
    ensures k + 1 < |ts| ==> ts[k..][1..] == ts[k + 1..]
    ensures k + 1 < |us| ==> us[k..][1..] == us[k + 1..]
  {
    if k < n {
      assert ts[k..][..n - k] == ts[..n][k..] && us[k..][..n - k] == us[..n][k..];
      assert ts[..n][k] == us[..n][k];
    }
  }

  lemma Shift<T>(r: Parsed<T>, q: Parsed<T>, q0: Parsed<T>, ts: seq<Tok>, us: seq<Tok>, n: nat, k: nat)
    requires Shares(ts, us, n) && k < |ts| && Less(n, k) <= |Other(ts, us, n, k)|
    requires Steady(r, q0, ts[k..], Other(ts, us, n, k), Less(n, k)) && (k < n ==> q == q0)
    ensures Steady(r, q, ts, us, n)
  {
    if r.Good? {
      var j := |ts[k..]| - |r.rest|;
      assert ts[k..][j..] == ts[k + j..];
      if k + j < n {
        assert us[k..][j..] == us[k + j..];
      }
    }
  }

  /** A parse that ends well at position `k`. */
  lemma Done<T>(v: T, q: Parsed<T>, ts: seq<Tok>, us: seq<Tok>, n: nat, k: nat)
    requires n <= |us| && k <= |ts| && (k < n ==> q == Good(v, us[k..]))
    ensures Steady(Good(v, ts[k..]), q, ts, us, n)
  {
    assert |ts| - |ts[k..]| == k;
  }

  /** A parse that fails at position `k`. */
  lemma Stuck<T>(why: Why, q: Parsed<T>, ts: seq<Tok>, us: seq<Tok>, n: nat, k: nat)
    requires n <= |us| && k < |ts| && Offends(ts[k], why) && (k < n ==> q.Fail?)
    ensures Steady(Fail(|ts| - k, why), q, ts, us, n)
  {
  }

  lemma Cut(ts: seq<Tok>, k: nat)
    requires Ends(ts) && k < |ts|
    ensures Ends(ts[k..]) && ts[k..][0] == ts[k]
    ensures ts[k] != EOF ==> k + 1 < |ts| && Ends(ts[k + 1..]) && ts[k..][1..] == ts[k + 1..]
  {
  }

  // ---- Literals ----

  lemma {:induction false} LiteralSteady(ts: seq<Tok>, us: seq<Tok>, n: nat)
    requires Ends(ts) && Ends(us) && Shares(ts, us, n)
    ensures Steady(LiteralF(ts), LiteralF(us), ts, us, n)
    decreases |ts|, 1
  {
    OtherShares(ts, us, n, 0);
    if ts[0].LBrack? {
      ArraySteady(ts, us, n);
    } else if ts[0].LBrace? {
      TableSteady(ts, us, n);
    }
  }

  lemma ArrayAt(ts: seq<Tok>)
    requires Ends(ts) && ts[0] == LBrack
    ensures 1 < |ts| && (ts[1] == RBrack ==> 2 < |ts|)
    ensures Ends(ts[1..])
    ensures LiteralF(ts) == if ts[1] == RBrack then Good(List([]), ts[2..]) else ItemsF([], ts[1..])
  {
    Cut(ts, 0);
    Cut(ts, 1);
  }

  lemma {:induction false} ArraySteady(ts: seq<Tok>, us: seq<Tok>, n: nat)
    requires Ends(ts) && Ends(us) && Shares(ts, us, n) && ts[0] == LBrack
    ensures Steady(LiteralF(ts), LiteralF(us), ts, us, n)
    decreases |ts|, 0
  {
    ArrayAt(ts);
    OtherShares(ts, us, n, 0);
    OtherShares(ts, us, n, 1);
    if n > 0 {
      ArrayAt(us);
    }
    if ts[1] == RBrack {
      Done(List([]), LiteralF(us), ts, us, n, 2);
    } else {
      var rest, other := ts[1..], Other(ts, us, n, 1);
      ItemsSteady([], rest, other, Less(n, 1));
      Shift(ItemsF([], rest), LiteralF(us), ItemsF([], other), ts, us, n, 1);
    }
  }

  lemma TableAt(ts: seq<Tok>)
    requires Ends(ts) && ts[0] == LBrace
    ensures 1 < |ts| && (ts[1] == RBrace ==> 2 < |ts|)
    ensures Ends(ts[1..])
    ensures LiteralF(ts) == if ts[1] == RBrace then Good(Obj(map[]), ts[2..]) else EntriesF(map[], ts[1..])
  {
    Cut(ts, 0);
    Cut(ts, 1);
  }

  lemma {:induction false} TableSteady(ts: seq<Tok>, us: seq<Tok>, n: nat)
    requires Ends(ts) && Ends(us) && Shares(ts, us, n) && ts[0] == LBrace
    ensures Steady(LiteralF(ts), LiteralF(us), ts, us, n)
    decreases |ts|, 0
  {
    TableAt(ts);
    OtherShares(ts, us, n, 0);
    OtherShares(ts, us, n, 1);
    if n > 0 {
      TableAt(us);
    }
    if ts[1] == RBrace {
      Done(Obj(map[]), LiteralF(us), ts, us, n, 2);
    } else {
      var rest, other := ts[1..], Other(ts, us, n, 1);
      EntriesSteady(map[], rest, other, Less(n, 1));
      Shift(EntriesF(map[], rest), LiteralF(us), EntriesF(map[], other), ts, us, n, 1);
    }
  }

  lemma ItemsAt(acc: seq<Value>, ts: seq<Tok>, v: Value, k: nat)
    requires Ends(ts) && k < |ts| && LiteralF(ts) == Good(v, ts[k..])
    ensures ts[k] == Comma ==> k + 1 < |ts| && Ends(ts[k + 1..]) && ItemsF(acc, ts) == ItemsF(acc + [v], ts[k + 1..])
    ensures ts[k] == RBrack ==> k + 1 < |ts| && ItemsF(acc, ts) == Good(List(acc + [v]), ts[k + 1..])
    ensures ts[k] != Comma && ts[k] != RBrack ==> ItemsF(acc, ts) == Fail(|ts| - k, ExpectedRBrack)
  {
    Cut(ts, k);
  }

  lemma {:induction false} ItemsSteady(acc: seq<Value>, ts: seq<Tok>, us: seq<Tok>, n: nat)
    requires Ends(ts) && Ends(us) && Shares(ts, us, n)
    ensures Steady(ItemsF(acc, ts), ItemsF(acc, us), ts, us, n)
    decreases |ts|, 2
  {
    LiteralSteady(ts, us, n);
    var r := LiteralF(ts);
    if r.Good? {
      ItemsGoOn(acc, ts, us, n, r.val, |ts| - |r.rest|);
    }
  }

  /** After an item that ended at `k`. */
  lemma {:induction false} ItemsGoOn(acc: seq<Value>, ts: seq<Tok>, us: seq<Tok>, n: nat, v: Value, k: nat)
    requires Ends(ts) && Ends(us) && Shares(ts, us, n) && 0 < k < |ts|
    requires LiteralF(ts) == Good(v, ts[k..]) && (k < n ==> LiteralF(us) == Good(v, us[k..]))
    ensures Steady(ItemsF(acc, ts), ItemsF(acc, us), ts, us, n)
    decreases |ts|, 1
  {
    OtherShares(ts, us, n, k);
    ItemsAt(acc, ts, v, k);
    if k < n {
      ItemsAt(acc, us, v, k);
    }
    if ts[k] == Comma {
      OtherShares(ts, us, n, k + 1);
      var more, rest, other := acc + [v], ts[k + 1..], Other(ts, us, n, k + 1);
      ItemsSteady(more, rest, other, Less(n, k + 1));
      Shift(ItemsF(more, rest), ItemsF(acc, us), ItemsF(more, other), ts, us, n, k + 1);
    } else if ts[k] == RBrack {
      Done(List(acc + [v]), ItemsF(acc, us), ts, us, n, k + 1);
    } else {
      Stuck(ExpectedRBrack, ItemsF(acc, us), ts, us, n, k);
    }
  }

  lemma EntryAt(ts: seq<Tok>)
    requires Ends(ts) && (ts[0].Quoted? || ts[0].Ident?)
    ensures 1 < |ts| && (ts[1] == Colon ==> 2 < |ts| && Ends(ts[2..]))
    ensures EntryF(ts) == if ts[1] == Colon then Keyed(ts[0].text, LiteralF(ts[2..])) else Fail(|ts| - 1, ExpectedColon)
  {
    Cut(ts, 0);
    Cut(ts, 1);
  }

  lemma {:induction false} EntrySteady(ts: seq<Tok>, us: seq<Tok>, n: nat)
    requires Ends(ts) && Ends(us) && Shares(ts, us, n)
    ensures Steady(EntryF(ts), EntryF(us), ts, us, n)
    decreases |ts|, 2
  {
    OtherShares(ts, us, n, 0);
    if !ts[0].Quoted? && !ts[0].Ident? {
      Stuck(ExpectedKey, EntryF(us), ts, us, n, 0);
    } else {
      EntryAt(ts);
      OtherShares(ts, us, n, 1);
      if n > 0 {
        EntryAt(us);
      }
      if ts[1] == Colon {
        ColonSteady(ts, us, n);
      } else {
        Stuck(ExpectedColon, EntryF(us), ts, us, n, 1);
      }
    }
  }

  lemma {:induction false} ColonSteady(ts: seq<Tok>, us: seq<Tok>, n: nat)
    requires Ends(ts) && Ends(us) && Shares(ts, us, n) && 2 < |ts| && Ends(ts[2..])
    requires (ts[0].Quoted? || ts[0].Ident?) && EntryF(ts) == Keyed(ts[0].text, LiteralF(ts[2..]))
    requires 2 < n ==> Ends(us[2..]) && EntryF(us) == Keyed(ts[0].text, LiteralF(us[2..]))
    ensures Steady(EntryF(ts), EntryF(us), ts, us, n)
    decreases |ts|, 1
  {
    OtherShares(ts, us, n, 2);
    var rest, other := ts[2..], Other(ts, us, n, 2);
    LiteralSteady(rest, other, Less(n, 2));
    KeyedSteady(ts[0].text, LiteralF(rest), LiteralF(other), rest, other, Less(n, 2));
    Shift(Keyed(ts[0].text, LiteralF(rest)), EntryF(us), Keyed(ts[0].text, LiteralF(other)), ts, us, n, 2);
  }

  function Keyed(key: string, r: Parsed<Value>): Parsed<(string, Value)> {
    match r
    case Fail(l, w) => Fail(l, w)
    case Good(v, rest) => Good((key, v), rest)
  }

  lemma KeyedSteady(key: string, r: Parsed<Value>, q: Parsed<Value>, ts: seq<Tok>, us: seq<Tok>, n: nat)
    requires n <= |us| && Steady(r, q, ts, us, n)
    ensures Steady(Keyed(key, r), Keyed(key, q), ts, us, n)
  {
  }

  lemma EntriesAt(acc: map<string, Value>, ts: seq<Tok>, kv: (string, Value), k: nat)
    requires Ends(ts) && k < |ts| && EntryF(ts) == Good(kv, ts[k..])
    ensures ts[k] == Comma ==> k + 1 < |ts| && Ends(ts[k + 1..])
                               && EntriesF(acc, ts) == EntriesF(acc[kv.0 := kv.1], ts[k + 1..])
    ensures ts[k] == RBrace ==> k + 1 < |ts| && EntriesF(acc, ts) == Good(Obj(acc[kv.0 := kv.1]), ts[k + 1..])
    ensures ts[k] != Comma && ts[k] != RBrace ==> EntriesF(acc, ts) == Fail(|ts| - k, ExpectedRBrace)
  {
    Cut(ts, k);
  }

  lemma {:induction false} EntriesSteady(acc: map<string, Value>, ts: seq<Tok>, us: seq<Tok>, n: nat)
    requires Ends(ts) && Ends(us) && Shares(ts, us, n)
    ensures Steady(EntriesF(acc, ts), EntriesF(acc, us), ts, us, n)
    decreases |ts|, 3
  {
    EntrySteady(ts, us, n);
    var r := EntryF(ts);
    if r.Good? {
      EntriesGoOn(acc, ts, us, n, r.val, |ts| - |r.rest|);
    }
  }

  lemma {:induction false} EntriesGoOn(acc: map<string, Value>, ts: seq<Tok>, us: seq<Tok>, n: nat,
                                       kv: (string, Value), k: nat)
    requires Ends(ts) && Ends(us) && Shares(ts, us, n) && 0 < k < |ts|
    requires EntryF(ts) == Good(kv, ts[k..]) && (k < n ==> EntryF(us) == Good(kv, us[k..]))
    ensures Steady(EntriesF(acc, ts), EntriesF(acc, us), ts, us, n)
    decreases |ts|, 2
  {
    OtherShares(ts, us, n, k);
    EntriesAt(acc, ts, kv, k);
    if k < n {
      EntriesAt(acc, us, kv, k);
    }
    var more := acc[kv.0 := kv.1];
    if ts[k] == Comma {
      OtherShares(ts, us, n, k + 1);
      var rest, other := ts[k + 1..], Other(ts, us, n, k + 1);
      EntriesSteady(more, rest, other, Less(n, k + 1));
      Shift(EntriesF(more, rest), EntriesF(acc, us), EntriesF(more, other), ts, us, n, k + 1);
    } else if ts[k] == RBrace {
      Done(Obj(more), EntriesF(acc, us), ts, us, n, k + 1);
    } else {
      Stuck(ExpectedRBrace, EntriesF(acc, us), ts, us, n, k);
    }
  }

  // ---- Conditions ----

  function Compared(first: Value, cmp: Cmp, r: Parsed<Value>): Parsed<Cond>
    requires first.Str?
  {
    match r
    case Fail(l, w) => Fail(l, w)
    case Good(v, rest) => Good(Leaf(cmp.ToOp(), first.s, v), rest)
  }

  lemma ComparedSteady(first: Value, cmp: Cmp, r: Parsed<Value>, q: Parsed<Value>, ts: seq<Tok>, us: seq<Tok>, n: nat)
    requires n <= |us| && Steady(r, q, ts, us, n) && first.Str?
    ensures Steady(Compared(first, cmp, r), Compared(first, cmp, q), ts, us, n)
  {
  }

  /** A failing operand makes the comparison fail, whatever is on the left. */
  lemma OperandSteady<T>(l: nat, w: Why, q: Parsed<Value>, c: Parsed<T>, ts: seq<Tok>, us: seq<Tok>, n: nat)
    requires n <= |us| && Steady(Fail(l, w), q, ts, us, n) && (q.Fail? ==> c.Fail?)
    ensures Steady(Fail(l, w), c, ts, us, n)
  {
  }

  lemma ComparisonSteady(first: Value, cmp: Cmp, ts: seq<Tok>, us: seq<Tok>, n: nat)
    requires Ends(ts) && Ends(us) && Shares(ts, us, n) && ts[0] == Compare(cmp) && us[0] == Compare(cmp)
    ensures Steady(ComparisonF(first, cmp, ts), ComparisonF(first, cmp, us), ts, us, n)
  {
    Cut(ts, 0);
    Cut(us, 0);
    OtherShares(ts, us, n, 1);
    var rest, other := ts[1..], Other(ts, us, n, 1);
    LiteralSteady(rest, other, Less(n, 1));
    var r, q := LiteralF(rest), LiteralF(other);
    if first.Str? {
      ComparedSteady(first, cmp, r, q, rest, other, Less(n, 1));
      Shift(Compared(first, cmp, r), ComparisonF(first, cmp, us), Compared(first, cmp, q), ts, us, n, 1);
    } else if r.Fail? {
      var c: Parsed<Cond> := if 1 < n then ComparisonF(first, cmp, us) else Fail(1, Trailing);
      OperandSteady(r.left, r.why, q, c, rest, other, Less(n, 1));
      Shift(Fail(r.left, r.why), ComparisonF(first, cmp, us), c, ts, us, n, 1);
    } else {
      Stuck(LeftNotField, ComparisonF(first, cmp, us), ts, us, n, 0);
    }
  }

  lemma AfterAtomSteady(first: Value, ts: seq<Tok>, us: seq<Tok>, n: nat)
    requires Ends(ts) && Ends(us) && Shares(ts, us, n)
    ensures Steady(AfterAtomF(first, ts), AfterAtomF(first, us), ts, us, n)
  {
    OtherShares(ts, us, n, 0);
    match ts[0] {
      case Compare(cmp) => CompareSteady(first, cmp, ts, us, n);
      case InMark => MembershipSteady(first, ts, us, n);
      case ExistsMark(_) => PresenceSteady(first, ts, us, n);
      case _ => SearchSteady(first, ts, us, n);
    }
  }

  lemma SearchSteady(first: Value, ts: seq<Tok>, us: seq<Tok>, n: nat)
    requires Ends(ts) && Ends(us) && Shares(ts, us, n) && !ts[0].ExtendsAtom() && (n > 0 ==> us[0] == ts[0])
    ensures Steady(AfterAtomF(first, ts), AfterAtomF(first, us), ts, us, n)
  {
    assert us[0..] == us && ts[0..] == ts;
    Done(Leaf(Op.Search, "", first), AfterAtomF(first, us), ts, us, n, 0);
  }

  lemma CompareSteady(first: Value, cmp: Cmp, ts: seq<Tok>, us: seq<Tok>, n: nat)
    requires Ends(ts) && Ends(us) && Shares(ts, us, n) && ts[0] == Compare(cmp) && (n > 0 ==> us[0] == ts[0])
    ensures Steady(AfterAtomF(first, ts), AfterAtomF(first, us), ts, us, n)
  {
    if n > 0 {
      ComparisonSteady(first, cmp, ts, us, n);
    } else {
      ComparisonSteady(first, cmp, ts, ts, 0);
    }
  }

  lemma PresenceSteady(first: Value, ts: seq<Tok>, us: seq<Tok>, n: nat)
    requires Ends(ts) && Ends(us) && Shares(ts, us, n) && ts[0].ExistsMark? && (n > 0 ==> us[0] == ts[0])
    ensures Steady(AfterAtomF(first, ts), AfterAtomF(first, us), ts, us, n)
  {
    Cut(ts, 0);
    if first.Str? {
      Done(Leaf(Op.Exists, first.s, Null), AfterAtomF(first, us), ts, us, n, 1);
    } else {
      Stuck(LeftNotField, AfterAtomF(first, us), ts, us, n, 0);
    }
  }

  lemma MembershipSteady(first: Value, ts: seq<Tok>, us: seq<Tok>, n: nat)
    requires Ends(ts) && Ends(us) && Shares(ts, us, n) && ts[0] == InMark && (n > 0 ==> us[0] == ts[0])
    ensures Steady(AfterAtomF(first, ts), AfterAtomF(first, us), ts, us, n)
  {
    Cut(ts, 0);
    Cut(ts, 1);
    OtherShares(ts, us, n, 1);
    if 1 < n {
      Cut(us, 1);
    }
    if ts[1].Ident? || ts[1].Quoted? {
      Done(Leaf(Op.In, ts[1].text, first), AfterAtomF(first, us), ts, us, n, 2);
    } else {
      Stuck(RightNotField, AfterAtomF(first, us), ts, us, n, 1);
    }
  }

  lemma {:induction false} TermSteady(ts: seq<Tok>, us: seq<Tok>, n: nat)
    requires Ends(ts) && Ends(us) && Shares(ts, us, n)
    ensures Steady(TermF(ts), TermF(us), ts, us, n)
    decreases |ts|, 1
  {
    OtherShares(ts, us, n, 0);
    if ts[0] == LParen {
      ParenSteady(ts, us, n);
    } else {
      LiteralSteady(ts, us, n);
      var r := LiteralF(ts);
      if r.Good? {
        AtomSteady(ts, us, n, r.val, |ts| - |r.rest|);
      }
    }
  }

  lemma AtomSteady(ts: seq<Tok>, us: seq<Tok>, n: nat, v: Value, k: nat)
    requires Ends(ts) && Ends(us) && Shares(ts, us, n) && k < |ts| && ts[0] != LParen && (n > 0 ==> us[0] == ts[0])
    requires LiteralF(ts) == Good(v, ts[k..]) && (k < n ==> LiteralF(us) == Good(v, us[k..]))
    ensures Steady(TermF(ts), TermF(us), ts, us, n)
  {
    OtherShares(ts, us, n, k);
    var other := Other(ts, us, n, k);
    AfterAtomSteady(v, ts[k..], other, Less(n, k));
    Shift(AfterAtomF(v, ts[k..]), TermF(us), AfterAtomF(v, other), ts, us, n, k);
  }

  lemma ParenAt(ts: seq<Tok>)
    requires Ends(ts) && ts[0] == LParen
    ensures 1 < |ts| && Ends(ts[1..]) && TermF(ts) == Closed(AndF(ts[1..]))
  {
    Cut(ts, 0);
  }

  lemma {:induction false} ParenSteady(ts: seq<Tok>, us: seq<Tok>, n: nat)
    requires Ends(ts) && Ends(us) && Shares(ts, us, n) && ts[0] == LParen
    ensures Steady(TermF(ts), TermF(us), ts, us, n)
    decreases |ts|, 0
  {
    OtherShares(ts, us, n, 0);
    ParenAt(ts);
    OtherShares(ts, us, n, 1);
    if n > 0 {
      ParenAt(us);
    }
    var rest, other := ts[1..], Other(ts, us, n, 1);
    AndSteady(rest, other, Less(n, 1));
    ClosedSteady(AndF(rest), AndF(other), rest, other, Less(n, 1));
    Shift(Closed(AndF(rest)), TermF(us), Closed(AndF(other)), ts, us, n, 1);
  }

  function Closed(r: Parsed<Cond>): Parsed<Cond>
    requires r.Good? ==> Ends(r.rest)
  {
    match r
    case Fail(l, w) => Fail(l, w)
    case Good(c, rest) => if rest[0] == RParen then Good(c, rest[1..]) else Fail(|rest|, ExpectedRParen)
  }

  lemma ClosedSteady(r: Parsed<Cond>, q: Parsed<Cond>, ts: seq<Tok>, us: seq<Tok>, n: nat)
    requires Ends(ts) && Ends(us) && Shares(ts, us, n) && Steady(r, q, ts, us, n)
    requires (r.Good? ==> Ends(r.rest) && EndsChain(r.rest[0])) && (q.Good? ==> Ends(q.rest))
    ensures Steady(Closed(r), Closed(q), ts, us, n)
  {
    if r.Good? {
      var k := |ts| - |r.rest|;
      OtherShares(ts, us, n, k);
      Cut(ts, k);
      if k < n {
        Cut(us, k);
      }
      if ts[k] == RParen {
        Done(r.val, Closed(q), ts, us, n, k + 1);
      } else {
        Stuck(ExpectedRParen, Closed(q), ts, us, n, k);
      }
    }
  }

  lemma {:induction false} NotSteady(ts: seq<Tok>, us: seq<Tok>, n: nat)
    requires Ends(ts) && Ends(us) && Shares(ts, us, n)
    ensures Steady(NotF(ts), NotF(us), ts, us, n)
    decreases |ts|, 2
  {
    OtherShares(ts, us, n, 0);
    if ts[0] == NotMark {
      Cut(ts, 0);
      OtherShares(ts, us, n, 1);
      var rest, other := ts[1..], Other(ts, us, n, 1);
      NotSteady(rest, other, Less(n, 1));
      NegationSteady(NotF(rest), NotF(other), rest, other, Less(n, 1));
      Shift(Negation(NotF(rest)), NotF(us), Negation(NotF(other)), ts, us, n, 1);
    } else {
      TermSteady(ts, us, n);
    }
  }

  function Negation(r: Parsed<Cond>): Parsed<Cond> {
    match r
    case Fail(l, w) => Fail(l, w)
    case Good(c, rest) => Good(Node(Op.Not, [c]), rest)
  }

  lemma NegationSteady(r: Parsed<Cond>, q: Parsed<Cond>, ts: seq<Tok>, us: seq<Tok>, n: nat)
    requires n <= |us| && Steady(r, q, ts, us, n)
    ensures Steady(Negation(r), Negation(q), ts, us, n)
  {
  }

  lemma {:induction false} OrSteady(ts: seq<Tok>, us: seq<Tok>, n: nat)
    requires Ends(ts) && Ends(us) && Shares(ts, us, n)
    ensures Steady(OrF(ts), OrF(us), ts, us, n) && (OrF(ts).Good? ==> OrF(ts).rest[0] != OrMark)
    decreases |ts|, 4
  {
    NotSteady(ts, us, n);
    var r := NotF(ts);
    if r.Good? {
      var k := |ts| - |r.rest|;
      OtherShares(ts, us, n, k);
      var other := Other(ts, us, n, k);
      OrLoopSteady(r.val, ts[k..], other, Less(n, k));
      Shift(OrLoopF(r.val, ts[k..]), OrF(us), OrLoopF(r.val, other), ts, us, n, k);
    }
  }

  lemma OrLoopAt(left: Cond, ts: seq<Tok>)
    requires Ends(ts) && ts[0] == OrMark
    ensures 1 < |ts| && Ends(ts[1..]) && OrLoopF(left, ts) == OrRound(left, NotF(ts[1..]))
  {
    Cut(ts, 0);
  }

  lemma {:induction false} OrLoopSteady(left: Cond, ts: seq<Tok>, us: seq<Tok>, n: nat)
    requires Ends(ts) && Ends(us) && Shares(ts, us, n)
    ensures Steady(OrLoopF(left, ts), OrLoopF(left, us), ts, us, n)
    ensures OrLoopF(left, ts).Good? ==> OrLoopF(left, ts).rest[0] != OrMark
    decreases |ts|, 3
  {
    OtherShares(ts, us, n, 0);
    if ts[0] == OrMark {
      OrLoopAt(left, ts);
      OtherShares(ts, us, n, 1);
      if n > 0 {
        OrLoopAt(left, us);
      }
      var rest, other := ts[1..], Other(ts, us, n, 1);
      NotSteady(rest, other, Less(n, 1));
      OrRoundSteady(left, rest, other, Less(n, 1));
      Shift(OrRound(left, NotF(rest)), OrLoopF(left, us), OrRound(left, NotF(other)), ts, us, n, 1);
    } else {
      assert us[0..] == us && ts[0..] == ts;
      Done(left, OrLoopF(left, us), ts, us, n, 0);
    }
  }

  /** The rest of the loop, after one more disjunct. */
  function OrRound(left: Cond, r: Parsed<Cond>): Parsed<Cond>
    requires r.Good? ==> Ends(r.rest)
  {
    match r
    case Fail(l, w) => Fail(l, w)
    case Good(c, rest) => OrLoopF(Merge(Op.Or, left, c), rest)
  }

  lemma {:induction false} OrRoundSteady(left: Cond, ts: seq<Tok>, us: seq<Tok>, n: nat)
    requires Ends(ts) && Ends(us) && Shares(ts, us, n) && Steady(NotF(ts), NotF(us), ts, us, n)
    ensures var r := OrRound(left, NotF(ts));
            Steady(r, OrRound(left, NotF(us)), ts, us, n) && (r.Good? ==> r.rest[0] != OrMark)
    decreases |ts|, 2
  {
    var r := NotF(ts);
    if r.Good? {
      var k, more := |ts| - |r.rest|, Merge(Op.Or, left, r.val);
      OtherShares(ts, us, n, k);
      var other := Other(ts, us, n, k);
      OrLoopSteady(more, ts[k..], other, Less(n, k));
      Shift(OrLoopF(more, ts[k..]), OrRound(left, NotF(us)), OrLoopF(more, other), ts, us, n, k);
    }
  }

  lemma {:induction false} AndSteady(ts: seq<Tok>, us: seq<Tok>, n: nat)
    requires Ends(ts) && Ends(us) && Shares(ts, us, n)
    ensures Steady(AndF(ts), AndF(us), ts, us, n) && (AndF(ts).Good? ==> EndsChain(AndF(ts).rest[0]))
    decreases |ts|, 6
  {
    OrSteady(ts, us, n);
    var r := OrF(ts);
    if r.Good? {
      var k := |ts| - |r.rest|;
      OtherShares(ts, us, n, k);
      var other := Other(ts, us, n, k);
      AndLoopSteady(r.val, ts[k..], other, Less(n, k));
      Shift(AndLoopF(r.val, ts[k..]), AndF(us), AndLoopF(r.val, other), ts, us, n, k);
    }
  }

  lemma AndLoopAt(left: Cond, ts: seq<Tok>)
    requires Ends(ts) && ts[0] == AndMark
    ensures 1 < |ts| && Ends(ts[1..]) && AndLoopF(left, ts) == AndRound(left, OrF(ts[1..]))
  {
    Cut(ts, 0);
  }

  lemma {:induction false} AndLoopSteady(left: Cond, ts: seq<Tok>, us: seq<Tok>, n: nat)
    requires Ends(ts) && Ends(us) && Shares(ts, us, n) && ts[0] != OrMark
    ensures Steady(AndLoopF(left, ts), AndLoopF(left, us), ts, us, n)
    ensures AndLoopF(left, ts).Good? ==> EndsChain(AndLoopF(left, ts).rest[0])
    decreases |ts|, 7
  {
    OtherShares(ts, us, n, 0);
    if ts[0] == AndMark {
      AndLoopAt(left, ts);
      OtherShares(ts, us, n, 1);
      if n > 0 {
        AndLoopAt(left, us);
      }
      var rest, other := ts[1..], Other(ts, us, n, 1);
      AndRoundSteady(left, rest, other, Less(n, 1));
      Shift(AndRound(left, OrF(rest)), AndLoopF(left, us), AndRound(left, OrF(other)), ts, us, n, 1);
    } else {
      UnmarkedSteady(left, ts, us, n);
    }
  }

  /** One more conjunct without an AND, or none. */
  lemma {:induction false} UnmarkedSteady(left: Cond, ts: seq<Tok>, us: seq<Tok>, n: nat)
    requires Ends(ts) && Ends(us) && Shares(ts, us, n) && ts[0] != OrMark && ts[0] != AndMark
    requires n > 0 ==> us[0] == ts[0]
    ensures Steady(AndLoopF(left, ts), AndLoopF(left, us), ts, us, n)
    ensures AndLoopF(left, ts).Good? ==> EndsChain(AndLoopF(left, ts).rest[0])
    decreases |ts|, 6, 1
  {
    assert us[0..] == us && ts[0..] == ts;
    if ts[0].StartsTerm() {
      AndRoundSteady(left, ts, us, n);
      Shift(AndRound(left, OrF(ts)), AndLoopF(left, us), AndRound(left, OrF(us)), ts, us, n, 0);
    } else {
      Done(left, AndLoopF(left, us), ts, us, n, 0);
    }
  }

  /** The rest of the loop, after one more conjunct. */
  function AndRound(left: Cond, r: Parsed<Cond>): Parsed<Cond>
    requires r.Good? ==> Ends(r.rest)
  {
    match r
    case Fail(l, w) => Fail(l, w)
    case Good(c, rest) => AndLoopF(Merge(Op.And, left, c), rest)
  }

  lemma {:induction false} AndRoundSteady(left: Cond, ts: seq<Tok>, us: seq<Tok>, n: nat)
    requires Ends(ts) && Ends(us) && Shares(ts, us, n)
    ensures var r := AndRound(left, OrF(ts));
            Steady(r, AndRound(left, OrF(us)), ts, us, n) && (r.Good? ==> EndsChain(r.rest[0]))
    decreases |ts|, 6, 0
  {
    OrSteady(ts, us, n);
    var r := OrF(ts);
    if r.Good? {
      var k, more := |ts| - |r.rest|, Merge(Op.And, left, r.val);
      OtherShares(ts, us, n, k);
      var other := Other(ts, us, n, k);
      AndLoopSteady(more, ts[k..], other, Less(n, k));
      Shift(AndLoopF(more, ts[k..]), AndRound(left, OrF(us)), AndLoopF(more, other), ts, us, n, k);
    }
  }

  // ---- Errors ----

  /** The token an error points at cannot stand where it stands. */
  lemma ErrorOffends(ts: seq<Tok>)
    requires Ends(ts) && ParseF(ts).Fail?
    ensures 0 < ParseF(ts).left <= |ts| && Offends(ts[|ts| - ParseF(ts).left], ParseF(ts).why)
  {
    AndSteady(ts, ts, |ts|);
    if AndF(ts).Good? {
      OtherShares(ts, ts, |ts|, |ts| - |AndF(ts).rest|);
    }
  }

  /** Whatever comes after the token an error points at, there is an error: no accepted query
      starts with the tokens up to it. */
  lemma ErrorIsFinal(ts: seq<Tok>, us: seq<Tok>)
    requires Ends(ts) && Ends(us) && ParseF(ts).Fail? && Shares(ts, us, |ts| - ParseF(ts).left + 1)
    ensures ParseF(us).Fail?
  {
    var n := |ts| - ParseF(ts).left + 1;
    AndSteady(ts, us, n);
    if AndF(ts).Good? {
      OtherShares(ts, us, n, |ts| - |AndF(ts).rest|);
    }
  }
}
