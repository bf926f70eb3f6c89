/** The query language in plain terms: which characters make which token, which tokens make which
    condition, and how the operators bind. */
module QueryShapes {
  import opened Values
  import opened Conditions
  import opened Grammar
  import opened Lexer
  import opened LexerTheorems
  import P = Parser
  import opened ParserTheorems

  // ---- Characters to tokens ----

  /** Single-character tokens. */
  ghost predicate Symbol(c: char, t: Tok) {
    match t
    case LParen => c == '('
    case RParen => c == ')'
    case LBrack => c == '['
    case RBrack => c == ']'
    case LBrace => c == '{'
    case RBrace => c == '}'
    case Comma => c == ','
    case Colon => c == ':'
    case AndMark => c == '&'
    case OrMark => c == '|'
    case ExistsMark(word) => c == '?' && !word
    case Compare(cmp) => (c == '=' && cmp == CmpEq) || (c == '~' && cmp == CmpMatches)
    case _ => false
  }

  lemma SymbolToken(a: Alphabet, src: string, i: nat, t: Tok)
    requires i < |src| && Symbol(src[i], t)
    ensures TokenF(a, src, i) == Found(Span(t, i, i + 1))
  {
  }

  /** `!`, `<` and `>` by themselves, and with a `=` right after them. */
  lemma SignToken(a: Alphabet, src: string, i: nat)
    requires i < |src|
    ensures var wide := i + 1 < |src| && src[i + 1] == '=';
            var end := if wide then i + 2 else i + 1;
            && (src[i] == '!' ==> TokenF(a, src, i) == Found(Span(if wide then Compare(CmpNeq) else NotMark, i, end)))
            && (src[i] == '<' ==>
                  TokenF(a, src, i) == Found(Span(Compare(if wide then CmpLte else CmpLt), i, end)))
            && (src[i] == '>' ==>
                  TokenF(a, src, i) == Found(Span(Compare(if wide then CmpGte else CmpGt), i, end)))
  {
  }

  lemma {:induction false} UppercaseAt(a: Alphabet, s: string)
    ensures |Uppercase(a, s)| == |s| && forall i :: 0 <= i < |s| ==> Uppercase(a, s)[i] == a.upper(s[i])
    decreases |s|
  {
    if s == "" {
    } else {
      UppercaseAt(a, s[1..]);
    }
  }

  /** The words that are not identifiers, in upper case. */
  ghost predicate Keyword(u: string, t: Tok) {
    match t
    case AndMark => u == "AND"
    case OrMark => u == "OR"
    case NotMark => u == "NOT"
    case Compare(cmp) => (u == "MATCHES" && cmp == CmpMatches) || (u == "CONTAINS" && cmp == CmpContains)
    case ExistsMark(word) => u == "EXISTS" && word
    case InMark => u == "IN"
    case BoolLit(b) => u == if b then "TRUE" else "FALSE"
    case _ => false
  }

  ghost predicate IsIdentifier(u: string) { forall t :: !Keyword(u, t) }

  /** A word is a keyword in any mixture of cases, or else an identifier as it is written. */
  lemma WordMeans(a: Alphabet, text: string, t: Tok)
    ensures WordTokOf(a, text) == t <==>
            if t.Ident? then t.text == text && IsIdentifier(Uppercase(a, text)) else Keyword(Uppercase(a, text), t)
  {
    var u, k := Uppercase(a, text), WordTokOf(a, text);
    if k.Ident? {
      forall w ensures !Keyword(u, w) {
      }
    } else {
      assert Keyword(u, k);
    }
  }

  /** The characters a word is made of. */
  predicate WordChar(a: Alphabet, c: char) { c == '_' || c == '.' || c == '-' || a.isLetter(c) || a.isDigit(c) }

  /** A run of such characters that starts with none that starts something else is one word. */
  lemma WordToken(a: Alphabet, src: string, start: nat, end: nat)
    requires start < end <= |src| && (forall k :: start <= k < end ==> WordChar(a, src[k]))
    requires end < |src| ==> !WordChar(a, src[end])
    requires src[start] !in {'!', '<', '>', '"', '\'', '-', '+', '.'} && !IsDigitChar(src[start])
    requires forall t :: !Symbol(src[start], t)
    ensures TokenF(a, src, start) == Found(Span(WordTokOf(a, src[start..end]), start, end))
  {
    NoSymbol(src[start]);
    ScanReaches(src, start, IdentPart(a), end);
  }

  lemma NoSymbol(c: char)
    requires forall t :: !Symbol(c, t)
    ensures Punctuation(c).None?
  {
    if Punctuation(c).Some? {
      assert !Symbol(c, Punctuation(c).value);
    }
  }

  /** The characters an escape stands for; any other escaped character is itself. */
  lemma EscapeMeans(src: string, i: nat, quote: char, acc: string)
    requires i + 1 < |src| && src[i] == '\\'
    ensures StringF(src, i, quote, acc) ==
            StringF(src, i + 2, quote, acc + [match src[i + 1]
                                              case 'n' => 10 as char
                                              case 't' => 9 as char
                                              case 'r' => 13 as char
                                              case '0' => 0 as char
                                              case c => c])
  {
  }

  /** A string ends at the first unescaped quote like the one that opened it; the other kind of
      quote is an ordinary character. */
  lemma {:induction false} StringMeans(src: string, i: nat, quote: char, acc: string, j: nat)
    requires i <= j < |src| && src[j] == quote && quote != '\\'
    requires forall k :: i <= k < j ==> src[k] != quote && src[k] != '\\'
    ensures StringF(src, i, quote, acc) == Closed(acc + src[i..j], j + 1)
    decreases j - i
  {
    if i == j {
      assert acc + src[i..j] == acc;
    } else {
      StringMeans(src, i + 1, quote, acc + [src[i]], j);
      assert acc + [src[i]] + src[i + 1..j] == acc + src[i..j];
    }
  }

  // ---- Numbers ----

  ghost predicate Digits(src: string, i: nat, j: nat) {
    i <= j <= |src| && forall k :: i <= k < j ==> IsDigitChar(src[k])
  }

  /** Nothing that would carry on a word or a number follows. */
  ghost predicate Apart(a: Alphabet, src: string, i: nat) {
    i < |src| ==> !IdentPart(a)(src[i]) && !IsDigitChar(src[i])
  }

  /** Digits alone are an integer, by its 64-bit value. */
  lemma IntegerToken(a: Alphabet, src: string, start: nat, end: nat)
    requires start < end && Digits(src, start, end) && Apart(a, src, end)
    requires end < |src| ==> src[end] !in {'.', 'e', 'E'}
    ensures TokenF(a, src, start) == Found(Span(IntLit(Wrap(DigitsValue(src[start..end]))), start, end))
  {
    ScanReaches(src, start, Digit(), end);
    DigitsAreWrapped(src[start..end], src, start);
    assert NumberF(a, src, start) == NumberTok(a, src[start..end], false, end);
  }

  lemma DigitsAreWrapped(text: string, src: string, start: nat)
    requires start + |text| <= |src| && text == src[start..start + |text|] && text != ""
    requires Digits(src, start, start + |text|)
    ensures AllDigits(text) && ParseIntF(text) == Some(Wrap(DigitsValue(text)))
  {
    assert forall k :: 0 <= k < |text| ==> text[k] == src[start + k];
    ReadsWrapped(text);
  }

  /** Digits, `e` and digits are a float, read by the float parser as they stand. */
  lemma ExponentToken(a: Alphabet, src: string, start: nat, e: nat, end: nat)
    requires start < e && Digits(src, start, e) && e + 1 < end && Digits(src, e + 1, end) && src[e] in {'e', 'E'}
    requires Apart(a, src, end)
    ensures TokenF(a, src, start) ==
            var f := a.parseFloat(src[start..end]);
            if f.Some? then Found(Span(FloatLit(f.value), start, end)) else Scanned.Bad(start, InvalidNumber)
  {
    ScanReaches(src, start, Digit(), e);
    ExponentScans(src, e, end);
    assert NumberF(a, src, start) == NumberTok(a, src[start..end], true, end);
  }

  lemma ExponentScans(src: string, e: nat, end: nat)
    requires e + 1 < end <= |src| && Digits(src, e + 1, end) && src[e] in {'e', 'E'}
    requires end < |src| ==> !IsDigitChar(src[end])
    ensures AfterFraction(src, e) == e && AfterExponent(src, e) == end
  {
    assert IsDigitChar(src[e + 1]);
    ScanReaches(src, e + 1, Digit(), end);
  }

  /** Digits that run into a letter are a word. */
  lemma DigitsThenLetter(a: Alphabet, src: string, start: nat, letter: nat, end: nat)
    requires start < letter < end && Digits(src, start, letter) && end <= |src|
    requires a.isLetter(src[letter]) && src[letter] !in {'.', '-', 'e', 'E'} && !IsDigitChar(src[letter])
    requires (forall k :: start <= k < end ==> IdentPart(a)(src[k])) && (end < |src| ==> !IdentPart(a)(src[end]))
    ensures TokenF(a, src, start) == Found(Span(WordTokOf(a, src[start..end]), start, end))
  {
    ScanReaches(src, start, Digit(), letter);
    ScanReaches(src, start, IdentPart(a), end);
  }

  // ---- What a lexical error says ----

  /** What is wrong where an error points: a character no token starts with, a quote that is not
      closed, or the start of a number the float parser refuses. */
  ghost predicate Misplaced(a: Alphabet, c: char, f: Fault) {
    match f
    case UnexpectedChar =>
      c !in {'_', '.', '-', '"', '\'', '!', '<', '>'} && !a.isLetter(c) && !a.isDigit(c) && forall t :: !Symbol(c, t)
    case Unterminated => c == '"' || c == '\''
    case TrailingBackslash => c == '"' || c == '\''
    case InvalidNumber => c == '-' || c == '+' || c == '.' || IsDigitChar(c)
  }

  /** A string that does not end lacks its quote, or ends in a backslash. */
  lemma {:induction false} OpenString(src: string, i: nat, quote: char, acc: string)
    requires i <= |src| && StringF(src, i, quote, acc).Open?
    ensures StringF(src, i, quote, acc).fault == TrailingBackslash ==> src[|src| - 1] == '\\'
    ensures StringF(src, i, quote, acc).fault in {Unterminated, TrailingBackslash}
    decreases |src| - i
  {
    if i == |src| || (src[i] == '\\' && i + 1 == |src|) {
    } else if src[i] == '\\' {
      OpenString(src, i + 2, quote, acc + [Unescape(src[i + 1])]);
    } else {
      OpenString(src, i + 1, quote, acc + [src[i]]);
    }
  }

  lemma TokenMisplaced(a: Alphabet, src: string, start: nat)
    requires start < |src| && TokenF(a, src, start).Bad?
    ensures TokenF(a, src, start).pos == start && Misplaced(a, src[start], TokenF(a, src, start).fault)
  {
    if src[start] == '"' || src[start] == '\'' {
      OpenString(src, start + 1, src[start], "");
    }
    forall t ensures Symbol(src[start], t) ==> TokenF(a, src, start).Found? {
      if Symbol(src[start], t) {
        SymbolToken(a, src, start, t);
      }
    }
  }

  /** A rejected source is rejected at the first token that cannot be read, where it starts. */
  lemma {:induction false} LexicalError(a: Alphabet, src: string, i: nat)
    requires i <= |src| && LexF(a, src, i).Rejected?
    ensures var r := LexF(a, src, i);
            i <= r.pos < |src| && !a.isSpace(src[r.pos]) && Misplaced(a, src[r.pos], r.fault)
    decreases |src| - i
  {
    var next := NextF(a, src, i);
    if next.Bad? {
      TokenMisplaced(a, src, Scan(src, i, a.isSpace));
    } else {
      LexicalError(a, src, next.span.end);
    }
  }

  // ---- Tokens to conditions ----

  function Holds(word: string): Cond { Cond(Op.Search, "", Str(word), []) }
  function Both(x: Cond, y: Cond): Cond { Cond(Op.And, "", Null, [x, y]) }
  function Either(x: Cond, y: Cond): Cond { Cond(Op.Or, "", Null, [x, y]) }
  function Neither(x: Cond): Cond { Cond(Op.Not, "", Null, [x]) }

  function One(word: string): NotE { Plain(FullText(Word(word, false))) }

  lemma OneReads(word: string)
    ensures NotToks(One(word)) == [Ident(word)] && NotCond(One(word)) == Holds(word)
  {
  }

  function Ors(n: NotE): OrE { OrE(n, OrEnd) }
  function TwoOrs(m: NotE, n: NotE): OrE { OrE(m, OrMore(n, OrEnd)) }
  function Ands(o: OrE): AndE { AndE(o, AndEnd) }
  function TwoAnds(o: OrE, explicit: bool, q: OrE): AndE { AndE(o, AndMore(explicit, q, AndEnd)) }

  lemma OrsRead(m: NotE, n: NotE)
    ensures OrToks(Ors(m)) == NotToks(m) && OrCond(Ors(m)) == NotCond(m)
    ensures OrToks(TwoOrs(m, n)) == NotToks(m) + [OrMark] + NotToks(n)
    ensures OrCond(TwoOrs(m, n)) == Merge(Op.Or, NotCond(m), NotCond(n))
  {
    assert OrTailToks(OrEnd) == [];
    assert OrTailToks(OrMore(n, OrEnd)) == [OrMark] + (NotToks(n) + []);
    var both := Merge(Op.Or, NotCond(m), NotCond(n));
    assert OrTailCond(NotCond(m), OrMore(n, OrEnd)) == OrTailCond(both, OrEnd) == both;
  }

  lemma AndsRead(o: OrE, explicit: bool, q: OrE)
    ensures AndToks(Ands(o)) == OrToks(o) && AndCond(Ands(o)) == OrCond(o)
    ensures AndToks(TwoAnds(o, explicit, q)) == OrToks(o) + (if explicit then [AndMark] else []) + OrToks(q)
    ensures AndCond(TwoAnds(o, explicit, q)) == Merge(Op.And, OrCond(o), OrCond(q))
  {
    assert AndTailToks(AndEnd) == [];
    assert AndTailToks(AndMore(explicit, q, AndEnd)) == (if explicit then [AndMark] else []) + (OrToks(q) + []);
    var both := Merge(Op.And, OrCond(o), OrCond(q));
    assert AndTailCond(OrCond(o), AndMore(explicit, q, AndEnd)) == AndTailCond(both, AndEnd) == both;
  }

  lemma Reads(e: AndE, ts: seq<Tok>)
    requires ts == AndToks(e) + [EOF]
    ensures P.Ends(ts) && P.ParseF(ts) == P.Good(AndCond(e), [EOF])
  {
    AndReads(e, [EOF]);
  }

  /** OR binds tighter than AND, in either order, and NOT tighter than both; two terms side by
      side are joined by AND. */
  lemma Precedence(x: string, y: string, z: string)
    ensures P.ParseF([Ident(x), AndMark, Ident(y), OrMark, Ident(z), EOF])
            == P.Good(Both(Holds(x), Either(Holds(y), Holds(z))), [EOF])
    ensures P.ParseF([Ident(x), OrMark, Ident(y), AndMark, Ident(z), EOF])
            == P.Good(Both(Either(Holds(x), Holds(y)), Holds(z)), [EOF])
    ensures P.ParseF([Ident(x), OrMark, Ident(y), Ident(z), EOF])
            == P.Good(Both(Either(Holds(x), Holds(y)), Holds(z)), [EOF])
  {
    OneReads(x);
    OneReads(y);
    OneReads(z);
    OrsRead(One(x), One(y));
    OrsRead(One(y), One(z));
    OrsRead(One(z), One(z));
    AndsRead(Ors(One(x)), true, TwoOrs(One(y), One(z)));
    Reads(TwoAnds(Ors(One(x)), true, TwoOrs(One(y), One(z))), [Ident(x), AndMark, Ident(y), OrMark, Ident(z), EOF]);
    AndsRead(TwoOrs(One(x), One(y)), true, Ors(One(z)));
    Reads(TwoAnds(TwoOrs(One(x), One(y)), true, Ors(One(z))), [Ident(x), OrMark, Ident(y), AndMark, Ident(z), EOF]);
    AndsRead(TwoOrs(One(x), One(y)), false, Ors(One(z)));
    Reads(TwoAnds(TwoOrs(One(x), One(y)), false, Ors(One(z))), [Ident(x), OrMark, Ident(y), Ident(z), EOF]);
  }

  lemma NotBindsTightest(x: string, y: string)
    ensures P.ParseF([NotMark, Ident(x), OrMark, Ident(y), EOF])
            == P.Good(Either(Neither(Holds(x)), Holds(y)), [EOF])
  {
    OneReads(x);
    OneReads(y);
    var n := Negated(One(x));
    assert NotToks(n) == [NotMark, Ident(x)] && NotCond(n) == Neither(Holds(x));
    OrsRead(n, One(y));
    AndsRead(TwoOrs(n, One(y)), true, Ors(n));
    Reads(Ands(TwoOrs(n, One(y))), [NotMark, Ident(x), OrMark, Ident(y), EOF]);
  }

  lemma NegatedParen(inner: AndE)
    ensures NotToks(Negated(Plain(Paren(inner)))) == [NotMark, LParen] + AndToks(inner) + [RParen]
    ensures NotCond(Negated(Plain(Paren(inner)))) == Neither(AndCond(inner))
  {
    var p := Plain(Paren(inner));
    assert NotToks(p) == TermToks(Paren(inner)) == [LParen] + (AndToks(inner) + [RParen]);
    assert NotCond(p) == TermCond(Paren(inner)) == AndCond(inner);
  }

  /** Parentheses group what they enclose. */
  lemma ParenthesesGroup(x: string, y: string)
    ensures P.ParseF([NotMark, LParen, Ident(x), OrMark, Ident(y), RParen, EOF])
            == P.Good(Neither(Either(Holds(x), Holds(y))), [EOF])
  {
    OneReads(x);
    OneReads(y);
    OrsRead(One(x), One(y));
    var two := TwoOrs(One(x), One(y));
    AndsRead(two, true, two);
    NegatedParen(Ands(two));
    var p := Negated(Plain(Paren(Ands(two))));
    OrsRead(p, p);
    AndsRead(Ors(p), true, Ors(p));
    Reads(Ands(Ors(p)), [NotMark, LParen, Ident(x), OrMark, Ident(y), RParen, EOF]);
  }

  /** Chains nest to the right, in the order they are written. */
  lemma AndsNestRight(x: string, y: string, z: string)
    ensures P.ParseF([Ident(x), AndMark, Ident(y), AndMark, Ident(z), EOF])
            == P.Good(Both(Holds(x), Both(Holds(y), Holds(z))), [EOF])
  {
    OneReads(x);
    OneReads(y);
    OneReads(z);
    OrsRead(One(x), One(x));
    OrsRead(One(y), One(y));
    OrsRead(One(z), One(z));
    var last := AndMore(true, Ors(One(z)), AndEnd);
    var e := AndE(Ors(One(x)), AndMore(true, Ors(One(y)), last));
    assert AndTailToks(last) == [AndMark] + ([Ident(z)] + AndTailToks(AndEnd));
    assert AndTailToks(e.tail) == [AndMark] + ([Ident(y)] + AndTailToks(last));
    var two := Merge(Op.And, Holds(x), Holds(y));
    assert AndTailCond(Holds(x), e.tail) == AndTailCond(two, last);
    assert AndTailCond(two, last) == AndTailCond(Merge(Op.And, two, Holds(z)), AndEnd);
    ThreeMerge(Op.And, Holds(x), Holds(y), Holds(z));
    Reads(e, [Ident(x), AndMark, Ident(y), AndMark, Ident(z), EOF]);
  }

  lemma OrsNestRight(x: string, y: string, z: string)
    ensures P.ParseF([Ident(x), OrMark, Ident(y), OrMark, Ident(z), EOF])
            == P.Good(Either(Holds(x), Either(Holds(y), Holds(z))), [EOF])
  {
    OneReads(x);
    OneReads(y);
    OneReads(z);
    var last := OrMore(One(z), OrEnd);
    var e := OrE(One(x), OrMore(One(y), last));
    assert OrTailToks(last) == [OrMark] + ([Ident(z)] + OrTailToks(OrEnd));
    assert OrTailToks(e.tail) == [OrMark] + ([Ident(y)] + OrTailToks(last));
    var two := Merge(Op.Or, Holds(x), Holds(y));
    assert OrTailCond(Holds(x), e.tail) == OrTailCond(two, last);
    assert OrTailCond(two, last) == OrTailCond(Merge(Op.Or, two, Holds(z)), OrEnd);
    ThreeMerge(Op.Or, Holds(x), Holds(y), Holds(z));
    AndsRead(e, true, e);
    Reads(Ands(e), [Ident(x), OrMark, Ident(y), OrMark, Ident(z), EOF]);
  }

  lemma ThreeMerge(op: Op, x: Cond, y: Cond, z: Cond)
    requires x.op != op && y.op != op
    ensures Merge(op, Merge(op, x, y), z) == Cond(op, "", Null, [x, Cond(op, "", Null, [y, z])])
  {
    assert Merge(op, x, y) == Node(op, [x, y]);
    assert Merge(op, y, z) == Node(op, [y, z]);
  }

  // ---- Terms ----

  /** The operator each comparison sign stands for. */
  ghost predicate StandsFor(cmp: Cmp, op: Op) {
    match cmp
    case CmpEq => op == Op.Eq
    case CmpNeq => op == Op.Neq
    case CmpLt => op == Op.Lt
    case CmpLte => op == Op.Lte
    case CmpGt => op == Op.Gt
    case CmpGte => op == Op.Gte
    case CmpMatches => op == Op.Matches
    case CmpContains => op == Op.Contains
  }

  function TermTree(t: Term): AndE { Ands(Ors(Plain(t))) }

  lemma TermShape(t: Term, ts: seq<Tok>)
    requires ts == TermToks(t) + [EOF]
    ensures P.Ends(ts) && P.ParseF(ts) == P.Good(TermCond(t), [EOF])
  {
    OrsRead(Plain(t), Plain(t));
    AndsRead(Ors(Plain(t)), true, Ors(Plain(t)));
    Reads(TermTree(t), ts);
  }

  /** A field, a sign and a value are a comparison of the field with the value. */
  lemma ComparisonShape(f: string, cmp: Cmp, op: Op, i: int, text: string)
    requires StandsFor(cmp, op)
    ensures P.ParseF([Ident(f), Compare(cmp), IntLit(i), EOF]) == P.Good(Cond(op, f, Int(i), []), [EOF])
    ensures P.ParseF([Quoted(f), Compare(cmp), Quoted(text), EOF]) == P.Good(Cond(op, f, Str(text), []), [EOF])
    ensures P.ParseF([Ident(f), Compare(cmp), Ident(text), EOF]) == P.Good(Cond(op, f, Str(text), []), [EOF])
  {
    TermShape(Comparison(f, false, cmp, Integer(i)), [Ident(f), Compare(cmp), IntLit(i), EOF]);
    TermShape(Comparison(f, true, cmp, Word(text, true)), [Quoted(f), Compare(cmp), Quoted(text), EOF]);
    TermShape(Comparison(f, false, cmp, Word(text, false)), [Ident(f), Compare(cmp), Ident(text), EOF]);
  }

  /** A presence test, a membership and a bare literal. */
  lemma OtherTermShapes(f: string, word: bool, i: int, b: bool, r: real)
    ensures P.ParseF([Ident(f), ExistsMark(word), EOF]) == P.Good(Cond(Op.Exists, f, Null, []), [EOF])
    ensures P.ParseF([IntLit(i), InMark, Ident(f), EOF]) == P.Good(Cond(Op.In, f, Int(i), []), [EOF])
    ensures P.ParseF([BoolLit(b), EOF]) == P.Good(Cond(Op.Search, "", Bool(b), []), [EOF])
    ensures P.ParseF([FloatLit(r), EOF]) == P.Good(Cond(Op.Search, "", Float(r), []), [EOF])
  {
    TermShape(Presence(f, false, word), [Ident(f), ExistsMark(word), EOF]);
    TermShape(Membership(Integer(i), f, false), [IntLit(i), InMark, Ident(f), EOF]);
    TermShape(FullText(Truth(b)), [BoolLit(b), EOF]);
    TermShape(FullText(Decimal(r)), [FloatLit(r), EOF]);
  }

  /** Arrays keep their order, and an object keeps the last value of a repeated key. */
  lemma CollectionShapes(i: int, j: int, k: string)
    ensures P.ParseF([LBrack, IntLit(i), Comma, IntLit(j), RBrack, EOF])
            == P.Good(Cond(Op.Search, "", List([Int(i), Int(j)]), []), [EOF])
    ensures P.ParseF([LBrace, Ident(k), Colon, IntLit(i), Comma, Quoted(k), Colon, IntLit(j), RBrace, EOF])
            == P.Good(Cond(Op.Search, "", Obj(map[k := Int(j)]), []), [EOF])
  {
    var items := MoreLit(Integer(i), MoreLit(Integer(j), NoLit));
    assert ItemToks(items.tail) == [IntLit(j)] + [RBrack];
    assert ItemToks(items) == [IntLit(i)] + ([Comma] + ItemToks(items.tail));
    assert ItemValues(items.tail) == [Int(j)] + ItemValues(NoLit);
    assert ItemValues(items) == [Int(i), Int(j)];
    TermShape(FullText(Array(items)), [LBrack, IntLit(i), Comma, IntLit(j), RBrack, EOF]);
    var entries := MoreEntry(k, false, Integer(i), MoreEntry(k, true, Integer(j), NoEntry));
    assert EntryToks(entries.tail) == [Quoted(k), Colon] + ([IntLit(j)] + [RBrace]);
    assert EntryToks(entries) == [Ident(k), Colon] + ([IntLit(i)] + ([Comma] + EntryToks(entries.tail)));
    assert EntryValues(map[], entries) == EntryValues(map[k := Int(i)], entries.tail);
    assert EntryValues(map[k := Int(i)], entries.tail) == map[k := Int(i)][k := Int(j)];
    assert map[k := Int(i)][k := Int(j)] == map[k := Int(j)];
    TermShape(FullText(Table(entries)),
               [LBrace, Ident(k), Colon, IntLit(i), Comma, Quoted(k), Colon, IntLit(j), RBrace, EOF]);
  }
}
