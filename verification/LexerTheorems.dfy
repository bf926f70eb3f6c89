/** What the lexer guarantees: it makes progress, loses nothing, reads integers exactly when
    they fit, and reads back what is printed. */
module LexerTheorems {
  import opened Values
  import opened Grammar
  import opened Lexer

  // ---- Coverage ----

  /** The next token starts at or after `prev`, with only blanks in between. */
  ghost predicate Placed(a: Alphabet, src: string, prev: nat, s: Span) {
    prev <= s.start <= s.end <= |src| && forall p :: prev <= p < s.start ==> a.isSpace(src[p])
  }

  /** The spans cover the source from `from`: in order, non-empty, with only blanks between
      one token's end and the next one's start, and one EOF at the very end. */
  ghost predicate Tiles(a: Alphabet, src: string, from: nat, spans: seq<Span>)
    decreases spans
  {
    && spans != [] && Placed(a, src, from, spans[0])
    && if |spans| == 1 then spans[0] == Span(EOF, |src|, |src|)
       else spans[0].tok != EOF && spans[0].start < spans[0].end && Tiles(a, src, spans[0].end, spans[1..])
  }

  /** Accepted tokens tile the source. */
  lemma {:induction false} LexTiles(a: Alphabet, src: string, i: nat)
    requires i <= |src| && LexF(a, src, i).Spans?
    ensures Tiles(a, src, i, LexF(a, src, i).spans)
    decreases |src| - i
  {
    var s := NextF(a, src, i).span;
    assert Placed(a, src, i, s);
    if s.tok != EOF {
      LexTiles(a, src, s.end);
      assert LexF(a, src, i).spans[1..] == LexF(a, src, s.end).spans;
    }
  }

  lemma {:induction false} TileAt(a: Alphabet, src: string, from: nat, spans: seq<Span>, j: nat)
    requires Tiles(a, src, from, spans) && j < |spans|
    ensures from <= spans[j].start <= spans[j].end <= |src|
    ensures spans[j].tok == EOF <==> j == |spans| - 1
    ensures if j == |spans| - 1 then spans[j].start == |src| else spans[j].start < spans[j].end
    decreases |spans|
  {
    if 0 == j {
    } else {
      TileAt(a, src, spans[0].end, spans[1..], j - 1);
    }
  }

  /** Tokens come in order without overlapping: each starts where an earlier one has ended, so
      positions strictly increase. */
  lemma {:induction false} TilesInOrder(a: Alphabet, src: string, from: nat, spans: seq<Span>, i: nat, j: nat)
    requires Tiles(a, src, from, spans) && i < j < |spans|
    ensures spans[i].start < spans[i].end <= spans[j].start
    decreases |spans|
  {
    if i == 0 {
      TileAt(a, src, spans[0].end, spans[1..], j - 1);
    } else {
      TilesInOrder(a, src, spans[0].end, spans[1..], i - 1, j - 1);
    }
  }

  function Toks(spans: seq<Span>): (ts: seq<Tok>)
    ensures |ts| == |spans| && forall k :: 0 <= k < |spans| ==> ts[k] == spans[k].tok
  {
    if spans == [] then [] else [spans[0].tok] + Toks(spans[1..])
  }

  // ---- Integers ----

  lemma WrapStep(v: int, d: int)
    ensures Wrap(Wrap(Wrap(v) * 10) + d) == Wrap(v * 10 + d)
  {
    var k := (v + TWO63) / TWO64;
    assert Wrap(v) == v - TWO64 * k;
    var m := (Wrap(v) * 10 + TWO63) / TWO64;
    assert Wrap(Wrap(v) * 10) == v * 10 - TWO64 * (10 * k + m);
    WrapShifts(v * 10 + d, 10 * k + m);
  }

  lemma WrapShifts(n: int, k: int)
    ensures Wrap(n - TWO64 * k) == Wrap(n)
  {
    var q := (n + TWO63) / TWO64;
    var r := (n + TWO63) % TWO64;
    assert n - TWO64 * k + TWO63 == TWO64 * (q - k) + r;
    ModUnique(n - TWO64 * k + TWO63, q - k, r);
  }

  lemma ModUnique(n: int, q: int, r: int)
    requires n == TWO64 * q + r && 0 <= r < TWO64
    ensures n % TWO64 == r
  {
    var q', r' := n / TWO64, n % TWO64;
    assert n == TWO64 * q' + r';
    assert TWO64 * (q - q') == r' - r;
    assert q == q';
  }

  lemma {:induction false} DigitsWrap(s: string, first: nat, i: nat)
    requires first <= i <= |s| && AllDigits(s[first..])
    ensures AllDigits(s[first..i])
    ensures WrappedDigits(s, i, Wrap(DigitsValue(s[first..i]))) == Wrap(DigitsValue(s[first..]))
    decreases |s| - i
  {
    assert AllDigits(s[first..i]) by {
      assert forall k :: 0 <= k < i - first ==> s[first..i][k] == s[first..][k];
    }
    if i < |s| {
      DigitsWrap(s, first, i + 1);
      var longer := s[first..i + 1];
      assert longer[..|longer| - 1] == s[first..i] && longer[|longer| - 1] == s[i];
      WrapStep(DigitsValue(s[first..i]), DigitValue(s[i]));
    } else {
      assert s[first..i] == s[first..];
    }
  }

  /** The number a signed digit string spells. */
  function Spelled(s: string): int
    requires AllDigits(if Signed(s) then s[1..] else s)
  {
    if Signed(s) then if s[0] == '-' then -DigitsValue(s[1..]) else DigitsValue(s[1..]) else DigitsValue(s)
  }

  /** An integer literal carries its exact value exactly when that value fits in 64 bits;
      otherwise it silently carries the wrapped one. */
  lemma IntegerIsExactIfItFits(s: string)
    requires AllDigits(if Signed(s) then s[1..] else s) && (if Signed(s) then |s| > 1 else |s| > 0)
    ensures ParseIntF(s) == Some(Wrap(Spelled(s)))
    ensures ParseIntF(s) == Some(Spelled(s)) <==> -TWO63 <= Spelled(s) < TWO63
  {
    ReadsWrapped(s);
    WrapIsExact(Spelled(s));
  }

  lemma ReadsWrapped(s: string)
    requires AllDigits(if Signed(s) then s[1..] else s) && (if Signed(s) then |s| > 1 else |s| > 0)
    ensures ParseIntF(s) == Some(Wrap(Spelled(s)))
  {
    var first := if Signed(s) then 1 else 0;
    assert s[first..] == if Signed(s) then s[1..] else s;
    DigitsRead(s, first);
    if s[0] == '-' {
      WrapNegates(DigitsValue(s[first..]));
    }
  }

  lemma WrapIsExact(v: int)
    ensures Wrap(v) == v <==> -TWO63 <= v < TWO63
  {
  }

  lemma DigitsRead(s: string, first: nat)
    requires first <= |s| && AllDigits(s[first..])
    ensures WrappedDigits(s, first, 0) == Wrap(DigitsValue(s[first..]))
    ensures forall k :: first <= k < |s| ==> IsDigitChar(s[k])
  {
    assert forall k :: first <= k < |s| ==> s[first..][k - first] == s[k];
    DigitsWrap(s, first, first);
    assert DigitsValue(s[first..first]) == 0 && Wrap(0) == 0;
  }

  lemma WrapNegates(v: int)
    ensures Wrap(-Wrap(v)) == Wrap(-v)
  {
    var k := (v + TWO63) / TWO64;
    assert Wrap(v) == v - TWO64 * k;
    WrapShifts(-v, -k);
  }

  // ---- Printing ----

  /** What the printed characters need of the Unicode tables. */
  ghost predicate Sane(a: Alphabet) {
    && a.isSpace(' ') && !a.isLetter(' ') && !a.isDigit(' ')
    && (forall c :: '!' <= c <= '~' ==> !a.isSpace(c))
    && (forall c :: 'A' <= c <= 'Z' ==> a.isLetter(c) && a.upper(c) == c)
  }

  function ShowInt(i: int): string { if i < 0 then "-" + ShowNat(-i) else ShowNat(i) }

  function Escape(s: string): string {
    if s == "" then "" else EscapeChar(s[0]) + Escape(s[1..])
  }

  function EscapeChar(c: char): string { if c == '"' || c == '\\' then ['\\', c] else [c] }

  /** Digits, a dot and digits, perhaps after a minus sign; `dot` is where the dot is. */
  predicate IsDecimal(s: string, dot: nat) {
    var first := if Signed(s) then 1 else 0;
    && first < dot && dot + 1 < |s| && s[dot] == '.'
    && (forall k :: first <= k < dot ==> IsDigitChar(s[k])) && (forall k :: dot < k < |s| ==> IsDigitChar(s[k]))
  }

  /** The formatter writes the float as a decimal that the parser reads back. */
  ghost predicate Formats(a: Alphabet, f: real) {
    (exists dot :: IsDecimal(a.formatFloat(f), dot)) && a.parseFloat(a.formatFloat(f)) == Some(f)
  }

  /** A word that is read as a bare identifier. */
  ghost predicate IsBare(a: Alphabet, w: string) {
    && WordShaped(a, w) && !a.isSpace(w[0]) && WordTokOf(a, w) == Ident(w)
  }

  ghost predicate WordShaped(a: Alphabet, w: string) {
    && w != "" && (forall k :: 0 <= k < |w| ==> IdentPart(a)(w[k])) && !StartsNumber(w[0])
    && Punctuation(w[0]).None? && Extendable(w[0]).None? && w[0] != '"' && w[0] != '\''
  }

  /** The tokens that have a printed form: all but EOF, an integer that does not fit in 64 bits,
      a float the formatter cannot show and an identifier that needs quotes. */
  ghost predicate Printable(a: Alphabet, t: Tok) {
    match t
    case EOF => false
    case IntLit(i) => -TWO63 <= i < TWO63
    case FloatLit(f) => Formats(a, f)
    case Ident(w) => IsBare(a, w)
    case _ => true
  }

  function Print(a: Alphabet, t: Tok): string {
    match t
    case Quoted(s) => "\"" + Escape(s) + "\""
    case IntLit(i) => ShowInt(i)
    case FloatLit(f) => a.formatFloat(f)
    case Ident(w) => w
    case BoolLit(b) => if b then "TRUE" else "FALSE"
    case LBrack => "["
    case RBrack => "]"
    case LBrace => "{"
    case RBrace => "}"
    case LParen => "("
    case RParen => ")"
    case Comma => ","
    case Colon => ":"
    case Compare(c) => PrintCmp(c)
    case ExistsMark(word) => if word then "EXISTS" else "?"
    case InMark => "IN"
    case AndMark => "&"
    case OrMark => "|"
    case NotMark => "!"
    case _ => ""
  }

  function PrintCmp(c: Cmp): string {
    match c
    case CmpEq => "="
    case CmpNeq => "!="
    case CmpLt => "<"
    case CmpLte => "<="
    case CmpGt => ">"
    case CmpGte => ">="
    case CmpMatches => "~"
    case CmpContains => "CONTAINS"
  }

  /** Every token followed by a blank. */
  function PrintAll(a: Alphabet, ts: seq<Tok>): string {
    if ts == [] then "" else Print(a, ts[0]) + (" " + PrintAll(a, ts[1..]))
  }

  /** `text` stands in `src` at `i`. */
  predicate Here(src: string, i: nat, text: string) {
    i + |text| <= |src| && forall k :: 0 <= k < |text| ==> text[k] == src[i + k]
  }

  lemma HereAt(src: string, i: nat, text: string)
    requires Here(src, i, text)
    ensures src[i..i + |text|] == text
    ensures forall k :: i <= k < i + |text| ==> src[k] == text[k - i]
  {
    assert src[i..i + |text|] == text;
    assert forall k :: i <= k < i + |text| ==> src[k] == src[i..i + |text|][k - i];
  }

  lemma HereSplits(src: string, i: nat, x: string, y: string)
    requires Here(src, i, x + y)
    ensures Here(src, i, x) && Here(src, i + |x|, y)
  {
    assert forall k :: 0 <= k < |x| ==> x[k] == (x + y)[k];
    assert forall k :: 0 <= k < |y| ==> y[k] == (x + y)[|x| + k];
  }

  /** `text` stands in `src` at `i`, followed by a blank. */
  predicate Stands(src: string, i: nat, text: string) {
    i + |text| < |src| && Here(src, i, text) && src[i + |text|] == ' '
  }

  lemma {:induction false} ScanReaches(src: string, i: nat, p: char -> bool, j: nat)
    requires i <= j <= |src| && (forall k :: i <= k < j ==> p(src[k])) && (j < |src| ==> !p(src[j]))
    ensures Scan(src, i, p) == j
    decreases j - i
  {
    if i == j {
    } else {
      ScanReaches(src, i + 1, p, j);
    }
  }

  lemma {:induction false} EscapeReads(src: string, i: nat, s: string, acc: string)
    requires Here(src, i, Escape(s)) && i + |Escape(s)| < |src| && src[i + |Escape(s)|] == '"'
    ensures StringF(src, i, '"', acc) == Closed(acc + s, i + |Escape(s)| + 1)
    decreases |s|
  {
    if s == "" {
      assert acc + s == acc;
    } else {
      EscapeSplits(src, i, s);
      EscapeStep(src, i, s[0], acc);
      EscapeReads(src, i + |EscapeChar(s[0])|, s[1..], acc + [s[0]]);
      MoveOne(acc, s);
    }
  }

  lemma {:induction false} EscapeSplits(src: string, i: nat, s: string)
    requires s != "" && Here(src, i, Escape(s))
    ensures Here(src, i, EscapeChar(s[0])) && Here(src, i + |EscapeChar(s[0])|, Escape(s[1..]))
    ensures |Escape(s)| == |EscapeChar(s[0])| + |Escape(s[1..])|
  {
    HereSplits(src, i, EscapeChar(s[0]), Escape(s[1..]));
  }

  lemma MoveOne(acc: string, s: string)
    requires s != ""
    ensures (acc + [s[0]]) + s[1..] == acc + s
  {
  }

  lemma EscapeStep(src: string, i: nat, c: char, acc: string)
    requires Here(src, i, EscapeChar(c)) && i + |EscapeChar(c)| < |src|
    ensures StringF(src, i, '"', acc) == StringF(src, i + |EscapeChar(c)|, '"', acc + [c])
  {
    var head := EscapeChar(c);
    HereAt(src, i, head);
    assert src[i] == head[0] && (|head| == 2 ==> src[i + 1] == head[1]);
  }

  lemma {:induction false} UppercaseStays(a: Alphabet, w: string)
    requires Sane(a) && forall k :: 0 <= k < |w| ==> 'A' <= w[k] <= 'Z'
    ensures Uppercase(a, w) == w
  {
    if w == "" {
    } else {
      UppercaseStays(a, w[1..]);
      assert w == [w[0]] + w[1..];
    }
  }

  lemma WordIsNoSymbol(c: char)
    requires 'A' <= c <= 'Z' || IsDigitChar(c) || c == '-'
    ensures Punctuation(c).None? && Extendable(c).None? && c != '"' && c != '\''
    ensures 'A' <= c <= 'Z' ==> !StartsNumber(c)
  {
  }

  lemma WordReads(a: Alphabet, src: string, i: nat, w: string)
    requires Sane(a) && WordShaped(a, w) && Stands(src, i, w)
    ensures TokenF(a, src, i) == Found(Span(WordTokOf(a, w), i, i + |w|))
  {
    HereAt(src, i, w);
    assert src[i] == w[0];
    ScanReaches(src, i, IdentPart(a), i + |w|);
  }

  lemma CapitalsAreAWord(a: Alphabet, w: string)
    requires Sane(a) && w != "" && forall k :: 0 <= k < |w| ==> 'A' <= w[k] <= 'Z'
    ensures WordShaped(a, w) && Uppercase(a, w) == w
  {
    UppercaseStays(a, w);
    WordIsNoSymbol(w[0]);
  }

  lemma FloatReads(a: Alphabet, src: string, start: nat, f: real)
    requires Sane(a) && Formats(a, f) && Stands(src, start, a.formatFloat(f))
    ensures TokenF(a, src, start) == Found(Span(FloatLit(f), start, start + |a.formatFloat(f)|))
  {
    var text := a.formatFloat(f);
    var dot :| IsDecimal(text, dot);
    var end := start + |text|;
    HereAt(src, start, text);
    assert src[start] == text[0];
    DecimalScans(a, src, start, text, dot);
    FirstOfDecimal(text, dot);
    assert NumberF(a, src, start) == Number(FloatLit(f), end);
  }

  lemma FirstOfDecimal(text: string, dot: nat)
    requires IsDecimal(text, dot)
    ensures StartsNumber(text[0]) && Punctuation(text[0]).None? && Extendable(text[0]).None?
    ensures text[0] != '"' && text[0] != '\''
  {
  }

  lemma DecimalScans(a: Alphabet, src: string, start: nat, text: string, dot: nat)
    requires Sane(a) && IsDecimal(text, dot) && Stands(src, start, text)
    ensures var first := DigitsStart(src, start);
            && Scan(src, first, Digit()) == start + dot && first < start + dot
            && AfterFraction(src, start + dot) == start + |text| && AfterExponent(src, start + |text|) == start + |text|
  {
    HereAt(src, start, text);
    assert src[start] == text[0];
    var first := DigitsStart(src, start);
    assert src[start + dot] == text[dot] && src[start + dot + 1] == text[dot + 1];
    ScanReaches(src, first, Digit(), start + dot);
    ScanReaches(src, start + dot + 1, Digit(), start + |text|);
  }

  lemma IntReads(a: Alphabet, src: string, start: nat, n: int)
    requires Sane(a) && Stands(src, start, ShowInt(n)) && -TWO63 <= n < TWO63
    ensures TokenF(a, src, start) == Found(Span(IntLit(n), start, start + |ShowInt(n)|))
  {
    var text, end := ShowInt(n), start + |ShowInt(n)|;
    HereAt(src, start, text);
    assert src[start] == text[0];
    WordIsNoSymbol(text[0]);
    var i := if n < 0 then start + 1 else start;
    assert Signed(text) == (n < 0);
    ScanReaches(src, i, Digit(), end);
    assert AfterFraction(src, end) == end && AfterExponent(src, end) == end;
    IntTextReads(n);
    assert NumberF(a, src, start) == Number(IntLit(n), end);
  }

  lemma IntTextReads(n: int)
    requires -TWO63 <= n < TWO63
    ensures ParseIntF(ShowInt(n)) == Some(n)
  {
    var text := ShowInt(n);
    ShowNatReads(if n < 0 then -n else n);
    if n < 0 {
      assert text[1..] == ShowNat(-n);
    } else {
      assert IsDigitChar(text[0]);
    }
    IntegerIsExactIfItFits(text);
  }

  lemma QuotedBody(a: Alphabet, src: string, i: nat, s: string)
    requires Here(src, i, Print(a, Quoted(s)))
    ensures src[i] == '"' && StringF(src, i + 1, '"', "") == Closed(s, i + |Print(a, Quoted(s))|)
  {
    var e := Escape(s);
    assert Print(a, Quoted(s)) == ['"'] + (e + ['"']);
    BetweenQuotes(src, i, e);
    EscapeReads(src, i + 1, s, "");
    assert "" + s == s;
  }

  lemma BetweenQuotes(src: string, i: nat, e: string)
    requires Here(src, i, ['"'] + (e + ['"']))
    ensures Here(src, i + 1, e) && i + 1 + |e| < |src| && src[i] == '"' && src[i + 1 + |e|] == '"'
  {
    HereSplits(src, i, ['"'], e + ['"']);
    HereSplits(src, i + 1, e, ['"']);
    HereAt(src, i, ['"']);
    HereAt(src, i + 1 + |e|, ['"']);
  }

  lemma QuotedReads(a: Alphabet, src: string, i: nat, s: string)
    requires Stands(src, i, Print(a, Quoted(s)))
    ensures TokenF(a, src, i) == Found(Span(Quoted(s), i, i + |Print(a, Quoted(s))|))
  {
    QuotedBody(a, src, i, s);
  }

  lemma SymbolReads(a: Alphabet, src: string, i: nat, t: Tok)
    requires Printable(a, t) && Stands(src, i, Print(a, t)) && |Print(a, t)| <= 2
    requires !t.Quoted? && !t.IntLit? && !t.FloatLit? && !t.Ident? && !t.InMark?
    ensures TokenF(a, src, i) == Found(Span(t, i, i + |Print(a, t)|))
  {
    var text := Print(a, t);
    HereAt(src, i, text);
    assert src[i] == text[0] && (|text| == 2 ==> src[i + 1] == text[1]);
  }

  /** Tokens printed as a word. */
  predicate IsKeyword(t: Tok) { t.BoolLit? || t.InMark? || t == ExistsMark(true) || t == Compare(CmpContains) }

  lemma SymbolIsShort(a: Alphabet, t: Tok)
    requires Printable(a, t) && !t.Quoted? && !t.IntLit? && !t.FloatLit? && !t.Ident? && !IsKeyword(t)
    ensures |Print(a, t)| <= 2
  {
  }

  lemma KeywordReads(a: Alphabet, src: string, i: nat, t: Tok)
    requires Sane(a) && IsKeyword(t) && Stands(src, i, Print(a, t))
    ensures TokenF(a, src, i) == Found(Span(t, i, i + |Print(a, t)|))
  {
    KeywordIsUpper(a, t);
    CapitalsAreAWord(a, Print(a, t));
    WordReads(a, src, i, Print(a, t));
    KeywordTok(a, t);
  }

  lemma KeywordIsUpper(a: Alphabet, t: Tok)
    requires IsKeyword(t)
    ensures Print(a, t) != "" && forall k :: 0 <= k < |Print(a, t)| ==> 'A' <= Print(a, t)[k] <= 'Z'
  {
  }

  lemma KeywordTok(a: Alphabet, t: Tok)
    requires IsKeyword(t) && Uppercase(a, Print(a, t)) == Print(a, t)
    ensures WordTokOf(a, Print(a, t)) == t
  {
  }

  /** A printed token followed by a blank is read back, whatever surrounds it. */
  lemma TokenReads(a: Alphabet, src: string, i: nat, t: Tok)
    requires Sane(a) && Printable(a, t) && Stands(src, i, Print(a, t))
    ensures TokenF(a, src, i) == Found(Span(t, i, i + |Print(a, t)|))
  {
    if t.Quoted? {
      QuotedReads(a, src, i, t.text);
    } else if t.IntLit? {
      IntReads(a, src, i, t.i);
    } else if t.FloatLit? {
      FloatReads(a, src, i, t.f);
    } else if t.Ident? {
      WordReads(a, src, i, t.text);
    } else if IsKeyword(t) {
      KeywordReads(a, src, i, t);
    } else {
      SymbolIsShort(a, t);
      SymbolReads(a, src, i, t);
    }
  }

  lemma PrintStarts(a: Alphabet, t: Tok)
    requires Sane(a) && Printable(a, t)
    ensures Print(a, t) != "" && !a.isSpace(Print(a, t)[0])
  {
    if t.IntLit? {
      assert IsDigitChar(ShowNat(if t.i < 0 then -t.i else t.i)[0]);
    } else if t.FloatLit? {
      var dot :| IsDecimal(a.formatFloat(t.f), dot);
      assert '!' <= a.formatFloat(t.f)[0] <= '~';
    } else if !t.Ident? {
      assert '!' <= Print(a, t)[0] <= '~';
    }
  }

  /** The scan skips the blank, if any, and reads the printed token. */
  lemma NextReads(a: Alphabet, src: string, i: nat, gap: nat, t: Tok)
    requires Sane(a) && Printable(a, t) && gap <= 1 && (gap == 1 ==> i < |src| && src[i] == ' ')
    requires Stands(src, i + gap, Print(a, t))
    ensures NextF(a, src, i) == Found(Span(t, i + gap, i + gap + |Print(a, t)|))
  {
    PrintedFirst(a, src, i + gap, t);
    ScanReaches(src, i, a.isSpace, i + gap);
    TokenReads(a, src, i + gap, t);
  }

  lemma PrintedFirst(a: Alphabet, src: string, i: nat, t: Tok)
    requires Sane(a) && Printable(a, t) && Stands(src, i, Print(a, t))
    ensures !a.isSpace(src[i])
  {
    PrintStarts(a, t);
    HereAt(src, i, Print(a, t));
    assert src[i] == Print(a, t)[0];
  }

  lemma RestStands(src: string, start: nat, text: string, rest: string)
    requires start <= |src| && src[start..] == text + (" " + rest)
    ensures Stands(src, start, text) && src[start + |text| + 1..] == rest
  {
    var tail, end := src[start..], start + |text|;
    assert forall k :: 0 <= k < |text| ==> text[k] == tail[k];
    assert src[end] == tail[|text|];
    assert src[end + 1..] == tail[|text| + 1..];
  }

  lemma PrintedStep(a: Alphabet, src: string, i: nat, gap: nat, ts: seq<Tok>) returns (end: nat)
    requires Sane(a) && ts != [] && PrintedAt(a, src, i, gap, ts)
    ensures NextF(a, src, i) == Found(Span(ts[0], i + gap, end)) && PrintedAt(a, src, end, 1, ts[1..])
  {
    end := i + gap + |Print(a, ts[0])|;
    RestStands(src, i + gap, Print(a, ts[0]), PrintAll(a, ts[1..]));
    NextReads(a, src, i, gap, ts[0]);
  }

  /** The printed tokens start at `i`, or after the blank at `i`. */
  ghost predicate PrintedAt(a: Alphabet, src: string, i: nat, gap: nat, ts: seq<Tok>) {
    && (forall k :: 0 <= k < |ts| ==> Printable(a, ts[k]))
    && gap <= 1 && i + gap <= |src| && (gap == 1 ==> src[i] == ' ') && src[i + gap..] == PrintAll(a, ts)
  }

  ghost predicate LexesTo(a: Alphabet, src: string, i: nat, ts: seq<Tok>) {
    i <= |src| && LexF(a, src, i).Spans? && Toks(LexF(a, src, i).spans) == ts + [EOF]
  }

  lemma {:induction false} PrintedReads(a: Alphabet, src: string, i: nat, gap: nat, ts: seq<Tok>)
    requires Sane(a) && PrintedAt(a, src, i, gap, ts)
    ensures LexesTo(a, src, i, ts)
    decreases |ts|
  {
    if ts == [] {
      BlankReads(a, src, i, gap);
    } else {
      var end := PrintedStep(a, src, i, gap, ts);
      PrintedReads(a, src, end, 1, ts[1..]);
      LexCons(a, src, i, Span(ts[0], i + gap, end));
      ConsEnd(ts);
    }
  }

  lemma ConsEnd(ts: seq<Tok>)
    requires ts != []
    ensures [ts[0]] + (ts[1..] + [EOF]) == ts + [EOF]
  {
  }

  lemma BlankReads(a: Alphabet, src: string, i: nat, gap: nat)
    requires Sane(a) && gap <= 1 && i + gap == |src| && (gap == 1 ==> src[i] == ' ')
    ensures LexF(a, src, i).Spans? && Toks(LexF(a, src, i).spans) == [EOF]
  {
    ScanReaches(src, i, a.isSpace, i + gap);
  }

  lemma LexCons(a: Alphabet, src: string, i: nat, s: Span)
    requires i <= |src| && NextF(a, src, i) == Found(s) && s.tok != EOF && LexF(a, src, s.end).Spans?
    ensures LexF(a, src, i).Spans? && Toks(LexF(a, src, i).spans) == [s.tok] + Toks(LexF(a, src, s.end).spans)
  {
    var spans := LexF(a, src, s.end).spans;
    assert ([s] + spans)[1..] == spans;
  }

  /** Lexing is a left inverse of printing. */
  lemma LexOfPrint(a: Alphabet, ts: seq<Tok>)
    requires Sane(a) && forall k :: 0 <= k < |ts| ==> Printable(a, ts[k])
    ensures LexF(a, PrintAll(a, ts), 0).Spans? && Toks(LexF(a, PrintAll(a, ts), 0).spans) == ts + [EOF]
  {
    assert PrintAll(a, ts)[0..] == PrintAll(a, ts);
    PrintedReads(a, PrintAll(a, ts), 0, 0, ts);
  }
}
