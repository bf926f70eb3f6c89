/** The query lexer: an imperative scanner over the source, proved to compute a function of
    the source and a position. Characters are code points and positions count them. */
module Lexer {
  import opened Values
  import opened Grammar

  /** The Unicode tables and the float parser and formatter of the standard library. */
  datatype Alphabet = Alphabet(
    isSpace: char -> bool, isLetter: char -> bool, isDigit: char -> bool,
    upper: char -> char, parseFloat: string -> Option<real>, formatFloat: real -> string)

  datatype Fault = Unterminated | TrailingBackslash | InvalidNumber | UnexpectedChar

  /** A token with the source range it was read from. */
  datatype Span = Span(tok: Tok, start: nat, end: nat)

  datatype Scanned = Found(span: Span) | Bad(pos: nat, fault: Fault)

  // ---- Scanning ----

  /** First position at or after `i` whose character fails `p`. */
  function Scan(src: string, i: nat, p: char -> bool): (j: nat)
    requires i <= |src|
    ensures i <= j <= |src| && (j < |src| ==> !p(src[j]))
    ensures forall k :: i <= k < j ==> p(src[k])
    decreases |src| - i
  {
    if i < |src| && p(src[i]) then Scan(src, i + 1, p) else i
  }

  function Digit(): char -> bool { c => IsDigitChar(c) }

  function IdentPart(a: Alphabet): char -> bool {
    c => c == '_' || c == '.' || c == '-' || a.isLetter(c) || a.isDigit(c)
  }

  // ---- Strings ----

  function Unescape(c: char): char {
    if c == 'n' then '\n' else if c == 't' then '\t' else if c == 'r' then '\r' else if c == '0' then '\0' else c
  }

  datatype StringEnd = Closed(text: string, end: nat) | Open(fault: Fault)

  /** Reads the rest of a quoted string whose decoded part so far is `acc`. */
  function StringF(src: string, i: nat, quote: char, acc: string): (r: StringEnd)
    requires i <= |src|
    ensures r.Closed? ==> i < r.end <= |src| && src[r.end - 1] == quote
    decreases |src| - i
  {
    if i == |src| then Open(Unterminated)
    else if src[i] == '\\' then
      if i + 1 == |src| then Open(TrailingBackslash)
      else StringF(src, i + 2, quote, acc + [Unescape(src[i + 1])])
    else if src[i] == quote then Closed(acc, i + 1)
    else StringF(src, i + 1, quote, acc + [src[i]])
  }

  // ---- Integers ----

  const TWO63: int := 0x8000_0000_0000_0000
  const TWO64: int := 0x1_0000_0000_0000_0000

  /** Two's-complement wrap-around to 64 bits. */
  function Wrap(n: int): int { (n + TWO63) % TWO64 - TWO63 }

  function DigitValue(c: char): int { c as int - '0' as int }

  /** The loop of the integer parser: each digit is folded in with wrap-around. */
  function WrappedDigits(s: string, i: nat, n: int): int
    requires i <= |s|
    decreases |s| - i
  {
    if i == |s| then n else WrappedDigits(s, i + 1, Wrap(Wrap(n * 10) + DigitValue(s[i])))
  }

  predicate Signed(s: string) { s != "" && (s[0] == '-' || s[0] == '+') }

  function ParseIntF(s: string): Option<int> {
    var i := if Signed(s) then 1 else 0;
    if i == |s| || (exists k :: i <= k < |s| && !IsDigitChar(s[k])) then None
    else
      var n := WrappedDigits(s, i, 0);
      Some(if s[0] == '-' then Wrap(-n) else n)
  }

  method ParseInt(s: string) returns (r: Option<int>)
    ensures r == ParseIntF(s)
  {
    var n, neg, i := 0, false, 0;
    if i < |s| && (s[i] == '-' || s[i] == '+') {
      neg := s[i] == '-';
      i := i + 1;
    }
    if i == |s| {
      return None;
    }
    ghost var first := i;
    while i < |s|
      invariant first <= i <= |s|
      invariant forall k :: first <= k < i ==> IsDigitChar(s[k])
      invariant WrappedDigits(s, first, 0) == WrappedDigits(s, i, n)
    {
      if !IsDigitChar(s[i]) {
        return None;
      }
      n := Wrap(Wrap(n * 10) + DigitValue(s[i]));
      i := i + 1;
    }
    r := Some(if neg then Wrap(-n) else n);
  }

  // ---- Numbers ----

  /** Where the fraction, if any, ends: a dot counts only when a digit follows it. */
  function AfterFraction(src: string, i: nat): (j: nat)
    requires i <= |src|
    ensures i <= j <= |src|
  {
    if i + 1 < |src| && src[i] == '.' && IsDigitChar(src[i + 1]) then Scan(src, i + 1, Digit()) else i
  }

  /** Where the exponent, if any, ends: without digits it is not one. */
  function AfterExponent(src: string, i: nat): (j: nat)
    requires i <= |src|
    ensures i <= j <= |src|
  {
    if i < |src| && (src[i] == 'e' || src[i] == 'E') then
      var d := if i + 1 < |src| && (src[i + 1] == '+' || src[i + 1] == '-') then i + 2 else i + 1;
      var j := Scan(src, d, Digit());
      if j == d then i else j
    else i
  }

  datatype NumberRead = NotANumber | Number(tok: Tok, end: nat) | BadNumber

  /** The digits start after an optional sign. */
  function DigitsStart(src: string, start: nat): (i: nat)
    requires start < |src|
    ensures start <= i <= |src|
  {
    if src[start] == '-' || src[start] == '+' then start + 1 else start
  }

  function NumberF(a: Alphabet, src: string, start: nat): (r: NumberRead)
    requires start < |src|
    ensures r.Number? ==> start < r.end <= |src|
  {
    var first := DigitsStart(src, start);
    var whole := Scan(src, first, Digit());
    var frac := AfterFraction(src, whole);
    NumberAt(a, src, start, first, whole, frac, AfterExponent(src, frac))
  }

  /** A number needs a digit before its exponent, and no letter or digit may follow it. */
  function NumberAt(a: Alphabet, src: string, start: nat, first: nat, whole: nat, frac: nat, end: nat): (r: NumberRead)
    requires start <= first <= whole <= frac <= end <= |src|
    ensures r.Number? ==> start < r.end == end
  {
    if whole == first && frac == whole then NotANumber
    else if end < |src| && IdentPart(a)(src[end]) && src[end] != '-' && src[end] != '.' then NotANumber
    else NumberTok(a, src[start..end], frac > whole || end > frac, end)
  }

  function NumberTok(a: Alphabet, text: string, float: bool, end: nat): (r: NumberRead)
    ensures r.Number? ==> r.end == end
  {
    if !float && ParseIntF(text).Some? then Number(IntLit(ParseIntF(text).value), end)
    else
      var f := a.parseFloat(text);
      if f.None? then BadNumber else Number(FloatLit(f.value), end)
  }

  // ---- Identifiers and keywords ----

  function Uppercase(a: Alphabet, s: string): string {
    if s == "" then "" else [a.upper(s[0])] + Uppercase(a, s[1..])
  }

  function WordTokOf(a: Alphabet, text: string): Tok {
    var u := Uppercase(a, text);
    if u == "AND" then AndMark
    else if u == "OR" then OrMark
    else if u == "NOT" then NotMark
    else if u == "MATCHES" then Compare(CmpMatches)
    else if u == "EXISTS" then ExistsMark(true)
    else if u == "CONTAINS" then Compare(CmpContains)
    else if u == "IN" then InMark
    else if u == "TRUE" then BoolLit(true)
    else if u == "FALSE" then BoolLit(false)
    else Ident(text)
  }

  // ---- One token ----

  /** Single-character tokens. */
  function Punctuation(c: char): Option<Tok> {
    match c
    case '(' => Some(LParen)
    case ')' => Some(RParen)
    case '[' => Some(LBrack)
    case ']' => Some(RBrack)
    case '{' => Some(LBrace)
    case '}' => Some(RBrace)
    case ',' => Some(Comma)
    case ':' => Some(Colon)
    case '&' => Some(AndMark)
    case '|' => Some(OrMark)
    case '~' => Some(Compare(CmpMatches))
    case '?' => Some(ExistsMark(false))
    case '=' => Some(Compare(CmpEq))
    case _ => None
  }

  /** Tokens that a following `=` extends. */
  function Extendable(c: char): Option<(Tok, Tok)> {
    match c
    case '!' => Some((NotMark, Compare(CmpNeq)))
    case '<' => Some((Compare(CmpLt), Compare(CmpLte)))
    case '>' => Some((Compare(CmpGt), Compare(CmpGte)))
    case _ => None
  }

  predicate StartsNumber(c: char) { c == '-' || c == '+' || IsDigitChar(c) || c == '.' }

  /** The token that starts at a non-blank position. */
  function TokenF(a: Alphabet, src: string, start: nat): (r: Scanned)
    requires start < |src|
    ensures r.Found? ==> r.span.start == start < r.span.end <= |src| && r.span.tok != EOF
  {
    var c := src[start];
    if Punctuation(c).Some? then Found(Span(Punctuation(c).value, start, start + 1))
    else if Extendable(c).Some? then
      var (short, long) := Extendable(c).value;
      if start + 1 < |src| && src[start + 1] == '=' then Found(Span(long, start, start + 2))
      else Found(Span(short, start, start + 1))
    else if c == '"' || c == '\'' then
      match StringF(src, start + 1, c, "")
      case Closed(text, end) => Found(Span(Quoted(text), start, end))
      case Open(f) => Bad(start, f)
    else WordOrNumberF(a, src, start)
  }

  function WordOrNumberF(a: Alphabet, src: string, start: nat): (r: Scanned)
    requires start < |src|
    ensures r.Found? ==> r.span.start == start < r.span.end <= |src| && r.span.tok != EOF
  {
    var n := if StartsNumber(src[start]) then NumberF(a, src, start) else NotANumber;
    if n.BadNumber? then Bad(start, InvalidNumber)
    else if n.Number? then Found(Span(n.tok, start, n.end))
    else if IdentPart(a)(src[start]) then
      var end := Scan(src, start, IdentPart(a));
      Found(Span(WordTokOf(a, src[start..end]), start, end))
    else Bad(start, UnexpectedChar)
  }

  function NextF(a: Alphabet, src: string, i: nat): (r: Scanned)
    requires i <= |src|
    ensures r.Found? ==> i <= r.span.start <= r.span.end <= |src|
    ensures r.Found? ==> if r.span.tok == EOF then r.span.start == r.span.end == |src| else r.span.start < r.span.end
  {
    var start := Scan(src, i, a.isSpace);
    if start == |src| then Found(Span(EOF, start, start)) else TokenF(a, src, start)
  }

  datatype Lexed = Spans(spans: seq<Span>) | Rejected(pos: nat, fault: Fault)

  function LexF(a: Alphabet, src: string, i: nat): Lexed
    requires i <= |src|
    decreases |src| - i
  {
    match NextF(a, src, i)
    case Bad(p, f) => Rejected(p, f)
    case Found(s) =>
      if s.tok == EOF then Spans([s])
      else
        match LexF(a, src, s.end)
        case Rejected(p, f) => Rejected(p, f)
        case Spans(rest) => Spans([s] + rest)
  }

  ghost function Prepend(out: seq<Span>, rest: Lexed): Lexed {
    match rest
    case Rejected(p, f) => Rejected(p, f)
    case Spans(spans) => Spans(out + spans)
  }

  lemma LexUnfolds(a: Alphabet, src: string, i: nat, out: seq<Span>)
    requires i <= |src|
    ensures Prepend(out, LexF(a, src, i)) ==
            match NextF(a, src, i)
            case Bad(p, f) => Rejected(p, f)
            case Found(s) => if s.tok == EOF then Spans(out + [s]) else Prepend(out + [s], LexF(a, src, s.end))
  {
    var next := NextF(a, src, i);
    if next.Found? && next.span.tok != EOF {
      var rest := LexF(a, src, next.span.end);
      if rest.Spans? {
        assert out + ([next.span] + rest.spans) == (out + [next.span]) + rest.spans;
      }
    }
  }

  // ---- The scanner ----

  class Scanner {
    const a: Alphabet
    const src: string
    var pos: nat
    var out: seq<Span>

    ghost predicate Valid()
      reads this
    {
      pos <= |src|
    }

    constructor (a: Alphabet, src: string)
      ensures Valid() && this.a == a && this.src == src && pos == 0 && out == []
    {
      this.a, this.src := a, src;
      pos, out := 0, [];
    }

    method SkipWhile(p: char -> bool)
      requires Valid()
      modifies this`pos
      ensures Valid() && pos == Scan(src, old(pos), p)
    {
      while pos < |src| && p(src[pos])
        invariant pos <= |src| && Scan(src, old(pos), p) == Scan(src, pos, p)
      {
        pos := pos + 1;
      }
    }

    method ReadString(quote: char) returns (r: Scanned)
      requires Valid() && pos < |src|
      modifies this`pos
      ensures Valid()
      ensures match StringF(src, old(pos) + 1, quote, "")
              case Closed(text, end) => r == Found(Span(Quoted(text), old(pos), end)) && pos == end
              case Open(f) => r == Bad(old(pos), f)
    {
      var start := pos;
      pos := pos + 1;
      var b := "";
      while pos < |src|
        invariant start < pos <= |src|
        invariant StringF(src, start + 1, quote, "") == StringF(src, pos, quote, b)
      {
        var c := src[pos];
        pos := pos + 1;
        if c == '\\' {
          if pos == |src| {
            return Bad(start, TrailingBackslash);
          }
          b := b + [Unescape(src[pos])];
          pos := pos + 1;
        } else if c == quote {
          return Found(Span(Quoted(b), start, pos));
        } else {
          b := b + [c];
        }
      }
      r := Bad(start, Unterminated);
    }

    /** Reads a number, or rolls the position back. */
    method TryReadNumber() returns (r: NumberRead)
      requires Valid() && pos < |src|
      modifies this`pos
      ensures Valid() && r == NumberF(a, src, old(pos))
      ensures r.NotANumber? ==> pos == old(pos)
      ensures r.Number? ==> pos == r.end
    {
      var start := pos;
      if src[pos] == '-' || src[pos] == '+' {
        pos := pos + 1;
      }
      var first := pos;
      SkipWhile(Digit());
      var whole := pos;
      var hasDot := ReadFraction();
      var frac := pos;
      ReadExponent();
      r := EndNumber(start, first < whole || hasDot, hasDot || frac < pos);
      assert r == NumberAt(a, src, start, first, whole, frac, AfterExponent(src, frac));
    }

    /** Rolls back unless there was a digit and no letter or digit follows. */
    method EndNumber(start: nat, hadDigit: bool, float: bool) returns (r: NumberRead)
      requires Valid() && start <= pos
      modifies this`pos
      ensures Valid() && (if r.NotANumber? then pos == start else pos == old(pos))
      ensures var end := old(pos);
              r == if !hadDigit || (end < |src| && IdentPart(a)(src[end]) && src[end] != '-' && src[end] != '.')
                   then NotANumber else NumberTok(a, src[start..old(pos)], float, old(pos))
    {
      if !hadDigit {
        pos := start;
        return NotANumber;
      }
      if pos < |src| && IdentPart(a)(src[pos]) && src[pos] != '-' && src[pos] != '.' {
        pos := start;
        return NotANumber;
      }
      r := NumberOf(src[start..pos], float);
    }

    /** A dot is read only when a digit follows it. */
    method ReadFraction() returns (hasDot: bool)
      requires Valid()
      modifies this`pos
      ensures Valid() && pos == AfterFraction(src, old(pos)) && (hasDot <==> old(pos) < pos)
    {
      hasDot := false;
      if pos < |src| && src[pos] == '.' {
        if pos + 1 < |src| && IsDigitChar(src[pos + 1]) {
          hasDot := true;
          pos := pos + 1;
          SkipWhile(Digit());
        }
      }
    }

    /** Digits alone are an integer if the integer parser takes them; all else is a float. */
    method NumberOf(text: string, float: bool) returns (r: NumberRead)
      requires Valid()
      ensures r == NumberTok(a, text, float, pos)
    {
      if !float {
        var i := ParseInt(text);
        if i.Some? {
          return Number(IntLit(i.value), pos);
        }
      }
      var f := a.parseFloat(text);
      r := if f.None? then BadNumber else Number(FloatLit(f.value), pos);
    }

    method ReadExponent()
      requires Valid()
      modifies this`pos
      ensures Valid() && pos == AfterExponent(src, old(pos))
    {
      if pos < |src| && (src[pos] == 'e' || src[pos] == 'E') {
        var expStart := pos;
        pos := pos + 1;
        if pos < |src| && (src[pos] == '+' || src[pos] == '-') {
          pos := pos + 1;
        }
        var digits := pos;
        SkipWhile(Digit());
        if pos == digits {
          pos := expStart;
        }
      }
    }

    method Next() returns (r: Scanned)
      requires Valid()
      modifies this`pos
      ensures Valid() && r == NextF(a, src, old(pos))
      ensures r.Found? ==> pos == r.span.end
    {
      SkipWhile(a.isSpace);
      if pos == |src| {
        return Found(Span(EOF, pos, pos));
      }
      var start, c := pos, src[pos];
      var single, pair := Punctuation(c), Extendable(c);
      if single.Some? {
        pos := pos + 1;
        return Found(Span(single.value, start, pos));
      }
      if pair.Some? {
        pos := pos + 1;
        if pos < |src| && src[pos] == '=' {
          pos := pos + 1;
          return Found(Span(pair.value.1, start, pos));
        }
        return Found(Span(pair.value.0, start, pos));
      }
      if c == '"' || c == '\'' {
        r := ReadString(c);
        return;
      }
      r := WordOrNumber();
    }

    method WordOrNumber() returns (r: Scanned)
      requires Valid() && pos < |src|
      modifies this`pos
      ensures Valid() && r == WordOrNumberF(a, src, old(pos))
      ensures r.Found? ==> pos == r.span.end
    {
      var start := pos;
      if StartsNumber(src[pos]) {
        var n := TryReadNumber();
        if n.BadNumber? {
          return Bad(start, InvalidNumber);
        }
        if n.Number? {
          return Found(Span(n.tok, start, pos));
        }
      }
      if !IdentPart(a)(src[pos]) {
        return Bad(start, UnexpectedChar);
      }
      SkipWhile(IdentPart(a));
      r := Found(Span(WordTokOf(a, src[start..pos]), start, pos));
    }

    method Run() returns (r: Lexed)
      requires Valid() && pos == 0 && out == []
      modifies this
      ensures r == LexF(a, src, 0)
    {
      while true
        invariant Valid()
        invariant LexF(a, src, 0) == Prepend(out, LexF(a, src, pos))
        decreases |src| - pos
      {
        LexUnfolds(a, src, pos, out);
        var s := Next();
        if s.Bad? {
          return Rejected(s.pos, s.fault);
        }
        out := out + [s.span];
        if s.span.tok == EOF {
          return Spans(out);
        }
      }
    }
  }
}
