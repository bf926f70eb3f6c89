/** The list form of conditions as a grammar: which lists spell which condition, with the operator
    names and the order of operands written out. The decoder accepts exactly what it spells. */
module ListGrammar {
  import opened Values
  import opened Conditions

  /** The spellings of the empty condition. */
  predicate Blank(v: Value) {
    v == Null || (v.List? && (v.elems == [] || v.elems[0] == Null || v.elems[0] == Str("")))
  }

  /** An operator's name followed by at least `n` operands. */
  predicate Starts(v: Value, name: string, n: nat) {
    v.List? && |v.elems| > n && v.elems[0] == Str(name)
  }

  ghost predicate Spells(v: Value, c: Cond)
    decreases c
  {
    match c.op
    case AlwaysTrue => Blank(v) && c == Cond(AlwaysTrue, "", Null, [])
    case And => Starts(v, "AND", 1) && c == Cond(And, "", Null, c.children) && SpellsEach(v, c)
    case Or => Starts(v, "OR", 1) && c == Cond(Or, "", Null, c.children) && SpellsEach(v, c)
    case Not =>
      && Starts(v, "NOT", 1) && c == Cond(Not, "", Null, c.children)
      && |c.children| == 1 && Spells(v.elems[1], c.children[0])
    case Exists => Starts(v, "EXISTS", 1) && v.elems[1] == Str(c.field) && c == Cond(Exists, c.field, Null, [])
    case Search => Starts(v, "SEARCH", 1) && v.elems[1] == c.value && c == Cond(Search, "", c.value, [])
    case In =>
      Starts(v, "IN", 2) && v.elems[1] == c.value && v.elems[2] == Str(c.field) && c == Cond(In, c.field, c.value, [])
    case Eq => SpellsComparison(v, "=", c)
    case Neq => SpellsComparison(v, "!=", c)
    case Gt => SpellsComparison(v, ">", c)
    case Gte => SpellsComparison(v, ">=", c)
    case Lt => SpellsComparison(v, "<", c)
    case Lte => SpellsComparison(v, "<=", c)
    case Matches => SpellsComparison(v, "MATCHES", c)
    case Contains => SpellsComparison(v, "CONTAINS", c)
    case Unknown(_) => false
  }

  /** The operands spell the children, one each, in order. */
  ghost predicate SpellsEach(v: Value, c: Cond)
    requires v.List?
    decreases c, 0
  {
    |v.elems| == |c.children| + 1 && forall i :: 0 <= i < |c.children| ==> Spells(v.elems[i + 1], c.children[i])
  }

  /** The name, the field and the value; further elements are ignored. */
  predicate SpellsComparison(v: Value, name: string, c: Cond) {
    Starts(v, name, 2) && v.elems[1] == Str(c.field) && c.field != "" && v.elems[2] == c.value && c.children == []
  }

  // ---- Whatever is decoded was spelled ----

  lemma {:induction false} DecodedWasSpelled(v: Value)
    ensures FromListF(v).Ok? ==> Spells(v, FromListF(v).cond)
    decreases v, 1, 0
  {
    if v.List? && |v.elems| > 1 && v.elems[0].Str? && FromListF(v).Ok? {
      var op := OpOf(v.elems[0].s);
      if op.And? || op.Or? {
        DecodedEachSpelled(v, 1);
      } else if op.Not? {
        DecodedWasSpelled(v.elems[1]);
      } else {
        LeafWasSpelled(v);
      }
    }
  }

  lemma LeafWasSpelled(v: Value)
    requires v.List? && |v.elems| > 1 && v.elems[0].Str? && FromListF(v).Ok?
    requires var op := OpOf(v.elems[0].s); !op.And? && !op.Or? && !op.Not?
    ensures Spells(v, FromListF(v).cond)
  {
  }

  lemma {:induction false} DecodedEachSpelled(v: Value, from: nat)
    requires v.List? && from <= |v.elems|
    ensures FromLists(v, from).OkAll? ==>
              var cs := FromLists(v, from).conds;
              |cs| == |v.elems| - from && forall i :: 0 <= i < |cs| ==> Spells(v.elems[from + i], cs[i])
    decreases v, 0, |v.elems| - from
  {
    if from == |v.elems| {
    } else {
      DecodedWasSpelled(v.elems[from]);
      DecodedEachSpelled(v, from + 1);
      if FromLists(v, from).OkAll? {
        var cs, rest := FromLists(v, from).conds, FromLists(v, from + 1).conds;
        forall i | 0 <= i < |cs| ensures Spells(v.elems[from + i], cs[i]) {
          if i > 0 {
            assert cs[i] == rest[i - 1] && Spells(v.elems[from + 1 + (i - 1)], rest[i - 1]);
          }
        }
      }
    }
  }

  // ---- Whatever is spelled is decoded ----

  lemma {:induction false} SpelledIsDecoded(v: Value, c: Cond)
    requires Spells(v, c)
    ensures FromListF(v) == Ok(c)
    decreases c, 1
  {
    match c.op {
      case And | Or =>
        EachSpelledIsDecoded(v, c, 0);
        assert c.children[0..] == c.children;
      case Not =>
        SpelledIsDecoded(v.elems[1], c.children[0]);
        assert [c.children[0]] == c.children;
      case _ =>
        LeafIsDecoded(v, c);
    }
  }

  lemma LeafIsDecoded(v: Value, c: Cond)
    requires Spells(v, c) && !c.op.And? && !c.op.Or? && !c.op.Not?
    ensures FromListF(v) == Ok(c)
  {
  }

  lemma {:induction false} EachSpelledIsDecoded(v: Value, c: Cond, from: nat)
    requires v.List? && SpellsEach(v, c) && from <= |c.children|
    ensures FromLists(v, from + 1) == OkAll(c.children[from..])
    decreases c, 0, |c.children| - from
  {
    if from == |c.children| {
    } else {
      SpelledIsDecoded(v.elems[from + 1], c.children[from]);
      EachSpelledIsDecoded(v, c, from + 1);
      assert c.children[from..] == [c.children[from]] + c.children[from + 1..];
    }
  }

  /** The decoder returns a condition exactly when the value spells it. */
  lemma DecoderIsTheGrammar(v: Value, c: Cond)
    ensures FromListF(v) == Ok(c) <==> Spells(v, c)
  {
    DecodedWasSpelled(v);
    if Spells(v, c) {
      SpelledIsDecoded(v, c);
    }
  }

  /** The encoder writes a spelling of every condition that has one. */
  lemma EncoderSpells(c: Cond)
    ensures (exists v :: Spells(v, c)) ==> Spells(ToListF(c), c)
  {
    if v :| Spells(v, c) {
      DecoderIsTheGrammar(v, c);
      DecodedIsListNormal(v);
      ListRoundTrip(c);
      DecoderIsTheGrammar(ToListF(c), c);
    }
  }

  // ---- What the encoder writes, spelled or not ----

  lemma EncodesOrders(f: string, x: Value, cs: seq<Cond>)
    ensures ToListF(Cond(Eq, f, x, cs)) == List([Str("="), Str(f), x])
    ensures ToListF(Cond(Neq, f, x, cs)) == List([Str("!="), Str(f), x])
    ensures ToListF(Cond(Gt, f, x, cs)) == List([Str(">"), Str(f), x])
    ensures ToListF(Cond(Gte, f, x, cs)) == List([Str(">="), Str(f), x])
    ensures ToListF(Cond(Lt, f, x, cs)) == List([Str("<"), Str(f), x])
    ensures ToListF(Cond(Lte, f, x, cs)) == List([Str("<="), Str(f), x])
  {
  }

  lemma EncodesOtherLeaves(f: string, x: Value, cs: seq<Cond>, n: string)
    ensures ToListF(Cond(Matches, f, x, cs)) == List([Str("MATCHES"), Str(f), x])
    ensures ToListF(Cond(Contains, f, x, cs)) == List([Str("CONTAINS"), Str(f), x])
    ensures ToListF(Cond(Unknown(n), f, x, cs)) == List([Str(n), Str(f), x])
  {
  }

  lemma EncodesShortLeaves(f: string, x: Value, cs: seq<Cond>)
    ensures ToListF(Cond(Exists, f, x, cs)) == List([Str("EXISTS"), Str(f)])
    ensures ToListF(Cond(Search, f, x, cs)) == List([Str("SEARCH"), x])
    ensures ToListF(Cond(In, f, x, cs)) == List([Str("IN"), x, Str(f)])
    ensures ToListF(Cond(AlwaysTrue, f, x, cs)) == List([])
  {
  }

  /** AND and OR write every operand, NOT only its first. */
  lemma EncodesNodes(f: string, x: Value, cs: seq<Cond>)
    ensures forall op :: op in {And, Or} ==>
              var v := ToListF(Cond(op, f, x, cs));
              && v.List? && |v.elems| == |cs| + 1 && v.elems[0] == Str(if op == And then "AND" else "OR")
              && forall i :: 0 <= i < |cs| ==> v.elems[i + 1] == ToListF(cs[i])
    ensures ToListF(Cond(Not, f, x, cs)) == List([Str("NOT")] + if cs == [] then [] else [ToListF(cs[0])])
  {
    forall i | 0 <= i < |cs| ensures ToLists(cs)[i] == ToListF(cs[i]) {
      ToListsAt(cs, i);
    }
  }

  // ---- What a refusal blames ----

  ghost predicate Nested(x: Value, v: Value)
    decreases v
  {
    x == v || (v.List? && exists e <- v.elems :: Nested(x, e))
  }

  /** The operator an error names: the head of the offending list, if it has a name there. */
  function HeadName(v: Value): string {
    if v.List? && v.elems != [] && v.elems[0].Str? then v.elems[0].s else "UNKNOWN"
  }

  /** A refusal carries the part at fault: a value inside the one given that is refused on its
      own, with the operator it starts with. */
  lemma {:induction false} BlamesThePart(v: Value)
    ensures FromListF(v).Bad? ==>
              var part := FromListF(v).args;
              Nested(part, v) && FromListF(part).Bad? && FromListF(v).op == HeadName(part)
    decreases v, 1, 0
  {
    if v.List? && |v.elems| > 1 && v.elems[0].Str? {
      var op := OpOf(v.elems[0].s);
      if op.And? || op.Or? {
        BlamesOneOf(v, 1);
      } else if op.Not? {
        BlamesThePart(v.elems[1]);
        assert v.elems[1] in v.elems;
      }
    }
  }

  lemma {:induction false} BlamesOneOf(v: Value, from: nat)
    requires v.List? && from <= |v.elems|
    ensures FromLists(v, from).BadAll? ==>
              var part := FromLists(v, from).args;
              Nested(part, v) && FromListF(part).Bad? && FromLists(v, from).op == HeadName(part)
    decreases v, 0, |v.elems| - from
  {
    if from == |v.elems| {
    } else {
      BlamesThePart(v.elems[from]);
      BlamesOneOf(v, from + 1);
      assert v.elems[from] in v.elems;
    }
  }
}
