/** Decoding a condition from JSON, whichever of its spellings it arrives in. The JSON
    syntax itself is already parsed. */
module WireCodec {
  import opened Values
  import opened Conditions

  /** A JSON value where a condition is expected. The object form lists the members the
      decoder looks at; an absent string member reads as the empty string. Every number in it
      has been read as a float. */
  datatype Wire =
    | WireNull
    | WireList(list: Value)
    | WireObject(op: string, typ: string, field: string, value: Value,
                 children: seq<Wire>, args: Args, arg: Option<Wire>)
    | WireOther

  datatype Args = NoArgs | ArgsNull | ArgsList(items: seq<Wire>) | ArgsOther

  /** The frontend's spelled-out operator names. */
  function Canonical(op: string): string {
    if op == "ALWAYS_TRUE" then ""
    else if op == "EQUALS" then "="
    else if op == "NOT_EQUALS" then "!="
    else if op == "LT" then "<"
    else if op == "LE" then "<="
    else if op == "GT" then ">"
    else if op == "GE" then ">="
    else op
  }

  /** What one node must satisfy to be accepted. */
  predicate ValidNode(c: Cond) {
    match c.op
    case AlwaysTrue => c.IsZero()
    case Not => |c.children| == 1
    case Unknown(_) => false
    case _ => true
  }

  ghost predicate AllValid(c: Cond)
    decreases c
  {
    ValidNode(c) && forall k <- c.children :: AllValid(k)
  }

  function Decode(w: Wire): Option<Cond>
    decreases w, 1
  {
    match w
    case WireNull => Some(ZERO)
    case WireOther => None
    case WireList(v) => if v.List? then (match FromListF(v) case Ok(c) => Some(c) case Bad(_, _) => None) else None
    case WireObject(op, typ, field, value, _, _, _) =>
      var kids := DecodeKids(w);
      if kids.None? then None
      else
        var c := Cond(OpOf(Canonical(if op == "" then typ else op)), field, value, kids.value);
        if ValidNode(c) then Some(c) else None
  }

  /** Children come from `children`, else from `args`, else from the single `arg`. */
  function DecodeKids(w: Wire): Option<seq<Cond>>
    requires w.WireObject?
    decreases w, 0
  {
    var kids := DecodeAll(w.children);
    if kids.None? || kids.value != [] then kids
    else if w.args.ArgsOther? then None
    else
      var more := if w.args.ArgsList? then DecodeAll(w.args.items) else Some([]);
      if more.None? || more.value != [] || w.arg.None? then more
      else
        match Decode(w.arg.value)
        case None => None
        case Some(k) => Some([k])
  }

  function DecodeAll(ws: seq<Wire>): Option<seq<Cond>>
    decreases ws, 0
  {
    if ws == [] then Some([])
    else
      match (Decode(ws[0]), DecodeAll(ws[1..]))
      case (Some(k), Some(ks)) => Some([k] + ks)
      case _ => None
  }

  // ---- What the object form denotes ----

  /** The names an operator goes by: its own, and for some the frontend's. */
  ghost predicate Denotes(name: string, op: Op) {
    match op
    case AlwaysTrue => name == "" || name == "ALWAYS_TRUE"
    case Eq => name == "=" || name == "EQUALS"
    case Neq => name == "!=" || name == "NOT_EQUALS"
    case Lt => name == "<" || name == "LT"
    case Lte => name == "<=" || name == "LE"
    case Gt => name == ">" || name == "GT"
    case Gte => name == ">=" || name == "GE"
    case And => name == "AND"
    case Or => name == "OR"
    case Not => name == "NOT"
    case Matches => name == "MATCHES"
    case Exists => name == "EXISTS"
    case Contains => name == "CONTAINS"
    case In => name == "IN"
    case Search => name == "SEARCH"
    case Unknown(_) => false
  }

  predicate IsFrontendName(name: string) {
    name in {"ALWAYS_TRUE", "EQUALS", "NOT_EQUALS", "LT", "LE", "GT", "GE"}
  }

  lemma OwnNameDenotes(name: string, op: Op)
    requires !op.Unknown? && !IsFrontendName(name)
    ensures OpOf(name) == op <==> Denotes(name, op)
  {
  }

  lemma FrontendNameDenotes(name: string, op: Op)
    requires !op.Unknown? && IsFrontendName(name)
    ensures OpOf(Canonical(name)) == op <==> Denotes(name, op)
  {
  }

  /** A name denotes one operator at most, and it is the one the decoder takes it for. */
  lemma DenotesExactly(name: string, op: Op)
    requires !op.Unknown?
    ensures OpOf(Canonical(name)) == op <==> Denotes(name, op)
  {
    if IsFrontendName(name) {
      FrontendNameDenotes(name, op);
    } else {
      assert Canonical(name) == name;
      OwnNameDenotes(name, op);
    }
  }

  ghost predicate DecodesTo(ws: seq<Wire>, cs: seq<Cond>) {
    |ws| == |cs| && forall i :: 0 <= i < |ws| ==> Decode(ws[i]) == Some(cs[i])
  }

  /** Where the children come from: `children`; if there are none, `args`; if there are none
      either, the single `arg`. */
  ghost predicate KidsFrom(w: Wire, kids: seq<Cond>)
    requires w.WireObject?
  {
    if w.children != [] then DecodesTo(w.children, kids)
    else if w.args.ArgsOther? then false
    else if w.args.ArgsList? && w.args.items != [] then DecodesTo(w.args.items, kids)
    else if w.arg.Some? then |kids| == 1 && Decode(w.arg.value) == Some(kids[0])
    else kids == []
  }

  lemma {:induction false} DecodesEach(ws: seq<Wire>, cs: seq<Cond>)
    ensures DecodeAll(ws) == Some(cs) <==> DecodesTo(ws, cs)
    decreases |ws|
  {
    if ws == [] {
    } else if cs == [] {
      assert DecodeAll(ws).Some? ==> DecodeAll(ws).value != [];
    } else {
      DecodesEach(ws[1..], cs[1..]);
      assert cs == [cs[0]] + cs[1..];
      assert forall i :: 0 < i < |ws| ==> ws[i] == ws[1..][i - 1];
      assert forall i :: 0 < i < |cs| ==> cs[i] == cs[1..][i - 1];
      assert forall i :: 0 <= i < |ws[1..]| ==> ws[1..][i] == ws[i + 1];
      assert forall i :: 0 <= i < |cs[1..]| ==> cs[1..][i] == cs[i + 1];
    }
  }

  lemma KidsExactly(w: Wire, kids: seq<Cond>)
    requires w.WireObject?
    ensures DecodeKids(w) == Some(kids) <==> KidsFrom(w, kids)
  {
    assert |kids| == 1 ==> kids == [kids[0]];
    DecodesEach(w.children, kids);
    if DecodeAll(w.children).Some? {
      DecodesEach(w.children, DecodeAll(w.children).value);
    }
    if w.args.ArgsList? {
      DecodesEach(w.args.items, kids);
      if DecodeAll(w.args.items).Some? {
        DecodesEach(w.args.items, DecodeAll(w.args.items).value);
      }
    }
  }

  /** An object is accepted exactly as the condition its members name: the operator by `op` or,
      when that is empty, by `type`; the empty condition must be empty and NOT have one child. */
  lemma ObjectDecodesExactly(w: Wire, c: Cond)
    requires w.WireObject?
    ensures Decode(w) == Some(c) <==>
            && Denotes(if w.op == "" then w.typ else w.op, c.op) && c.field == w.field && c.value == w.value
            && KidsFrom(w, c.children)
            && (c.op.AlwaysTrue? ==> c.field == "" && c.value == Null && c.children == [])
            && (c.op.Not? ==> |c.children| == 1)
  {
    KidsExactly(w, c.children);
    if !c.op.Unknown? {
      DenotesExactly(if w.op == "" then w.typ else w.op, c.op);
    }
  }

  /** The other shapes: null is the empty condition, a list is read as the list form, and
      anything else is refused. */
  lemma OtherShapes(v: Value, c: Cond)
    ensures Decode(WireNull) == Some(Cond(AlwaysTrue, "", Null, [])) && Decode(WireOther) == None
    ensures Decode(WireList(v)) == Some(c) <==> v.List? && FromListF(v) == Ok(c)
  {
  }

  // ---- Everything accepted is valid at every node ----

  lemma {:induction false} ListNormalIsValid(c: Cond)
    requires ListNormal(c)
    ensures AllValid(c)
    decreases c
  {
    forall k | k in c.children ensures AllValid(k) {
      ListNormalIsValid(k);
    }
  }

  /** However a tree mixes spellings and forms, the decoder accepts only valid nodes. */
  lemma {:induction false} DecodedIsValid(w: Wire)
    ensures Decode(w).Some? ==> AllValid(Decode(w).value)
    decreases w, 1
  {
    match w {
      case WireList(v) =>
        DecodedIsListNormal(v);
        if Decode(w).Some? {
          ListNormalIsValid(Decode(w).value);
        }
      case WireObject(_, _, _, _, _, _, _) =>
        KidsAreValid(w);
      case _ =>
    }
  }

  lemma {:induction false} KidsAreValid(w: Wire)
    requires w.WireObject?
    ensures DecodeKids(w).Some? ==> forall k <- DecodeKids(w).value :: AllValid(k)
    decreases w, 0
  {
    AllDecodedValid(w.children);
    if w.args.ArgsList? {
      AllDecodedValid(w.args.items);
    }
    if w.arg.Some? {
      DecodedIsValid(w.arg.value);
    }
  }

  lemma {:induction false} AllDecodedValid(ws: seq<Wire>)
    ensures DecodeAll(ws).Some? ==> forall k <- DecodeAll(ws).value :: AllValid(k)
    decreases ws, 0
  {
    if ws == [] {
    } else {
      DecodedIsValid(ws[0]);
      AllDecodedValid(ws[1..]);
    }
  }

  // ---- What writing a value as JSON and reading it back does to it ----

  /** JSON has one kind of number, and it is read as a float. */
  function Jsoned(v: Value): Value
    decreases v
  {
    match v
    case Int(i) => Float(i as real)
    case List(es) => List(seq(|es|, i requires 0 <= i < |es| => Jsoned(es[i])))
    case Obj(m) => Obj(map k | k in m :: Jsoned(m[k]))
    case _ => v
  }

  ghost predicate NoInts(v: Value)
    decreases v
  {
    match v
    case Int(_) => false
    case List(es) => forall e <- es :: NoInts(e)
    case Obj(m) => forall k <- m :: NoInts(m[k])
    case _ => true
  }

  function JsonedCond(c: Cond): Cond
    decreases c, 1
  {
    Cond(c.op, c.field, Jsoned(c.value), JsonedAll(c.children))
  }

  function JsonedAll(cs: seq<Cond>): (r: seq<Cond>)
    ensures |r| == |cs|
    decreases cs, 0
  {
    if cs == [] then [] else [JsonedCond(cs[0])] + JsonedAll(cs[1..])
  }

  ghost predicate NoIntsIn(c: Cond)
    decreases c
  {
    NoInts(c.value) && forall k <- c.children :: NoIntsIn(k)
  }

  lemma {:induction false} JsonedAllAt(cs: seq<Cond>, i: nat)
    requires i < |cs|
    ensures JsonedAll(cs)[i] == JsonedCond(cs[i])
  {
    if i == 0 {
    } else {
      JsonedAllAt(cs[1..], i - 1);
    }
  }

  lemma {:induction false} JsonedKeepsExactly(v: Value)
    ensures Jsoned(v) == v <==> NoInts(v)
    decreases v
  {
    match v {
      case List(es) =>
        forall i | 0 <= i < |es| ensures Jsoned(es[i]) == es[i] <==> NoInts(es[i]) {
          JsonedKeepsExactly(es[i]);
        }
        assert Jsoned(v) == v <==> forall i :: 0 <= i < |es| ==> Jsoned(es[i]) == es[i] by {
          assert forall i :: 0 <= i < |es| ==> Jsoned(v).elems[i] == Jsoned(es[i]);
        }
      case Obj(m) =>
        forall k | k in m ensures Jsoned(m[k]) == m[k] <==> NoInts(m[k]) {
          JsonedKeepsExactly(m[k]);
        }
        assert Jsoned(v) == v <==> forall k <- m :: Jsoned(m[k]) == m[k] by {
          assert forall k <- m :: Jsoned(v).fields[k] == Jsoned(m[k]);
        }
      case _ =>
    }
  }

  /** What JSON makes of each kind of value: numbers become floats of the same size, lists and
      objects keep their shape, everything else stays. */
  lemma JsonedMeans(v: Value)
    ensures v.Int? ==> Jsoned(v) == Float(v.i as real)
    ensures v.List? ==> Jsoned(v).List? && |Jsoned(v).elems| == |v.elems|
                        && forall i :: 0 <= i < |v.elems| ==> Jsoned(v).elems[i] == Jsoned(v.elems[i])
    ensures v.Obj? ==> Jsoned(v).Obj? && Jsoned(v).fields.Keys == v.fields.Keys
                       && forall k <- v.fields :: Jsoned(v).fields[k] == Jsoned(v.fields[k])
    ensures !v.Int? && !v.List? && !v.Obj? ==> Jsoned(v) == v
  {
  }

  lemma {:induction false} JsonedCondKeepsExactly(c: Cond)
    ensures JsonedCond(c) == c <==> NoIntsIn(c)
    decreases c
  {
    JsonedKeepsExactly(c.value);
    forall i | 0 <= i < |c.children|
      ensures JsonedAll(c.children)[i] == c.children[i] <==> NoIntsIn(c.children[i])
    {
      JsonedAllAt(c.children, i);
      JsonedCondKeepsExactly(c.children[i]);
    }
    assert JsonedAll(c.children) == c.children <==>
           forall i :: 0 <= i < |c.children| ==> JsonedAll(c.children)[i] == c.children[i];
  }

  // ---- The object form ----

  function Encode(c: Cond): Wire
    decreases c, 1
  {
    WireObject(c.op.Name(), "", c.field, Jsoned(c.value), EncodeAll(c.children), NoArgs, None)
  }

  function EncodeAll(cs: seq<Cond>): seq<Wire>
    decreases cs, 0
  {
    if cs == [] then [] else [Encode(cs[0])] + EncodeAll(cs[1..])
  }

  lemma KnownNamesAreCanonical(op: Op)
    requires !op.Unknown?
    ensures Canonical(op.Name()) == op.Name() && OpOf(op.Name()) == op
  {
    OpNamesRoundTrip(op);
  }

  /** A valid condition comes back whole, its integers as floats. */
  lemma {:induction false} ValidReadsBack(c: Cond)
    requires AllValid(c)
    ensures Decode(Encode(c)) == Some(JsonedCond(c))
    decreases c, 1
  {
    KnownNamesAreCanonical(c.op);
    assert Canonical("") == "";
    AllValidReadBack(c.children);
  }

  lemma {:induction false} AllValidReadBack(cs: seq<Cond>)
    requires forall c <- cs :: AllValid(c)
    ensures DecodeAll(EncodeAll(cs)) == Some(JsonedAll(cs))
    decreases cs, 0
  {
    if cs == [] {
    } else {
      ValidReadsBack(cs[0]);
      AllValidReadBack(cs[1..]);
      assert EncodeAll(cs)[1..] == EncodeAll(cs[1..]);
    }
  }

  /** The object form reproduces a condition exactly when every node of it is valid and no
      value in it holds an integer. */
  lemma ObjectRoundTrip(c: Cond)
    ensures AllValid(c) ==> Decode(Encode(c)) == Some(JsonedCond(c))
    ensures Decode(Encode(c)) == Some(c) <==> AllValid(c) && NoIntsIn(c)
  {
    DecodedIsValid(Encode(c));
    JsonedCondKeepsExactly(c);
    if AllValid(c) {
      ValidReadsBack(c);
    }
  }

  // ---- The list form ----

  lemma {:induction false} JsonedListNormal(c: Cond)
    requires ListNormal(c)
    ensures ListNormal(JsonedCond(c))
    decreases c
  {
    forall k | k in JsonedAll(c.children) ensures ListNormal(k) {
      var i :| 0 <= i < |c.children| && JsonedAll(c.children)[i] == k;
      JsonedAllAt(c.children, i);
      JsonedListNormal(c.children[i]);
    }
  }

  /** Writing the list form as JSON is the list form of what the condition becomes. */
  lemma {:induction false} JsonedToList(c: Cond)
    ensures Jsoned(ToListF(c)) == ToListF(JsonedCond(c))
    decreases c, 1
  {
    if c.op.And? || c.op.Or? {
      JsonedNodeToList(c);
    } else if c.op.Not? && c.children != [] {
      JsonedAllAt(c.children, 0);
      JsonedToList(c.children[0]);
      JsonedElems([Str(c.op.Name()), ToListF(c.children[0])]);
      assert Jsoned(ToListF(c)).elems == ToListF(JsonedCond(c)).elems;
    } else {
      JsonedLeafToList(c);
    }
  }

  lemma {:induction false} JsonedNodeToList(c: Cond)
    requires c.op.And? || c.op.Or?
    ensures Jsoned(ToListF(c)) == ToListF(JsonedCond(c))
    decreases c, 0, 1
  {
    forall i | 0 <= i < |c.children|
      ensures Jsoned(ToLists(c.children)[i]) == ToLists(JsonedAll(c.children))[i]
    {
      JsonedToListsAt(c, i);
    }
    JsonedElems([Str(c.op.Name())] + ToLists(c.children));
    assert Jsoned(ToListF(c)).elems == ToListF(JsonedCond(c)).elems;
  }

  lemma JsonedLeafToList(c: Cond)
    requires !c.op.And? && !c.op.Or? && (c.op.Not? ==> c.children == [])
    ensures Jsoned(ToListF(c)) == ToListF(JsonedCond(c))
  {
    JsonedElems(ToListF(c).elems);
    assert Jsoned(ToListF(c)).elems == ToListF(JsonedCond(c)).elems;
  }

  lemma JsonedElems(es: seq<Value>)
    ensures Jsoned(List(es)).List? && |Jsoned(List(es)).elems| == |es|
    ensures forall i :: 0 <= i < |es| ==> Jsoned(List(es)).elems[i] == Jsoned(es[i])
  {
  }

  lemma {:induction false} JsonedToListsAt(c: Cond, i: nat)
    requires i < |c.children|
    ensures Jsoned(ToLists(c.children)[i]) == ToLists(JsonedAll(c.children))[i]
    decreases c, 0, 0
  {
    ToListsAt(c.children, i);
    JsonedAllAt(c.children, i);
    ToListsAt(JsonedAll(c.children), i);
    JsonedToList(c.children[i]);
  }

  /** A condition sent in list form comes back exactly when the list form can carry it and no
      value in it holds an integer. */
  lemma ListWireRoundTrip(c: Cond)
    ensures ListNormal(c) ==> Decode(WireList(Jsoned(ToListF(c)))) == Some(JsonedCond(c))
    ensures Decode(WireList(Jsoned(ToListF(c)))) == Some(c) <==> ListNormal(c) && NoIntsIn(c)
  {
    JsonedToList(c);
    JsonedCondKeepsExactly(c);
    DecodedIsListNormal(Jsoned(ToListF(c)));
    if ListNormal(c) {
      JsonedListNormal(c);
      ListRoundTrip(JsonedCond(c));
    }
  }
}
