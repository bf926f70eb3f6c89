/** The condition tree and its legacy nested-list wire form. */
module Conditions {
  import opened Values

  /** Operator discriminator. `Unknown` stands for any name outside the table. */
  datatype Op =
    | AlwaysTrue | And | Or | Not
    | Eq | Neq | Gt | Gte | Lt | Lte
    | Matches | Exists | Contains | In | Search
    | Unknown(name: string)
  {
    function Name(): string {
      match this
      case AlwaysTrue => ""
      case And => "AND"
      case Or => "OR"
      case Not => "NOT"
      case Eq => "="
      case Neq => "!="
      case Gt => ">"
      case Gte => ">="
      case Lt => "<"
      case Lte => "<="
      case Matches => "MATCHES"
      case Exists => "EXISTS"
      case Contains => "CONTAINS"
      case In => "IN"
      case Search => "SEARCH"
      case Unknown(n) => n
    }

    /** The operators whose node is a field compared with a value. */
    predicate IsBinary() {
      Eq? || Neq? || Gt? || Gte? || Lt? || Lte? || Matches? || Contains?
    }
  }

  function OpOf(name: string): Op {
    if name == "" then AlwaysTrue
    else if name == "AND" then And
    else if name == "OR" then Or
    else if name == "NOT" then Not
    else if name == "=" then Eq
    else if name == "!=" then Neq
    else if name == ">" then Gt
    else if name == ">=" then Gte
    else if name == "<" then Lt
    else if name == "<=" then Lte
    else if name == "MATCHES" then Matches
    else if name == "EXISTS" then Exists
    else if name == "CONTAINS" then Contains
    else if name == "IN" then In
    else if name == "SEARCH" then Search
    else Unknown(name)
  }

  lemma OpNamesRoundTrip(op: Op)
    ensures !op.Unknown? ==> OpOf(op.Name()) == op
  {
  }

  datatype Cond = Cond(op: Op, field: string, value: Value, children: seq<Cond>)
  {
    predicate IsZero() {
      op.AlwaysTrue? && field == "" && value.Null? && children == []
    }
  }

  const ZERO: Cond := Cond(AlwaysTrue, "", Null, [])

  function Leaf(op: Op, field: string, value: Value): Cond { Cond(op, field, value, []) }
  function Node(op: Op, children: seq<Cond>): Cond { Cond(op, "", Null, children) }
  function AndOf(children: seq<Cond>): Cond { if |children| == 1 then children[0] else Node(And, children) }
  function Equals(field: string, value: Value): Cond { Leaf(Eq, field, value) }

  // ---- Sizes: why decoding an embedded condition terminates ----

  ghost function ValueSize(v: Value): nat
    decreases v, 1, 0
  {
    if v.List? then 1 + ValueSizeFrom(v, 0) else 1
  }

  ghost function ValueSizeFrom(v: Value, from: nat): nat
    requires v.List? && from <= |v.elems|
    decreases v, 0, |v.elems| - from
  {
    if from == |v.elems| then 0 else ValueSize(v.elems[from]) + ValueSizeFrom(v, from + 1)
  }

  ghost function CondSize(c: Cond): nat
    decreases c, 1
  {
    1 + (if c.value.Null? then 0 else ValueSize(c.value)) + CondSizes(c.children)
  }

  ghost function CondSizes(cs: seq<Cond>): nat
    decreases cs, 0
  {
    if cs == [] then 0 else CondSize(cs[0]) + CondSizes(cs[1..])
  }

  lemma {:induction false} CondSizesAt(cs: seq<Cond>, i: nat)
    requires i < |cs|
    ensures CondSize(cs[i]) <= CondSizes(cs)
  {
    if i == 0 {
    } else {
      CondSizesAt(cs[1..], i - 1);
    }
  }

  lemma {:induction false} CondSizesAppend(cs: seq<Cond>, c: Cond)
    ensures CondSizes(cs + [c]) == CondSizes(cs) + CondSize(c)
  {
    if cs == [] {
      assert cs + [c] == [c];
    } else {
      assert (cs + [c])[1..] == cs[1..] + [c];
      CondSizesAppend(cs[1..], c);
    }
  }

  // ---- ToList ----

  function ToListF(c: Cond): Value
    decreases c, 1
  {
    match c.op
    case AlwaysTrue => List([])
    case And => List([Str(c.op.Name())] + ToLists(c.children))
    case Or => List([Str(c.op.Name())] + ToLists(c.children))
    case Not => List([Str(c.op.Name())] + if |c.children| > 0 then [ToListF(c.children[0])] else [])
    case Exists => List([Str(c.op.Name()), Str(c.field)])
    case Search => List([Str(c.op.Name()), c.value])
    case In => List([Str(c.op.Name()), c.value, Str(c.field)])
    case _ => List([Str(c.op.Name()), Str(c.field), c.value])
  }

  function ToLists(cs: seq<Cond>): (vs: seq<Value>)
    ensures |vs| == |cs|
    decreases cs, 0
  {
    if cs == [] then [] else [ToListF(cs[0])] + ToLists(cs[1..])
  }

  lemma {:induction false} ToListsAt(cs: seq<Cond>, i: nat)
    requires i < |cs|
    ensures ToLists(cs)[i] == ToListF(cs[i])
  {
    if i == 0 {
    } else {
      ToListsAt(cs[1..], i - 1);
    }
  }

  method ToList(c: Cond) returns (v: Value)
    ensures v == ToListF(c)
    decreases c
  {
    match c.op {
      case AlwaysTrue =>
        v := List([]);
      case And | Or =>
        var out := [Str(c.op.Name())];
        for i := 0 to |c.children|
          invariant out + ToLists(c.children[i..]) == [Str(c.op.Name())] + ToLists(c.children)
        {
          var kid := ToList(c.children[i]);
          out := out + [kid];
          assert c.children[i..][1..] == c.children[i + 1..];
        }
        v := List(out);
      case Not =>
        var out := [Str(c.op.Name())];
        if |c.children| > 0 {
          var kid := ToList(c.children[0]);
          out := out + [kid];
        }
        v := List(out);
      case Exists =>
        v := List([Str(c.op.Name()), Str(c.field)]);
      case Search =>
        v := List([Str(c.op.Name()), c.value]);
      case In =>
        v := List([Str(c.op.Name()), c.value, Str(c.field)]);
      case _ =>
        v := List([Str(c.op.Name()), Str(c.field), c.value]);
    }
  }

  // ---- FromList ----

  /** `Bad` carries the operator name and the offending arguments of the error. */
  datatype Decoded = Ok(cond: Cond) | Bad(op: string, args: Value)
  datatype DecodedAll = OkAll(conds: seq<Cond>) | BadAll(op: string, args: Value)

  function FromListF(v: Value): Decoded
    decreases v, 1, 0
  {
    if v.Null? then Ok(ZERO)
    else if !v.List? then Bad("UNKNOWN", v)
    else if v.elems == [] then Ok(ZERO)
    else if v.elems[0].Null? then Ok(ZERO)
    else if !v.elems[0].Str? then Bad("UNKNOWN", v)
    else
      var lst, head := v.elems, v.elems[0].s;
      var op := OpOf(head);
      if op.AlwaysTrue? then Ok(ZERO)
      else if op.Unknown? || |lst| < 2 then Bad(head, v)
      else if op.And? || op.Or? then
        (match FromLists(v, 1)
         case OkAll(kids) => Ok(Node(op, kids))
         case BadAll(o, a) => Bad(o, a))
      else if op.Not? then
        (match FromListF(lst[1])
         case Ok(kid) => Ok(Node(op, [kid]))
         case Bad(o, a) => Bad(o, a))
      else if op.Exists? then
        if lst[1].Str? then Ok(Leaf(op, lst[1].s, Null)) else Bad(head, v)
      else if op.Search? then Ok(Leaf(op, "", lst[1]))
      else if |lst| < 3 then Bad(head, v)
      else if op.In? then
        if lst[2].Str? then Ok(Leaf(op, lst[2].s, lst[1])) else Bad(head, v)
      else if lst[1].Str? && lst[1].s != "" then Ok(Leaf(op, lst[1].s, lst[2]))
      else Bad(head, v)
  }

  function FromLists(v: Value, from: nat): DecodedAll
    requires v.List? && from <= |v.elems|
    decreases v, 0, |v.elems| - from
  {
    if from == |v.elems| then OkAll([])
    else
      match FromListF(v.elems[from])
      case Bad(o, a) => BadAll(o, a)
      case Ok(c) =>
        match FromLists(v, from + 1)
        case BadAll(o, a) => BadAll(o, a)
        case OkAll(cs) => OkAll([c] + cs)
  }

  method FromList(v: Value) returns (r: Decoded)
    ensures r == FromListF(v)
    decreases v, 1
  {
    if v.Null? {
      return Ok(ZERO);
    }
    if !v.List? {
      return Bad("UNKNOWN", v);
    }
    var lst := v.elems;
    if |lst| == 0 {
      return Ok(ZERO);
    }
    if !lst[0].Str? {
      return if lst[0].Null? then Ok(ZERO) else Bad("UNKNOWN", v);
    }
    var head := lst[0].s;
    var op := OpOf(head);
    match op {
      case AlwaysTrue =>
        r := Ok(ZERO);
      case And | Or =>
        if |lst| < 2 {
          return Bad(head, v);
        }
        var kids := FromRest(v);
        r := if kids.OkAll? then Ok(Node(op, kids.conds)) else Bad(kids.op, kids.args);
      case Not =>
        if |lst| < 2 {
          return Bad(head, v);
        }
        var kid := FromList(lst[1]);
        r := if kid.Bad? then kid else Ok(Node(op, [kid.cond]));
      case Exists =>
        r := if |lst| >= 2 && lst[1].Str? then Ok(Leaf(op, lst[1].s, Null)) else Bad(head, v);
      case Search =>
        r := if |lst| >= 2 then Ok(Leaf(op, "", lst[1])) else Bad(head, v);
      case In =>
        r := if |lst| >= 3 && lst[2].Str? then Ok(Leaf(op, lst[2].s, lst[1])) else Bad(head, v);
      case Unknown(_) =>
        r := Bad(head, v);
      case _ =>
        r := if |lst| >= 3 && lst[1].Str? && lst[1].s != "" then Ok(Leaf(op, lst[1].s, lst[2])) else Bad(head, v);
    }
  }

  /** The operands after the operator name, up to the first that fails. */
  method FromRest(v: Value) returns (r: DecodedAll)
    requires v.List? && |v.elems| >= 1
    ensures r == FromLists(v, 1)
    decreases v, 0
  {
    var kids: seq<Cond> := [];
    for i := 1 to |v.elems|
      invariant FromLists(v, 1) == Prepend(kids, FromLists(v, i))
    {
      var kid := FromList(v.elems[i]);
      if kid.Bad? {
        return BadAll(kid.op, kid.args);
      }
      kids := kids + [kid.cond];
    }
    r := OkAll(kids);
  }

  ghost function Prepend(kids: seq<Cond>, rest: DecodedAll): DecodedAll {
    match rest
    case OkAll(cs) => OkAll(kids + cs)
    case BadAll(o, a) => BadAll(o, a)
  }

  // ---- What the list form can carry ----

  /** The trees the list form reproduces: non-empty AND/OR, one-child NOT, a non-empty
      field on every comparison, and no part an operator does not use. */
  ghost predicate ListNormal(c: Cond)
    decreases c
  {
    && (forall k <- c.children :: ListNormal(k))
    && match c.op
       case AlwaysTrue => c.IsZero()
       case And => c.field == "" && c.value.Null? && c.children != []
       case Or => c.field == "" && c.value.Null? && c.children != []
       case Not => c.field == "" && c.value.Null? && |c.children| == 1
       case Exists => c.value.Null? && c.children == []
       case Search => c.field == "" && c.children == []
       case In => c.children == []
       case Unknown(_) => false
       case _ => c.field != "" && c.children == []
  }

  lemma {:induction false} DecodedIsListNormal(v: Value)
    ensures FromListF(v).Ok? ==> ListNormal(FromListF(v).cond)
    decreases v, 1, 0
  {
    if v.List? && |v.elems| > 1 && v.elems[0].Str? {
      var op := OpOf(v.elems[0].s);
      if op.And? || op.Or? {
        DecodedAllListNormal(v, 1);
      } else if op.Not? {
        DecodedIsListNormal(v.elems[1]);
      }
    }
  }

  lemma {:induction false} DecodedAllListNormal(v: Value, from: nat)
    requires v.List? && from <= |v.elems|
    ensures FromLists(v, from).OkAll? ==>
              |FromLists(v, from).conds| == |v.elems| - from &&
              forall c <- FromLists(v, from).conds :: ListNormal(c)
    decreases v, 0, |v.elems| - from
  {
    if from == |v.elems| {
    } else {
      DecodedIsListNormal(v.elems[from]);
      DecodedAllListNormal(v, from + 1);
    }
  }

  lemma {:induction false} ListNormalReadsBack(c: Cond)
    requires ListNormal(c)
    ensures FromListF(ToListF(c)) == Ok(c)
    decreases c, 1
  {
    OpNamesRoundTrip(c.op);
    match c.op {
      case And | Or =>
        ListNormalReadBackAll(c, ToListF(c), 0);
      case Not =>
        ListNormalReadsBack(c.children[0]);
      case _ =>
    }
  }

  lemma {:induction false} ListNormalReadBackAll(c: Cond, v: Value, from: nat)
    requires ListNormal(c) && from <= |c.children|
    requires v == List([Str(c.op.Name())] + ToLists(c.children))
    ensures FromLists(v, from + 1) == OkAll(c.children[from..])
    decreases c, 0, |c.children| - from
  {
    if from == |c.children| {
    } else {
      ToListsAt(c.children, from);
      ListNormalReadsBack(c.children[from]);
      ListNormalReadBackAll(c, v, from + 1);
      assert c.children[from..] == [c.children[from]] + c.children[from + 1..];
    }
  }

  /** The list form reproduces a condition exactly when it is list-normal. */
  lemma ListRoundTrip(c: Cond)
    ensures FromListF(ToListF(c)) == Ok(c) <==> ListNormal(c)
  {
    if ListNormal(c) {
      ListNormalReadsBack(c);
    }
    DecodedIsListNormal(ToListF(c));
  }

  /** Whatever the decoder accepts, encoding the result decodes to the same tree. */
  lemma DecodeEncodeDecode(v: Value)
    ensures FromListF(v).Ok? ==> FromListF(ToListF(FromListF(v).cond)) == FromListF(v)
  {
    DecodedIsListNormal(v);
    if FromListF(v).Ok? {
      ListRoundTrip(FromListF(v).cond);
    }
  }

  // ---- Decoding shrinks ----

  lemma {:induction false} DecodedNoLarger(v: Value)
    ensures FromListF(v).Ok? ==> CondSize(FromListF(v).cond) <= ValueSize(v)
    decreases v, 1, 0
  {
    if v.List? && |v.elems| > 1 {
      assert ValueSizeFrom(v, 0) == ValueSize(v.elems[0]) + ValueSizeFrom(v, 1);
      assert ValueSizeFrom(v, 1) == ValueSize(v.elems[1]) + ValueSizeFrom(v, 2);
      if |v.elems| > 2 {
        assert ValueSizeFrom(v, 2) == ValueSize(v.elems[2]) + ValueSizeFrom(v, 3);
      }
      DecodedAllNoLarger(v, 1);
      DecodedNoLarger(v.elems[1]);
      var d := FromListF(v);
      if d.Ok? && d.cond.op.Not? {
        assert CondSizes(d.cond.children) == CondSize(d.cond.children[0]) + CondSizes([]);
      }
    }
  }

  lemma {:induction false} DecodedAllNoLarger(v: Value, from: nat)
    requires v.List? && from <= |v.elems|
    ensures FromLists(v, from).OkAll? ==> CondSizes(FromLists(v, from).conds) <= ValueSizeFrom(v, from)
    decreases v, 0, |v.elems| - from
  {
    if from == |v.elems| {
    } else {
      DecodedNoLarger(v.elems[from]);
      DecodedAllNoLarger(v, from + 1);
      var r := FromLists(v, from);
      if r.OkAll? {
        assert r.conds[1..] == FromLists(v, from + 1).conds;
      }
    }
  }
}
