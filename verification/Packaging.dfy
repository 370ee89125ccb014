/**
 Packing the arguments of a call: the tensors go into a flat list, and marks take their places in the nested structure.
 */
module Packaging {
  import opened Wrappers

  /** What stands at the leaves. Tensors are told apart by identity; a byte string is one character per byte; everything
      else travels as it is. */
  datatype Value = Tensor(id: nat) | Bytes(bytes: string) | Other(data: string)

  /** Nested lists, tuples and dictionaries; the entries of a dictionary stand in key order. */
  datatype Nest = Leaf(value: Value) | List(kind: nat, items: seq<Nest>) | Dict(keys: seq<string>, items: seq<Nest>)

  // ----- flattening and restoring -----

  function Flatten(t: Nest): seq<Value>
    decreases t, 0
  {
    match t
    case Leaf(value) => [value]
    case List(_, items) => FlattenAll(items)
    case Dict(_, items) => FlattenAll(items)
  }

  function FlattenAll(ts: seq<Nest>): seq<Value>
    decreases ts, 1
  {
    if |ts| == 0 then [] else Flatten(ts[0]) + FlattenAll(ts[1..])
  }

  /** Takes the leaves of `structure` from the front of `flat` and returns what is left; fails when `flat` runs out. */
  function PackFrom(flat: seq<Value>, structure: Nest): Option<(Nest, seq<Value>)>
    decreases structure, 0
  {
    match structure
    case Leaf(_) => if |flat| == 0 then None else Some((Leaf(flat[0]), flat[1..]))
    case List(kind, items) =>
      var r := PackAll(flat, items);
      if r.None? then None else Some((List(kind, r.value.0), r.value.1))
    case Dict(keys, items) =>
      var r := PackAll(flat, items);
      if r.None? then None else Some((Dict(keys, r.value.0), r.value.1))
  }

  function PackAll(flat: seq<Value>, structures: seq<Nest>): Option<(seq<Nest>, seq<Value>)>
    decreases structures, 1
  {
    if |structures| == 0 then Some(([], flat))
    else
      var first := PackFrom(flat, structures[0]);
      if first.None? then None
      else
        var rest := PackAll(first.value.1, structures[1..]);
        if rest.None? then None else Some(([first.value.0] + rest.value.0, rest.value.1))
  }

  /** The same nesting, with any leaves. */
  predicate SameShape(t: Nest, u: Nest)
    decreases t, 0
  {
    match (t, u)
    case (Leaf(_), Leaf(_)) => true
    case (List(k, ts), List(l, us)) => k == l && AllSameShape(ts, us)
    case (Dict(k, ts), Dict(l, us)) => k == l && AllSameShape(ts, us)
    case _ => false
  }

  predicate AllSameShape(ts: seq<Nest>, us: seq<Nest>)
    decreases ts, 1
  {
    |ts| == |us| && (|ts| > 0 ==> SameShape(ts[0], us[0]) && AllSameShape(ts[1..], us[1..]))
  }

  /** What `PackFrom` makes of `flat + rest` when `flat` are as many leaves as `t` has. */
  predicate Restored(r: Option<(Nest, seq<Value>)>, flat: seq<Value>, rest: seq<Value>, t: Nest)
  {
    r.Some? && r.value.1 == rest && Flatten(r.value.0) == flat && SameShape(r.value.0, t)
  }

  predicate AllRestored(r: Option<(seq<Nest>, seq<Value>)>, flat: seq<Value>, rest: seq<Value>, ts: seq<Nest>)
  {
    r.Some? && r.value.1 == rest && FlattenAll(r.value.0) == flat && AllSameShape(r.value.0, ts)
  }

  lemma {:induction false} PackRestores(flat: seq<Value>, rest: seq<Value>, t: Nest)
    requires |flat| == |Flatten(t)|
    ensures Restored(PackFrom(flat + rest, t), flat, rest, t)
    decreases t, 0
  {
    match t
    case Leaf(_) => assert flat == [flat[0]] && (flat + rest)[1..] == rest;
    case List(_, items) => PackAllRestores(flat, rest, items);
    case Dict(_, items) => PackAllRestores(flat, rest, items);
  }

  lemma {:induction false} PackAllRestores(flat: seq<Value>, rest: seq<Value>, ts: seq<Nest>)
    requires |flat| == |FlattenAll(ts)|
    ensures AllRestored(PackAll(flat + rest, ts), flat, rest, ts)
    decreases ts, 1
  {
    if |ts| == 0 {
      assert flat + rest == rest;
    } else {
      var n := |Flatten(ts[0])|;
      var front, back := flat[..n], flat[n..];
      PackRestores(front, back + rest, ts[0]);
      PackAllRestores(back, rest, ts[1..]);
      assert flat + rest == front + (back + rest) && flat == front + back;
      PackInTurn(front, back, rest, ts);
    }
  }

  lemma PackInTurn(front: seq<Value>, back: seq<Value>, rest: seq<Value>, ts: seq<Nest>)
    requires |ts| > 0
    requires Restored(PackFrom(front + (back + rest), ts[0]), front, back + rest, ts[0])
    requires AllRestored(PackAll(back + rest, ts[1..]), back, rest, ts[1..])
    ensures AllRestored(PackAll(front + (back + rest), ts), front + back, rest, ts)
  {
    JoinRestored(PackFrom(front + (back + rest), ts[0]).value.0, PackAll(back + rest, ts[1..]).value.0, ts);
  }

  lemma JoinRestored(u: Nest, us: seq<Nest>, ts: seq<Nest>)
    requires |ts| > 0 && SameShape(u, ts[0]) && AllSameShape(us, ts[1..])
    ensures FlattenAll([u] + us) == Flatten(u) + FlattenAll(us) && AllSameShape([u] + us, ts)
  {
    assert ([u] + us)[1..] == us;
  }

  lemma {:induction false} ShapeAndLeavesDetermine(t: Nest, u: Nest)
    requires SameShape(t, u) && Flatten(t) == Flatten(u)
    ensures t == u
    decreases t, 0
  {
    match t
    case Leaf(_) => assert Flatten(t)[0] == Flatten(u)[0];
    case List(_, items) => AllShapesAndLeavesDetermine(items, u.items);
    case Dict(_, items) => AllShapesAndLeavesDetermine(items, u.items);
  }

  lemma {:induction false} AllShapesAndLeavesDetermine(ts: seq<Nest>, us: seq<Nest>)
    requires AllSameShape(ts, us) && FlattenAll(ts) == FlattenAll(us)
    ensures ts == us
    decreases ts, 1
  {
    if |ts| > 0 {
      SameShapeSameSize(ts[0], us[0]);
      var n := |Flatten(ts[0])|;
      assert FlattenAll(ts)[..n] == Flatten(ts[0]) && FlattenAll(us)[..n] == Flatten(us[0]);
      assert FlattenAll(ts)[n..] == FlattenAll(ts[1..]) && FlattenAll(us)[n..] == FlattenAll(us[1..]);
      ShapeAndLeavesDetermine(ts[0], us[0]);
      AllShapesAndLeavesDetermine(ts[1..], us[1..]);
      assert ts == [ts[0]] + ts[1..] && us == [us[0]] + us[1..];
    }
  }

  lemma {:induction false} SameShapeSameSize(t: Nest, u: Nest)
    requires SameShape(t, u)
    ensures |Flatten(t)| == |Flatten(u)|
    decreases t, 0
  {
    match t
    case Leaf(_) =>
    case List(_, items) => AllSameShapeSameSize(items, u.items);
    case Dict(_, items) => AllSameShapeSameSize(items, u.items);
  }

  lemma {:induction false} AllSameShapeSameSize(ts: seq<Nest>, us: seq<Nest>)
    requires AllSameShape(ts, us)
    ensures |FlattenAll(ts)| == |FlattenAll(us)|
    decreases ts, 1
  {
    if |ts| > 0 {
      SameShapeSameSize(ts[0], us[0]);
      AllSameShapeSameSize(ts[1..], us[1..]);
    }
  }

  // ----- marks -----

  const MARK := "__T"

  function Digit(d: nat): char
    requires d < 10
  {
    ['0', '1', '2', '3', '4', '5', '6', '7', '8', '9'][d]
  }

  function Decimal(n: nat): (s: string)
    ensures |s| > 0
  {
    if n < 10 then [Digit(n)] else Decimal(n / 10) + [Digit(n % 10)]
  }

  predicate IsDigit(c: char)
  {
    '0' <= c <= '9'
  }

  /** The number that a non-empty string of digits stands for. */
  function ParseDecimal(s: string): Option<nat>
  {
    if |s| == 0 || !IsDigit(s[|s| - 1]) then None
    else
      var d := s[|s| - 1] as int - '0' as int;
      if |s| == 1 then Some(d)
      else
        var front := ParseDecimal(s[..|s| - 1]);
        if front.None? then None else Some(10 * front.value + d)
  }

  lemma {:induction false} ParseOfDecimal(n: nat)
    ensures ParseDecimal(Decimal(n)) == Some(n)
  {
    if n >= 10 {
      ParseOfDecimal(n / 10);
      var s := Decimal(n);
      assert s[..|s| - 1] == Decimal(n / 10);
    }
  }

  function Mark(index: nat): Value
  {
    Bytes(MARK + Decimal(index))
  }

  predicate IsMarked(v: Value)
  {
    v.Bytes? && MARK <= v.bytes
  }

  lemma MarkIsMarked(index: nat)
    ensures IsMarked(Mark(index)) && ParseDecimal(Mark(index).bytes[3..]) == Some(index)
  {
    ParseOfDecimal(index);
    assert (MARK + Decimal(index))[3..] == Decimal(index);
  }

  // ----- packing and unpacking -----

  ghost predicate Distinct(tensors: seq<nat>)
  {
    forall i, j | 0 <= i < j < |tensors| :: tensors[i] != tensors[j]
  }

  /** The distinct tensors among the leaves, in the order of their first occurrence. */
  function FirstOccurrences(flat: seq<Value>): seq<nat>
  {
    if |flat| == 0 then []
    else
      var before, last := FirstOccurrences(flat[..|flat| - 1]), flat[|flat| - 1];
      if last.Tensor? && last.id !in before then before + [last.id] else before
  }

  /** Every tensor of the leaves is in the list once, and no other is. */
  lemma {:induction false} FirstOccurrencesAreTensors(flat: seq<Value>)
    ensures Distinct(FirstOccurrences(flat))
    ensures forall id :: id in FirstOccurrences(flat) <==> Tensor(id) in flat
  {
    if |flat| > 0 {
      var front := flat[..|flat| - 1];
      FirstOccurrencesAreTensors(front);
      assert flat == front + [flat[|flat| - 1]];
    }
  }

  /** `masked` is `flat` with every tensor replaced by the mark of its place in the list. */
  ghost predicate Masks(flat: seq<Value>, tensors: seq<nat>, masked: seq<Value>)
  {
    |masked| == |flat| && forall i | 0 <= i < |flat| :: MasksAt(flat[i], tensors, masked[i])
  }

  ghost predicate MasksAt(v: Value, tensors: seq<nat>, m: Value)
  {
    if v.Tensor? then exists k: nat :: k < |tensors| && tensors[k] == v.id && m == Mark(k) else m == v
  }

  method PackArgs(args: Nest) returns (tensors: seq<nat>, structure: Nest)
    ensures tensors == FirstOccurrences(Flatten(args))
    ensures Masks(Flatten(args), tensors, Flatten(structure)) && SameShape(structure, args)
  {
    var flat := Flatten(args);
    var masked: seq<Value> := [];
    tensors := [];
    var index: map<nat, nat> := map[];
    for i := 0 to |flat|
      invariant Packed(flat[..i], tensors, masked)
      invariant forall id :: id in index <==> id in tensors
      invariant forall id | id in index :: index[id] < |tensors| && tensors[index[id]] == id
    {
      var value, k := flat[i], |tensors|;
      if value.Tensor? {
        if value.id in index { k := index[value.id]; }
        index := index[value.id := k];
      }
      PackedNext(flat, i, tensors, masked, k);
      if value.Tensor? {
        if k == |tensors| { tensors := tensors + [value.id]; }
        masked := masked + [Mark(k)];
      } else {
        masked := masked + [value];
      }
    }
    assert flat[..|flat|] == flat && masked + [] == masked;
    PackRestores(masked, [], args);
    structure := PackFrom(masked, args).value.0;
  }

  ghost predicate Packed(flat: seq<Value>, tensors: seq<nat>, masked: seq<Value>)
  {
    tensors == FirstOccurrences(flat) && Masks(flat, tensors, masked)
  }

  /** One more leaf: a tensor that is in the list already, or comes to its end, or something else. */
  lemma PackedNext(flat: seq<Value>, i: nat, tensors: seq<nat>, masked: seq<Value>, k: nat)
    requires i < |flat| && Packed(flat[..i], tensors, masked)
    requires flat[i].Tensor? ==> if flat[i].id in tensors then k < |tensors|
                                 && tensors[k] == flat[i].id else k == |tensors|
    ensures if flat[i].Tensor?
            then Packed(flat[..i + 1], if k == |tensors| then tensors + [flat[i].id] else tensors, masked + [Mark(k)])
            else Packed(flat[..i + 1], tensors, masked + [flat[i]])
  {
    assert flat[..i + 1] == flat[..i] + [flat[i]] && flat[..i + 1][..i] == flat[..i];
    if flat[i].Tensor? {
      MaskNext(flat[..i], tensors, if k == |tensors| then tensors + [flat[i].id] else tensors, masked, flat[i], k);
    }
  }

  lemma MaskNext(flat: seq<Value>, before: seq<nat>, tensors: seq<nat>, masked: seq<Value>, value: Value, k: nat)
    requires Masks(flat, before, masked) && before <= tensors && value.Tensor? && k < |tensors|
             && tensors[k] == value.id
    ensures Masks(flat + [value], tensors, masked + [Mark(k)])
  {
    forall i | 0 <= i < |flat| ensures MasksAt(flat[i], tensors, masked[i]) {
      assert MasksAt(flat[i], before, masked[i]);
      if flat[i].Tensor? {
        var j: nat :| j < |before| && before[j] == flat[i].id && masked[i] == Mark(j);
        assert tensors[j] == flat[i].id;
      }
    }
  }

  /** A marked leaf becomes the tensor with that number; anything else is left. A mark without a number, or with a
      number that is not in the list, is an error. */
  function Unmask(v: Value, tensors: seq<nat>): Option<Value>
  {
    if !IsMarked(v) then Some(v)
    else
      var k := ParseDecimal(v.bytes[3..]);
      if k.None? || k.value >= |tensors| then None else Some(Tensor(tensors[k.value]))
  }

  function UnmaskAll(flat: seq<Value>, tensors: seq<nat>): (r: Option<seq<Value>>)
  {
    if |flat| == 0 then Some([])
    else
      var front, last := UnmaskAll(flat[..|flat| - 1], tensors), Unmask(flat[|flat| - 1], tensors);
      if front.None? || last.None? then None else Some(front.value + [last.value])
  }

  function Unpack(tensors: seq<nat>, structure: Nest): Option<Nest>
  {
    var flat := UnmaskAll(Flatten(structure), tensors);
    if flat.None? then None
    else
      var r := PackFrom(flat.value, structure);
      if r.None? then None else Some(r.value.0)
  }

  /** No leaf is a byte string that looks like a mark. */
  ghost predicate NoneReserved(flat: seq<Value>)
  {
    forall i | 0 <= i < |flat| :: flat[i].Bytes? ==> !(MARK <= flat[i].bytes)
  }

  lemma {:induction false} UnmaskAllAt(flat: seq<Value>, tensors: seq<nat>)
    ensures UnmaskAll(flat, tensors).Some? <==> forall i | 0 <= i < |flat| :: Unmask(flat[i], tensors).Some?
    ensures UnmaskAll(flat, tensors).Some? ==> |UnmaskAll(flat, tensors).value| == |flat|
    ensures UnmaskAll(flat, tensors).Some? ==> forall i | 0 <= i < |flat| ::
                                                 Unmask(flat[i], tensors) == Some(UnmaskAll(flat, tensors).value[i])
  {
    if |flat| > 0 {
      UnmaskAllAt(flat[..|flat| - 1], tensors);
    }
  }

  /** A leaf comes back unless it is a byte string that looks like a mark. */
  lemma UnmaskAfterMask(v: Value, tensors: seq<nat>, m: Value)
    requires MasksAt(v, tensors, m)
    ensures !IsMarked(v) <==> Unmask(m, tensors) == Some(v)
  {
    if v.Tensor? {
      var k: nat :| k < |tensors| && tensors[k] == v.id && m == Mark(k);
      MarkIsMarked(k);
    }
  }

  /** Unpacking restores the arguments if and only if no leaf is a byte string that begins like a mark. */
  lemma UnpackAfterPack(args: Nest, tensors: seq<nat>, structure: Nest)
    requires Masks(Flatten(args), tensors, Flatten(structure)) && SameShape(structure, args)
    ensures Unpack(tensors, structure) == Some(args) <==> NoneReserved(Flatten(args))
  {
    var flat, masked := Flatten(args), Flatten(structure);
    UnmaskAllAt(masked, tensors);
    forall i | 0 <= i < |flat| ensures !IsMarked(flat[i]) <==> Unmask(masked[i], tensors) == Some(flat[i]) {
      UnmaskAfterMask(flat[i], tensors, masked[i]);
    }
    var back := UnmaskAll(masked, tensors);
    if back.Some? {
      assert back.value + [] == back.value;
      PackRestores(back.value, [], structure);
      var r := PackFrom(back.value, structure).value.0;
      if NoneReserved(flat) {
        assert back.value == flat;
        ShapesChain(r, structure, args);
        ShapeAndLeavesDetermine(r, args);
      }
    }
  }

  lemma {:induction false} ShapesChain(t: Nest, u: Nest, v: Nest)
    requires SameShape(t, u) && SameShape(u, v)
    ensures SameShape(t, v)
    decreases t, 0
  {
    match t
    case Leaf(_) =>
    case List(_, items) => AllShapesChain(items, u.items, v.items);
    case Dict(_, items) => AllShapesChain(items, u.items, v.items);
  }

  lemma {:induction false} AllShapesChain(ts: seq<Nest>, us: seq<Nest>, vs: seq<Nest>)
    requires AllSameShape(ts, us) && AllSameShape(us, vs)
    ensures AllSameShape(ts, vs)
    decreases ts, 1
  {
    if |ts| > 0 {
      ShapesChain(ts[0], us[0], vs[0]);
      AllShapesChain(ts[1..], us[1..], vs[1..]);
    }
  }
}
