/** Reading what was written gives the value back, in the shape of its type, and no byte more is used. */
module AbiRoundTrip {
  import opened Optional
  import opened Chains
  import opened AbiTypes
  import opened AbiCodec

  /** No struct is named like a built-in type or an array: such a name would be read as the other. */
  predicate Clean(d: Defs) {
    forall s :: s in d.structs ==> s !in d.builtins && !IsArray(s)
  }

  /** What validation and the naming rule give, and the law of the built-in types. */
  ghost predicate Good(d: Defs, c: Codec) {
    Sound(d) && BasesKnown(d) && Clean(d) && RoundTrips(c)
  }

  // ---------------------------------------------------------------------
  // Lists and their sizes
  // ---------------------------------------------------------------------

  /** No list that is written has more items than its 32-bit size can say. */
  predicate Counted(d: Defs, t: string, v: Value)
    requires Sound(d)
    decreases Size(v), 2 + Depth(d, t), 0
  {
    var r := Resolved(d, t);
    if ArrayType(r) in d.builtins then true
    else if IsArray(r) then v.List? ==> |v.items| < UINT32 && CountedItems(d, ArrayType(r), v.items)
    else v.Object? ==> CountedStruct(d, r, v)
  }

  predicate CountedItems(d: Defs, t: string, items: seq<Value>)
    requires Sound(d)
    decreases SizeItems(items), 0, 0
  {
    items == [] || (Counted(d, t, items[0]) && CountedItems(d, t, items[1..]))
  }

  predicate CountedStruct(d: Defs, t: string, v: Value)
    requires Sound(d) && v.Object?
    decreases Size(v), 1 + Depth(d, t), 0
  {
    var r := Resolved(d, t);
    if r !in d.structs then true
    else
      var st := d.structs[r];
      if st.base == "" then CountedFields(d, st.fields, v)
      else
        BaseDepth(d, t);
        CountedStruct(d, Resolved(d, st.base), v) && CountedFields(d, st.fields, v)
  }

  predicate CountedFields(d: Defs, fields: seq<Field>, v: Value)
    requires Sound(d) && v.Object?
    decreases Size(v), 0, |fields|
  {
    fields == [] ||
    (&& (match Find(v.members, fields[0].name) case None => true case Some(x) => Counted(d, fields[0].typ, x))
     && CountedFields(d, fields[1..], v))
  }

  // ---------------------------------------------------------------------
  // How deep a reading goes
  // ---------------------------------------------------------------------

  function Need(d: Defs, t: string, v: Value): nat
    requires Sound(d)
    decreases Size(v), 2 + Depth(d, t), 0
  {
    var r := Resolved(d, t);
    if ArrayType(r) in d.builtins then 1
    else if IsArray(r) && v.List? then 1 + NeedItems(d, ArrayType(r), v.items)
    else if v.Object? then 1 + NeedStruct(d, r, v)
    else 1
  }

  function NeedItems(d: Defs, t: string, items: seq<Value>): nat
    requires Sound(d)
    decreases SizeItems(items), 0, 0
  {
    if items == [] then 0 else Need(d, t, items[0]) + NeedItems(d, t, items[1..])
  }

  function NeedStruct(d: Defs, t: string, v: Value): nat
    requires Sound(d) && v.Object?
    decreases Size(v), 1 + Depth(d, t), 0
  {
    var r := Resolved(d, t);
    if r !in d.structs then 1
    else
      var st := d.structs[r];
      if st.base == "" then 1 + NeedFields(d, st.fields, v)
      else
        BaseDepth(d, t);
        1 + NeedStruct(d, Resolved(d, st.base), v) + NeedFields(d, st.fields, v)
  }

  function NeedFields(d: Defs, fields: seq<Field>, v: Value): nat
    requires Sound(d) && v.Object?
    decreases Size(v), 0, |fields|
  {
    if fields == [] then 0
    else
      match Find(v.members, fields[0].name)
      case None => 0
      case Some(x) => Need(d, fields[0].typ, x) + NeedFields(d, fields[1..], v)
  }

  // ---------------------------------------------------------------------
  // The round trip
  // ---------------------------------------------------------------------

  lemma {:induction false} ReadsBack(d: Defs, c: Codec, fuel: nat, t: string, v: Value, rest: Bytes)
    requires Good(d, c) && Counted(d, t, v) && Write(d, c, t, v).Some? && fuel >= Need(d, t, v)
    ensures Read(d, c, fuel, t, Write(d, c, t, v).value + rest) == Some((Canon(d, c, t, v), rest))
    decreases Size(v), 2 + Depth(d, t), 0
  {
    var r := Resolved(d, t);
    var out := Write(d, c, t, v).value;
    if ArrayType(r) in d.builtins {
      assert out + rest == PackThenRest(c, ArrayType(r), IsArray(r), v, rest);
    } else if IsArray(r) {
      var items := WriteItems(d, c, ArrayType(r), v.items).value;
      assert out + rest == PutSize(|v.items|) + (items + rest);
      SizeRoundTrip(|v.items|, 1, 0, items + rest);
      ItemsReadBack(d, c, fuel - 1, ArrayType(r), v.items, rest);
    } else {
      StructReadsBack(d, c, fuel - 1, r, v, rest);
    }
  }

  lemma {:induction false} ItemsReadBack(d: Defs, c: Codec, fuel: nat, t: string, items: seq<Value>, rest: Bytes)
    requires Good(d, c) && CountedItems(d, t, items) && WriteItems(d, c, t, items).Some? &&
             fuel >= NeedItems(d, t, items)
    ensures ReadItems(d, c, fuel, t, |items|, WriteItems(d, c, t, items).value + rest)
         == Some((CanonItems(d, c, t, items), rest))
    decreases SizeItems(items), 0, 0
  {
    if items == [] {
      assert WriteItems(d, c, t, items).value + rest == rest;
    } else {
      var first, others := Write(d, c, t, items[0]).value, WriteItems(d, c, t, items[1..]).value;
      assert first + others + rest == first + (others + rest);
      ReadsBack(d, c, fuel, t, items[0], others + rest);
      ItemsReadBack(d, c, fuel, t, items[1..], rest);
    }
  }

  lemma {:induction false} StructReadsBack(d: Defs, c: Codec, fuel: nat, t: string, v: Value, rest: Bytes)
    requires Good(d, c) && v.Object? && Resolved(d, t) in d.structs && CountedStruct(d, t, v)
    requires Write(d, c, t, v).Some? && fuel >= NeedStruct(d, t, v)
    ensures ReadStruct(d, c, fuel, t, Write(d, c, t, v).value + rest) == Some((CanonMembers(d, c, t, v), rest))
    decreases Size(v), 1 + Depth(d, t), 0
  {
    var r := Resolved(d, t);
    var st := d.structs[r];
    assert ArrayType(r) == r && r !in d.builtins;
    var own := WriteFields(d, c, st.fields, v).value;
    if st.base == "" {
      assert Write(d, c, t, v).value == own;
      assert [] + CanonFields(d, c, st.fields, v) == CanonFields(d, c, st.fields, v);
    } else {
      BaseDepth(d, t);
      var b := Resolved(d, st.base);
      assert r in Bases(d) && Bases(d)[r] == b;
      var above := Write(d, c, b, v).value;
      assert Write(d, c, t, v).value == above + own;
      assert above + own + rest == above + (own + rest);
      StructReadsBack(d, c, fuel - 1, b, v, own + rest);
    }
    FieldsReadBack(d, c, fuel - 1, st.fields, v, rest);
  }

  lemma {:induction false} FieldsReadBack(d: Defs, c: Codec, fuel: nat, fields: seq<Field>, v: Value, rest: Bytes)
    requires Good(d, c) && v.Object? && CountedFields(d, fields, v)
    requires WriteFields(d, c, fields, v).Some? && fuel >= NeedFields(d, fields, v)
    ensures ReadFields(d, c, fuel, fields, WriteFields(d, c, fields, v).value + rest)
         == Some((CanonFields(d, c, fields, v), rest))
    decreases Size(v), 0, |fields|
  {
    if fields == [] {
      assert WriteFields(d, c, fields, v).value + rest == rest;
    } else {
      var x := Find(v.members, fields[0].name).value;
      var first, others := Write(d, c, fields[0].typ, x).value, WriteFields(d, c, fields[1..], v).value;
      assert first + others + rest == first + (others + rest);
      ReadsBack(d, c, fuel, fields[0].typ, x, others + rest);
      SameReading(d, c, fuel, fields[0].typ, first + (others + rest));
      FieldsReadBack(d, c, fuel, fields[1..], v, rest);
    }
  }

  /** Resolving a name before reading makes no difference. */
  lemma {:induction false} SameReading(d: Defs, c: Codec, fuel: nat, t: string, s: Bytes)
    requires AllEnd(d.typedefs)
    ensures Read(d, c, fuel, Resolved(d, t), s) == Read(d, c, fuel, t, s)
  {
  }

  /** Every reading that may go at least so deep gives the value back and leaves what follows. */
  ghost predicate ReadsBackFrom(d: Defs, c: Codec, t: string, v: Value, deep: nat)
    requires Sound(d) && Write(d, c, t, v).Some?
  {
    forall fuel: nat, rest: Bytes :: fuel >= deep ==>
                                       Read(d, c, fuel, t, Write(d, c, t, v).value + rest) ==
                                       Some((Canon(d, c, t, v), rest))
  }

  /** What was written is read back if no list that is written is too long. */
  lemma {:induction false} RoundTrip(d: Defs, c: Codec, t: string, v: Value)
    requires Good(d, c) && Counted(d, t, v) && Write(d, c, t, v).Some?
    ensures exists deep: nat :: ReadsBackFrom(d, c, t, v, deep)
  {
    forall fuel: nat, rest: Bytes | fuel >= Need(d, t, v)
      ensures Read(d, c, fuel, t, Write(d, c, t, v).value + rest) == Some((Canon(d, c, t, v), rest))
    {
      ReadsBack(d, c, fuel, t, v, rest);
    }
    assert ReadsBackFrom(d, c, t, v, Need(d, t, v));
  }

  // ---------------------------------------------------------------------
  // Lists that are too long
  // ---------------------------------------------------------------------

  /** One struct without fields: its values take no bytes. */
  function EmptyStruct(): Defs {
    Defs({}, map[], map["e" := Struct("e", "", [])])
  }

  lemma {:induction false} EmptyStructGood(c: Codec)
    requires RoundTrips(c)
    ensures Good(EmptyStruct(), c)
  {
    var d := EmptyStruct();
    forall t ensures Ends(d.typedefs, t) {
      assert EndsWithin(d.typedefs, t, 0);
    }
    forall t ensures Ends(Bases(d), t) {
      assert EndsWithin(Bases(d), t, 0);
    }
  }

  lemma {:induction false} EmptyItems(c: Codec, items: seq<Value>)
    requires Sound(EmptyStruct()) && forall i :: 0 <= i < |items| ==> items[i] == Object([])
    ensures WriteItems(EmptyStruct(), c, "e", items) == Some([])
    decreases |items|
  {
    if items != [] {
      assert ArrayType("e") == "e";
      assert WriteFields(EmptyStruct(), c, [], items[0]) == Some([]);
      assert Write(EmptyStruct(), c, "e", items[0]) == Some([]);
      EmptyItems(c, items[1..]);
      AppendEmpty([]);
    }
  }

  /** The 32-bit size wraps: 4294967296 empty structs are written, and read back, as none. */
  lemma {:induction false} LongListLost(c: Codec, v: Value)
    requires RoundTrips(c) && v.List? && |v.items| == UINT32
    requires forall i :: 0 <= i < |v.items| ==> v.items[i] == Object([])
    ensures Good(EmptyStruct(), c)
    ensures Write(EmptyStruct(), c, "e[]", v) == Some([0])
    ensures forall fuel: nat :: fuel > 0 ==> Read(EmptyStruct(), c, fuel, "e[]", [0]) == Some((List([]), []))
  {
    EmptyStructGood(c);
    EmptyItems(c, v.items);
    assert ArrayType("e[]") == "e";
    assert PutSize(|v.items| % UINT32) == [0];
    AppendEmpty([0]);
  }

  lemma {:induction false} AppendEmpty(a: Bytes)
    ensures Append(Some(a), Some([])) == Some(a)
  {
    assert a + [] == a;
  }
}
