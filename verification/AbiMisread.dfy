/**
 A list that is too long for its size is not read back, wherever in a value it is written; so the
 round trip holds exactly for values without such a list.
 */
module AbiMisread {
  import opened Optional
  import opened Chains
  import opened AbiTypes
  import opened AbiCodec
  import opened AbiRoundTrip

  /** A reading that gives the value has failed, or given another one. */
  ghost predicate Misses<T>(r: Option<(T, Bytes)>, canon: T) {
    r.None? || r.value.0 != canon
  }

  // ---------------------------------------------------------------------
  // How much a reading returns
  // ---------------------------------------------------------------------

  lemma {:induction false} ItemCount(d: Defs, c: Codec, fuel: nat, t: string, n: nat, s: Bytes)
    requires AllEnd(d.typedefs) && ReadItems(d, c, fuel, t, n, s).Some?
    ensures |ReadItems(d, c, fuel, t, n, s).value.0| == n
    decreases n
  {
    if n > 0 {
      var first := Read(d, c, fuel, t, s).value;
      ItemCount(d, c, fuel, t, n - 1, first.1);
    }
  }

  lemma {:induction false} FieldCount(d: Defs, c: Codec, fuel: nat, fields: seq<Field>, s: Bytes)
    requires AllEnd(d.typedefs) && ReadFields(d, c, fuel, fields, s).Some?
    ensures |ReadFields(d, c, fuel, fields, s).value.0| == |fields|
    decreases |fields|
  {
    if fields != [] {
      var first := Read(d, c, fuel, Resolved(d, fields[0].typ), s).value;
      FieldCount(d, c, fuel, fields[1..], first.1);
    }
  }

  /** The fields of a struct with those of its bases. */
  function Fields(d: Defs, t: string): nat
    requires Sound(d)
    decreases Depth(d, t)
  {
    var r := Resolved(d, t);
    if r !in d.structs then 0
    else
      var st := d.structs[r];
      if st.base == "" then |st.fields|
      else
        BaseDepth(d, t);
        Fields(d, Resolved(d, st.base)) + |st.fields|
  }

  lemma {:induction false} MemberCount(d: Defs, c: Codec, fuel: nat, t: string, s: Bytes)
    requires Sound(d) && ReadStruct(d, c, fuel, t, s).Some?
    ensures |ReadStruct(d, c, fuel, t, s).value.0| == Fields(d, t)
    decreases fuel
  {
    var st := d.structs[Resolved(d, t)];
    if st.base == "" {
      FieldCount(d, c, fuel - 1, st.fields, s);
    } else {
      var b := Resolved(d, st.base);
      MemberCount(d, c, fuel - 1, b, s);
      FieldCount(d, c, fuel - 1, st.fields, ReadStruct(d, c, fuel - 1, b, s).value.1);
    }
  }

  lemma {:induction false} CanonItemCount(d: Defs, c: Codec, t: string, items: seq<Value>)
    requires Sound(d)
    ensures |CanonItems(d, c, t, items)| == |items|
    decreases |items|
  {
    if items != [] {
      CanonItemCount(d, c, t, items[1..]);
    }
  }

  lemma {:induction false} CanonFieldCount(d: Defs, c: Codec, fields: seq<Field>, v: Value)
    requires Sound(d) && v.Object? && WriteFields(d, c, fields, v).Some?
    ensures |CanonFields(d, c, fields, v)| == |fields|
    decreases |fields|
  {
    if fields != [] {
      CanonFieldCount(d, c, fields[1..], v);
    }
  }

  lemma {:induction false} CanonMemberCount(d: Defs, c: Codec, t: string, v: Value)
    requires Good(d, c) && v.Object? && Resolved(d, t) in d.structs && Write(d, c, t, v).Some?
    ensures |CanonMembers(d, c, t, v)| == Fields(d, t)
    decreases Depth(d, t)
  {
    var r := Resolved(d, t);
    var st := d.structs[r];
    assert ArrayType(r) == r && r !in d.builtins;
    CanonFieldCount(d, c, st.fields, v);
    if st.base != "" {
      BaseDepth(d, t);
      assert r in Bases(d) && Bases(d)[r] == Resolved(d, st.base);
      CanonMemberCount(d, c, Resolved(d, st.base), v);
    }
  }

  // ---------------------------------------------------------------------
  // Misreadings
  // ---------------------------------------------------------------------

  lemma {:induction false} Misread(d: Defs, c: Codec, fuel: nat, t: string, v: Value, rest: Bytes)
    requires Good(d, c) && !Counted(d, t, v) && Write(d, c, t, v).Some? && fuel >= Need(d, t, v)
    ensures Misses(Read(d, c, fuel, t, Write(d, c, t, v).value + rest), Canon(d, c, t, v))
    decreases Size(v), 2 + Depth(d, t), 0
  {
    var r := Resolved(d, t);
    if IsArray(r) {
      ListRead(d, c, fuel, t, v, rest);
      assert Canon(d, c, t, v) == List(CanonItems(d, c, ArrayType(r), v.items));
      if |v.items| < UINT32 {
        SmallMod(|v.items|);
        assert !CountedItems(d, ArrayType(r), v.items) && fuel - 1 >= NeedItems(d, ArrayType(r), v.items);
        ItemsMisread(d, c, fuel - 1, ArrayType(r), v.items, rest);
      } else {
        LongListMisread(d, c, fuel - 1, ArrayType(r), v.items, rest);
      }
    } else {
      assert Canon(d, c, t, v) == Object(CanonMembers(d, c, r, v));
      StructMisread(d, c, fuel - 1, r, v, rest);
    }
  }

  /** Reading a list is reading as many items as its size, cut down to 32 bits, says. */
  lemma {:induction false} ListRead(d: Defs, c: Codec, fuel: nat, t: string, v: Value, rest: Bytes)
    requires Good(d, c) && fuel > 0 && v.List? && Write(d, c, t, v).Some?
    requires IsArray(Resolved(d, t)) && ArrayType(Resolved(d, t)) !in d.builtins
    ensures var u := ArrayType(Resolved(d, t));
            && WriteItems(d, c, u, v.items).Some?
            && Read(d, c, fuel, t, Write(d, c, t, v).value + rest) ==
               (match ReadItems(d, c, fuel - 1, u, |v.items| % UINT32, WriteItems(d, c, u, v.items).value + rest)
                case None => None
                case Some((items, more)) => Some((List(items), more)))
  {
    var n := |v.items| % UINT32;
    var items := WriteItems(d, c, ArrayType(Resolved(d, t)), v.items).value;
    assert Write(d, c, t, v).value + rest == PutSize(n) + (items + rest);
    SizeRoundTrip(n, 1, 0, items + rest);
  }

  lemma {:induction false} LongListMisread(d: Defs, c: Codec, fuel: nat, t: string, items: seq<Value>, rest: Bytes)
    requires Good(d, c) && |items| >= UINT32 && WriteItems(d, c, t, items).Some?
    ensures Misses(ReadItems(d, c, fuel, t, |items| % UINT32, WriteItems(d, c, t, items).value + rest),
                   CanonItems(d, c, t, items))
  {
    var bytes := WriteItems(d, c, t, items).value + rest;
    CanonItemCount(d, c, t, items);
    if ReadItems(d, c, fuel, t, |items| % UINT32, bytes).Some? {
      ItemCount(d, c, fuel, t, |items| % UINT32, bytes);
    }
  }

  lemma {:induction false} ItemsMisread(d: Defs, c: Codec, fuel: nat, t: string, items: seq<Value>, rest: Bytes)
    requires Good(d, c) && !CountedItems(d, t, items) && WriteItems(d, c, t, items).Some? &&
             fuel >= NeedItems(d, t, items)
    ensures Misses(ReadItems(d, c, fuel, t, |items|, WriteItems(d, c, t, items).value + rest),
                   CanonItems(d, c, t, items))
    decreases SizeItems(items), 0, 0
  {
    var first, others := Write(d, c, t, items[0]).value, WriteItems(d, c, t, items[1..]).value;
    assert first + others + rest == first + (others + rest);
    if Counted(d, t, items[0]) {
      ReadsBack(d, c, fuel, t, items[0], others + rest);
      ItemsMisread(d, c, fuel, t, items[1..], rest);
      DifferBehind(Canon(d, c, t, items[0]), ReadItems(d, c, fuel, t, |items| - 1, others + rest),
                   CanonItems(d, c, t, items[1..]));
    } else {
      Misread(d, c, fuel, t, items[0], others + rest);
      assert CanonItems(d, c, t, items)[0] == Canon(d, c, t, items[0]);
    }
  }

  /** Lists with the same first entry and different rests differ. */
  lemma {:induction false} DifferBehind<T>(x: T, r: Option<(seq<T>, Bytes)>, canon: seq<T>)
    requires Misses(r, canon)
    ensures r.Some? ==> [x] + r.value.0 != [x] + canon
  {
    if r.Some? {
      assert ([x] + r.value.0)[1..] == r.value.0 && ([x] + canon)[1..] == canon;
    }
  }

  lemma {:induction false} FieldsMisread(d: Defs, c: Codec, fuel: nat, fields: seq<Field>, v: Value, rest: Bytes)
    requires Good(d, c) && v.Object? && !CountedFields(d, fields, v)
    requires WriteFields(d, c, fields, v).Some? && fuel >= NeedFields(d, fields, v)
    ensures Misses(ReadFields(d, c, fuel, fields, WriteFields(d, c, fields, v).value + rest),
                   CanonFields(d, c, fields, v))
    decreases Size(v), 0, |fields|
  {
    var x := Find(v.members, fields[0].name).value;
    var t := fields[0].typ;
    var first, others := Write(d, c, t, x).value, WriteFields(d, c, fields[1..], v).value;
    assert first + others + rest == first + (others + rest);
    SameReading(d, c, fuel, t, first + (others + rest));
    if Counted(d, t, x) {
      ReadsBack(d, c, fuel, t, x, others + rest);
      FieldsMisread(d, c, fuel, fields[1..], v, rest);
      DifferBehind(
        Member(fields[0].name, Canon(d, c, t, x)),
        ReadFields(d, c, fuel, fields[1..], others + rest), CanonFields(d, c, fields[1..], v));
    } else {
      Misread(d, c, fuel, t, x, others + rest);
      assert CanonFields(d, c, fields, v)[0] == Member(fields[0].name, Canon(d, c, t, x));
    }
  }

  lemma {:induction false} StructMisread(d: Defs, c: Codec, fuel: nat, t: string, v: Value, rest: Bytes)
    requires Good(d, c) && v.Object? && Resolved(d, t) in d.structs && !CountedStruct(d, t, v)
    requires Write(d, c, t, v).Some? && fuel >= NeedStruct(d, t, v)
    ensures Misses(ReadStruct(d, c, fuel, t, Write(d, c, t, v).value + rest), CanonMembers(d, c, t, v))
    decreases Size(v), 1 + Depth(d, t), 1
  {
    var r := Resolved(d, t);
    var st := d.structs[r];
    assert ArrayType(r) == r && r !in d.builtins;
    var own := WriteFields(d, c, st.fields, v).value;
    if st.base == "" {
      assert Write(d, c, t, v).value == own;
      FieldsMisread(d, c, fuel - 1, st.fields, v, rest);
      PlainStruct(d, c, fuel, t, own + rest);
    } else {
      ExtendedMisread(d, c, fuel, t, v, rest);
    }
  }

  lemma {:induction false} PlainStruct(d: Defs, c: Codec, fuel: nat, t: string, s: Bytes)
    requires AllEnd(d.typedefs) && Resolved(d, t) in d.structs && d.structs[Resolved(d, t)].base == "" && fuel > 0
    ensures ReadStruct(d, c, fuel, t, s) == ReadFields(d, c, fuel - 1, d.structs[Resolved(d, t)].fields, s)
  {
    var r := ReadFields(d, c, fuel - 1, d.structs[Resolved(d, t)].fields, s);
    if r.Some? {
      assert [] + r.value.0 == r.value.0;
    }
  }

  lemma {:induction false} ExtendedMisread(d: Defs, c: Codec, fuel: nat, t: string, v: Value, rest: Bytes)
    requires Good(d, c) && v.Object? && Resolved(d, t) in d.structs && !CountedStruct(d, t, v)
    requires d.structs[Resolved(d, t)].base != "" && Write(d, c, t, v).Some? && fuel >= NeedStruct(d, t, v)
    ensures Misses(ReadStruct(d, c, fuel, t, Write(d, c, t, v).value + rest), CanonMembers(d, c, t, v))
    decreases Size(v), 1 + Depth(d, t), 0
  {
    var r := Resolved(d, t);
    var st := d.structs[r];
    assert ArrayType(r) == r && r !in d.builtins;
    BaseDepth(d, t);
    var b := Resolved(d, st.base);
    assert r in Bases(d) && Bases(d)[r] == b;
    var above, own := Write(d, c, b, v).value, WriteFields(d, c, st.fields, v).value;
    assert Write(d, c, t, v).value == above + own;
    assert above + own + rest == above + (own + rest);
    if CountedStruct(d, b, v) {
      StructReadsBack(d, c, fuel - 1, b, v, own + rest);
      FieldsMisread(d, c, fuel - 1, st.fields, v, rest);
      DifferAfter(
        CanonMembers(d, c, b, v), ReadFields(d, c, fuel - 1, st.fields, own + rest), CanonFields(d, c, st.fields, v));
    } else {
      StructMisread(d, c, fuel - 1, b, v, own + rest);
      var base := ReadStruct(d, c, fuel - 1, b, above + (own + rest));
      if base.Some? {
        MemberCount(d, c, fuel - 1, b, above + (own + rest));
        CanonMemberCount(d, c, b, v);
        DifferBefore(base.value.0, CanonMembers(d, c, b, v));
      }
    }
  }

  lemma {:induction false} DifferAfter<T>(front: seq<T>, r: Option<(seq<T>, Bytes)>, canon: seq<T>)
    requires Misses(r, canon)
    ensures r.Some? ==> front + r.value.0 != front + canon
  {
    if r.Some? {
      assert (front + r.value.0)[|front|..] == r.value.0 && (front + canon)[|front|..] == canon;
    }
  }

  lemma {:induction false} DifferBefore<T>(a: seq<T>, b: seq<T>)
    requires |a| == |b| && a != b
    ensures forall x: seq<T>, y: seq<T> :: a + x != b + y
  {
    forall x: seq<T>, y: seq<T> ensures a + x != b + y {
      assert (a + x)[..|a|] == a && (b + y)[..|b|] == b;
    }
  }

  /** Reading gives back what was written, exactly if no list that is written is too long. */
  lemma {:induction false} RoundTripExactly(d: Defs, c: Codec, t: string, v: Value)
    requires Good(d, c) && Write(d, c, t, v).Some?
    ensures (exists deep: nat :: ReadsBackFrom(d, c, t, v, deep)) <==> Counted(d, t, v)
  {
    if Counted(d, t, v) {
      RoundTrip(d, c, t, v);
    } else {
      forall deep: nat ensures !ReadsBackFrom(d, c, t, v, deep) {
        var fuel := deep + Need(d, t, v);
        Misread(d, c, fuel, t, v, []);
      }
    }
  }
}
