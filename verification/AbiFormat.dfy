/**
 The bytes of the ABI serializer: what stands where.
 */
module AbiFormat {
  import opened Optional
  import opened Chains
  import opened AbiTypes
  import opened AbiCodec

  /** Groups of seven bits, lowest first. */
  function Groups(s: Bytes): nat {
    if s == [] then 0 else s[0] % 128 + 128 * Groups(s[1..])
  }

  /** A size is a number in groups of seven bits, lowest first; only the last is not marked, and it is not empty. */
  lemma {:induction false} SizeFormat(n: nat)
    ensures var s := PutSize(n);
            && s != [] && Groups(s) == n && s[|s| - 1] < 128 && (|s| > 1 ==> s[|s| - 1] > 0)
            && forall i :: 0 <= i < |s| - 1 ==> s[i] >= 128
    decreases n
  {
    if n >= 128 {
      SizeFormat(n / 128);
      assert PutSize(n)[1..] == PutSize(n / 128);
      assert n == n % 128 + 128 * (n / 128);
    }
  }

  lemma {:induction false} AppendAssociates(a: Option<Bytes>, b: Option<Bytes>, e: Option<Bytes>)
    ensures Append(Append(a, b), e) == Append(a, Append(b, e))
  {
    if a.Some? && b.Some? && e.Some? {
      assert a.value + b.value + e.value == a.value + (b.value + e.value);
    }
  }

  lemma {:induction false} AppendNone(a: Option<Bytes>)
    ensures Append(a, Some([])) == a && Append(Some([]), a) == a
  {
    if a.Some? {
      assert a.value + [] == a.value && [] + a.value == a.value;
    }
  }

  /** The items of a list stand in their order, without anything between them. */
  lemma {:induction false} ItemsInOrder(d: Defs, c: Codec, t: string, a: seq<Value>, b: seq<Value>)
    requires Sound(d)
    ensures WriteItems(d, c, t, a + b) == Append(WriteItems(d, c, t, a), WriteItems(d, c, t, b))
    ensures WriteItems(d, c, t, []) == Some([]) && (|a| == 1 ==> WriteItems(d, c, t, a) == Write(d, c, t, a[0]))
    decreases |a|
  {
    if a == [] {
      assert a + b == b;
      AppendNone(WriteItems(d, c, t, b));
    } else {
      assert (a + b)[1..] == a[1..] + b && (a + b)[0] == a[0];
      ItemsInOrder(d, c, t, a[1..], b);
      AppendAssociates(Write(d, c, t, a[0]), WriteItems(d, c, t, a[1..]), WriteItems(d, c, t, b));
      AppendNone(Write(d, c, t, a[0]));
    }
  }

  /** So do the fields of a struct; each is the first member of its name, written under its type. */
  lemma {:induction false} FieldsInOrder(d: Defs, c: Codec, a: seq<Field>, b: seq<Field>, v: Value)
    requires Sound(d) && v.Object?
    ensures WriteFields(d, c, a + b, v) == Append(WriteFields(d, c, a, v), WriteFields(d, c, b, v))
    ensures WriteFields(d, c, [], v) == Some([])
    ensures |a| == 1 ==> WriteFields(d, c, a, v) == FieldBytes(d, c, a[0], v)
    decreases |a|
  {
    if a == [] {
      assert a + b == b;
      AppendNone(WriteFields(d, c, b, v));
    } else {
      assert (a + b)[1..] == a[1..] + b && (a + b)[0] == a[0];
      FieldsInOrder(d, c, a[1..], b, v);
      FirstMember(v.members, a[0].name);
      var first := FieldBytes(d, c, a[0], v);
      AppendAssociates(first, WriteFields(d, c, a[1..], v), WriteFields(d, c, b, v));
      AppendNone(first);
    }
  }

  /** The position of the first member of a name. */
  ghost predicate IsFirst(members: seq<Member>, name: string, i: nat) {
    i < |members| && members[i].name == name && forall j :: 0 <= j < i ==> members[j].name != name
  }

  lemma {:induction false} FirstMember(members: seq<Member>, name: string)
    ensures Find(members, name).Some? <==> exists i: nat :: IsFirst(members, name, i)
    ensures forall i: nat :: IsFirst(members, name, i) ==> Find(members, name) == Some(members[i].value)
    decreases |members|
  {
    if members != [] {
      if members[0].name == name {
        assert IsFirst(members, name, 0);
      } else {
        FirstMember(members[1..], name);
        forall i: nat | IsFirst(members, name, i) ensures i > 0 && IsFirst(members[1..], name, i - 1) {
        }
        forall i: nat | IsFirst(members[1..], name, i) ensures IsFirst(members, name, i + 1) {
          assert members[1..][i] == members[i + 1];
          forall j | 0 <= j < i + 1 ensures members[j].name != name {
            assert j > 0 ==> members[j] == members[1..][j - 1];
          }
        }
      }
    }
  }

  ghost function FieldBytes(d: Defs, c: Codec, field: Field, v: Value): Option<Bytes>
    requires Sound(d) && v.Object?
  {
    if exists i: nat :: IsFirst(v.members, field.name, i) then
      var i: nat :| IsFirst(v.members, field.name, i);
      Write(d, c, field.typ, v.members[i].value)
    else None
  }

  /** A list is its size, cut down to 32 bits, and then its items; a struct is its base and then its own fields. */
  lemma {:induction false} Layout(d: Defs, c: Codec, t: string, v: Value)
    requires Sound(d) && ArrayType(Resolved(d, t)) !in d.builtins
    ensures var r := Resolved(d, t);
            && (IsArray(r) && v.List? ==>
                  Write(d, c, t, v) ==
                  Append(Some(PutSize(|v.items| % 0x1_0000_0000)), WriteItems(d, c, ArrayType(r), v.items)))
            && (!IsArray(r) && r in d.structs && v.Object? ==>
                  Write(d, c, t, v) ==
                  Append(if d.structs[r].base == "" then Some([]) else Write(d, c, d.structs[r].base, v),
                         WriteFields(d, c, d.structs[r].fields, v)))
            && ((IsArray(r) && !v.List?) || (!IsArray(r) && !(r in d.structs && v.Object?)) ==>
                  Write(d, c, t, v) == None)
  {
    var r := Resolved(d, t);
    if !IsArray(r) && r in d.structs && v.Object? {
      if d.structs[r].base == "" {
        AppendNone(WriteFields(d, c, d.structs[r].fields, v));
      } else {
        BaseDepth(d, t);
        ResolvedSame(d, c, d.structs[r].base, v);
      }
    }
  }

  lemma {:induction false} ResolvedSame(d: Defs, c: Codec, t: string, v: Value)
    requires Sound(d)
    ensures Write(d, c, Resolved(d, t), v) == Write(d, c, t, v)
  {
    assert Resolved(d, Resolved(d, t)) == Resolved(d, t);
  }
}
