/** The writer and the reader at work on a stream of bytes, field by field and item by item. */
module AbiStream {
  import opened Optional
  import opened Chains
  import opened AbiTypes
  import opened AbiCodec

  class Stream {
    var data: Bytes

    /** Appends a value. A failure leaves a partly written stream, which its caller drops. */
    method WriteValue(d: Defs, c: Codec, t: string, v: Value) returns (ok: bool)
      requires Sound(d)
      modifies this
      ensures ok == Write(d, c, t, v).Some?
      ensures ok ==> data == old(data) + Write(d, c, t, v).value
      decreases Size(v), 1 + Depth(d, t), 0
    {
      var r := Resolved(d, t);
      if ArrayType(r) in d.builtins {
        var packed := c.pack(ArrayType(r), IsArray(r), v);
        if packed.None? {
          return false;
        }
        data := data + packed.value;
        return true;
      }
      if IsArray(r) {
        if !v.List? {
          return false;
        }
        data := data + PutSize(|v.items| % UINT32);
        ok := WriteList(d, c, ArrayType(r), v.items);
        return;
      }
      if r !in d.structs || !v.Object? {
        return false;
      }
      var st := d.structs[r];
      if st.base != "" {
        BaseDepth(d, t);
        ok := WriteValue(d, c, Resolved(d, st.base), v);
        if !ok {
          return;
        }
      }
      ok := WriteMembers(d, c, st.fields, v);
    }

    method WriteList(d: Defs, c: Codec, t: string, items: seq<Value>) returns (ok: bool)
      requires Sound(d)
      modifies this
      ensures ok == WriteItems(d, c, t, items).Some?
      ensures ok ==> data == old(data) + WriteItems(d, c, t, items).value
      decreases SizeItems(items), 0, 0
    {
      ghost var start := data;
      ghost var done: Bytes := [];
      AppendNothing(WriteItems(d, c, t, items));
      assert items[0..] == items;
      for i := 0 to |items|
        invariant SizeItems(items[i..]) <= SizeItems(items)
        invariant data == start + done
        invariant WriteItems(d, c, t, items) == Append(Some(done), WriteItems(d, c, t, items[i..]))
      {
        assert items[i..][0] == items[i] && items[i..][1..] == items[i + 1..];
        ok := WriteValue(d, c, t, items[i]);
        if !ok {
          return;
        }
        AppendTwice(done, Write(d, c, t, items[i]).value, WriteItems(d, c, t, items[i + 1..]));
        done := done + Write(d, c, t, items[i]).value;
      }
      return true;
    }

    method WriteMembers(d: Defs, c: Codec, fields: seq<Field>, v: Value) returns (ok: bool)
      requires Sound(d) && v.Object?
      modifies this
      ensures ok == WriteFields(d, c, fields, v).Some?
      ensures ok ==> data == old(data) + WriteFields(d, c, fields, v).value
      decreases Size(v), 0, |fields|
    {
      ghost var start := data;
      ghost var done: Bytes := [];
      AppendNothing(WriteFields(d, c, fields, v));
      assert fields[0..] == fields;
      for i := 0 to |fields|
        invariant data == start + done
        invariant WriteFields(d, c, fields, v) == Append(Some(done), WriteFields(d, c, fields[i..], v))
      {
        assert fields[i..][0] == fields[i] && fields[i..][1..] == fields[i + 1..];
        var x := Find(v.members, fields[i].name);
        if x.None? {
          return false;
        }
        ok := WriteValue(d, c, fields[i].typ, x.value);
        if !ok {
          return;
        }
        AppendTwice(done, Write(d, c, fields[i].typ, x.value).value, WriteFields(d, c, fields[i + 1..], v));
        done := done + Write(d, c, fields[i].typ, x.value).value;
      }
      return true;
    }
  }

  lemma {:induction false} AppendNothing(x: Option<Bytes>)
    ensures Append(Some([]), x) == x
  {
    if x.Some? {
      assert [] + x.value == x.value;
    }
  }

  lemma {:induction false} AppendTwice(a: Bytes, b: Bytes, x: Option<Bytes>)
    ensures Append(Some(a), Append(Some(b), x)) == Append(Some(a + b), x)
  {
    if x.Some? {
      assert a + (b + x.value) == a + b + x.value;
    }
  }

  /** Members already read, in front of those still to come. */
  function Before<T>(done: seq<T>, x: Option<(seq<T>, Bytes)>): Option<(seq<T>, Bytes)> {
    match x
    case None => None
    case Some((more, rest)) => Some((done + more, rest))
  }

  lemma {:induction false} BeforeNothing<T>(x: Option<(seq<T>, Bytes)>)
    ensures Before([], x) == x
  {
    if x.Some? {
      assert [] + x.value.0 == x.value.0;
    }
  }

  lemma {:induction false} BeforeTwice<T>(done: seq<T>, next: T, x: Option<(seq<T>, Bytes)>)
    ensures Before(done, Before([next], x)) == Before(done + [next], x)
  {
    if x.Some? {
      assert done + ([next] + x.value.0) == done + [next] + x.value.0;
    }
  }

  class Source {
    var rest: Bytes

    /** Takes a value from the front. */
    method ReadValue(d: Defs, c: Codec, fuel: nat, t: string) returns (value: Option<Value>)
      requires AllEnd(d.typedefs)
      modifies this
      ensures value.Some? == Read(d, c, fuel, t, old(rest)).Some?
      ensures value.Some? ==> Read(d, c, fuel, t, old(rest)) == Some((value.value, rest))
      decreases fuel, 1, 0
    {
      if fuel == 0 {
        return None;
      }
      var r := Resolved(d, t);
      if ArrayType(r) in d.builtins {
        var unpacked := c.unpack(ArrayType(r), IsArray(r), rest);
        if unpacked.None? {
          return None;
        }
        rest := unpacked.value.1;
        return Some(unpacked.value.0);
      }
      if IsArray(r) {
        var size := GetSize(rest, 1, 0);
        if size.None? {
          return None;
        }
        rest := size.value.1;
        var items := ReadList(d, c, fuel - 1, ArrayType(r), size.value.0);
        return if items.Some? then Some(List(items.value)) else None;
      }
      BeforeNothing(ReadStruct(d, c, fuel - 1, r, rest));
      var members := ReadObject(d, c, fuel - 1, r, []);
      return if members.Some? then Some(Object(members.value)) else None;
    }

    method ReadList(d: Defs, c: Codec, fuel: nat, t: string, n: nat) returns (items: Option<seq<Value>>)
      requires AllEnd(d.typedefs)
      modifies this
      ensures items.Some? == ReadItems(d, c, fuel, t, n, old(rest)).Some?
      ensures items.Some? ==> ReadItems(d, c, fuel, t, n, old(rest)) == Some((items.value, rest))
      decreases fuel, 2, n
    {
      ghost var start := rest;
      var done: seq<Value> := [];
      BeforeNothing(ReadItems(d, c, fuel, t, n, start));
      for i := 0 to n
        invariant ReadItems(d, c, fuel, t, n, start) == Before(done, ReadItems(d, c, fuel, t, n - i, rest))
      {
        var x := ReadValue(d, c, fuel, t);
        if x.None? {
          return None;
        }
        BeforeTwice(done, x.value, ReadItems(d, c, fuel, t, n - i - 1, rest));
        done := done + [x.value];
      }
      assert done + [] == done;
      return Some(done);
    }

    /** Takes the members of a struct from the front and puts them after those already there. */
    method ReadObject(
      d: Defs, c: Codec, fuel: nat, t: string, before: seq<Member>) returns (members: Option<seq<Member>>)
      requires AllEnd(d.typedefs)
      modifies this
      ensures members.Some? == ReadStruct(d, c, fuel, t, old(rest)).Some?
      ensures members.Some? ==> Before(before, ReadStruct(d, c, fuel, t, old(rest))) == Some((members.value, rest))
      decreases fuel, 3, 0
    {
      var r := Resolved(d, t);
      if fuel == 0 || r !in d.structs {
        return None;
      }
      var st := d.structs[r];
      ghost var above: Option<(seq<Member>, Bytes)> := Some(([], rest));
      var done := Some(before);
      if st.base != "" {
        above := ReadStruct(d, c, fuel - 1, Resolved(d, st.base), rest);
        done := ReadObject(d, c, fuel - 1, Resolved(d, st.base), before);
        if done.None? {
          return None;
        }
      }
      assert done.value == before + above.value.0;
      ghost var own := ReadFields(d, c, fuel - 1, st.fields, rest);
      members := ReadMembers(d, c, fuel - 1, st.fields, done.value);
      if members.Some? {
        assert before + above.value.0 + own.value.0 == before + (above.value.0 + own.value.0);
      }
    }

    method ReadMembers(d: Defs, c: Codec, fuel: nat, fields: seq<Field>, before: seq<Member>)
      returns (members: Option<seq<Member>>)
      requires AllEnd(d.typedefs)
      modifies this
      ensures members.Some? == ReadFields(d, c, fuel, fields, old(rest)).Some?
      ensures members.Some? ==> Before(before, ReadFields(d, c, fuel, fields, old(rest))) == Some((members.value, rest))
      decreases fuel, 2, |fields|
    {
      ghost var all := Before(before, ReadFields(d, c, fuel, fields, rest));
      var done := before;
      assert fields[0..] == fields;
      for i := 0 to |fields|
        invariant all == Before(done, ReadFields(d, c, fuel, fields[i..], rest))
      {
        assert fields[i..][0] == fields[i] && fields[i..][1..] == fields[i + 1..];
        var x := ReadValue(d, c, fuel, Resolved(d, fields[i].typ));
        if x.None? {
          return None;
        }
        var member := Member(fields[i].name, x.value);
        BeforeTwice(done, member, ReadFields(d, c, fuel, fields[i + 1..], rest));
        done := done + [member];
      }
      assert done + [] == done;
      return Some(done);
    }
  }
}
