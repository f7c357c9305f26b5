/**
 Values to bytes and back, driven by the type names of an ABI.

 The writer follows the value, the reader follows the bytes. What the reader returns for
 what the writer wrote is the value in the shape its type gives it: fields of the base
 first, then the struct's own, and nothing that is not a field.
 */
module AbiCodec {
  import opened Optional
  import opened Chains
  import opened AbiTypes

  type Byte = b: nat | b < 256
  type Bytes = seq<Byte>

  /** A scalar is kept as it is; objects list their members in order. */
  datatype Value = Scalar(text: string) | List(items: seq<Value>) | Object(members: seq<Member>)
  datatype Member = Member(name: string, value: Value)

  /** The packing functions of the built-in types, for one value or for an array of them. */
  datatype Codec = Codec(
    pack: (string, bool, Value) -> Option<Bytes>,
    unpack: (string, bool, Bytes) -> Option<(Value, Bytes)>,
    canon: (string, bool, Value) -> Value)

  /** Unpacking a packed built-in value gives it back, in canonical form, and leaves what follows. */
  ghost predicate RoundTrips(c: Codec) {
    forall t: string, many: bool, v: Value, rest: Bytes {:trigger PackThenRest(c, t, many, v, rest)} ::
      c.pack(t, many, v).Some? ==>
        c.unpack(t, many, PackThenRest(c, t, many, v, rest)) == Some((c.canon(t, many, v), rest))
  }

  function PackThenRest(c: Codec, t: string, many: bool, v: Value, rest: Bytes): Bytes {
    match c.pack(t, many, v)
    case Some(bytes) => bytes + rest
    case None => rest
  }

  // ---------------------------------------------------------------------
  // Array sizes
  // ---------------------------------------------------------------------

  const UINT32 := 0x1_0000_0000

  /** Groups of seven bits, lowest first, all but the last marked. */
  function PutSize(n: nat): Bytes {
    if n < 128 then [n] else [n % 128 + 128] + PutSize(n / 128)
  }

  function GetSize(s: Bytes, place: nat, sum: nat): Option<(nat, Bytes)>
    decreases |s|
  {
    if s == [] || place > 0x1000_0000 then None
    else
      var next := sum + (s[0] % 128 * place) % UINT32;
      if s[0] >= 128 then GetSize(s[1..], place * 128, next) else Some((next % UINT32, s[1..]))
  }

  /** Where a group of bits can start. */
  predicate IsPlace(place: nat) {
    place == 1 || place == 0x80 || place == 0x4000 || place == 0x20_0000 || place == 0x1000_0000
  }

  lemma {:induction false} SizeRoundTrip(n: nat, place: nat, sum: nat, rest: Bytes)
    requires IsPlace(place) && sum + n * place < UINT32
    ensures GetSize(PutSize(n) + rest, place, sum) == Some((sum + n * place, rest))
    decreases n
  {
    if n < 128 {
      LastGroup(n, place, sum, rest);
    } else {
      SplitSize(n, place);
      SizeRoundTrip(n / 128, place * 128, sum + n % 128 * place, rest);
      assert PutSize(n) + rest == [n % 128 + 128] + (PutSize(n / 128) + rest);
      OneGroup(n % 128, place, sum, PutSize(n / 128) + rest);
    }
  }

  lemma {:induction false} LastGroup(b: nat, place: nat, sum: nat, rest: Bytes)
    requires b < 128 && IsPlace(place) && sum + b * place < UINT32
    ensures GetSize([b] + rest, place, sum) == Some((sum + b * place, rest))
  {
    SmallMod(b * place);
    SmallMod(sum + b * place);
    assert ([b] + rest)[1..] == rest;
  }

  lemma {:induction false} OneGroup(b: nat, place: nat, sum: nat, rest: Bytes)
    requires b < 128 && IsPlace(place) && b * place < UINT32
    ensures GetSize([b + 128] + rest, place, sum) == GetSize(rest, place * 128, sum + b * place)
  {
    SmallMod(b * place);
    assert ([b + 128] + rest)[1..] == rest;
  }

  lemma {:induction false} SmallMod(n: nat)
    requires n < UINT32
    ensures n % UINT32 == n
  {
  }

  lemma {:induction false} SplitSize(n: nat, place: nat)
    requires n >= 128 && IsPlace(place) && n * place < UINT32
    ensures n * place == n % 128 * place + n / 128 * (place * 128)
    ensures IsPlace(place * 128) && n % 128 * place < UINT32
  {
    assert n == n % 128 + n / 128 * 128;
    assert n * place == (n % 128 + n / 128 * 128) * place;
    assert 128 * place <= n * place;
  }

  // ---------------------------------------------------------------------
  // Writing
  // ---------------------------------------------------------------------

  function Size(v: Value): nat {
    match v
    case Scalar(_) => 0
    case List(items) => 1 + SizeItems(items)
    case Object(members) => 1 + SizeMembers(members)
  }

  function SizeItems(items: seq<Value>): nat {
    if items == [] then 0 else 1 + Size(items[0]) + SizeItems(items[1..])
  }

  function SizeMembers(members: seq<Member>): nat {
    if members == [] then 0 else 1 + Size(members[0].value) + SizeMembers(members[1..])
  }

  /** The first member of that name. */
  function Find(members: seq<Member>, name: string): (r: Option<Value>)
    ensures r.Some? ==> Size(r.value) < SizeMembers(members)
  {
    if members == [] then None
    else if members[0].name == name then Some(members[0].value)
    else Find(members[1..], name)
  }

  /** Typedefs and inheritance come to an end: what a validated ABI guarantees. */
  ghost predicate Sound(d: Defs) {
    AllEnd(d.typedefs) && AllEnd(Bases(d))
  }

  function Resolved(d: Defs, t: string): (r: string)
    requires AllEnd(d.typedefs)
    ensures r !in d.typedefs && (t !in d.typedefs ==> r == t)
  {
    assert Ends(d.typedefs, t);
    Resolve(d.typedefs, t)
  }

  ghost function Depth(d: Defs, t: string): nat
    requires Sound(d)
  {
    assert Ends(Bases(d), Resolved(d, t));
    Rank(Bases(d), Resolved(d, t))
  }

  /** A base is less deep than what extends it. */
  lemma {:induction false} BaseDepth(d: Defs, t: string)
    requires Sound(d) && Resolved(d, t) in d.structs && d.structs[Resolved(d, t)].base != ""
    ensures Depth(d, Resolved(d, d.structs[Resolved(d, t)].base)) < Depth(d, t)
  {
    var r := Resolved(d, t);
    assert Ends(Bases(d), r);
    RankStep(Bases(d), r);
  }

  function Append(a: Option<Bytes>, b: Option<Bytes>): Option<Bytes> {
    if a.Some? && b.Some? then Some(a.value + b.value) else None
  }

  function Write(d: Defs, c: Codec, t: string, v: Value): Option<Bytes>
    requires Sound(d)
    decreases Size(v), 1 + Depth(d, t), 0
  {
    var r := Resolved(d, t);
    if ArrayType(r) in d.builtins then c.pack(ArrayType(r), IsArray(r), v)
    else if IsArray(r) then
      if v.List? then Append(Some(PutSize(|v.items| % UINT32)), WriteItems(d, c, ArrayType(r), v.items)) else None
    else if r in d.structs && v.Object? then
      var st := d.structs[r];
      if st.base == "" then WriteFields(d, c, st.fields, v)
      else
        BaseDepth(d, t);
        Append(Write(d, c, Resolved(d, st.base), v), WriteFields(d, c, st.fields, v))
    else None
  }

  function WriteItems(d: Defs, c: Codec, t: string, items: seq<Value>): Option<Bytes>
    requires Sound(d)
    decreases SizeItems(items), 0, 0
  {
    if items == [] then Some([])
    else Append(Write(d, c, t, items[0]), WriteItems(d, c, t, items[1..]))
  }

  function WriteFields(d: Defs, c: Codec, fields: seq<Field>, v: Value): Option<Bytes>
    requires Sound(d) && v.Object?
    decreases Size(v), 0, |fields|
  {
    if fields == [] then Some([])
    else
      match Find(v.members, fields[0].name)
      case None => None
      case Some(x) => Append(Write(d, c, fields[0].typ, x), WriteFields(d, c, fields[1..], v))
  }

  // ---------------------------------------------------------------------
  // Reading
  // ---------------------------------------------------------------------

  /**
   The reader. A type may contain itself, and then bytes alone do not bound the reading: `fuel`
   bounds the nesting, and running out of it stands for a reading that goes on.
   */
  function Read(d: Defs, c: Codec, fuel: nat, t: string, s: Bytes): Option<(Value, Bytes)>
    requires AllEnd(d.typedefs)
    decreases fuel, 1, 0
  {
    if fuel == 0 then None
    else
      var r := Resolved(d, t);
      if ArrayType(r) in d.builtins then c.unpack(ArrayType(r), IsArray(r), s)
      else if IsArray(r) then
        match GetSize(s, 1, 0)
        case None => None
        case Some((n, more)) =>
          match ReadItems(d, c, fuel - 1, ArrayType(r), n, more)
          case None => None
          case Some((items, rest)) => Some((List(items), rest))
      else
        match ReadStruct(d, c, fuel - 1, r, s)
        case None => None
        case Some((members, rest)) => Some((Object(members), rest))
  }

  function ReadItems(d: Defs, c: Codec, fuel: nat, t: string, n: nat, s: Bytes): Option<(seq<Value>, Bytes)>
    requires AllEnd(d.typedefs)
    decreases fuel, 2, n
  {
    if n == 0 then Some(([], s))
    else
      match Read(d, c, fuel, t, s)
      case None => None
      case Some((item, more)) =>
        match ReadItems(d, c, fuel, t, n - 1, more)
        case None => None
        case Some((items, rest)) => Some(([item] + items, rest))
  }

  function ReadStruct(d: Defs, c: Codec, fuel: nat, t: string, s: Bytes): Option<(seq<Member>, Bytes)>
    requires AllEnd(d.typedefs)
    decreases fuel, 3, 0
  {
    var r := Resolved(d, t);
    if fuel == 0 || r !in d.structs then None
    else
      var st := d.structs[r];
      var above: Option<(seq<Member>, Bytes)> :=
        if st.base == "" then Some(([], s)) else ReadStruct(d, c, fuel - 1, Resolved(d, st.base), s);
      match above
      case None => None
      case Some((members, more)) =>
        match ReadFields(d, c, fuel - 1, st.fields, more)
        case None => None
        case Some((own, rest)) => Some((members + own, rest))
  }

  function ReadFields(d: Defs, c: Codec, fuel: nat, fields: seq<Field>, s: Bytes): Option<(seq<Member>, Bytes)>
    requires AllEnd(d.typedefs)
    decreases fuel, 2, |fields|
  {
    if fields == [] then Some(([], s))
    else
      match Read(d, c, fuel, Resolved(d, fields[0].typ), s)
      case None => None
      case Some((x, more)) =>
        match ReadFields(d, c, fuel, fields[1..], more)
        case None => None
        case Some((members, rest)) => Some(([Member(fields[0].name, x)] + members, rest))
  }

  // ---------------------------------------------------------------------
  // The canonical value
  // ---------------------------------------------------------------------

  /** A value in the shape its type gives it. */
  function Canon(d: Defs, c: Codec, t: string, v: Value): Value
    requires Sound(d)
    decreases Size(v), 2 + Depth(d, t), 0
  {
    var r := Resolved(d, t);
    if ArrayType(r) in d.builtins then c.canon(ArrayType(r), IsArray(r), v)
    else if IsArray(r) && v.List? then List(CanonItems(d, c, ArrayType(r), v.items))
    else if r in d.structs && v.Object? then Object(CanonMembers(d, c, r, v))
    else v
  }

  function CanonItems(d: Defs, c: Codec, t: string, items: seq<Value>): seq<Value>
    requires Sound(d)
    decreases SizeItems(items), 0, 0
  {
    if items == [] then [] else [Canon(d, c, t, items[0])] + CanonItems(d, c, t, items[1..])
  }

  /** The members that a struct has: those of its base, then its own fields. */
  function CanonMembers(d: Defs, c: Codec, t: string, v: Value): seq<Member>
    requires Sound(d) && v.Object?
    decreases Size(v), 1 + Depth(d, t), 0
  {
    var r := Resolved(d, t);
    if r !in d.structs then []
    else
      var st := d.structs[r];
      if st.base == "" then CanonFields(d, c, st.fields, v)
      else
        BaseDepth(d, t);
        CanonMembers(d, c, Resolved(d, st.base), v) + CanonFields(d, c, st.fields, v)
  }

  function CanonFields(d: Defs, c: Codec, fields: seq<Field>, v: Value): seq<Member>
    requires Sound(d) && v.Object?
    decreases Size(v), 0, |fields|
  {
    if fields == [] then []
    else
      var rest := CanonFields(d, c, fields[1..], v);
      match Find(v.members, fields[0].name)
      case None => rest
      case Some(x) => [Member(fields[0].name, Canon(d, c, fields[0].typ, x))] + rest
  }
}
