/**
 The type names of an ABI: built-in types, typedefs, structs that may extend others, and
 arrays written with a trailing "[]".
 */
module AbiTypes {
  import opened Optional
  import opened Chains

  datatype Field = Field(name: string, typ: string)

  /** The base is the empty name if the struct extends none. */
  datatype Struct = Struct(name: string, base: string, fields: seq<Field>)

  datatype Defs = Defs(builtins: set<string>, typedefs: map<string, string>, structs: map<string, Struct>)

  predicate IsArray(t: string) {
    |t| >= 2 && t[|t| - 2..] == "[]"
  }

  function ArrayType(t: string): string {
    if IsArray(t) then t[..|t| - 2] else t
  }

  // ---------------------------------------------------------------------
  // Typedefs
  // ---------------------------------------------------------------------

  /** What a name stands for once its typedefs are followed to the end. */
  function Resolve(typedefs: map<string, string>, t: string): (r: string)
    requires Ends(typedefs, t)
    ensures r !in typedefs
    ensures t !in typedefs ==> r == t
    decreases Rank(typedefs, t)
  {
    if t in typedefs then
      RankStep(typedefs, t);
      Resolve(typedefs, typedefs[t])
    else t
  }

  /** Resolving twice is resolving once, and a typedef means what it is defined as. */
  lemma {:induction false} ResolveIdempotent(typedefs: map<string, string>, t: string)
    requires AllEnd(typedefs)
    ensures Ends(typedefs, t)
    ensures Ends(typedefs, Resolve(typedefs, t))
    ensures Resolve(typedefs, Resolve(typedefs, t)) == Resolve(typedefs, t)
    ensures t in typedefs ==> Ends(typedefs, typedefs[t]) && Resolve(typedefs, t) == Resolve(typedefs, typedefs[t])
  {
    assert Ends(typedefs, t);
    assert Ends(typedefs, Resolve(typedefs, t));
    if t in typedefs {
      assert Ends(typedefs, typedefs[t]);
    }
  }

  /** The first check of an ABI: no typedef leads back to a name seen on the way. */
  method CheckTypedef(typedefs: map<string, string>, first: string) returns (ok: bool)
    requires first in typedefs
    ensures ok == Ends(typedefs, first)
  {
    var second := typedefs[first];
    var seen := [first, second];
    ghost var trail := [first];
    while second in typedefs
      invariant seen == trail + [second] && seen[0] == first
      invariant Walk(typedefs, seen)
      invariant second in trail ==> second == first == typedefs[first]
      decreases |Ahead(typedefs, trail)|
    {
      var third := typedefs[second];
      if third in seen {
        WalkedInCircle(typedefs, trail, second);
        return false;
      }
      FewerAhead(typedefs, trail, second);
      WalkOn(typedefs, trail, second);
      trail := seen;
      seen := seen + [third];
      second := third;
    }
    WalkedToEnd(typedefs, trail, second);
    return true;
  }

  method CheckTypedefs(typedefs: map<string, string>) returns (ok: bool)
    ensures ok == AllEnd(typedefs)
  {
    var todo := typedefs.Keys;
    while todo != {}
      invariant todo <= typedefs.Keys
      invariant forall t :: t in typedefs && t !in todo ==> Ends(typedefs, t)
    {
      var t :| t in todo;
      ok := CheckTypedef(typedefs, t);
      if !ok {
        return;
      }
      todo := todo - {t};
    }
    forall t ensures Ends(typedefs, t) {
      assert t !in typedefs ==> EndsWithin(typedefs, t, 0);
    }
    ok := true;
  }

  // ---------------------------------------------------------------------
  // Inheritance
  // ---------------------------------------------------------------------

  /** From a struct to the struct it extends. */
  ghost function Bases(d: Defs): map<string, string>
    requires AllEnd(d.typedefs)
  {
    map s | s in d.structs && d.structs[s].base != "" ::
      assert Ends(d.typedefs, d.structs[s].base); Resolve(d.typedefs, d.structs[s].base)
  }

  /** Every base is a struct. */
  ghost predicate BasesKnown(d: Defs)
    requires AllEnd(d.typedefs)
  {
    forall s :: s in Bases(d) ==> Bases(d)[s] in d.structs
  }

  /** Structs are filed under their own names. */
  predicate Filed(d: Defs) {
    forall s :: s in d.structs ==> d.structs[s].name == s
  }

  method CheckBase(d: Defs, s: string) returns (ok: bool)
    requires AllEnd(d.typedefs) && Filed(d) && s in d.structs
    ensures ok ==> Ends(Bases(d), s) && (s in Bases(d) ==> Bases(d)[s] in d.structs)
    ensures Ends(Bases(d), s) && BasesKnown(d) ==> ok
  {
    ghost var bases := Bases(d);
    var current := d.structs[s];
    var seen := [current.name];
    ghost var trail: seq<string> := [];
    while current.base != ""
      invariant seen == trail + [current.name] && seen[0] == s
      invariant current.name in d.structs && d.structs[current.name] == current
      invariant Walk(bases, seen) && current.name !in trail
      invariant trail != [] ==> s in bases && bases[s] in d.structs
      decreases |Ahead(bases, trail)|
    {
      assert Ends(d.typedefs, current.base);
      var r := Resolve(d.typedefs, current.base);
      assert current.name in bases && bases[current.name] == r;
      if r !in d.structs {
        return false;
      }
      var base := d.structs[r];
      if base.name in seen {
        WalkedInCircle(bases, trail, current.name);
        return false;
      }
      FewerAhead(bases, trail, current.name);
      WalkOn(bases, trail, current.name);
      trail := seen;
      seen := seen + [base.name];
      current := base;
    }
    WalkedToEnd(bases, trail, current.name);
    return true;
  }

  /** The inheritance check passes exactly if every base is a struct and no struct extends itself. */
  method CheckBases(d: Defs) returns (ok: bool)
    requires AllEnd(d.typedefs) && Filed(d)
    ensures ok == (BasesKnown(d) && AllEnd(Bases(d)))
  {
    var todo := d.structs.Keys;
    while todo != {}
      invariant todo <= d.structs.Keys
      invariant forall s :: s in d.structs && s !in todo ==>
                              Ends(Bases(d), s) && (s in Bases(d) ==> Bases(d)[s] in d.structs)
    {
      var s :| s in todo;
      ok := CheckBase(d, s);
      if !ok {
        assert !(BasesKnown(d) && Ends(Bases(d), s));
        return;
      }
      todo := todo - {s};
    }
    forall t ensures Ends(Bases(d), t) {
      assert t !in Bases(d) ==> EndsWithin(Bases(d), t, 0);
    }
    ok := true;
  }
}
