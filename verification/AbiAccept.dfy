/**
 Which type names an ABI knows, and what its acceptance guarantees.

 The question whether a name is a type strips one "[]" and follows typedefs. It is asked of
 every typedef while the typedefs before it are in place.
 */
module AbiAccept {
  import opened Optional
  import opened Chains
  import opened AbiTypes

  /** Whether `t` is a type, following at most `n` typedefs; None if that is not enough. */
  function IsTypeWithin(d: Defs, t: string, n: nat): Option<bool>
    decreases n
  {
    var base := ArrayType(t);
    if base in d.builtins then Some(true)
    else if base in d.typedefs then if n == 0 then None else IsTypeWithin(d, d.typedefs[base], n - 1)
    else Some(base in d.structs)
  }

  /** The question has the answer yes. */
  ghost predicate IsType(d: Defs, t: string) {
    exists n: nat :: IsTypeWithin(d, t, n) == Some(true)
  }

  ghost predicate HasAnswer(d: Defs, t: string) {
    exists n: nat :: IsTypeWithin(d, t, n).Some?
  }

  /** The chain the question follows. */
  function Stripped(d: Defs): map<string, string> {
    map a | a in d.typedefs && a !in d.builtins :: ArrayType(d.typedefs[a])
  }

  lemma {:induction false} AnswerWithin(d: Defs, t: string, n: nat)
    ensures IsTypeWithin(d, t, n).Some? <==> EndsWithin(Stripped(d), ArrayType(t), n)
    decreases n
  {
    var base := ArrayType(t);
    if base in Stripped(d) && n > 0 {
      AnswerWithin(d, d.typedefs[base], n - 1);
    }
  }

  /** The question is answered exactly if the chain it follows ends. */
  lemma {:induction false} AnswerIffEnds(d: Defs, t: string)
    ensures HasAnswer(d, t) <==> Ends(Stripped(d), ArrayType(t))
  {
    if HasAnswer(d, t) {
      var n: nat :| IsTypeWithin(d, t, n).Some?;
      AnswerWithin(d, t, n);
    }
    if Ends(Stripped(d), ArrayType(t)) {
      var n: nat :| EndsWithin(Stripped(d), ArrayType(t), n);
      AnswerWithin(d, t, n);
    }
  }

  /** The answer is yes exactly if the chain ends in a built-in type or a struct. */
  lemma {:induction false} YesExactly(d: Defs, t: string)
    ensures IsType(d, t) <==>
            exists e :: LeadsTo(Stripped(d), ArrayType(t), e) &&
                        (e in d.builtins || (e in d.structs && e !in d.typedefs))
  {
    if IsType(d, t) {
      var n: nat :| IsTypeWithin(d, t, n) == Some(true);
      var e := YesLeads(d, t, n);
    }
    if e :| LeadsTo(Stripped(d), ArrayType(t), e) && (e in d.builtins || (e in d.structs && e !in d.typedefs)) {
      var n: nat :| EndsAt(Stripped(d), ArrayType(t), n, e);
      LeadsYes(d, t, n, e);
    }
  }

  lemma {:induction false} YesLeads(d: Defs, t: string, n: nat) returns (e: string)
    requires IsTypeWithin(d, t, n) == Some(true)
    ensures EndsAt(Stripped(d), ArrayType(t), n, e) && (e in d.builtins || (e in d.structs && e !in d.typedefs))
    decreases n
  {
    e := ArrayType(t);
    if e in Stripped(d) {
      e := YesLeads(d, d.typedefs[e], n - 1);
    }
  }

  lemma {:induction false} LeadsYes(d: Defs, t: string, n: nat, e: string)
    requires EndsAt(Stripped(d), ArrayType(t), n, e) && (e in d.builtins || (e in d.structs && e !in d.typedefs))
    ensures IsTypeWithin(d, t, n) == Some(true)
    decreases n
  {
    var a := ArrayType(t);
    if a in Stripped(d) {
      LeadsYes(d, d.typedefs[a], n - 1, e);
    }
  }

  // ---------------------------------------------------------------------
  // Typedefs accepted one after the other
  // ---------------------------------------------------------------------

  datatype Typedef = Typedef(name: string, typ: string)

  function Installed(types: seq<Typedef>): map<string, string> {
    if types == [] then map[]
    else Installed(types[..|types| - 1])[types[|types| - 1].name := types[|types| - 1].typ]
  }

  /** Every typedef names a type at its turn, and no name is defined twice. */
  ghost predicate Accepted(builtins: set<string>, structs: map<string, Struct>, types: seq<Typedef>) {
    types == [] ||
    var last, before := types[|types| - 1], types[..|types| - 1];
    && Accepted(builtins, structs, before)
    && last.name !in Installed(before)
    && IsType(Defs(builtins, Installed(before), structs), last.typ)
  }

  /** A typedef introduces a name of its own: not that of a built-in type, a struct or an array. */
  predicate OwnNames(builtins: set<string>, structs: map<string, Struct>, types: seq<Typedef>) {
    forall i :: 0 <= i < |types| ==> types[i].name !in builtins && types[i].name !in structs && !IsArray(types[i].name)
  }

  /** A new name changes no answer that was yes. */
  lemma {:induction false} StillType(d: Defs, name: string, typ: string, t: string, n: nat)
    requires name !in d.typedefs && name !in d.structs && IsTypeWithin(d, t, n) == Some(true)
    ensures IsTypeWithin(d.(typedefs := d.typedefs[name := typ]), t, n) == Some(true)
    decreases n
  {
    var base := ArrayType(t);
    if base !in d.builtins && base in d.typedefs {
      StillType(d, name, typ, d.typedefs[base], n - 1);
    }
  }

  /** With names of their own, accepted typedefs all stand for types. */
  lemma {:induction false} AcceptedAreTypes(
    builtins: set<string>, structs: map<string, Struct>, types: seq<Typedef>, a: string)
    requires Accepted(builtins, structs, types) && OwnNames(builtins, structs, types) && a in Installed(types)
    ensures IsType(Defs(builtins, Installed(types), structs), Installed(types)[a])
    ensures a !in builtins && a !in structs && !IsArray(a)
    decreases |types|
  {
    var last, before := types[|types| - 1], types[..|types| - 1];
    var d := Defs(builtins, Installed(before), structs);
    var t := Installed(types)[a];
    assert OwnNames(builtins, structs, before);
    if a != last.name {
      AcceptedAreTypes(builtins, structs, before, a);
    }
    var n: nat :| IsTypeWithin(d, t, n) == Some(true);
    StillType(d, last.name, last.typ, t, n);
    assert d.(typedefs := d.typedefs[last.name := last.typ]) == Defs(builtins, Installed(types), structs);
  }

  /** Following typedefs alone ends wherever following them and stripping does. */
  lemma {:induction false} EndsWithoutStripping(d: Defs, t: string, n: nat)
    requires forall a :: a in d.typedefs ==> a !in d.builtins && !IsArray(a)
    requires EndsWithin(Stripped(d), ArrayType(t), n)
    ensures EndsWithin(d.typedefs, t, n)
    decreases n
  {
    if t in d.typedefs {
      EndsWithoutStripping(d, d.typedefs[t], n - 1);
    }
  }

  // ---------------------------------------------------------------------
  // When every question is answered
  // ---------------------------------------------------------------------

  /**
   No typedef's chain, at the turn of the typedef, ends in the name it introduces. Names of built-in
   types are never followed.
   */
  ghost predicate NoneReturns(builtins: set<string>, structs: map<string, Struct>, types: seq<Typedef>) {
    types == [] ||
    var last, before := types[|types| - 1], types[..|types| - 1];
    && NoneReturns(builtins, structs, before)
    && (last.name !in builtins ==>
          !LeadsTo(Stripped(Defs(builtins, Installed(before), structs)), ArrayType(last.typ), last.name))
  }

  /** Of accepted typedefs, every question is answered exactly if none returns to its own name. */
  lemma {:induction false} AnsweredExactly(
    builtins: set<string>, structs: map<string, Struct>, types: seq<Typedef>)
    requires Accepted(builtins, structs, types)
    ensures (forall t :: HasAnswer(Defs(builtins, Installed(types), structs), t)) <==>
            NoneReturns(builtins, structs, types)
  {
    AllAnswered(Defs(builtins, Installed(types), structs));
    StrippedEnd(builtins, structs, types);
  }

  lemma {:induction false} AllAnswered(d: Defs)
    ensures (forall t :: HasAnswer(d, t)) <==> AllEnd(Stripped(d))
  {
    forall t ensures HasAnswer(d, t) <==> Ends(Stripped(d), ArrayType(t)) {
      AnswerIffEnds(d, t);
    }
    if forall t :: HasAnswer(d, t) {
      forall a ensures Ends(Stripped(d), a) {
        assert ArrayType(a + "[]") == a;
        assert HasAnswer(d, a + "[]");
      }
    }
  }

  lemma {:induction false} StrippedEnd(builtins: set<string>, structs: map<string, Struct>, types: seq<Typedef>)
    requires Accepted(builtins, structs, types)
    ensures AllEnd(Stripped(Defs(builtins, Installed(types), structs))) <==> NoneReturns(builtins, structs, types)
    decreases |types|
  {
    var next := Stripped(Defs(builtins, Installed(types), structs));
    if types == [] {
      forall t ensures Ends(next, t) {
        assert EndsWithin(next, t, 0);
      }
    } else {
      var last, before := types[|types| - 1], types[..|types| - 1];
      var was := Stripped(Defs(builtins, Installed(before), structs));
      StrippedEnd(builtins, structs, before);
      assert next == if last.name in builtins then was else was[last.name := ArrayType(last.typ)];
      if AllEnd(next) {
        NotAllEndStays(was, next);
      }
      if AllEnd(was) && last.name !in builtins {
        OneKeyMore(was, last.name, ArrayType(last.typ));
      }
    }
  }

  /** With names of their own, acceptance alone makes every chain of typedefs end and every question answered. */
  lemma {:induction false} AcceptedEnds(builtins: set<string>, structs: map<string, Struct>, types: seq<Typedef>)
    requires Accepted(builtins, structs, types) && OwnNames(builtins, structs, types)
    ensures AllEnd(Installed(types))
    ensures forall t :: HasAnswer(Defs(builtins, Installed(types), structs), t)
  {
    var d := Defs(builtins, Installed(types), structs);
    forall a | a in d.typedefs ensures a !in d.builtins && !IsArray(a) {
      AcceptedAreTypes(builtins, structs, types, a);
    }
    forall t ensures Ends(d.typedefs, t) && HasAnswer(d, t) {
      AnyEnds(builtins, structs, types, t);
      AnswerIffEnds(d, t);
      var n: nat :| EndsWithin(Stripped(d), ArrayType(t), n);
      EndsWithoutStripping(d, t, n);
    }
  }

  lemma {:induction false} AnyEnds(builtins: set<string>, structs: map<string, Struct>, types: seq<Typedef>, t: string)
    requires Accepted(builtins, structs, types) && OwnNames(builtins, structs, types)
    ensures Ends(Stripped(Defs(builtins, Installed(types), structs)), ArrayType(t))
  {
    var d := Defs(builtins, Installed(types), structs);
    var a := ArrayType(t);
    if a in d.typedefs {
      AcceptedAreTypes(builtins, structs, types, a);
      AnswerIffEnds(d, d.typedefs[a]);
      EndsNext(Stripped(d), a);
    } else {
      assert EndsWithin(Stripped(d), a, 0);
    }
  }

  /**
   Without names of their own it does not: a typedef that turns the struct "a" into an array of
   itself is accepted and passes the check for circles, but whether "a" is a type is never answered.
   */
  lemma {:induction false} NeverAnswered()
    ensures var types := [Typedef("a", "a[]")];
            var structs := map["a" := Struct("a", "", [])];
            && Accepted({}, structs, types) && AllEnd(Installed(types))
            && !HasAnswer(Defs({}, Installed(types), structs), "a")
  {
    var types := [Typedef("a", "a[]")];
    var structs := map["a" := Struct("a", "", [])];
    assert ArrayType("a[]") == "a" && ArrayType("a") == "a";
    assert types[..0] == [];
    var next := Installed(types);
    assert next == map["a" := "a[]"];
    assert IsTypeWithin(Defs({}, map[], structs), "a[]", 0) == Some(true);
    forall t ensures Ends(next, t) {
      assert EndsWithin(next, "a[]", 0);
      assert EndsWithin(next, t, 1);
    }
    forall n: nat ensures IsTypeWithin(Defs({}, next, structs), "a", n).None? {
      NotWithin(Defs({}, next, structs), "a", n);
    }
  }

  lemma {:induction false} NotWithin(d: Defs, t: string, n: nat)
    requires d.builtins == {} && d.typedefs == map["a" := "a[]"] && (t == "a" || t == "a[]")
    ensures IsTypeWithin(d, t, n).None?
    decreases n
  {
    assert ArrayType("a[]") == "a" && ArrayType("a") == "a";
    if n > 0 {
      NotWithin(d, "a[]", n - 1);
    }
  }
}
