/** The functions of a virtual table: which slot each one has, and who overrides whom along a primary chain. */
module VtableSlots {
  import opened Wrappers

  /** `ABI_Method_Element`: `owner` is the class that declares the method. */
  datatype Method = Method(owner: string, name: string, arguments: seq<string>, mangled: string)

  /** `ABI_Inheritance_Struct` without virtual inheritance: `methods` are the virtual ones, `bases` come in order. */
  datatype Class = Class(name: string, methods: seq<Method>, bases: seq<Class>)

  /** `operator ==` on methods. */
  predicate Same(m: Method, n: Method) { m.name == n.name && m.arguments == n.arguments }

  /** `find`: the first method with the signature of `m`, or the end of the list. */
  function Find(fs: seq<Method>, m: Method): (i: nat)
    ensures i <= |fs| && (forall j :: 0 <= j < i ==> !Same(fs[j], m)) && (i < |fs| ==> Same(fs[i], m))
    decreases |fs|
  {
    if fs == [] then 0 else if Same(fs[0], m) then 0 else 1 + Find(fs[1..], m)
  }

  /** `addFunctionWithInheritedRules`. */
  function Put(fs: seq<Method>, m: Method): seq<Method> {
    if Find(fs, m) < |fs| then fs[Find(fs, m) := m] else fs + [m]
  }

  function PutAll(fs: seq<Method>, ms: seq<Method>): seq<Method>
    decreases |ms|
  {
    if ms == [] then fs else Put(PutAll(fs, ms[..|ms| - 1]), ms[|ms| - 1])
  }

  /** No signature occurs twice. */
  predicate NoTwice(fs: seq<Method>) { forall i, j :: 0 <= i < j < |fs| ==> !Same(fs[i], fs[j]) }

  predicate Declares(fs: seq<Method>, m: Method) { Find(fs, m) < |fs| }

  // ----- what adding does, said without adding

  /** Every old slot, with the overriding method in it if there is one. */
  function Overridden(fs: seq<Method>, ms: seq<Method>): (r: seq<Method>)
    ensures |r| == |fs|
  {
    seq(|fs|, i requires 0 <= i < |fs| => if Declares(ms, fs[i]) then ms[Find(ms, fs[i])] else fs[i])
  }

  /** The methods of `ms` that override nothing, in the order of declaration. */
  function New(fs: seq<Method>, ms: seq<Method>): seq<Method>
    decreases |ms|
  {
    if ms == [] then []
    else
      var m := ms[|ms| - 1];
      New(fs, ms[..|ms| - 1]) + if Declares(fs, m) then [] else [m]
  }

  lemma FindIsFirst(fs: seq<Method>, m: Method, i: nat)
    requires i <= |fs| && (forall j :: 0 <= j < i ==> !Same(fs[j], m)) && (i < |fs| ==> Same(fs[i], m))
    ensures Find(fs, m) == i
  {
  }

  lemma FindIs(fs: seq<Method>, m: Method, i: nat)
    requires i < |fs| && NoTwice(fs) && Same(fs[i], m)
    ensures Find(fs, m) == i
  {
    forall j | 0 <= j < i ensures !Same(fs[j], m) { assert !Same(fs[j], fs[i]); }
    FindIsFirst(fs, m, i);
  }

  lemma DeclaresAny(fs: seq<Method>, m: Method, i: nat)
    requires i < |fs| && Same(fs[i], m)
    ensures Declares(fs, m)
  {
  }

  lemma {:induction false} NewIsIn(fs: seq<Method>, ms: seq<Method>)
    ensures forall i :: 0 <= i < |New(fs, ms)| ==> New(fs, ms)[i] in ms && !Declares(fs, New(fs, ms)[i])
    decreases |ms|
  {
    if ms != [] {
      NewIsIn(fs, ms[..|ms| - 1]);
    }
  }

  lemma FindLonger(ms: seq<Method>, m: Method, n: Method)
    ensures Find(ms + [m], n) == if Declares(ms, n) then Find(ms, n) else if Same(m, n) then |ms| else |ms| + 1
    decreases |ms|
  {
    if ms != [] {
      assert (ms + [m])[1..] == ms[1..] + [m];
      FindLonger(ms[1..], m, n);
    }
  }

  lemma FindInJoined(fs: seq<Method>, gs: seq<Method>, m: Method)
    requires !Declares(gs, m)
    ensures Find(fs + gs, m) == if Declares(fs, m) then Find(fs, m) else |fs| + |gs|
  {
    var all := fs + gs;
    var i := if Declares(fs, m) then Find(fs, m) else |all|;
    forall j | 0 <= j < i ensures !Same(all[j], m) {
      if j < |fs| { assert all[j] == fs[j]; } else { assert all[j] == gs[j - |fs|]; }
    }
    FindIsFirst(all, m, i);
  }

  /**
   Overriders take over the slots of what they override, and the rest follows in the order of declaration
   (section 2.5.2 of the Itanium C++ ABI).
   */
  lemma {:induction false} PutAllIsOverriding(fs: seq<Method>, ms: seq<Method>)
    requires NoTwice(fs) && NoTwice(ms)
    ensures PutAll(fs, ms) == Overridden(fs, ms) + New(fs, ms)
    decreases |ms|
  {
    if ms == [] {
      assert Overridden(fs, ms) == fs;
    } else {
      var before, m := ms[..|ms| - 1], ms[|ms| - 1];
      hide *;
      FewerOnce(ms);
      PutAllIsOverriding(fs, before);
      LastIsOther(fs, ms);
      LastPut(fs, ms);
      LastOverrides(fs, ms);
      PutOne(fs, Overridden(fs, before), New(fs, before), m);
      Halves(PutAll(fs, ms), |fs|, Overridden(fs, ms), New(fs, ms));
    }
  }

  lemma FewerOnce(ms: seq<Method>)
    requires ms != [] && NoTwice(ms)
    ensures NoTwice(ms[..|ms| - 1])
  {
  }

  lemma Halves(all: seq<Method>, n: nat, a: seq<Method>, b: seq<Method>)
    requires n <= |all| && all[..n] == a && all[n..] == b
    ensures all == a + b
  {
  }

  lemma LastOverrides(fs: seq<Method>, ms: seq<Method>)
    requires ms != [] && NoTwice(ms)
    ensures var kept, m := Overridden(fs, ms[..|ms| - 1]), ms[|ms| - 1];
      && (forall i :: 0 <= i < |fs| ==> Same(kept[i], fs[i]))
      && Overridden(fs, ms) == Replaced(fs, kept, m)
  {
    hide Same, NoTwice, Declares, Find;
    var kept, m := Overridden(fs, ms[..|ms| - 1]), ms[|ms| - 1];
    forall i | 0 <= i < |fs|
      ensures Overridden(fs, ms)[i] == (if Same(fs[i], m) then m else kept[i]) && Same(kept[i], fs[i])
    {
      OverriddenByLast(fs, ms, i);
    }
  }

  lemma LastPut(fs: seq<Method>, ms: seq<Method>)
    requires ms != []
    ensures var before, m := ms[..|ms| - 1], ms[|ms| - 1];
      && PutAll(fs, ms) == Put(PutAll(fs, before), m)
      && New(fs, ms) == New(fs, before) + if Declares(fs, m) then [] else [m]
  {
  }

  /** No other method of the class has the signature of the last one. */
  lemma OtherThanLast(ms: seq<Method>, x: Method)
    requires ms != [] && NoTwice(ms) && x in ms[..|ms| - 1]
    ensures !Same(x, ms[|ms| - 1])
  {
    var k :| 0 <= k < |ms| - 1 && ms[k] == x;
  }

  lemma LastIsOther(fs: seq<Method>, ms: seq<Method>)
    requires ms != [] && NoTwice(ms)
    ensures !Declares(New(fs, ms[..|ms| - 1]), ms[|ms| - 1])
  {
    var before, m := ms[..|ms| - 1], ms[|ms| - 1];
    var added := New(fs, before);
    NewIsIn(fs, before);
    forall j | 0 <= j < |added| ensures !Same(added[j], m) { OtherThanLast(ms, added[j]); }
    FindIsFirst(added, m, |added|);
  }

  lemma OverriddenByLast(fs: seq<Method>, ms: seq<Method>, i: nat)
    requires ms != [] && NoTwice(ms) && i < |fs|
    ensures var before, m := ms[..|ms| - 1], ms[|ms| - 1];
      && Overridden(fs, ms)[i] == (if Same(fs[i], m) then m else Overridden(fs, before)[i])
      && Same(Overridden(fs, before)[i], fs[i])
  {
    var before, m := ms[..|ms| - 1], ms[|ms| - 1];
    assert ms == before + [m];
    FindLonger(before, m, fs[i]);
    if Same(fs[i], m) {
      forall k | 0 <= k < |before| ensures !Same(before[k], fs[i]) { OtherThanLast(ms, before[k]); }
      FindIsFirst(before, fs[i], |before|);
    }
  }

  /** `kept` with `m` in the slots of its signature. */
  function Replaced(fs: seq<Method>, kept: seq<Method>, m: Method): (r: seq<Method>)
    requires |kept| == |fs|
    ensures |r| == |fs|
  {
    seq(|fs|, i requires 0 <= i < |fs| => if Same(fs[i], m) then m else kept[i])
  }

  lemma PutOne(fs: seq<Method>, kept: seq<Method>, added: seq<Method>, m: Method)
    requires NoTwice(fs) && |kept| == |fs| && (forall i :: 0 <= i < |fs| ==> Same(kept[i], fs[i])) && !Declares(added, m)
    ensures |Put(kept + added, m)| == |fs| + |added| + if Declares(fs, m) then 0 else 1
    ensures Put(kept + added, m)[..|fs|] == Replaced(fs, kept, m)
    ensures Put(kept + added, m)[|fs|..] == added + if Declares(fs, m) then [] else [m]
  {
    FindInJoined(kept, added, m);
    if Declares(fs, m) {
      var i := Find(fs, m);
      assert Same(kept[i], m);
      forall j | 0 <= j < |fs| && Same(fs[j], m) ensures j == i { FindIs(fs, m, j); }
    } else {
      forall i | 0 <= i < |kept| ensures !Same(kept[i], m) { assert !Same(fs[i], m); }
    }
  }

  // ----- along a primary chain

  /** The list the source builds for a line of classes, each the primary base of the next. */
  function Functions(line: seq<Class>): seq<Method>
    decreases |line|
  {
    if line == [] then [] else PutAll(Functions(line[..|line| - 1]), line[|line| - 1].methods)
  }

  predicate EachOnce(line: seq<Class>) { forall k :: 0 <= k < |line| ==> NoTwice(line[k].methods) }

  lemma PutKeepsNoTwice(fs: seq<Method>, m: Method)
    requires NoTwice(fs)
    ensures NoTwice(Put(fs, m))
  {
    var i, all := Find(fs, m), Put(fs, m);
    forall j, k | 0 <= j < k < |all| ensures !Same(all[j], all[k]) {
      if i < |fs| {
        assert Same(fs[i], m) && !Same(fs[j], fs[k]);
      } else if k < |fs| {
        assert !Same(fs[j], fs[k]);
      } else {
        assert !Same(fs[j], m);
      }
    }
  }

  lemma {:induction false} PutAllKeepsNoTwice(fs: seq<Method>, ms: seq<Method>)
    requires NoTwice(fs)
    ensures NoTwice(PutAll(fs, ms))
    decreases |ms|
  {
    hide NoTwice, Put;
    if ms != [] {
      PutAllKeepsNoTwice(fs, ms[..|ms| - 1]);
      PutKeepsNoTwice(PutAll(fs, ms[..|ms| - 1]), ms[|ms| - 1]);
    }
  }

  lemma {:induction false} FunctionsOnce(line: seq<Class>)
    ensures NoTwice(Functions(line))
    decreases |line|
  {
    hide NoTwice;
    if line != [] {
      FunctionsOnce(line[..|line| - 1]);
      PutAllKeepsNoTwice(Functions(line[..|line| - 1]), line[|line| - 1].methods);
    } else {
      assert NoTwice([]) by { NoneTwice(); }
    }
  }

  lemma NoneTwice()
    ensures NoTwice([])
  {
  }

  /** A slot keeps its signature in every class further down the line. */
  lemma {:induction false} SlotsAreStable(line: seq<Class>, k: nat, i: nat)
    requires k <= |line| && EachOnce(line) && i < |Functions(line[..k])|
    ensures i < |Functions(line)| && Same(Functions(line)[i], Functions(line[..k])[i])
    decreases |line|
  {
    hide Functions, NoTwice;
    if k == |line| {
      assert line[..k] == line;
    } else {
      var before, c := line[..|line| - 1], line[|line| - 1];
      assert before[..k] == line[..k];
      assert forall j :: 0 <= j < |before| ==> before[j] == line[j];
      SlotsAreStable(before, k, i);
      FunctionsOnce(before);
      PutAllIsOverriding(Functions(before), c.methods);
      LineFunctions(line);
    }
  }

  lemma LineFunctions(line: seq<Class>)
    requires line != []
    ensures Functions(line) == PutAll(Functions(line[..|line| - 1]), line[|line| - 1].methods)
  {
  }

  /** The final overrider of a signature: what the last class of the line that declares it declares. */
  function Overrider(line: seq<Class>, m: Method): (r: Option<Method>)
    ensures r.Some? ==> Same(r.value, m)
    decreases |line|
  {
    if line == [] then None
    else
      var ms := line[|line| - 1].methods;
      if Declares(ms, m) then Some(ms[Find(ms, m)]) else Overrider(line[..|line| - 1], m)
  }

  /** Every slot holds the final overrider. */
  lemma {:induction false} SlotsHoldFinalOverriders(line: seq<Class>, i: nat)
    requires EachOnce(line) && i < |Functions(line)|
    ensures Overrider(line, Functions(line)[i]) == Some(Functions(line)[i])
    decreases |line|
  {
    hide Functions, NoTwice, Find, Declares;
    assert line != [] by { LineNotEmpty(line); }
    var before, c := line[..|line| - 1], line[|line| - 1];
    var fs := Functions(before);
    assert forall j :: 0 <= j < |before| ==> before[j] == line[j];
    FunctionsOnce(before);
    PutAllIsOverriding(fs, c.methods);
    LineFunctions(line);
    NewIsIn(fs, c.methods);
    if i < |fs| && !Declares(c.methods, fs[i]) {
      SlotsHoldFinalOverriders(before, i);
    } else {
      var m := Functions(line)[i];
      if i < |fs| { FoundIsIn(c.methods, fs[i]); }
      assert m in c.methods;
      MemberIsFound(c.methods, m);
    }
  }

  lemma LineNotEmpty(line: seq<Class>)
    requires Functions(line) != []
    ensures line != []
  {
  }

  lemma FoundIsIn(ms: seq<Method>, m: Method)
    requires Declares(ms, m)
    ensures Find(ms, m) < |ms| && ms[Find(ms, m)] in ms
  {
  }

  lemma MemberIsFound(ms: seq<Method>, m: Method)
    requires NoTwice(ms) && m in ms
    ensures Declares(ms, m) && ms[Find(ms, m)] == m
  {
    var i :| 0 <= i < |ms| && ms[i] == m;
    FindIs(ms, m, i);
  }

  /** Further classes have the last word where they declare a signature, and only there. */
  lemma {:induction false} OverriderConcat(line: seq<Class>, above: seq<Class>, m: Method)
    ensures Overrider(line + above, m) == if Overrider(above, m).Some? then Overrider(above, m) else Overrider(line, m)
    decreases |above|
  {
    if above == [] {
      assert line + above == line;
    } else {
      assert (line + above)[..|line + above| - 1] == line + above[..|above| - 1];
      OverriderConcat(line, above[..|above| - 1], m);
    }
  }

  lemma {:induction false} OverriderIsDeclared(line: seq<Class>, m: Method)
    ensures Overrider(line, m).Some? ==> exists k :: 0 <= k < |line| && Overrider(line, m).value in line[k].methods
    ensures Overrider(line, m).None? ==> forall k :: 0 <= k < |line| ==> !Declares(line[k].methods, m)
    decreases |line|
  {
    if line != [] {
      var ms := line[|line| - 1].methods;
      if Declares(ms, m) {
        FoundIsIn(ms, m);
      } else {
        OverriderIsDeclared(line[..|line| - 1], m);
      }
    }
  }

  /** And every method declared along the line has a slot, that of its signature. */
  lemma {:induction false} EveryMethodHasASlot(line: seq<Class>, k: nat, m: Method)
    requires EachOnce(line) && k < |line| && m in line[k].methods
    ensures Declares(Functions(line), m)
    decreases |line|
  {
    hide Functions, NoTwice;
    var before, c := line[..|line| - 1], line[|line| - 1];
    var fs := Functions(before);
    assert forall j :: 0 <= j < |before| ==> before[j] == line[j];
    FunctionsOnce(before);
    LineFunctions(line);
    if k < |before| {
      EveryMethodHasASlot(before, k, m);
      PutAllDeclares(fs, c.methods, m);
    } else {
      var j :| 0 <= j < |c.methods| && c.methods[j] == m;
      DeclaresAny(c.methods, m, j);
      PutAllDeclares(fs, c.methods, m);
    }
  }

  lemma {:induction false} PutAllDeclares(fs: seq<Method>, ms: seq<Method>, m: Method)
    ensures Declares(PutAll(fs, ms), m) <==> Declares(fs, m) || Declares(ms, m)
    decreases |ms|
  {
    hide Put;
    if ms != [] {
      var before, n := ms[..|ms| - 1], ms[|ms| - 1];
      assert ms == before + [n];
      PutAllDeclares(fs, before, m);
      PutDeclares(PutAll(fs, before), n, m);
      FindLonger(before, n, m);
    }
  }

  lemma PutDeclares(fs: seq<Method>, n: Method, m: Method)
    ensures Declares(Put(fs, n), m) <==> Declares(fs, m) || Same(n, m)
  {
    var i, all := Find(fs, n), Put(fs, n);
    FindLonger(fs, n, m);
    if i < |fs| {
      assert Same(fs[i], n);
      if Same(n, m) {
        DeclaresAny(all, m, i);
      } else if Declares(fs, m) {
        var j := Find(fs, m);
        assert Same(all[j], m);
        DeclaresAny(all, m, j);
      } else {
        forall j | 0 <= j < |all| ensures !Same(all[j], m) { assert !Same(fs[j], m); }
        FindIsFirst(all, m, |all|);
      }
    }
  }
}
