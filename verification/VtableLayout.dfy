/** Where the tables of a class lie: the primary chain, the secondary bases, and the words that are laid out. */
module VtableLayout {
  import opened VtableSlots
  import opened Wrappers

  // ----- the shape of a hierarchy

  /** `hasVirtualMethods`. */
  predicate HasVirtual(c: Class) {
    c.methods != [] || exists i :: 0 <= i < |c.bases| && HasVirtual(c.bases[i])
  }

  /** The position of the primary base, or the end of the list. */
  function Primary(bases: seq<Class>): (i: nat)
    ensures i <= |bases| && (forall j :: 0 <= j < i ==> !HasVirtual(bases[j])) && (i < |bases| ==> HasVirtual(bases[i]))
  {
    if bases == [] then 0 else if HasVirtual(bases[0]) then 0 else 1 + Primary(bases[1..])
  }

  /** The primary base of the primary base ... of the class, outermost first; the class itself is not in it. */
  function Chain(c: Class): seq<Class> {
    var i := Primary(c.bases);
    if i == |c.bases| then [] else Chain(c.bases[i]) + [c.bases[i]]
  }

  function Line(c: Class): seq<Class> { Chain(c) + [c] }

  function Names(cs: seq<Class>): (r: seq<string>)
    ensures |r| == |cs|
  {
    seq(|cs|, i requires 0 <= i < |cs| => cs[i].name)
  }

  /** The bases, of the classes of a line, that are not in its primary chain. */
  function Secondaries(line: seq<Class>, primaries: seq<string>): seq<Class>
    decreases |line|
  {
    if line == [] then [] else Secondaries(line[..|line| - 1], primaries) + Others(line[|line| - 1].bases, primaries)
  }

  function Others(bases: seq<Class>, primaries: seq<string>): seq<Class>
    decreases |bases|
  {
    if bases == [] then []
    else
      var b := bases[|bases| - 1];
      Others(bases[..|bases| - 1], primaries) + if b.name in primaries then [] else [b]
  }

  function SecondariesOf(c: Class): seq<Class> { Secondaries(Line(c), Names(Chain(c))) }

  function Size(c: Class): nat { 1 + SizeAll(c.bases) }

  function SizeAll(cs: seq<Class>): nat
  {
    if cs == [] then 0 else Size(cs[0]) + SizeAll(cs[1..])
  }

  lemma {:induction false} SizeOfBase(cs: seq<Class>, i: nat)
    requires i < |cs|
    ensures Size(cs[i]) <= SizeAll(cs)
    decreases |cs|
  {
    if i > 0 {
      SizeOfBase(cs[1..], i - 1);
    }
  }

  lemma {:induction false} ChainShrinks(c: Class)
    ensures forall p :: p in Chain(c) ==> Size(p) < Size(c)
  {
    var i := Primary(c.bases);
    if i < |c.bases| {
      SizeOfBase(c.bases, i);
      ChainShrinks(c.bases[i]);
    }
  }

  lemma {:induction false} OthersAreBases(bases: seq<Class>, primaries: seq<string>)
    ensures forall s :: s in Others(bases, primaries) ==> s in bases && s.name !in primaries
    decreases |bases|
  {
    if bases != [] {
      OthersAreBases(bases[..|bases| - 1], primaries);
    }
  }

  lemma {:induction false} SecondariesShrink(line: seq<Class>, primaries: seq<string>, n: nat)
    requires forall p :: p in line ==> Size(p) <= n
    ensures forall s :: s in Secondaries(line, primaries) ==> Size(s) < n
    decreases |line|
  {
    hide Size;
    if line != [] {
      var p := line[|line| - 1];
      SecondariesShrink(line[..|line| - 1], primaries, n);
      OthersAreBases(p.bases, primaries);
      forall s | s in p.bases ensures Size(s) < n {
        var i :| 0 <= i < |p.bases| && p.bases[i] == s;
        SizeOfBase(p.bases, i);
        SizeIs(p);
      }
    }
  }

  lemma SizeIs(c: Class)
    ensures Size(c) == 1 + SizeAll(c.bases)
  {
  }

  lemma SecondariesOfShrink(c: Class)
    ensures forall s :: s in SecondariesOf(c) ==> Size(s) < Size(c)
  {
    ChainShrinks(c);
    SecondariesShrink(Line(c), Names(Chain(c)), Size(c));
  }

  // ----- the tables

  /** The table of a class: `top` is the class named in its "offset to top" entry. */
  datatype Table = Table(of: Class, top: string, functions: seq<Method>)

  function MainTable(c: Class): Table {
    Table(c, if Chain(c) == [] then c.name else Chain(c)[0].name, Functions(Line(c)))
  }

  /** Every table that the layout of `c` consists of, in order. */
  function Tables(c: Class): seq<Table>
    decreases Size(c), 1, 0
  {
    SecondariesOfShrink(c);
    (if HasVirtual(c) then [MainTable(c)] else []) + AllTables(SecondariesOf(c), Size(c))
  }

  function AllTables(cs: seq<Class>, n: nat): seq<Table>
    requires forall s :: s in cs ==> Size(s) < n
    decreases n, 0, |cs|
  {
    if cs == [] then [] else AllTables(cs[..|cs| - 1], n) + Tables(cs[|cs| - 1])
  }

  // ----- the words

  datatype Content = OffsetToTop | Rtti | Function

  /** `ABI_Layout_Element`. */
  datatype Element = Element(content: Content, owner: string, name: string, address: nat)

  /** `sizeof(void*)`. */
  const WORD: nat := 8

  function Words(t: Table, a: nat): (r: seq<Element>)
    ensures |r| == 2 + |t.functions|
  {
    [Element(OffsetToTop, t.top, "offset to top", a), Element(Rtti, t.of.name, "rtti", a + WORD)]
    + Slots(t.functions, a + 2 * WORD)
  }

  function Slots(fs: seq<Method>, a: nat): (r: seq<Element>)
    ensures |r| == |fs|
  {
    seq(|fs|, i requires 0 <= i < |fs| => Element(Function, fs[i].owner, fs[i].mangled, a + WORD * i))
  }

  function Laid(ts: seq<Table>, a: nat): seq<Element>
    decreases |ts|
  {
    if ts == [] then []
    else
      var front := Laid(ts[..|ts| - 1], a);
      front + Words(ts[|ts| - 1], a + WORD * |front|)
  }

  /** `iVTableEntryPoint`: a class is entered at its first function. */
  function Entered(entries: map<string, nat>, ts: seq<Table>, a: nat): map<string, nat>
    decreases |ts|
  {
    if ts == [] then entries
    else
      var front := ts[..|ts| - 1];
      Entered(entries, front, a)[ts[|ts| - 1].of.name := a + WORD * |Laid(front, a)| + 2 * WORD]
  }

  /** All addresses are consecutive words. */
  lemma {:induction false} AddressesAreConsecutive(ts: seq<Table>, a: nat, i: nat)
    requires i < |Laid(ts, a)|
    ensures Laid(ts, a)[i].address == a + WORD * i
    decreases |ts|
  {
    var front := Laid(ts[..|ts| - 1], a);
    if i < |front| {
      AddressesAreConsecutive(ts[..|ts| - 1], a, i);
    }
  }

  lemma {:induction false} LaidConcat(ts: seq<Table>, us: seq<Table>, a: nat)
    ensures Laid(ts + us, a) == Laid(ts, a) + Laid(us, a + WORD * |Laid(ts, a)|)
    decreases |us|
  {
    if us == [] {
      assert ts + us == ts;
    } else {
      var init := us[..|us| - 1];
      assert (ts + us)[..|ts + us| - 1] == ts + init;
      LaidConcat(ts, init, a);
    }
  }

  lemma {:induction false} EnteredConcat(entries: map<string, nat>, ts: seq<Table>, us: seq<Table>, a: nat)
    ensures Entered(entries, ts + us, a) == Entered(Entered(entries, ts, a), us, a + WORD * |Laid(ts, a)|)
    decreases |us|
  {
    if us == [] {
      assert ts + us == ts;
    } else {
      var init := us[..|us| - 1];
      assert (ts + us)[..|ts + us| - 1] == ts + init;
      LaidConcat(ts, init, a);
      EnteredConcat(entries, ts, init, a);
    }
  }

  // ----- the classes of a hierarchy

  /** The class and everything it inherits from. */
  ghost function Parts(c: Class): set<Class> {
    {c} + (set i, d | 0 <= i < |c.bases| && d in Parts(c.bases[i]) :: d)
  }

  /** One name, one class; and no class declares a signature twice. */
  ghost predicate WellFormed(c: Class) {
    && (forall p, q :: p in Parts(c) && q in Parts(c) && p.name == q.name ==> p == q)
    && forall p :: p in Parts(c) ==> NoTwice(p.methods)
  }

  lemma {:induction false} PartsOfParts(c: Class, p: Class)
    requires p in Parts(c)
    ensures Parts(p) <= Parts(c)
  {
    if p != c {
      var i, d :| 0 <= i < |c.bases| && d in Parts(c.bases[i]) && d == p;
      PartsOfParts(c.bases[i], p);
    }
  }

  lemma BaseIsPart(c: Class, b: Class)
    requires b in c.bases
    ensures b in Parts(c)
  {
    var i :| 0 <= i < |c.bases| && c.bases[i] == b;
    assert b in Parts(c.bases[i]);
  }

  lemma {:induction false} ChainIsPart(c: Class)
    ensures forall p :: p in Chain(c) ==> p in Parts(c)
  {
    var i := Primary(c.bases);
    if i < |c.bases| {
      var b := c.bases[i];
      ChainIsPart(b);
      BaseIsPart(c, b);
      PartsOfParts(c, b);
    }
  }

  lemma {:induction false} SecondariesArePart(c: Class, line: seq<Class>, primaries: seq<string>)
    requires forall p :: p in line ==> p in Parts(c)
    ensures forall s :: s in Secondaries(line, primaries) ==> s in Parts(c)
    decreases |line|
  {
    hide Parts;
    if line != [] {
      var p := line[|line| - 1];
      SecondariesArePart(c, line[..|line| - 1], primaries);
      OthersAreBases(p.bases, primaries);
      forall s | s in p.bases ensures s in Parts(c) {
        BaseIsPart(p, s);
        PartsOfParts(c, p);
      }
    }
  }

  lemma PartsAreReached(c: Class)
    ensures (forall p :: p in Line(c) ==> p in Parts(c)) && forall s :: s in SecondariesOf(c) ==> s in Parts(c)
  {
    ChainIsPart(c);
    SecondariesArePart(c, Line(c), Names(Chain(c)));
  }

  lemma PartIsWellFormed(c: Class, p: Class)
    requires WellFormed(c) && p in Parts(c)
    ensures WellFormed(p)
  {
    hide Parts;
    PartsOfParts(c, p);
  }

  /** The tables laid out are main tables of parts of the class. */
  lemma {:induction false} TablesAreMain(c: Class)
    ensures forall t :: t in Tables(c) ==> t == MainTable(t.of) && t.of in Parts(c)
    decreases Size(c), 1, 0
  {
    hide Parts, MainTable, Size, SecondariesOf;
    SecondariesOfShrink(c);
    PartsAreReached(c);
    AllTablesAreMain(c, SecondariesOf(c), Size(c));
    assert c in Parts(c) by { ItselfIsPart(c); }
    assert MainTable(c).of == c by { MainTableOf(c); }
  }

  lemma ItselfIsPart(c: Class)
    ensures c in Parts(c)
  {
  }

  lemma MainTableOf(c: Class)
    ensures MainTable(c).of == c
  {
  }

  lemma {:induction false} AllTablesAreMain(c: Class, cs: seq<Class>, n: nat)
    requires forall s :: s in cs ==> Size(s) < n && s in Parts(c)
    ensures forall t :: t in AllTables(cs, n) ==> t == MainTable(t.of) && t.of in Parts(c)
    decreases n, 0, |cs|
  {
    hide Parts, MainTable, Size, Tables;
    if cs != [] {
      var s := cs[|cs| - 1];
      AllTablesAreMain(c, cs[..|cs| - 1], n);
      TablesAreMain(s);
      PartsOfParts(c, s);
    }
  }

  /** Whatever class has an entry point is entered at the functions of a table of that class. */
  lemma {:induction false} EntriesAreTables(ts: seq<Table>, a: nat, name: string)
    requires name in Entered(map[], ts, a)
    ensures exists t, k: nat :: EnteredAt(ts, a, name, t, k)
    decreases |ts|
  {
    var init, last := ts[..|ts| - 1], ts[|ts| - 1];
    var front := Laid(init, a);
    if last.of.name == name {
      assert EnteredAt(ts, a, name, last, |front| + 2);
    } else {
      EntriesAreTables(init, a, name);
      var t, k: nat :| EnteredAt(init, a, name, t, k);
      assert EnteredAt(ts, a, name, t, k);
    }
  }

  ghost predicate EnteredAt(ts: seq<Table>, a: nat, name: string, t: Table, k: nat) {
    && t in ts && t.of.name == name
    && name in Entered(map[], ts, a) && Entered(map[], ts, a)[name] == a + WORD * k
    && k + |t.functions| <= |Laid(ts, a)| && Laid(ts, a)[k..k + |t.functions|] == Slots(t.functions, a + WORD * k)
  }

  lemma {:induction false} TablesAreEntered(ts: seq<Table>, a: nat, t: Table)
    requires t in ts
    ensures t.of.name in Entered(map[], ts, a)
    decreases |ts|
  {
    if t != ts[|ts| - 1] {
      TablesAreEntered(ts[..|ts| - 1], a, t);
    }
  }

  /** A chain goes on where the chain of a class in it ends. */
  lemma {:induction false} ChainsNest(c: Class, k: nat)
    requires k < |Line(c)|
    ensures Line(Line(c)[k]) == Line(c)[..k + 1]
  {
    var i := Primary(c.bases);
    if k == |Chain(c)| {
      assert Line(c)[..k + 1] == Line(c);
    } else {
      var b := c.bases[i];
      assert Line(c) == Line(b) + [c];
      ChainsNest(b, k);
      assert Line(c)[..k + 1] == Line(b)[..k + 1];
    }
  }

  // ----- who is called

  /** The classes of `top` that derive from the base `c` of it, the nearest first. */
  ghost predicate Derives(top: Class, c: Class, above: seq<Class>)
    decreases Size(top)
  {
    (c == top && above == []) || exists s, k, rest :: StepsUp(top, s, k) && Derives(s, c, rest) && above == rest + Line(top)[k..]
  }

  /** `s` is a secondary base of `top`, by way of the `k`-th class of its chain. */
  ghost predicate StepsUp(top: Class, s: Class, k: int) {
    s in SecondariesOf(top) && Size(s) < Size(top) && 0 <= k < |Line(top)| && s in Line(top)[k].bases
  }

  /** The word that a call at the `i`-th slot behind the entry point of a class goes to. */
  ghost predicate Calls(top: Class, a: nat, c: Class, i: nat, m: Method) {
    var entries, words := Entered(map[], Tables(top), a), Laid(Tables(top), a);
    && c.name in entries && entries[c.name] >= a && (entries[c.name] - a) % WORD == 0
    && var w := (entries[c.name] - a) / WORD + i;
       && w < |words| && words[w] == Element(Function, m.owner, m.mangled, entries[c.name] + WORD * i)
  }

  /** What a call reaches, and that any class of the chain finds its own functions in its own slots. */
  lemma CallsReach(top: Class, a: nat, c: Class, k: nat, i: nat)
    requires WellFormed(top) && MainTable(c) in Tables(top) && k < |Line(c)| && i < |Functions(Line(Line(c)[k]))|
    ensures i < |Functions(Line(c))| && Calls(top, a, c, i, Functions(Line(c))[i])
    ensures Same(Functions(Line(c))[i], Functions(Line(Line(c)[k]))[i])
  {
    hide Parts, Tables, MainTable, Functions, Line, Chain, NoTwice, Laid, Entered, Slots;
    var ts := Tables(top);
    TablesAreEntered(ts, a, MainTable(c));
    MainTableOf(c);
    EntriesAreTables(ts, a, c.name);
    var t, at: nat :| EnteredAt(ts, a, c.name, t, at);
    TablesAreMain(top);
    MainTableOf(t.of);
    assert t.of == c;
    MainTableFunctions(c);
    LineIsWellFormed(top, c);
    ChainsNest(c, k);
    SlotsAreStable(Line(c), k + 1, i);
    var words := Laid(ts, a);
    assert words[at + i] == words[at..at + |t.functions|][i];
    SlotIs(t.functions, a + WORD * at, i);
  }

  /**
   Virtual calls through the entry point of the class itself are bound correctly: any class of its primary chain
   finds, in each of its own slots, the final overrider of the function it declared there.
   */
  lemma CallsAreBound(top: Class, a: nat, k: nat, i: nat)
    requires WellFormed(top) && HasVirtual(top) && k < |Line(top)| && i < |Functions(Line(Line(top)[k]))|
    ensures i < |Functions(Line(top))|
    ensures var m := Functions(Line(top))[i];
      && Calls(top, a, top, i, m)
      && Same(m, Functions(Line(Line(top)[k]))[i]) && Overrider(Line(top), m) == Some(m)
  {
    hide *;
    TablesOf(top);
    CallsReach(top, a, top, k, i);
    ItselfIsPart(top);
    LineIsWellFormed(top, top);
    SlotsHoldFinalOverriders(Line(top), i);
  }

  /**
   The tables of secondary bases stay as they are in a layout of the base alone. A call through one of them reaches
   the final overrider exactly when the classes that derive from the base declare nothing else for its signature.
   */
  lemma CallsOnBasesAreBound(top: Class, a: nat, c: Class, above: seq<Class>, k: nat, i: nat)
    requires WellFormed(top) && Derives(top, c, above) && MainTable(c) in Tables(top)
    requires k < |Line(c)| && i < |Functions(Line(Line(c)[k]))|
    ensures i < |Functions(Line(c))|
    ensures var m := Functions(Line(c))[i];
      && Calls(top, a, c, i, m)
      && Same(m, Functions(Line(Line(c)[k]))[i])
      && (Overrider(Line(c) + above, m) == Some(m) <==> Overrider(above, m) == None || Overrider(above, m) == Some(m))
  {
    hide *;
    CallsReach(top, a, c, k, i);
    DerivesIsAbove(top, c, above);
    LineIsWellFormed(top, c);
    SlotsHoldFinalOverriders(Line(c), i);
    OverriderConcat(Line(c), above, Functions(Line(c))[i]);
  }

  ghost predicate IsBase(top: Class, c: Class) { exists above :: Derives(top, c, above) }

  /** Every table that is laid out is that of a base, along some path. */
  lemma {:induction false} TablesAreOfBases(top: Class)
    ensures forall t :: t in Tables(top) ==> IsBase(top, t.of)
    decreases Size(top), 1, 0
  {
    hide Tables, Line, Size, SecondariesOf, MainTable, HasVirtual;
    TablesOf(top);
    forall t | t in Tables(top) ensures IsBase(top, t.of) {
      if t in AllTables(SecondariesOf(top), Size(top)) {
        var s := AllTablesAreOfBases(SecondariesOf(top), Size(top), t);
        var rest :| Derives(s, t.of, rest);
        var k := SecondaryIsBase(top, s);
        assert StepsUp(top, s, k);
        assert Derives(top, t.of, rest + Line(top)[k..]);
      } else {
        MainTableOf(top);
        assert Derives(top, top, []);
      }
    }
  }

  lemma {:induction false} AllTablesAreOfBases(cs: seq<Class>, n: nat, t: Table) returns (s: Class)
    requires (forall d :: d in cs ==> Size(d) < n) && t in AllTables(cs, n)
    ensures s in cs && IsBase(s, t.of)
    decreases n, 0, |cs|
  {
    hide Tables, Derives, Size;
    s := cs[|cs| - 1];
    if t in Tables(s) {
      TablesAreOfBases(s);
    } else {
      s := AllTablesAreOfBases(cs[..|cs| - 1], n, t);
    }
  }

  lemma SecondaryIsBase(c: Class, s: Class) returns (k: nat)
    requires s in SecondariesOf(c)
    ensures k < |Line(c)| && s in Line(c)[k].bases
  {
    k := SecondaryIsBaseOf(Line(c), Names(Chain(c)), s);
  }

  lemma {:induction false} SecondaryIsBaseOf(line: seq<Class>, primaries: seq<string>, s: Class) returns (k: nat)
    requires s in Secondaries(line, primaries)
    ensures k < |line| && s in line[k].bases
    decreases |line|
  {
    k := |line| - 1;
    OthersAreBases(line[k].bases, primaries);
    if s !in line[k].bases {
      k := SecondaryIsBaseOf(line[..k], primaries, s);
    }
  }

  /** The classes above a base are larger than all classes of its own line, and parts of the hierarchy. */
  lemma {:induction false} DerivesIsAbove(top: Class, c: Class, above: seq<Class>)
    requires Derives(top, c, above)
    ensures c in Parts(top) && forall d :: d in above ==> d in Parts(top) && Size(c) < Size(d)
    decreases Size(top)
  {
    hide Parts, Size, Line, SecondariesOf;
    ItselfIsPart(top);
    if !(c == top && above == []) {
      var s, k, rest :| StepsUp(top, s, k) && Derives(s, c, rest) && above == rest + Line(top)[k..];
      DerivesIsAbove(s, c, rest);
      PartsAreReached(top);
      PartsOfParts(top, s);
      assert Size(c) <= Size(s) by { DerivesIsSmaller(s, c, rest); }
      forall d | d in above ensures d in Parts(top) && Size(c) < Size(d) {
        if d !in rest {
          var j :| 0 <= j < |Line(top)[k..]| && Line(top)[k..][j] == d;
          LineGrows(top, k, k + j);
          BaseIsSmaller(Line(top)[k], s);
        }
      }
    }
  }

  lemma {:induction false} DerivesIsSmaller(top: Class, c: Class, above: seq<Class>)
    requires Derives(top, c, above)
    ensures Size(c) <= Size(top)
    decreases Size(top)
  {
    if !(c == top && above == []) {
      var s, k, rest :| StepsUp(top, s, k) && Derives(s, c, rest) && above == rest + Line(top)[k..];
      DerivesIsSmaller(s, c, rest);
    }
  }

  lemma BaseIsSmaller(p: Class, s: Class)
    requires s in p.bases
    ensures Size(s) < Size(p)
  {
    var i :| 0 <= i < |p.bases| && p.bases[i] == s;
    SizeOfBase(p.bases, i);
  }

  lemma LineGrows(c: Class, j: nat, k: nat)
    requires j <= k < |Line(c)|
    ensures Size(Line(c)[j]) <= Size(Line(c)[k])
  {
    if j < k {
      ChainsNest(c, k);
      assert Line(c)[j] == Line(c)[..k + 1][j] == Chain(Line(c)[k])[j];
      ChainShrinks(Line(c)[k]);
      assert Line(c)[j] in Chain(Line(c)[k]);
    }
  }

  /** Methods carry the name of the class that declares them. */
  ghost predicate Owned(c: Class) {
    forall p, m :: p in Parts(c) && m in p.methods ==> m.owner == p.name
  }

  /** No class of `above` declares a signature of the list. */
  predicate Untouched(fs: seq<Method>, above: seq<Class>) {
    forall d, m :: d in above && m in d.methods ==> !Declares(fs, m)
  }

  /** The whole table of a base is right exactly when no class that derives from the base overrides anything of it. */
  lemma BaseTablesAreRight(top: Class, c: Class, above: seq<Class>)
    requires WellFormed(top) && Owned(top) && Derives(top, c, above)
    ensures var fs := Functions(Line(c));
      (forall i :: 0 <= i < |fs| ==> Overrider(Line(c) + above, fs[i]) == Some(fs[i])) <==> Untouched(fs, above)
  {
    hide Parts, Functions, Line, Derives, Declares, Overrider, NoTwice;
    var fs := Functions(Line(c));
    DerivesIsAbove(top, c, above);
    LineIsWellFormed(top, c);
    forall i | 0 <= i < |fs|
      ensures Overrider(Line(c) + above, fs[i]) == Some(fs[i]) <==> !DeclaredIn(above, fs[i])
    {
      SlotIsRight(top, c, above, i);
    }
    if !Untouched(fs, above) {
      var d, m :| d in above && m in d.methods && Declares(fs, m);
      SameSide(fs, d.methods, m);
    }
    if i :| 0 <= i < |fs| && DeclaredIn(above, fs[i]) {
      var d :| d in above && Declares(d.methods, fs[i]);
      FoundIsIn(d.methods, fs[i]);
      OtherSide(fs, d.methods, i);
    }
  }

  predicate DeclaredIn(above: seq<Class>, m: Method) { exists d :: d in above && Declares(d.methods, m) }

  lemma SameSide(fs: seq<Method>, ms: seq<Method>, m: Method)
    requires m in ms && Declares(fs, m)
    ensures Find(fs, m) < |fs| && Declares(ms, fs[Find(fs, m)])
  {
    var j :| 0 <= j < |ms| && ms[j] == m;
    DeclaresAny(ms, fs[Find(fs, m)], j);
  }

  lemma OtherSide(fs: seq<Method>, ms: seq<Method>, i: nat)
    requires i < |fs| && Declares(ms, fs[i])
    ensures Find(ms, fs[i]) < |ms| && Declares(fs, ms[Find(ms, fs[i])])
  {
    DeclaresAny(fs, ms[Find(ms, fs[i])], i);
  }

  lemma SlotIsRight(top: Class, c: Class, above: seq<Class>, i: nat)
    requires WellFormed(top) && Owned(top) && Derives(top, c, above) && i < |Functions(Line(c))|
    ensures var m := Functions(Line(c))[i];
      Overrider(Line(c) + above, m) == Some(m) <==> !DeclaredIn(above, m)
  {
    hide Parts, Functions, Line, Derives, Declares, Overrider, NoTwice;
    var m := Functions(Line(c))[i];
    DerivesIsAbove(top, c, above);
    LineIsWellFormed(top, c);
    SlotsHoldFinalOverriders(Line(c), i);
    OverriderConcat(Line(c), above, m);
    OverriderIsDeclared(above, m);
    if Overrider(above, m).Some? {
      var n := Overrider(above, m).value;
      var k :| 0 <= k < |above| && n in above[k].methods;
      assert above[k] in above;
      OverriderIsDeclared(Line(c), m);
      var j :| 0 <= j < |Line(c)| && m in Line(c)[j].methods;
      LinePart(top, c, j);
      assert n.owner == above[k].name && m.owner == Line(c)[j].name;
      MemberIsFound(above[k].methods, n);
      SameDeclares(above[k].methods, m, n);
    } else {
      assert !DeclaredIn(above, m);
    }
  }

  lemma SameDeclares(ms: seq<Method>, m: Method, n: Method)
    requires Same(m, n)
    ensures Declares(ms, m) <==> Declares(ms, n)
  {
  }

  lemma LinePart(top: Class, c: Class, j: nat)
    requires c in Parts(top) && j < |Line(c)|
    ensures Line(c)[j] in Parts(top) && Size(Line(c)[j]) <= Size(c)
  {
    hide Parts, Size;
    PartsAreReached(c);
    PartsOfParts(top, c);
    assert Line(c)[j] in Line(c);
    LineGrows(c, j, |Line(c)| - 1);
  }

  /** They are not always right: with C deriving from A and B and overriding a function of B, the table of B has B's. */
  lemma OverriderIsMissed()
    ensures var f, g := Method("A", "f", [], "A::f()"), Method("B", "g", [], "B::g()");
      var h := Method("C", "g", [], "C::g()");
      var b := Class("B", [g], []);
      var c := Class("C", [h], [Class("A", [f], []), b]);
      && MainTable(b) in Tables(c) && Functions(Line(b)) == [g]
      && Derives(c, b, [c]) && Overrider(Line(b) + [c], g) == Some(h)
  {
    var f, g := Method("A", "f", [], "A::f()"), Method("B", "g", [], "B::g()");
    var h := Method("C", "g", [], "C::g()");
    var a, b := Class("A", [f], []), Class("B", [g], []);
    var c := Class("C", [h], [a, b]);
    NoBases(b);
    LineLast(b);
    PutAllOnNothing([g]);
    TwoBases(a, b, c);
    OverriderConcat(Line(b), [c], g);
    assert Find([h], g) == 0;
    hide Chain, Secondaries, Tables, Derives, Overrider, PutAll, SecondariesOf;
    SecondariesKeepTheirTables(c, b);
  }

  lemma TwoBases(a: Class, b: Class, c: Class)
    requires a.bases == b.bases == [] && a.methods != [] && c.bases == [a, b] && a.name != b.name
    ensures SecondariesOf(c) == [b] && Derives(c, b, [c])
  {
    NoBases(a);
    assert HasVirtual(a);
    assert Chain(c) == [a];
    assert Line(c) == [a, c] && Line(c)[..1] == [a] && [a][..0] == [];
    var names := [a.name];
    assert Names([a]) == names;
    assert Others([], names) == [] && [a, b][..1] == [a] && Others([a], names) == [] && Others([a, b], names) == [b];
    assert Secondaries([a], names) == Secondaries([], names) + Others([], names) == [];
    assert SecondariesOf(c) == [b];
    hide Others, Secondaries, Chain, HasVirtual, Names;
    SecondariesOfShrink(c);
    assert StepsUp(c, b, 1) && Line(c)[1..] == [c];
    assert Derives(b, b, []);
    assert [] + Line(c)[1..] == [c];
  }

  lemma SlotIs(fs: seq<Method>, a: nat, i: nat)
    requires i < |fs|
    ensures Slots(fs, a)[i] == Element(Function, fs[i].owner, fs[i].mangled, a + WORD * i)
  {
  }

  lemma MainTableFunctions(c: Class)
    ensures MainTable(c).functions == Functions(Line(c))
  {
  }

  lemma LineIsWellFormed(top: Class, c: Class)
    requires WellFormed(top) && c in Parts(top)
    ensures EachOnce(Line(c))
  {
    hide Parts, NoTwice;
    PartsAreReached(c);
    PartsOfParts(top, c);
    forall k | 0 <= k < |Line(c)| ensures NoTwice(Line(c)[k].methods) {
      assert Line(c)[k] in Line(c);
    }
  }

  lemma {:induction false} TablesAmongAll(cs: seq<Class>, n: nat, s: Class)
    requires s in cs && forall d :: d in cs ==> Size(d) < n
    ensures forall t :: t in Tables(s) ==> t in AllTables(cs, n)
    decreases |cs|
  {
    hide Tables, Size;
    var init := cs[..|cs| - 1];
    if s != cs[|cs| - 1] {
      assert cs == init + [cs[|cs| - 1]];
      TablesAmongAll(init, n, s);
    }
  }

  /**
   A secondary base brings its own tables along as they are: its functions are not replaced by the overriders
   that the class declares.
   */
  lemma SecondariesKeepTheirTables(c: Class, s: Class)
    requires s in SecondariesOf(c)
    ensures (forall t :: t in Tables(s) ==> t in Tables(c)) && (HasVirtual(s) ==> MainTable(s) in Tables(c))
  {
    hide Tables, Size, SecondariesOf, MainTable, HasVirtual;
    TablesOf(c);
    TablesOf(s);
    TablesAmongAll(SecondariesOf(c), Size(c), s);
  }

  // ----- looking classes up by name

  function Mapped(m: map<string, Class>, cs: seq<Class>): map<string, Class>
    decreases |cs|
  {
    if cs == [] then m else Mapped(m, cs[..|cs| - 1])[cs[|cs| - 1].name := cs[|cs| - 1]]
  }

  lemma MappedSnoc(m: map<string, Class>, cs: seq<Class>, c: Class)
    ensures Mapped(m, cs + [c]) == Mapped(m, cs)[c.name := c]
  {
    assert (cs + [c])[..|cs|] == cs;
  }

  lemma NothingMapped(m: map<string, Class>)
    ensures Mapped(m, []) == m && Names([]) == []
  {
  }

  lemma ChainIs(c: Class)
    ensures var i := Primary(c.bases);
      Chain(c) == if i == |c.bases| then [] else Chain(c.bases[i]) + [c.bases[i]]
  {
  }

  lemma NamesSnoc(cs: seq<Class>, c: Class)
    ensures Names(cs + [c]) == Names(cs) + [c.name]
  {
  }

  lemma PrimaryIs(bases: seq<Class>, i: nat)
    requires i <= |bases| && (forall j :: 0 <= j < i ==> !HasVirtual(bases[j])) && (i < |bases| ==> HasVirtual(bases[i]))
    ensures Primary(bases) == i
  {
  }

  predicate Consistent(cs: seq<Class>) {
    forall i, j :: 0 <= i < |cs| && 0 <= j < |cs| && cs[i].name == cs[j].name ==> cs[i] == cs[j]
  }

  lemma {:induction false} FoundByName(cs: seq<Class>, i: nat)
    requires Consistent(cs) && i < |cs|
    ensures cs[i].name in Mapped(map[], cs) && Mapped(map[], cs)[cs[i].name] == cs[i]
    decreases |cs|
  {
    if cs[i].name != cs[|cs| - 1].name {
      FoundByName(cs[..|cs| - 1], i);
    }
  }

  lemma {:induction false} KeysAreNames(cs: seq<Class>)
    ensures forall n :: n in Mapped(map[], cs) <==> n in Names(cs)
    decreases |cs|
  {
    if cs != [] {
      var init := cs[..|cs| - 1];
      KeysAreNames(init);
      assert cs == init + [cs[|cs| - 1]];
      NamesSnoc(init, cs[|cs| - 1]);
    }
  }

  lemma {:induction false} MappedConcat(m: map<string, Class>, cs: seq<Class>, ds: seq<Class>)
    ensures Mapped(m, cs + ds) == Mapped(Mapped(m, cs), ds) && Names(cs + ds) == Names(cs) + Names(ds)
    decreases |ds|
  {
    if ds == [] {
      assert cs + ds == cs;
    } else {
      assert (cs + ds)[..|cs + ds| - 1] == cs + ds[..|ds| - 1];
      MappedConcat(m, cs, ds[..|ds| - 1]);
    }
  }

  lemma PartsAreConsistent(c: Class, cs: seq<Class>)
    requires WellFormed(c) && forall p :: p in cs ==> p in Parts(c)
    ensures Consistent(cs)
  {
    hide Parts, NoTwice;
    forall i, j | 0 <= i < |cs| && 0 <= j < |cs| && cs[i].name == cs[j].name ensures cs[i] == cs[j] {
      assert cs[i] in cs && cs[j] in cs;
    }
  }

  lemma ChainIsConsistent(c: Class)
    requires WellFormed(c)
    ensures Consistent(Chain(c))
  {
    hide WellFormed, Parts;
    ChainIsPart(c);
    PartsAreConsistent(c, Chain(c));
  }

  lemma SecondariesAreConsistent(c: Class)
    requires WellFormed(c)
    ensures Consistent(SecondariesOf(c))
  {
    hide WellFormed, Parts;
    PartsAreReached(c);
    PartsAreConsistent(c, SecondariesOf(c));
  }

  lemma SecondariesMore(line: seq<Class>, i: nat, known: seq<string>)
    requires i < |line|
    ensures Secondaries(line[..i + 1], known) == Secondaries(line[..i], known) + Others(line[i].bases, known)
  {
    assert line[..i + 1][..i] == line[..i];
  }

  lemma NoSecondaries(known: seq<string>)
    ensures Secondaries([], known) == []
  {
  }

  lemma NoTables(front: seq<Table>, n: nat)
    ensures front + AllTables([], n) == front
  {
  }

  lemma TablesOf(c: Class)
    ensures (forall s :: s in SecondariesOf(c) ==> Size(s) < Size(c))
    ensures Tables(c) == (if HasVirtual(c) then [MainTable(c)] else []) + AllTables(SecondariesOf(c), Size(c))
  {
    SecondariesOfShrink(c);
  }

  lemma SecondariesLast(c: Class)
    ensures SecondariesOf(c) == Secondaries(Chain(c), Names(Chain(c))) + Others(c.bases, Names(Chain(c)))
  {
    assert Line(c)[..|Chain(c)|] == Chain(c);
  }

  lemma LineMore(line: seq<Class>, i: nat)
    requires i < |line|
    ensures Functions(line[..i + 1]) == PutAll(Functions(line[..i]), line[i].methods)
  {
    assert line[..i + 1][..i] == line[..i];
  }

  lemma LineLast(c: Class)
    ensures Functions(Line(c)) == PutAll(Functions(Chain(c)), c.methods)
  {
    assert Line(c)[..|Chain(c)|] == Chain(c);
  }

  lemma TablesMore(front: seq<Table>, cs: seq<Class>, i: nat, n: nat)
    requires i < |cs| && forall s :: s in cs ==> Size(s) < n
    ensures front + AllTables(cs[..i + 1], n) == front + AllTables(cs[..i], n) + Tables(cs[i])
  {
    assert cs[..i + 1][..i] == cs[..i];
  }

  lemma NoTable(entries: map<string, nat>, a: nat)
    ensures Laid([], a) == [] && Entered(entries, [], a) == entries
  {
  }

  lemma OneTable(t: Table, entries: map<string, nat>, a: nat)
    ensures Laid([t], a) == Words(t, a) && Entered(entries, [t], a) == entries[t.of.name := a + 2 * WORD]
  {
    assert [t][..0] == [];
    assert Laid([], a) + Words(t, a) == Words(t, a);
  }

  lemma ChainHasVirtual(c: Class)
    requires Chain(c) != []
    ensures HasVirtual(c)
  {
  }

  /** The three cases of the source in which a class has no primary base. */
  lemma TrivialHasNoTable(c: Class)
    requires c.bases == [] && c.methods == []
    ensures Tables(c) == []
  {
    NoBases(c);
  }

  lemma NoBases(c: Class)
    requires c.bases == []
    ensures Chain(c) == [] && Line(c) == [c] && SecondariesOf(c) == []
  {
    assert [c][..0] == [];
    assert Secondaries([c], []) == Secondaries([], []) + Others([], []);
  }

  lemma {:induction false} PutAllOnNothing(ms: seq<Method>)
    requires NoTwice(ms)
    ensures PutAll([], ms) == ms
    decreases |ms|
  {
    if ms != [] {
      var init, m := ms[..|ms| - 1], ms[|ms| - 1];
      PutAllOnNothing(init);
      forall j | 0 <= j < |init| ensures !Same(init[j], m) { OtherThanLast(ms, init[j]); }
      FindIsFirst(init, m, |init|);
    }
  }

  /** A class without bases lays its methods out as they are declared. */
  lemma LeafTable(c: Class)
    requires WellFormed(c) && c.bases == [] && c.methods != []
    ensures Tables(c) == [Table(c, c.name, c.methods)]
  {
    ItselfIsPart(c);
    PutAllOnNothing(c.methods);
    NoBases(c);
    LineLast(c);
    hide WellFormed, Line, SecondariesOf, Chain, PutAll;
    assert AllTables([], Size(c)) == [];
    assert HasVirtual(c);
    assert Tables(c) == [MainTable(c)] + [];
  }
}
