/** `buildVirtualTableLayout` and what it calls: vectors, maps and an address that are updated in place. */
module VtableBuilder {
  import opened VtableSlots
  import opened VtableLayout

  /** A vector of functions. */
  class FunctionList {
    var functions: seq<Method>

    constructor ()
      ensures functions == []
    {
      functions := [];
    }

    /** `addFunctionWithInheritedRules`. */
    method Add(m: Method)
      modifies this
      ensures functions == Put(old(functions), m)
    {
      var it := 0;
      while it < |functions| && !Same(functions[it], m)
        invariant 0 <= it <= |functions|
        invariant forall j :: 0 <= j < it ==> !Same(functions[j], m)
      {
        it := it + 1;
      }
      FindIsFirst(functions, m, it);
      if it < |functions| {
        functions := functions[it := m];
      } else {
        functions := functions + [m];
      }
    }

    /** `addStructFunctionWithInhRules`, without the inherited ones. */
    method AddAll(c: Class)
      modifies this
      ensures functions == PutAll(old(functions), c.methods)
    {
      for i := 0 to |c.methods|
        invariant functions == PutAll(old(functions), c.methods[..i])
      {
        Add(c.methods[i]);
        assert c.methods[..i + 1][..i] == c.methods[..i];
      }
      assert c.methods[..|c.methods|] == c.methods;
    }
  }

  /** A vector of names with a map from names to classes. */
  class Bases {
    var names: seq<string>
    var byName: map<string, Class>

    constructor ()
      ensures names == [] && byName == map[]
    {
      names, byName := [], map[];
    }

    method Push(c: Class)
      modifies this
      ensures names == old(names) + [c.name] && byName == old(byName)[c.name := c]
    {
      names := names + [c.name];
      byName := byName[c.name := c];
    }

    /** `findPrimaryChain`. */
    method FindPrimaryChain(c: Class)
      modifies this
      ensures names == old(names) + Names(Chain(c)) && byName == Mapped(old(byName), Chain(c))
      decreases c
    {
      hide HasVirtual, Chain, Names, Mapped;
      ChainIs(c);
      NothingMapped(byName);
      var i := 0;
      while i < |c.bases|
        invariant 0 <= i <= |c.bases|
        invariant forall j :: 0 <= j < i ==> !HasVirtual(c.bases[j])
        invariant names == old(names) && byName == old(byName)
      {
        if HasVirtual(c.bases[i]) {
          PrimaryIs(c.bases, i);
          FindPrimaryChain(c.bases[i]);
          Push(c.bases[i]);
          MappedSnoc(old(byName), Chain(c.bases[i]), c.bases[i]);
          NamesSnoc(Chain(c.bases[i]), c.bases[i]);
          return;
        }
        i := i + 1;
      }
      PrimaryIs(c.bases, i);
    }

    /** The bases of one class, but for those that go by the name of a primary one. */
    method PushOthers(c: Class, primary: Bases)
      requires primary != this && forall n :: n in primary.byName <==> n in primary.names
      modifies this
      ensures var others := Others(c.bases, primary.names);
        names == old(names) + Names(others) && byName == Mapped(old(byName), others)
    {
      for j := 0 to |c.bases|
        invariant var others := Others(c.bases[..j], primary.names);
          names == old(names) + Names(others) && byName == Mapped(old(byName), others)
      {
        ghost var others := Others(c.bases[..j], primary.names);
        assert c.bases[..j + 1][..j] == c.bases[..j];
        if c.bases[j].name !in primary.byName {
          Push(c.bases[j]);
          MappedSnoc(old(byName), others, c.bases[j]);
        } else {
          assert others + [] == others;
        }
      }
      assert c.bases[..|c.bases|] == c.bases;
    }

    /** `findSecondary`. */
    method FindSecondary(c: Class, primary: Bases)
      requires primary != this && WellFormed(c)
      requires primary.names == Names(Chain(c)) && primary.byName == Mapped(map[], Chain(c))
      modifies this
      ensures var others := SecondariesOf(c);
        names == old(names) + Names(others) && byName == Mapped(old(byName), others)
    {
      hide WellFormed, Chain, Secondaries, SecondariesOf, Others, Mapped;
      NothingMapped(byName);
      ghost var chain, known := Chain(c), primary.names;
      ChainIsConsistent(c);
      KeysAreNames(chain);
      NoSecondaries(known);
      assert chain[..0] == [];
      for i := 0 to |primary.names|
        invariant var others := Secondaries(chain[..i], known);
          names == old(names) + Names(others) && byName == Mapped(old(byName), others)
      {
        ghost var others := Secondaries(chain[..i], known);
        FoundByName(chain, i);
        var p := primary.byName[primary.names[i]];
        PushOthers(p, primary);
        SecondariesMore(chain, i, known);
        MappedConcat(old(byName), others, Others(p.bases, known));
      }
      assert chain[..|chain|] == chain;
      PushOthers(c, primary);
      SecondariesLast(c);
      MappedConcat(old(byName), Secondaries(chain, known), Others(c.bases, known));
    }
  }

  /** The layout being built, the entry points, and the address of the next word. */
  class Layout {
    var elements: seq<Element>
    var entries: map<string, nat>
    var address: nat

    constructor (a: nat)
      ensures elements == [] && entries == map[] && address == a
    {
      elements, entries, address := [], map[], a;
    }

    method AddWord(content: Content, owner: string, name: string)
      modifies this`elements, this`address
      ensures elements == old(elements) + [Element(content, owner, name, old(address))]
      ensures address == old(address) + WORD
    {
      elements := elements + [Element(content, owner, name, address)];
      address := address + WORD;
    }

    method AddFunctions(fs: seq<Method>)
      modifies this`elements, this`address
      ensures elements == old(elements) + Slots(fs, old(address)) && address == old(address) + WORD * |fs|
    {
      for i := 0 to |fs|
        invariant elements == old(elements) + Slots(fs[..i], old(address)) && address == old(address) + WORD * i
      {
        AddWord(Function, fs[i].owner, fs[i].mangled);
        assert Slots(fs[..i + 1], old(address))
            == Slots(fs[..i], old(address)) + [Element(Function, fs[i].owner, fs[i].mangled, old(address) + WORD * i)];
      }
      assert fs[..|fs|] == fs;
    }

    /** "offset to top", "rtti", and the functions. */
    method AddTable(c: Class, top: string, fs: seq<Method>)
      modifies this
      ensures elements == old(elements) + Words(Table(c, top, fs), old(address))
      ensures address == old(address) + WORD * (2 + |fs|)
      ensures entries == old(entries)[c.name := old(address) + 2 * WORD]
    {
      AddWord(OffsetToTop, top, "offset to top");
      AddWord(Rtti, c.name, "rtti");
      entries := entries[c.name := address];
      AddFunctions(fs);
    }

    ghost predicate Added(c: seq<Table>, elements0: seq<Element>, entries0: map<string, nat>, address0: nat)
      reads this
    {
      && elements == elements0 + Laid(c, address0) && entries == Entered(entries0, c, address0)
      && address == address0 + WORD * |Laid(c, address0)|
    }

    /** `buildVirtualTableLayout`. */
    method Build(c: Class)
      requires WellFormed(c)
      modifies this
      ensures Added(Tables(c), old(elements), old(entries), old(address))
      decreases Size(c)
    {
      hide WellFormed, Size, SecondariesOf, Chain;
      if c.bases == [] && c.methods == [] {
        TrivialHasNoTable(c);
        return;
      }
      if c.bases == [] {
        LeafTable(c);
        OneTable(Table(c, c.name, c.methods), entries, address);
        AddTable(c, c.name, c.methods);
        return;
      }
      var primary := new Bases();
      var secondary := new Bases();
      primary.FindPrimaryChain(c);
      secondary.FindSecondary(c, primary);
      BuildMain(c, primary);
      BuildSecondaries(c, secondary, old(elements), old(entries), old(address));
    }

    /** The methods along the primary chain. */
    method ChainFunctions(primary: Bases, ghost chain: seq<Class>) returns (list: FunctionList)
      requires primary.names == Names(chain) && primary.byName == Mapped(map[], chain) && Consistent(chain)
      ensures fresh(list) && list.functions == Functions(chain)
    {
      list := new FunctionList();
      for i := 0 to |primary.names|
        invariant list.functions == Functions(chain[..i])
      {
        FoundByName(chain, i);
        list.AddAll(primary.byName[primary.names[i]]);
        LineMore(chain, i);
      }
      assert chain[..|chain|] == chain;
    }

    method BuildMain(c: Class, primary: Bases)
      requires WellFormed(c) && primary.names == Names(Chain(c)) && primary.byName == Mapped(map[], Chain(c))
      modifies this
      ensures Added(if HasVirtual(c) then [MainTable(c)] else [], old(elements), old(entries), old(address))
    {
      hide WellFormed, Chain, Laid, Entered, HasVirtual;
      ghost var chain := Chain(c);
      ChainIsConsistent(c);
      OneTable(MainTable(c), entries, address);
      NoTable(entries, address);
      if |primary.names| > 0 {
        ChainHasVirtual(c);
        var list := ChainFunctions(primary, chain);
        list.AddAll(c);
        LineLast(c);
        FoundByName(chain, 0);
        assert primary.byName[primary.names[0]] == chain[0];
        AddTable(c, primary.byName[primary.names[0]].name, list.functions);
      } else if HasVirtual(c) {
        var list := new FunctionList();
        list.AddAll(c);
        LineLast(c);
        AddTable(c, c.name, list.functions);
      }
    }

    method BuildSecondaries(c: Class, secondary: Bases, ghost elements0: seq<Element>,
                            ghost entries0: map<string, nat>, ghost address0: nat)
      requires WellFormed(c)
      requires secondary.names == Names(SecondariesOf(c)) && secondary.byName == Mapped(map[], SecondariesOf(c))
      requires Added(if HasVirtual(c) then [MainTable(c)] else [], elements0, entries0, address0)
      modifies this
      ensures Added(Tables(c), elements0, entries0, address0)
      decreases Size(c), 0
    {
      hide WellFormed, Size, SecondariesOf, HasVirtual, MainTable, Tables, AllTables, Laid, Entered, Mapped;
      ghost var others := SecondariesOf(c);
      ghost var main := if HasVirtual(c) then [MainTable(c)] else [];
      TablesOf(c);
      SecondariesAreConsistent(c);
      NoTables(main, Size(c));
      assert others[..0] == [];
      for i := 0 to |secondary.names|
        invariant Added(main + AllTables(others[..i], Size(c)), elements0, entries0, address0)
      {
        FoundByName(others, i);
        var s := secondary.byName[secondary.names[i]];
        assert s in others;
        PartsAreReached(c);
        PartIsWellFormed(c, s);
        Build(s);
        TablesMore(main, others, i, Size(c));
        ghost var ts := main + AllTables(others[..i], Size(c));
        LaidConcat(ts, Tables(s), address0);
        EnteredConcat(entries0, ts, Tables(s), address0);
      }
      assert others[..|others|] == others;
    }
  }
}
