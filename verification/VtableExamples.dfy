/** A class with two bases, and its virtual tables word by word. */
module VtableExamples {
  import opened VtableSlots
  import opened VtableLayout

  const F := Method("A", "f", ["int"], "A::f(int)")
  const G := Method("B", "g", [], "B::g()")
  const F_AGAIN := Method("C", "f", ["int"], "C::f(int)")
  const F_OTHER := Method("C", "f", ["double"], "C::f(double)")

  const A := Class("A", [F], [])
  const B := Class("B", [G], [])
  /** Overrides f(int), and declares an f of its own. */
  const C := Class("C", [F_OTHER, F_AGAIN], [A, B])

  /** The overrider takes its slot, the overload a new one. */
  lemma SlotsOfC()
    ensures Chain(C) == [A] && Functions(Line(C)) == [F_AGAIN, F_OTHER]
  {
    NoBases(A);
    assert HasVirtual(A) && Primary(C.bases) == 0;
    assert Chain(C) == [A];
    assert Line(C) == [A, C] && Line(C)[..1] == [A] && [A][..0] == [];
    PutTwo();
    LineLast(C);
    assert Functions([A]) == PutAll(Functions([]), [F]);
    assert PutAll([], [F]) == [F] by { assert [F][..0] == []; }
  }

  lemma PutTwo()
    ensures PutAll([F], [F_OTHER, F_AGAIN]) == [F_AGAIN, F_OTHER]
  {
    assert [F_OTHER, F_AGAIN][..1] == [F_OTHER] && [F_OTHER][..0] == [];
    assert Find([F], F_OTHER) == 1 && Put([F], F_OTHER) == [F, F_OTHER];
    assert PutAll([F], [F_OTHER]) == Put(PutAll([F], []), F_OTHER) == [F, F_OTHER];
    assert Find([F, F_OTHER], F_AGAIN) == 0 && [F, F_OTHER][0 := F_AGAIN] == [F_AGAIN, F_OTHER];
  }

  const MAIN := Table(C, "A", [F_AGAIN, F_OTHER])
  const SIDE := Table(B, "B", [G])

  /** The main table is that of A, extended; the table of B comes behind it, untouched. */
  lemma TablesOfC()
    ensures Tables(C) == [MAIN, SIDE]
  {
    SlotsOfC();
    SideTable();
    assert HasVirtual(C);
    TwoBases(A, B, C);
    hide *;
    TablesOf(C);
    OneMore();
    MainIs();
  }

  lemma MainIs()
    requires Chain(C) == [A] && Functions(Line(C)) == [F_AGAIN, F_OTHER]
    ensures MainTable(C) == MAIN && [MAIN] + [SIDE] == [MAIN, SIDE]
  {
    hide Chain, Functions, Line;
  }

  lemma SideTable()
    ensures Tables(B) == [SIDE]
  {
    NoBases(B);
    assert PutAll([], [G]) == [G] by { assert [G][..0] == []; }
    LineLast(B);
    hide Line, PutAll, SecondariesOf;
    TablesOf(B);
    assert AllTables([], Size(B)) == [];
    assert HasVirtual(B) && MainTable(B) == SIDE;
    assert [SIDE] + [] == [SIDE];
  }

  lemma OneMore()
    requires SecondariesOf(C) == [B] && Size(B) < Size(C)
    ensures AllTables(SecondariesOf(C), Size(C)) == Tables(B)
  {
    assert [B][..0] == [];
    hide SecondariesOf, Size;
    assert AllTables([], Size(C)) == [];
    assert AllTables([B], Size(C)) == AllTables([], Size(C)) + Tables(B);
  }

  /** The layout from address 1000 on: the offset first, then the type, then the functions, eight bytes each. */
  lemma LayoutOfC()
    ensures Laid(Tables(C), 1000) == [
      Element(OffsetToTop, "A", "offset to top", 1000), Element(Rtti, "C", "rtti", 1008),
      Element(Function, "C", "C::f(int)", 1016), Element(Function, "C", "C::f(double)", 1024),
      Element(OffsetToTop, "B", "offset to top", 1032), Element(Rtti, "B", "rtti", 1040),
      Element(Function, "B", "B::g()", 1048)]
    ensures Entered(map[], Tables(C), 1000) == map["C" := 1016, "B" := 1048]
  {
    TablesOfC();
    hide Tables;
    assert [MAIN, SIDE][..1] == [MAIN] && [MAIN][..0] == [];
    assert Laid([], 1000) == [] && Entered(map[], [], 1000) == map[];
    assert Laid([MAIN], 1000) == Words(MAIN, 1000);
    assert Entered(map[], [MAIN], 1000) == map["C" := 1016];
    assert Laid([MAIN, SIDE], 1000) == Words(MAIN, 1000) + Words(SIDE, 1032);
  }
}
