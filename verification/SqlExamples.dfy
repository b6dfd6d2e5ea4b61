/** Two classes, with their columns and statements as the database sees them. */
module SqlExamples {
  import opened StdMap
  import opened Wrappers
  import opened SqlSchema
  import opened SqlInsert
  import opened SqlMigration

  const TYPES := Types("INT", "BLOB", "VARCHAR(32)")

  /** A plain field `a` and a nested one `b`. */
  const MIXED: Fields := Cons(("a", Plain("INTEGER")), Cons(("b", Nested), Nil))

  /** Two nested fields. */
  const NESTED: Fields := Cons(("a", Nested), Cons(("b", Nested), Nil))

  lemma MixedDescription()
    ensures Description("C", MIXED, TYPES) ==
      Cons(("colu_a", "INTEGER"), Cons(("data_b", "BLOB"), Cons(("hash_b", "VARCHAR(32)"), Cons(("id_C", "INT"), Nil))))
    ensures Sorted(MIXED)
  {
    assert Column("a") == "colu_a" && Data("b") == "data_b" && Hash("b") == "hash_b" && Id("C") == "id_C";
    hide Column, Data, Hash, Id;
    assert Columns(MIXED) == Cons(("colu_a", "INTEGER"), Nil);
    assert Datas(MIXED, TYPES) == Cons(("data_b", "BLOB"), Nil);
    assert HashColumns(MIXED, TYPES) == Cons(("hash_b", "VARCHAR(32)"), Nil);
    hide Columns, Datas, HashColumns;
    var id := Cons(("id_C", "INT"), Nil);
    var hash := Cons(("hash_b", "VARCHAR(32)"), id);
    assert Concat(HashColumns(MIXED, TYPES), id) == hash;
    assert Concat(Datas(MIXED, TYPES), hash) == Cons(("data_b", "BLOB"), hash);
  }

  /** The column list and the marks of the INSERT, the parameters bound to it, and the unique key. */
  lemma MixedStatements()
    ensures Join(Listed(MIXED)) == "colu_a,data_b,hash_b" && Join(Marks(|Listed(MIXED)|)) == "?,?,?"
    ensures Bound(MIXED) == ["colu_a", "data_b", "hash_b"]
    ensures UniqueKeys(Description("C", MIXED, TYPES), Id("C")) == ["colu_a", "hash_b"]
  {
    MixedDescription();
    assert Column("a") == "colu_a" && Data("b") == "data_b" && Hash("b") == "hash_b" && Id("C") == "id_C";
    assert Listed(MIXED) == ["colu_a", "data_b", "hash_b"];
    JoinThree("colu_a", "data_b", "hash_b");
    assert "colu_a" + "," + "data_b" == "colu_a,data_b" && "colu_a,data_b" + "," + "hash_b" == "colu_a,data_b,hash_b";
    MarksThree();
    JoinThree("?", "?", "?");
    assert "?" + "," + "?" == "?,?" && "?,?" + "," + "?" == "?,?,?";
    UniqueOfDescription("C", MIXED, TYPES);
  }

  lemma JoinThree(a: string, b: string, c: string)
    ensures Join([a, b, c]) == a + "," + b + "," + c
  {
    JoinMore([], a);
    JoinMore([a], b);
    JoinMore([a, b], c);
    assert [] + [a] == [a] && [a] + [b] == [a, b] && [a, b] + [c] == [a, b, c];
  }

  lemma MarksThree()
    ensures Marks(3) == ["?", "?", "?"]
  {
  }

  /** With two nested fields the columns come by kind, and the parameters by field. */
  lemma NestedDisagree()
    ensures Listed(NESTED) == ["data_a", "data_b", "hash_a", "hash_b"]
    ensures Bound(NESTED) == ["data_a", "hash_a", "data_b", "hash_b"]
  {
    assert Data("a") == "data_a" && Data("b") == "data_b" && Hash("a") == "hash_a" && Hash("b") == "hash_b";
  }
}
