/** `sql_create` and `prepare`: the table follows its class from version to version. */
module SqlMigration {
  import opened StdMap
  import opened Wrappers
  import opened SqlSchema
  import opened SqlInsert

  predicate IsUnique(key: string, id: string) {
    key != id && !("data_" <= key)
  }

  /** The columns of the unique key: all but the id and the texts of nested objects. */
  function UniqueKeys(d: Desc, id: string): seq<string> {
    if d.Nil? then [] else (if IsUnique(d.first.0, id) then [d.first.0] else []) + UniqueKeys(d.rest, id)
  }

  /**
   The table has the columns of the stored description and its unique key, or no unique key if no column belongs to
   it; without a description there is no table.
   */
  ghost predicate Synced(db: Db, stored: Desc, name: string, t: Types) {
    if stored.Nil? then db.columns.None? && db.unique.None?
    else
      && Sorted(stored) && db.columns == Some(AsMap(stored))
      && db.unique == KeyOf(UniqueKeys(stored, Id(name)))
      && Id(name) in AsMap(stored) && AsMap(stored)[Id(name)] == t.id
  }

  function KeyOf(keys: seq<string>): Option<set<string>> {
    if keys == [] then None else Some(Elements(keys))
  }

  // ----- facts about descriptions

  lemma {:induction false} UniqueKeysAreColumns(d: Desc, id: string)
    ensures Elements(UniqueKeys(d, id)) <= AsMap(d).Keys
  {
    if d.Cons? {
      UniqueKeysAreColumns(d.rest, id);
    }
  }

  lemma {:induction false} UniqueConcat(a: Desc, b: Desc, id: string)
    ensures UniqueKeys(Concat(a, b), id) == UniqueKeys(a, id) + UniqueKeys(b, id)
  {
    if a.Cons? {
      UniqueConcat(a.rest, b, id);
    }
  }

  lemma {:induction false} UniqueByKind(fields: Fields, name: string, t: Types)
    ensures UniqueKeys(Columns(fields), Id(name)) == PlainKeys(fields)
    ensures UniqueKeys(HashColumns(fields, t), Id(name)) == HashKeys(fields)
    ensures UniqueKeys(Datas(fields, t), Id(name)) == []
    ensures fields.Cons? <==> PlainKeys(fields) + HashKeys(fields) != []
  {
    if fields.Cons? {
      UniqueByKind(fields.rest, name, t);
      OneUnique(fields.first.0, name);
    }
    hide IsUnique, Column, Data, Hash, Id;
  }

  lemma OneUnique(f: string, name: string)
    ensures IsUnique(Column(f), Id(name)) && IsUnique(Hash(f), Id(name)) && !IsUnique(Data(f), Id(name))
  {
    assert Column(f)[0] == 'c' && Hash(f)[0] == 'h' && Id(name)[0] == 'i' && "data_"[0] == 'd';
  }

  /** The unique key has columns exactly when the class has fields. */
  lemma UniqueOfDescription(name: string, fields: Fields, t: Types)
    ensures UniqueKeys(Description(name, fields, t), Id(name)) == PlainKeys(fields) + HashKeys(fields)
    ensures fields.Cons? <==> PlainKeys(fields) + HashKeys(fields) != []
  {
    hide Columns, Datas, HashColumns, PlainKeys, HashKeys, Concat, UniqueKeys, Id;
    var id := Cons((Id(name), t.id), Nil);
    var h := Concat(HashColumns(fields, t), id);
    UniqueByKind(fields, name, t);
    IdIsNotUnique(Id(name), t);
    UniqueConcat(HashColumns(fields, t), id, Id(name));
    UniqueConcat(Datas(fields, t), h, Id(name));
    UniqueConcat(Columns(fields), Concat(Datas(fields, t), h), Id(name));
    assert HashKeys(fields) + [] == HashKeys(fields) && [] + HashKeys(fields) == HashKeys(fields);
  }

  lemma IdIsNotUnique(id: string, t: Types)
    ensures UniqueKeys(Cons((id, t.id), Nil), id) == []
  {
    assert UniqueKeys(Nil, id) == [];
  }

  lemma {:induction false} ConcatHas(a: Desc, b: Desc, key: string)
    requires key in AsMap(b) && key !in AsMap(a)
    ensures key in AsMap(Concat(a, b)) && AsMap(Concat(a, b))[key] == AsMap(b)[key]
  {
    if a.Cons? {
      ConcatHas(a.rest, b, key);
    }
  }

  lemma {:induction false} KeysAreKeys(d: Desc)
    ensures Elements(Keys(d)) == AsMap(d).Keys
  {
    if d.Cons? {
      KeysAreKeys(d.rest);
      assert Elements(Keys(d)) == {d.first.0} + Elements(Keys(d.rest));
    }
  }

  lemma DescriptionHasId(name: string, fields: Fields, t: Types)
    ensures Id(name) in AsMap(Description(name, fields, t)) && AsMap(Description(name, fields, t))[Id(name)] == t.id
  {
    hide Columns, Datas, HashColumns, Concat, PlainKeys, DataKeys, HashKeys, Keys, Id;
    var id := Cons((Id(name), t.id), Nil);
    KeysOfColumns(fields, t);
    IdIsNoColumn(name);
    KeysAreKeys(Columns(fields));
    KeysAreKeys(Datas(fields, t));
    KeysAreKeys(HashColumns(fields, t));
    assert AsMap(id) == map[Id(name) := t.id];
    var h := Concat(HashColumns(fields, t), id);
    ConcatHas(HashColumns(fields, t), id, Id(name));
    ConcatHas(Datas(fields, t), h, Id(name));
    ConcatHas(Columns(fields), Concat(Datas(fields, t), h), Id(name));
  }

  lemma IdIsNoColumn(name: string)
    ensures Id(name) != "" && Id(name)[0] == 'i'
  {
  }

  // ----- the code

  /** The loops that collect the columns of the unique key. */
  method UniqueColumns(d: Desc, id: string) returns (keys: seq<string>)
    ensures keys == UniqueKeys(d, id)
  {
    hide IsUnique, UniqueKeys;
    keys := [];
    FirstUnique(d, id);
    var it := d;
    while it.Cons?
      invariant keys + UniqueKeys(it, id) == UniqueKeys(d, id)
      decreases it
    {
      FirstUnique(it, id);
      if IsUnique(it.first.0, id) {
        assert keys + ([it.first.0] + UniqueKeys(it.rest, id)) == keys + [it.first.0] + UniqueKeys(it.rest, id);
        keys := keys + [it.first.0];
      } else {
        assert [] + UniqueKeys(it.rest, id) == UniqueKeys(it.rest, id);
      }
      it := it.rest;
    }
    FirstUnique(it, id);
    assert keys + [] == keys;
  }

  lemma FirstUnique(d: Desc, id: string)
    ensures UniqueKeys(d, id) ==
      if d.Nil? then [] else (if IsUnique(d.first.0, id) then [d.first.0] else []) + UniqueKeys(d.rest, id)
  {
  }

  /** The loop that drops columns. */
  method DropColumns(del: Desc, sql: seq<Stmt>, ghost db: Db, ghost base: map<string, string>, ghost keep: string)
      returns (sql': seq<Stmt>)
    requires Sorted(del) && AsMap(del).Keys <= base.Keys && keep in base && keep !in AsMap(del)
    requires RunAll(db, sql).db == Db(Some(base), None)
    ensures RunAll(db, sql') == Ran(Db(Some(base - AsMap(del).Keys), None), RunAll(db, sql).accepted)
  {
    hide RunAll;
    sql' := sql;
    ghost var columns := base;
    var it := del;
    while it.Cons?
      invariant Sorted(it) && AsMap(it).Keys <= columns.Keys && keep in columns && keep !in AsMap(it)
      invariant RunAll(db, sql') == Ran(Db(Some(columns), None), RunAll(db, sql).accepted)
      invariant columns - AsMap(it).Keys == base - AsMap(del).Keys
      decreases it
    {
      AboveAll(it.rest, it.first.0);
      RunSnoc(db, sql', DropColumn(it.first.0));
      sql' := sql' + [DropColumn(it.first.0)];
      assert keep in columns - {it.first.0};
      assert columns - {it.first.0} - AsMap(it.rest).Keys == columns - AsMap(it).Keys;
      columns := columns - {it.first.0};
      it := it.rest;
    }
    assert AsMap(it).Keys == {};
    assert columns - AsMap(it).Keys == columns;
  }

  /** The loop that adds columns. */
  method AddColumns(ins: Desc, sql: seq<Stmt>, ghost db: Db, ghost base: map<string, string>) returns (sql': seq<Stmt>)
    requires Sorted(ins) && AsMap(ins).Keys !! base.Keys
    requires RunAll(db, sql).db == Db(Some(base), None)
    ensures RunAll(db, sql') == Ran(Db(Some(base + AsMap(ins)), None), RunAll(db, sql).accepted)
  {
    hide RunAll;
    sql' := sql;
    ghost var columns := base;
    var it := ins;
    while it.Cons?
      invariant Sorted(it) && AsMap(it).Keys !! columns.Keys
      invariant RunAll(db, sql') == Ran(Db(Some(columns), None), RunAll(db, sql).accepted)
      invariant columns + AsMap(it) == base + AsMap(ins)
      decreases it
    {
      AboveAll(it.rest, it.first.0);
      RunSnoc(db, sql', AddColumn(it.first.0, it.first.1));
      sql' := sql' + [AddColumn(it.first.0, it.first.1)];
      assert columns[it.first.0 := it.first.1] + AsMap(it.rest) == columns + AsMap(it);
      columns := columns[it.first.0 := it.first.1];
      it := it.rest;
    }
    assert columns + map[] == columns;
  }

  /**
   `sql_create`: from the previous description, the statements that bring the table to the current one. The database
   accepts all of them exactly when the class has fields and the previous version, if there was one, had a key to drop.
   Those it refuses do no harm when they are skipped.
   */
  method SqlCreate(w: ClassWrapper, previous: Desc, ghost db: Db) returns (sql: seq<Stmt>, previous': Desc)
    requires w.Valid() && Synced(db, previous, w.name, w.types)
    modifies w
    ensures previous' == Description(w.name, w.fields, w.types)
    ensures RunAll(db, sql).accepted <==> w.fields.Cons? && (previous == Nil || UniqueKeys(previous, Id(w.name)) != [])
    ensures Synced(RunAll(db, sql).db, previous', w.name, w.types)
  {
    hide RunAll, Changed, Description, UniqueKeys, Id;
    var desc := w.MetaDescription();
    previous' := desc;
    DescriptionHasId(w.name, w.fields, w.types);
    UniqueOfDescription(w.name, w.fields, w.types);
    UniqueKeysAreColumns(desc, Id(w.name));
    NoStatements(db);
    sql := [];
    var keys;
    if previous == Nil {
      keys := UniqueColumns(desc, w.idName);
      RunSnoc(db, sql, CreateTable(desc));
      sql := sql + [CreateTable(desc)];
    } else {
      ghost var base, comp := AsMap(previous), AsMap(desc);
      var ins, del := Cmp(previous, desc);
      DifferenceIsExact(base, comp);
      assert Id(w.name) !in AsMap(del) by {
        IdStays(base, comp, Id(w.name));
      }
      RunSnoc(db, sql, DropUnique);
      sql := sql + [DropUnique];
      sql := DropColumns(del, sql, db, base, Id(w.name));
      sql := AddColumns(ins, sql, db, base - AsMap(del).Keys);
      keys := UniqueColumns(desc, w.idName);
    }
    RunSnoc(db, sql, AddUnique(keys));
    sql := sql + [AddUnique(keys)];
  }

  lemma NoStatements(db: Db)
    ensures RunAll(db, []) == Ran(db, true)
  {
  }

  lemma IdStays(base: map<string, string>, comp: map<string, string>, id: string)
    requires id in base && id in comp && base[id] == comp[id]
    ensures id !in Changed(base, comp)
  {
  }

  /** The database and the table of descriptions in it. */
  class Driver {
    var db: Db
    var stored: Desc

    constructor ()
      ensures db == Db(None, None) && stored == Nil
    {
      db, stored := Db(None, None), Nil;
    }

    /** `prepare`; a statement the database refuses is reported and skipped. */
    method Prepare(w: ClassWrapper)
      requires w.Valid() && Synced(db, stored, w.name, w.types)
      modifies this, w
      ensures stored == Description(w.name, w.fields, w.types) && Synced(db, stored, w.name, w.types)
    {
      hide Synced, RunAll, Description, Exec;
      var sql, desc := SqlCreate(w, stored, db);
      ghost var start := db;
      NoStatements(db);
      var i := 0;
      assert sql[..0] == [];
      while i < |sql|
        invariant 0 <= i <= |sql| && stored == old(stored) && RunAll(start, sql[..i]).db == db
      {
        assert sql[..i + 1] == sql[..i] + [sql[i]];
        RunSnoc(start, sql[..i], sql[i]);
        var next := Exec(db, sql[i]);
        if next.Some? {
          db := next.value;
        }
        i := i + 1;
      }
      assert sql[..i] == sql;
      stored := desc;
    }
  }

  /** A class without fields leaves its id behind, and no unique key. */
  lemma SyncedTable(db: Db, name: string, fields: Fields, t: Types)
    requires Synced(db, Description(name, fields, t), name, t)
    ensures db == Db(Some(AsMap(Description(name, fields, t))), KeyOf(PlainKeys(fields) + HashKeys(fields)))
    ensures db.unique.Some? <==> fields.Cons?
  {
    UniqueOfDescription(name, fields, t);
    DescriptionHasId(name, fields, t);
    hide Description, UniqueKeys, PlainKeys, HashKeys;
  }

  /** One version of a class after the other: the table is always that of the last version. */
  method Deploy(driver: Driver, name: string, types: Types, versions: seq<Fields>)
    requires Synced(driver.db, driver.stored, name, types)
    requires forall v :: v in versions ==> Sorted(v)
    modifies driver
    ensures Synced(driver.db, driver.stored, name, types)
    ensures versions != [] ==>
      var last := versions[|versions| - 1];
      && driver.stored == Description(name, last, types)
      && driver.db == Db(Some(AsMap(Description(name, last, types))), KeyOf(PlainKeys(last) + HashKeys(last)))
  {
    hide Synced, Description;
    var i := 0;
    while i < |versions|
      invariant 0 <= i <= |versions| && Synced(driver.db, driver.stored, name, types)
      invariant i > 0 ==> driver.stored == Description(name, versions[i - 1], types)
    {
      var w := new ClassWrapper(name, versions[i], types);
      driver.Prepare(w);
      i := i + 1;
    }
    if versions != [] {
      SyncedTable(driver.db, name, versions[|versions| - 1], types);
    }
  }
}
