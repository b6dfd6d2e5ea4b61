/** The table of a class: its columns, and the statements that keep the table up to date when the class changes. */
module SqlSchema {
  import opened StdMap
  import opened Wrappers

  /** Columns and their SQL types, in the order of std::map. */
  type Desc = List<(string, string)>

  // ----- what the database does

  datatype Stmt =
    | CreateTable(columns: Desc)
    | AddUnique(keys: seq<string>)
    | DropUnique
    | DropColumn(name: string)
    | AddColumn(name: string, typ: string)

  /** `columns` is None as long as there is no table. */
  datatype Db = Db(columns: Option<map<string, string>>, unique: Option<set<string>>)

  function Elements(s: seq<string>): set<string> { set x | x in s }

  /** None: the database refuses the statement. */
  function Exec(db: Db, s: Stmt): Option<Db> {
    match s
    case CreateTable(columns) =>
      if columns.Nil? then None
      else Some(if db.columns.Some? then db else Db(Some(AsMap(columns)), None))
    case AddUnique(keys) =>
      if db.columns.Some? && db.unique.None? && keys != [] && Elements(keys) <= db.columns.value.Keys
      then Some(db.(unique := Some(Elements(keys)))) else None
    case DropUnique => if db.unique.Some? then Some(db.(unique := None)) else None
    case DropColumn(name) =>
      // a key whose column goes is not dealt with here: the code drops the key before any column
      if db.columns.Some? && db.unique.None? && name in db.columns.value && db.columns.value - {name} != map[]
      then Some(db.(columns := Some(db.columns.value - {name}))) else None
    case AddColumn(name, typ) =>
      if db.columns.Some? && name !in db.columns.value
      then Some(db.(columns := Some(db.columns.value[name := typ]))) else None
  }

  /** The database behind a list of statements, and whether it has accepted all of them. */
  datatype Ran = Ran(db: Db, accepted: bool)

  /** A statement that is refused is skipped. */
  function RunAll(db: Db, sql: seq<Stmt>): Ran
    decreases |sql|
  {
    if sql == [] then Ran(db, true)
    else RunNext(RunAll(db, sql[..|sql| - 1]), sql[|sql| - 1])
  }

  function RunNext(r: Ran, s: Stmt): Ran {
    match Exec(r.db, s)
    case None => Ran(r.db, false)
    case Some(db') => Ran(db', r.accepted)
  }

  lemma RunSnoc(db: Db, sql: seq<Stmt>, s: Stmt)
    ensures RunAll(db, sql + [s]) == RunNext(RunAll(db, sql), s)
  {
    assert (sql + [s])[..|sql|] == sql;
  }

  // ----- the difference of two descriptions

  function Changed(base: map<string, string>, comp: map<string, string>): map<string, string> {
    map k | k in base && (k !in comp || comp[k] != base[k]) :: base[k]
  }

  /** The least set of columns to drop and to add makes one description the other. */
  lemma DifferenceIsExact(base: map<string, string>, comp: map<string, string>)
    ensures var del, ins := Changed(base, comp), Changed(comp, base);
      && base - del.Keys + ins == comp
      && del.Keys <= base.Keys && ins.Keys !! (base - del.Keys).Keys
    ensures forall d: set<string>, i: map<string, string> ::
      d <= base.Keys && i.Keys !! (base - d).Keys && base - d + i == comp ==>
        Changed(base, comp).Keys <= d && Changed(comp, base).Keys <= i.Keys
  {
    forall d: set<string>, i: map<string, string> |
      d <= base.Keys && i.Keys !! (base - d).Keys && base - d + i == comp
      ensures Changed(base, comp).Keys <= d && Changed(comp, base).Keys <= i.Keys
    {
      assert forall k :: k in base && k !in d ==> k in (base - d).Keys;
    }
  }

  lemma {:induction false} FindIsLookup(m: Desc, key: string)
    ensures Find(m, key) == if key in AsMap(m) then Some(AsMap(m)[key]) else None
  {
    if m.Cons? {
      FindIsLookup(m.rest, key);
    }
  }

  function Find(m: Desc, key: string): Option<string> {
    if m.Nil? then None else if m.first.0 == key then Some(m.first.1) else Find(m.rest, key)
  }

  /** Where the first loop stands: all of `base` but `left` has been compared. */
  ghost predicate Compared(base: map<string, string>, comp: map<string, string>, left: map<string, string>,
                           ins: map<string, string>, del: map<string, string>) {
    && (forall k :: k in del <==> k in Changed(base, comp) && k !in left)
    && (forall k :: k in del ==> del[k] == base[k])
    && (forall k :: k in ins <==> k in Changed(comp, base) && k in base && k !in left)
    && (forall k :: k in ins ==> ins[k] == comp[k])
    && (forall k :: k in left ==> k in base && base[k] == left[k])
  }

  /** Where the second loop stands: all of `comp` but `left` has been looked up. */
  ghost predicate LookedUp(base: map<string, string>, comp: map<string, string>, left: map<string, string>,
                           ins: map<string, string>) {
    && (forall k :: k in ins <==> k in Changed(comp, base) && (k in base || k !in left))
    && (forall k :: k in ins ==> ins[k] == comp[k])
    && (forall k :: k in left ==> k in comp && comp[k] == left[k])
  }

  lemma CompareOne(base: map<string, string>, comp: map<string, string>, left: map<string, string>, key: string,
                   typ: string, ins: map<string, string>, del: map<string, string>)
    requires key !in left && Compared(base, comp, left[key := typ], ins, del)
    ensures key in base && base[key] == typ
    ensures key in comp && comp[key] != typ ==> Compared(base, comp, left, ins[key := comp[key]], del[key := typ])
    ensures key in comp && comp[key] == typ ==> Compared(base, comp, left, ins, del)
    ensures key !in comp ==> Compared(base, comp, left, ins, del[key := typ])
  {
    assert key in left[key := typ];
  }

  lemma LookUpOne(base: map<string, string>, comp: map<string, string>, left: map<string, string>, key: string,
                  typ: string, ins: map<string, string>)
    requires key !in left && LookedUp(base, comp, left[key := typ], ins)
    ensures LookedUp(base, comp, left, if key in base then ins else ins[key := typ])
  {
    assert key in left[key := typ];
  }

  lemma AllCompared(base: map<string, string>, comp: map<string, string>, ins: map<string, string>, del: map<string, string>)
    requires Compared(base, comp, map[], ins, del)
    ensures del == Changed(base, comp) && LookedUp(base, comp, comp, ins)
  {
  }

  lemma AllLookedUp(base: map<string, string>, comp: map<string, string>, ins: map<string, string>)
    requires LookedUp(base, comp, map[], ins)
    ensures ins == Changed(comp, base)
  {
  }

  /** `cmp`. */
  method Cmp(base: Desc, comp: Desc) returns (ins: Desc, del: Desc)
    requires Sorted(base) && Sorted(comp)
    ensures Sorted(ins) && Sorted(del)
    ensures AsMap(del) == Changed(AsMap(base), AsMap(comp)) && AsMap(ins) == Changed(AsMap(comp), AsMap(base))
  {
    hide Changed, Compared, LookedUp, Put;
    ins, del := Nil, Nil;
    ghost var b, c := AsMap(base), AsMap(comp);
    NothingCompared(b, c);
    var it := base;
    while it.Cons?
      invariant Sorted(it) && Sorted(ins) && Sorted(del) && Compared(b, c, AsMap(it), AsMap(ins), AsMap(del))
      decreases it
    {
      var key, typ := it.first.0, it.first.1;
      AboveAll(it.rest, key);
      FindIsLookup(comp, key);
      CompareOne(b, c, AsMap(it.rest), key, typ, AsMap(ins), AsMap(del));
      var found := Find(comp, key);
      if found.Some? {
        if found.value != typ {
          PutIsUpdate(del, key, typ);
          PutIsUpdate(ins, key, found.value);
          del := Put(del, key, typ);
          ins := Put(ins, key, found.value);
        }
      } else {
        PutIsUpdate(del, key, typ);
        del := Put(del, key, typ);
      }
      it := it.rest;
    }
    AllCompared(b, c, AsMap(ins), AsMap(del));
    it := comp;
    while it.Cons?
      invariant Sorted(it) && Sorted(ins) && LookedUp(b, c, AsMap(it), AsMap(ins))
      decreases it
    {
      var key := it.first.0;
      AboveAll(it.rest, key);
      FindIsLookup(base, key);
      LookUpOne(b, c, AsMap(it.rest), key, it.first.1, AsMap(ins));
      if Find(base, key).None? {
        PutIsUpdate(ins, key, it.first.1);
        ins := Put(ins, key, it.first.1);
      }
      it := it.rest;
    }
    AllLookedUp(b, c, AsMap(ins));
  }

  lemma NothingCompared(base: map<string, string>, comp: map<string, string>)
    ensures Compared(base, comp, base, map[], map[])
  {
  }
}
