/** The columns of a class, the INSERT statement that lists them, and the parameters bound to it. */
module SqlInsert {
  import opened StdMap
  import opened Wrappers
  import opened SqlSchema

  /** What a field is stored as: a column of its own, or a nested object's text and the hash of it. */
  datatype Field = Plain(typ: string) | Nested

  type Fields = List<(string, Field)>

  /** The SQL types of the columns every class can have. */
  datatype Types = Types(id: string, blob: string, hash: string)

  // ----- the columns

  function Column(f: string): string { "colu_" + f }

  function Data(f: string): string { "data_" + f }

  function Hash(f: string): string { "hash_" + f }

  function Id(name: string): string { "id_" + name }

  function Columns(fields: Fields): Desc {
    if fields.Nil? then Nil
    else if fields.first.1.Plain? then Cons((Column(fields.first.0), fields.first.1.typ), Columns(fields.rest))
    else Columns(fields.rest)
  }

  function Datas(fields: Fields, t: Types): Desc {
    if fields.Nil? then Nil
    else if fields.first.1.Nested? then Cons((Data(fields.first.0), t.blob), Datas(fields.rest, t))
    else Datas(fields.rest, t)
  }

  function HashColumns(fields: Fields, t: Types): Desc {
    if fields.Nil? then Nil
    else if fields.first.1.Nested? then Cons((Hash(fields.first.0), t.hash), HashColumns(fields.rest, t))
    else HashColumns(fields.rest, t)
  }

  /** The description of a class: plain columns, nested texts, hashes, and the id. */
  function Description(name: string, fields: Fields, t: Types): Desc {
    Concat(Columns(fields), Concat(Datas(fields, t), Concat(HashColumns(fields, t), Cons((Id(name), t.id), Nil))))
  }

  lemma {:induction false} ColumnsSnoc(fields: Fields, f: string, k: Field, t: Types)
    ensures Columns(Snoc(fields, (f, k))) == if k.Plain? then Snoc(Columns(fields), (Column(f), k.typ)) else Columns(fields)
    ensures Datas(Snoc(fields, (f, k)), t) == if k.Nested? then Snoc(Datas(fields, t), (Data(f), t.blob)) else Datas(fields, t)
    ensures HashColumns(Snoc(fields, (f, k)), t) ==
      if k.Nested? then Snoc(HashColumns(fields, t), (Hash(f), t.hash)) else HashColumns(fields, t)
  {
    if fields.Cons? {
      ColumnsSnoc(fields.rest, f, k, t);
    }
  }

  /** All columns so far come before those of the next field of the same kind. */
  lemma {:induction false} ColumnsBelow(fields: Fields, f: string, t: Types)
    requires Below(fields, f)
    ensures Below(Columns(fields), Column(f)) && Below(Columns(fields), Data(f)) && Below(Columns(fields), Hash(f))
    ensures Below(Datas(fields, t), Data(f)) && Below(Datas(fields, t), Hash(f)) && Below(HashColumns(fields, t), Hash(f))
  {
    if fields.Cons? {
      ColumnsBelow(fields.rest, f, t);
      LessBehind("colu_", fields.first.0, f);
      LessBehind("data_", fields.first.0, f);
      LessBehind("hash_", fields.first.0, f);
      KindsInOrder(fields.first.0, f);
    }
  }

  lemma KindsInOrder(f: string, g: string)
    ensures Less(Column(f), Data(g)) && Less(Column(f), Hash(g)) && Less(Column(f), Id(g))
    ensures Less(Data(f), Hash(g)) && Less(Data(f), Id(g)) && Less(Hash(f), Id(g))
  {
  }

  /** The columns behind the plain ones start with one that comes after all plain ones, and so on. */
  lemma RestStarts(fields: Fields, name: string, t: Types, f: string)
    ensures var tail := Concat(HashColumns(fields, t), Cons((Id(name), t.id), Nil));
      && tail.Cons? && Less(Data(f), tail.first.0)
      && Concat(Datas(fields, t), tail).Cons? && Less(Column(f), Concat(Datas(fields, t), tail).first.0)
  {
    HashStarts(fields, t, f);
    DataStarts(fields, t, f);
    KindsInOrder(f, name);
  }

  lemma {:induction false} HashStarts(fields: Fields, t: Types, f: string)
    ensures HashColumns(fields, t).Cons? ==>
      Less(Data(f), HashColumns(fields, t).first.0) && Less(Column(f), HashColumns(fields, t).first.0)
  {
    if fields.Cons? {
      HashStarts(fields.rest, t, f);
      KindsInOrder(f, fields.first.0);
    }
  }

  lemma {:induction false} DataStarts(fields: Fields, t: Types, f: string)
    ensures Datas(fields, t).Cons? ==> Less(Column(f), Datas(fields, t).first.0)
  {
    if fields.Cons? {
      DataStarts(fields.rest, t, f);
      KindsInOrder(f, fields.first.0);
    }
  }

  lemma AddPlain(name: string, done: Fields, f: string, typ: string, t: Types)
    requires Below(done, f)
    ensures Put(Description(name, done, t), Column(f), typ) == Description(name, Snoc(done, (f, Plain(typ))), t)
  {
    var tail := Concat(HashColumns(done, t), Cons((Id(name), t.id), Nil));
    ColumnsBelow(done, f, t);
    ColumnsSnoc(done, f, Plain(typ), t);
    RestStarts(done, name, t, f);
    PutBetween(Columns(done), Concat(Datas(done, t), tail), Column(f), typ);
    hide Put, Concat, Columns, Datas, HashColumns, Column;
  }

  lemma AddNested(name: string, done: Fields, f: string, t: Types)
    requires Below(done, f)
    ensures Put(Put(Description(name, done, t), Data(f), t.blob), Hash(f), t.hash) ==
      Description(name, Snoc(done, (f, Nested)), t)
  {
    var id := Cons((Id(name), t.id), Nil);
    var c, d, h := Columns(done), Datas(done, t), HashColumns(done, t);
    var d', h' := Snoc(d, (Data(f), t.blob)), Snoc(h, (Hash(f), t.hash));
    ColumnsBelow(done, f, t);
    ColumnsSnoc(done, f, Nested, t);
    RestStarts(done, name, t, f);
    KindsInOrder(f, f);
    KindsInOrder(f, name);
    hide Put, Columns, Datas, HashColumns, Data, Hash, Id, Snoc;
    ConcatAssoc(c, d, Concat(h, id));
    BelowConcat(c, d, Data(f));
    PutBetween(Concat(c, d), Concat(h, id), Data(f), t.blob);
    ConcatSnocs(c, d, (Data(f), t.blob));
    BelowSnoc(d, Data(f), t.blob, Hash(f));
    BelowConcat(c, d', Hash(f));
    BelowConcat(Concat(c, d'), h, Hash(f));
    ConcatAssoc(Concat(c, d'), h, id);
    PutBetween(Concat(Concat(c, d'), h), id, Hash(f), t.hash);
    ConcatSnocs(Concat(c, d'), h, (Hash(f), t.hash));
    ConcatAssoc(Concat(c, d'), h', id);
    ConcatAssoc(c, d', Concat(h', id));
  }

  lemma {:induction false} ConcatSnocs<T>(l: List<T>, m: List<T>, x: T)
    ensures Snoc(Concat(l, m), x) == Concat(l, Snoc(m, x))
  {
    if l.Cons? {
      ConcatSnocs(l.rest, m, x);
    }
  }

  // ----- the INSERT statement

  function Keys(d: Desc): seq<string> {
    if d.Nil? then [] else [d.first.0] + Keys(d.rest)
  }

  /** The columns an INSERT lists: all but the id. */
  function Listed(fields: Fields): seq<string> {
    PlainKeys(fields) + DataKeys(fields) + HashKeys(fields)
  }

  function PlainKeys(fields: Fields): seq<string> {
    if fields.Nil? then []
    else (if fields.first.1.Plain? then [Column(fields.first.0)] else []) + PlainKeys(fields.rest)
  }

  function DataKeys(fields: Fields): seq<string> {
    if fields.Nil? then []
    else (if fields.first.1.Nested? then [Data(fields.first.0)] else []) + DataKeys(fields.rest)
  }

  function HashKeys(fields: Fields): seq<string> {
    if fields.Nil? then []
    else (if fields.first.1.Nested? then [Hash(fields.first.0)] else []) + HashKeys(fields.rest)
  }

  /** What `store` binds, parameter by parameter: a nested field binds its text and its hash at once. */
  function Bound(fields: Fields): seq<string> {
    PlainKeys(fields) + NestedKeys(fields)
  }

  function NestedKeys(fields: Fields): seq<string> {
    if fields.Nil? then []
    else (if fields.first.1.Nested? then [Data(fields.first.0), Hash(fields.first.0)] else []) + NestedKeys(fields.rest)
  }

  function CountNested(fields: Fields): nat {
    if fields.Nil? then 0 else (if fields.first.1.Nested? then 1 else 0) + CountNested(fields.rest)
  }

  lemma {:induction false} NestedLengths(fields: Fields)
    ensures |DataKeys(fields)| == |HashKeys(fields)| == CountNested(fields) && |NestedKeys(fields)| == 2 * CountNested(fields)
    ensures CountNested(fields) > 0 ==>
      exists f :: NestedKeys(fields)[0] == DataKeys(fields)[0] == Data(f) && NestedKeys(fields)[1] == HashKeys(fields)[0] == Hash(f)
    ensures forall i :: 0 <= i < |DataKeys(fields)| ==> exists f :: DataKeys(fields)[i] == Data(f)
  {
    if fields.Cons? {
      NestedLengths(fields.rest);
      if fields.first.1.Nested? {
        assert DataKeys(fields)[0] == Data(fields.first.0);
        assert forall i :: 0 < i < |DataKeys(fields)| ==> DataKeys(fields)[i] == DataKeys(fields.rest)[i - 1];
      }
    }
  }

  /**
   Every parameter is bound to the column it is listed for exactly when the class has at most one nested field: with
   two, the hash of the first is bound where the text of the second belongs.
   */
  lemma ParametersAlign(fields: Fields)
    ensures Bound(fields) == Listed(fields) <==> CountNested(fields) <= 1
    ensures |Bound(fields)| == |Listed(fields)|
  {
    var p, d, h, n := PlainKeys(fields), DataKeys(fields), HashKeys(fields), NestedKeys(fields);
    NestedLengths(fields);
    assert p + d + h == p + (d + h);
    if CountNested(fields) == 0 {
      assert n == d + h;
    } else if CountNested(fields) == 1 {
      assert n == [n[0], n[1]] && d + h == [d[0], h[0]];
    } else {
      var f :| n[1] == Hash(f);
      var g :| d[1] == Data(g);
      assert Hash(f)[0] == 'h' && Data(g)[0] == 'd';
      assert Bound(fields)[|p| + 1] == n[1] && Listed(fields)[|p| + 1] == d[1];
    }
  }

  function Join(s: seq<string>): string {
    if |s| == 0 then "" else if |s| == 1 then s[0] else Join(s[..|s| - 1]) + "," + s[|s| - 1]
  }

  lemma {:induction false} JoinMore(s: seq<string>, x: string)
    ensures Join(s + [x]) == if s == [] then x else Join(s) + "," + x
  {
    if s != [] {
      assert (s + [x])[..|s|] == s;
    }
  }

  /** The parameter list of `n` parameters. */
  function Marks(n: nat): seq<string> { seq(n, i => "?") }

  // ----- binding

  /** `mysql_statement`: a cursor over the parameters. `bound` says what each holds; `aborted` is `abort()`. */
  class Statement {
    const paramCount: nat
    var bound: seq<string>
    var aborted: bool

    constructor (paramCount: nat)
      ensures this.paramCount == paramCount && bound == [] && !aborted
    {
      this.paramCount := paramCount;
      bound, aborted := [], false;
    }

    method Reset()
      modifies this`bound
      ensures bound == []
    {
      bound := [];
    }

    method BindBlob(f: string)
      modifies this
      ensures aborted <==> old(aborted) || |old(bound)| + 2 > paramCount
      ensures bound == if aborted then old(bound) else old(bound) + [Data(f), Hash(f)]
    {
      if |bound| + 1 >= paramCount {
        aborted := true;
      }
      if !aborted {
        bound := bound + [Data(f)];
        bound := bound + [Hash(f)];
      }
    }

    /** `bindINTEGER` and `bindVARCHAR`. */
    method BindPlain(f: string)
      modifies this
      ensures aborted <==> old(aborted) || |old(bound)| + 1 > paramCount
      ensures bound == if aborted then old(bound) else old(bound) + [Column(f)]
    {
      if |bound| >= paramCount {
        aborted := true;
      }
      if !aborted {
        bound := bound + [Column(f)];
      }
    }
  }

  // ----- the wrapper of a class

  class ClassWrapper {
    const name: string
    const fields: Fields
    const types: Types
    var idName: string

    ghost predicate Valid()
      reads this
    {
      Sorted(fields)
    }

    constructor (name: string, fields: Fields, types: Types)
      requires Sorted(fields)
      ensures Valid() && this.name == name && this.fields == fields && this.types == types
    {
      this.name, this.fields, this.types, idName := name, fields, types, "";
    }

    /** `sql_meta_description`. */
    method MetaDescription() returns (d: Desc)
      requires Valid()
      modifies this
      ensures idName == Id(name) && d == Description(name, fields, types) && Sorted(d)
    {
      hide Put, Description, Column, Data, Hash, Id;
      idName := "id_" + name;
      PutIsUpdate(Nil, idName, types.id);
      d := Put(Nil, idName, types.id);
      ghost var done := Nil;
      OnlyId(name, types);
      var it := fields;
      while it.Cons?
        invariant idName == Id(name) && Sorted(it) && Sorted(d) && d == Description(name, done, types) && fields == Concat(done, it)
        invariant it.Cons? ==> Below(done, it.first.0)
        decreases it
      {
        var f, k := it.first.0, it.first.1;
        ColumnNames(f);
        if k.Plain? {
          AddPlain(name, done, f, k.typ, types);
          PutIsUpdate(d, "colu_" + f, k.typ);
          d := Put(d, "colu_" + f, k.typ);
        } else {
          AddNested(name, done, f, types);
          PutIsUpdate(d, "data_" + f, types.blob);
          d := Put(d, "data_" + f, types.blob);
          PutIsUpdate(d, "hash_" + f, types.hash);
          d := Put(d, "hash_" + f, types.hash);
        }
        ConcatSnoc(done, (f, k), it.rest);
        if it.rest.Cons? {
          BelowSnoc(done, f, k, it.rest.first.0);
        }
        done := Snoc(done, (f, k));
        it := it.rest;
      }
      ConcatNil(done);
    }

    /** `sql_insert_stmt`: the column names and the parameters. */
    method InsertStatement() returns (names: string, params: string)
      requires Valid()
      modifies this
      ensures names == Join(Listed(fields)) && params == Join(Marks(|Listed(fields)|))
    {
      hide Join, Listed, Description, Id, Marks, Keys;
      var d := MetaDescription();
      ghost var listed := Listed(fields);
      KeysOfDescription(name, fields, types);
      names, params := "", "";
      EmptyJoin();
      var it, first := d, true;
      ghost var seen: seq<string> := [];
      FirstKey(it);
      while it.Cons?
        invariant Keys(d) == seen + Keys(it) && first == (seen == []) && idName == Id(name)
        invariant seen <= listed ==> names == Join(seen) && params == Join(Marks(|seen|))
        invariant it.Nil? ==> names == Join(listed) && params == Join(Marks(|listed|))
        decreases it
      {
        var key := it.first.0;
        FirstKey(it);
        FirstKey(it.rest);
        assert seen + ([key] + Keys(it.rest)) == seen + [key] + Keys(it.rest);
        KeyAt(listed, Id(name), seen, key, Keys(it.rest));
        if idName != key {
          if !first {
            names := names + ",";
            params := params + ",";
          }
          names := names + key;
          params := params + "?";
          JoinMore(seen, key);
          MarksMore(|seen|);
        }
        seen := seen + [key];
        first := false;
        it := it.rest;
      }
    }

    /** `store`: binds the fields to a fresh statement for the INSERT. */
    method Store(s: Statement)
      requires Valid() && s.paramCount == |Listed(fields)| && !s.aborted
      modifies this, s
      ensures !s.aborted && s.bound == Bound(fields)
    {
      hide Listed, Bound, Description, Id, BoundBy, BoundByOne;
      s.Reset();
      var d := MetaDescription();
      ParametersAlign(fields);
      EverythingIsBound(name, fields, types);
      var it := d;
      NothingBound(fields, idName);
      while it.Cons?
        invariant !s.aborted && s.bound + BoundBy(it, fields, idName) == Bound(fields) && idName == Id(name)
        decreases it
      {
        BoundFirst(it, fields, idName);
        BindColumn(s, it.first.0);
        it := it.rest;
      }
      NothingBound(fields, idName);
    }

    /** A round of that loop: binds the field of one column, unless it is the id or a data column. */
    method BindColumn(s: Statement, key: string)
      requires !s.aborted && |s.bound| + |BoundByOne(key, fields, idName)| <= s.paramCount
      modifies s
      ensures !s.aborted && s.bound == old(s.bound) + BoundByOne(key, fields, idName)
    {
      hide Column, Data, Hash;
      if key != idName && |key| >= 5 && key[..5] != "data_" {
        var field := FindField(fields, key[5..]);
        if field.Some? {
          if field.value.Plain? {
            s.BindPlain(key[5..]);
          } else {
            s.BindBlob(key[5..]);
          }
        }
      }
    }
  }

  // ----- the loops over the description

  lemma {:induction false} KeysConcat(a: Desc, b: Desc)
    ensures Keys(Concat(a, b)) == Keys(a) + Keys(b)
  {
    if a.Cons? {
      KeysConcat(a.rest, b);
    }
  }

  lemma {:induction false} KeysOfColumns(fields: Fields, t: Types)
    ensures Keys(Columns(fields)) == PlainKeys(fields)
    ensures Keys(Datas(fields, t)) == DataKeys(fields) && Keys(HashColumns(fields, t)) == HashKeys(fields)
    ensures forall k :: k in PlainKeys(fields) || k in DataKeys(fields) || k in HashKeys(fields) ==> k != "" && k[0] != 'i'
  {
    if fields.Cons? {
      KeysOfColumns(fields.rest, t);
      var f := fields.first.0;
      assert Column(f)[0] == 'c' && Data(f)[0] == 'd' && Hash(f)[0] == 'h';
    }
    hide Column, Data, Hash;
  }

  lemma KeysOfDescription(name: string, fields: Fields, t: Types)
    ensures Keys(Description(name, fields, t)) == Listed(fields) + [Id(name)] && Id(name) !in Listed(fields)
  {
    hide Columns, Datas, HashColumns, PlainKeys, DataKeys, HashKeys, Concat;
    var id := Cons((Id(name), t.id), Nil);
    KeysOfColumns(fields, t);
    assert Id(name)[0] == 'i';
    KeysConcat(HashColumns(fields, t), id);
    KeysConcat(Datas(fields, t), Concat(HashColumns(fields, t), id));
    KeysConcat(Columns(fields), Concat(Datas(fields, t), Concat(HashColumns(fields, t), id)));
    assert Keys(id) == [Id(name)];
  }

  lemma EmptyJoin()
    ensures Join([]) == "" && Marks(0) == []
  {
  }

  lemma FirstKey(d: Desc)
    ensures Keys(d) == if d.Nil? then [] else [d.first.0] + Keys(d.rest)
  {
  }

  lemma MarksMore(n: nat)
    ensures Join(Marks(n + 1)) == if n == 0 then "?" else Join(Marks(n)) + "," + "?"
  {
    assert Marks(n) + ["?"] == Marks(n + 1);
    JoinMore(Marks(n), "?");
  }

  /** The id comes last. */
  lemma KeyAt(listed: seq<string>, id: string, seen: seq<string>, key: string, rest: seq<string>)
    requires listed + [id] == seen + [key] + rest && id !in listed
    ensures seen <= listed && (key != id ==> seen + [key] <= listed && rest != []) && (key == id ==> seen == listed && rest == [])
  {
    var all := listed + [id];
    assert all[|seen|] == key && |all| == |seen| + 1 + |rest|;
    if |seen| < |listed| {
      assert all[|seen|] == listed[|seen|];
      assert seen == all[..|seen|] == listed[..|seen|];
      assert seen + [key] == all[..|seen| + 1] == listed[..|seen| + 1];
    } else {
      assert seen == all[..|listed|] == listed;
    }
  }

  function FindField(fields: Fields, f: string): Option<Field> {
    if fields.Nil? then None else if fields.first.0 == f then Some(fields.first.1) else FindField(fields.rest, f)
  }

  /** What one column of the description makes `store` bind. */
  function BoundByOne(key: string, fields: Fields, id: string): seq<string> {
    if key == id || |key| < 5 || key[..5] == "data_" then []
    else
      var f := key[5..];
      var k := FindField(fields, f);
      if k.None? then [] else if k.value.Plain? then [Column(f)] else [Data(f), Hash(f)]
  }

  function BoundBy(d: Desc, fields: Fields, id: string): seq<string> {
    if d.Nil? then [] else BoundByOne(d.first.0, fields, id) + BoundBy(d.rest, fields, id)
  }

  lemma NothingBound(fields: Fields, id: string)
    ensures BoundBy(Nil, fields, id) == []
  {
  }

  lemma BoundFirst(d: Desc, fields: Fields, id: string)
    requires d.Cons?
    ensures BoundBy(d, fields, id) == BoundByOne(d.first.0, fields, id) + BoundBy(d.rest, fields, id)
  {
  }

  lemma {:induction false} BoundByConcat(a: Desc, b: Desc, fields: Fields, id: string)
    ensures BoundBy(Concat(a, b), fields, id) == BoundBy(a, fields, id) + BoundBy(b, fields, id)
  {
    hide BoundByOne;
    if a.Cons? {
      BoundByConcat(a.rest, b, fields, id);
    }
  }

  /** Looking up the fields of `some` in the class finds them. */
  predicate Within(some: Fields, fields: Fields) {
    some.Cons? ==> FindField(fields, some.first.0) == Some(some.first.1) && Within(some.rest, fields)
  }

  lemma {:induction false} SortedIsWithin(fields: Fields)
    requires Sorted(fields)
    ensures Within(fields, fields)
  {
    if fields.Cons? {
      SortedIsWithin(fields.rest);
      StillWithin(fields.rest, fields.rest, fields.first);
    }
  }

  lemma {:induction false} StillWithin(some: Fields, fields: Fields, first: (string, Field))
    requires Within(some, fields) && Above(some, first.0)
    ensures Within(some, Cons(first, fields))
  {
    if some.Cons? {
      LessIsTotal(first.0, some.first.0);
      StillWithin(some.rest, fields, first);
    }
  }

  lemma {:induction false} BoundByKind(some: Fields, fields: Fields, name: string, t: Types)
    requires Within(some, fields)
    ensures BoundBy(Columns(some), fields, Id(name)) == PlainKeys(some)
    ensures BoundBy(Datas(some, t), fields, Id(name)) == []
    ensures BoundBy(HashColumns(some, t), fields, Id(name)) == NestedKeys(some)
  {
    if some.Cons? {
      BoundByKind(some.rest, fields, name, t);
      OneColumn(some.first.0, fields, name);
      hide BoundByOne, Column, Data, Hash, Id;
    }
  }

  lemma OneColumn(f: string, fields: Fields, name: string)
    ensures var k := FindField(fields, f);
      var bound := if k.None? then [] else if k.value.Plain? then [Column(f)] else [Data(f), Hash(f)];
      && BoundByOne(Column(f), fields, Id(name)) == bound && BoundByOne(Hash(f), fields, Id(name)) == bound
      && BoundByOne(Data(f), fields, Id(name)) == []
  {
    assert Column(f)[5..] == f && Hash(f)[5..] == f && Data(f)[..5] == "data_";
    assert Column(f)[0] == 'c' && Hash(f)[0] == 'h' && Id(name)[0] == 'i';
    assert Column(f)[..5][0] == 'c' && Hash(f)[..5][0] == 'h';
  }

  lemma IdIsNotBound(fields: Fields, id: string, t: Types)
    ensures BoundBy(Cons((id, t.id), Nil), fields, id) == []
  {
    assert BoundBy(Nil, fields, id) == [];
  }

  lemma EverythingIsBound(name: string, fields: Fields, t: Types)
    requires Sorted(fields)
    ensures BoundBy(Description(name, fields, t), fields, Id(name)) == Bound(fields)
  {
    hide Columns, Datas, HashColumns, PlainKeys, NestedKeys, Concat, Id, BoundBy, BoundByOne;
    var id := Cons((Id(name), t.id), Nil);
    SortedIsWithin(fields);
    BoundByKind(fields, fields, name, t);
    IdIsNotBound(fields, Id(name), t);
    var h := Concat(HashColumns(fields, t), id);
    BoundByConcat(HashColumns(fields, t), id, fields, Id(name));
    BoundByConcat(Datas(fields, t), h, fields, Id(name));
    BoundByConcat(Columns(fields), Concat(Datas(fields, t), h), fields, Id(name));
    assert NestedKeys(fields) + [] == NestedKeys(fields) && [] + NestedKeys(fields) == NestedKeys(fields);
  }

  lemma ColumnNames(f: string)
    ensures Column(f) == "colu_" + f && Data(f) == "data_" + f && Hash(f) == "hash_" + f && Id(f) == "id_" + f
  {
  }

  lemma OnlyId(name: string, t: Types)
    ensures Put(Nil, "id_" + name, t.id) == Description(name, Nil, t)
    ensures Id(name) == "id_" + name
  {
  }
}
