/** std::vector, and std::map with string keys, as the sequences their iterators run through. */
module StdMap {

  datatype List<T> = Nil | Cons(first: T, rest: List<T>)

  /** `push_back`. */
  function Snoc<T>(l: List<T>, x: T): List<T> {
    if l.Nil? then Cons(x, Nil) else Cons(l.first, Snoc(l.rest, x))
  }

  function Concat<T>(l: List<T>, m: List<T>): List<T> {
    if l.Nil? then m else Cons(l.first, Concat(l.rest, m))
  }

  lemma {:induction false} ConcatSnoc<T>(l: List<T>, x: T, m: List<T>)
    ensures Concat(Snoc(l, x), m) == Concat(l, Cons(x, m))
  {
    if l.Cons? {
      ConcatSnoc(l.rest, x, m);
    }
  }

  lemma {:induction false} ConcatNil<T>(l: List<T>)
    ensures Concat(l, Nil) == l
  {
    if l.Cons? {
      ConcatNil(l.rest);
    }
  }

  /** std::string's operator<. */
  predicate Less(a: string, b: string)
    decreases |a|
  {
    b != "" && (a == "" || a[0] < b[0] || (a[0] == b[0] && Less(a[1..], b[1..])))
  }

  lemma {:induction false} LessIsTotal(a: string, b: string)
    ensures Less(a, b) || a == b || Less(b, a)
    ensures !(Less(a, b) && (a == b || Less(b, a)))
    decreases |a|
  {
    if a != "" && b != "" && a[0] == b[0] {
      LessIsTotal(a[1..], b[1..]);
      assert a == [a[0]] + a[1..] && b == [b[0]] + b[1..];
    }
  }

  /** The order of the first characters that differ; a beginning comes before what goes on. */
  lemma {:induction false} LessIsLexicographic(a: string, b: string, n: nat)
    requires n <= |a| && n <= |b| && a[..n] == b[..n]
    ensures n < |a| && n < |b| && a[n] as int < b[n] as int ==> Less(a, b)
    ensures n < |a| && n < |b| && a[n] as int > b[n] as int ==> !Less(a, b)
    ensures n == |a| ==> (Less(a, b) <==> n < |b|)
    ensures n == |b| ==> !Less(a, b)
    decreases n
  {
    if n > 0 {
      assert a[0] == a[..n][0] == b[..n][0] == b[0];
      assert a[1..][..n - 1] == a[..n][1..] == b[..n][1..] == b[1..][..n - 1];
      LessIsLexicographic(a[1..], b[1..], n - 1);
    }
  }

  lemma {:induction false} LessIsTransitive(a: string, b: string, c: string)
    requires Less(a, b) && Less(b, c)
    ensures Less(a, c)
    decreases |a|
  {
    if a != "" && a[0] == b[0] == c[0] {
      LessIsTransitive(a[1..], b[1..], c[1..]);
    }
  }

  /** All keys come before `key`. */
  predicate Below<T>(m: List<(string, T)>, key: string) {
    m.Cons? ==> Less(m.first.0, key) && Below(m.rest, key)
  }

  /** All keys come after `key`. */
  predicate Above<T>(m: List<(string, T)>, key: string) {
    m.Cons? ==> Less(key, m.first.0) && Above(m.rest, key)
  }

  predicate Sorted<T>(m: List<(string, T)>) {
    m.Cons? ==> Above(m.rest, m.first.0) && Sorted(m.rest)
  }

  /** `m[key] = value`. */
  function Put<T>(m: List<(string, T)>, key: string, value: T): List<(string, T)> {
    if m.Nil? || Less(key, m.first.0) then Cons((key, value), m)
    else if m.first.0 == key then Cons((key, value), m.rest)
    else Cons(m.first, Put(m.rest, key, value))
  }

  /** Keys that come in order are appended. */
  lemma {:induction false} PutLast<T>(m: List<(string, T)>, key: string, value: T)
    requires Below(m, key)
    ensures Put(m, key, value) == Snoc(m, (key, value))
  {
    if m.Cons? {
      LessIsTotal(m.first.0, key);
      PutLast(m.rest, key, value);
    }
  }

  lemma {:induction false} BelowSnoc<T>(m: List<(string, T)>, key: string, value: T, next: string)
    requires Below(m, key) && Less(key, next)
    ensures Below(Snoc(m, (key, value)), next)
  {
    if m.Cons? {
      LessIsTransitive(m.first.0, key, next);
      BelowSnoc(m.rest, key, value, next);
    }
  }

  /** A key between two parts of a map goes between them. */
  lemma {:induction false} PutBetween<T>(a: List<(string, T)>, b: List<(string, T)>, key: string, value: T)
    requires Below(a, key) && (b.Cons? ==> Less(key, b.first.0))
    ensures Put(Concat(a, b), key, value) == Concat(Snoc(a, (key, value)), b)
  {
    if a.Cons? {
      LessIsTotal(a.first.0, key);
      PutBetween(a.rest, b, key, value);
    }
  }

  function AsMap<T>(m: List<(string, T)>): map<string, T> {
    if m.Nil? then map[] else AsMap(m.rest)[m.first.0 := m.first.1]
  }

  lemma {:induction false} AboveAll<T>(m: List<(string, T)>, key: string)
    requires Above(m, key)
    ensures key !in AsMap(m)
  {
    if m.Cons? {
      LessIsTotal(key, m.first.0);
      AboveAll(m.rest, key);
    }
  }

  lemma {:induction false} AboveLess<T>(m: List<(string, T)>, key: string, less: string)
    requires Above(m, key) && Less(less, key)
    ensures Above(m, less)
  {
    if m.Cons? {
      LessIsTransitive(less, key, m.first.0);
      AboveLess(m.rest, key, less);
    }
  }

  lemma {:induction false} AbovePut<T>(m: List<(string, T)>, key: string, value: T, less: string)
    requires Above(m, less) && Less(less, key)
    ensures Above(Put(m, key, value), less)
  {
    if m.Cons? {
      AbovePut(m.rest, key, value, less);
    }
  }

  /** A std::map stays sorted, and assignment is assignment. */
  lemma {:induction false} PutIsUpdate<T>(m: List<(string, T)>, key: string, value: T)
    requires Sorted(m)
    ensures Sorted(Put(m, key, value)) && AsMap(Put(m, key, value)) == AsMap(m)[key := value]
  {
    if m.Cons? {
      if Less(key, m.first.0) {
        AboveLess(m.rest, m.first.0, key);
      } else if m.first.0 != key {
        LessIsTotal(key, m.first.0);
        PutIsUpdate(m.rest, key, value);
        AbovePut(m.rest, key, value, m.first.0);
      }
    }
  }

  lemma {:induction false} ConcatAssoc<T>(l: List<T>, m: List<T>, n: List<T>)
    ensures Concat(Concat(l, m), n) == Concat(l, Concat(m, n))
  {
    if l.Cons? {
      ConcatAssoc(l.rest, m, n);
    }
  }

  lemma {:induction false} BelowConcat<T>(l: List<(string, T)>, m: List<(string, T)>, key: string)
    requires Below(l, key) && Below(m, key)
    ensures Below(Concat(l, m), key)
  {
    if l.Cons? {
      BelowConcat(l.rest, m, key);
    }
  }

  lemma {:induction false} LessBehind(p: string, a: string, b: string)
    requires Less(a, b)
    ensures Less(p + a, p + b)
    decreases |p|
  {
    if p == "" {
      assert p + a == a && p + b == b;
    } else {
      LessBehind(p[1..], a, b);
      assert (p + a)[1..] == p[1..] + a && (p + b)[1..] == p[1..] + b;
    }
  }
}
