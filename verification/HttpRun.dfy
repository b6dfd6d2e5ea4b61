/**
 Runs of the reference parser over whole buffers, and the normal form of a callback trace: data callbacks
 may come in any number of pieces, so adjacent ones of one kind are joined.
 */
module HttpRun {
  import opened HttpTypes
  import opened HttpStep

  predicate EndsIn(tr: seq<Event>, k: Kind) {
    |tr| > 0 && tr[|tr| - 1].Data? && tr[|tr| - 1].kind == k
  }

  /** Appends one callback, joining it to the last one when both carry data of one kind. */
  function Push(tr: seq<Event>, e: Event): seq<Event> {
    if e.Data? && EndsIn(tr, e.kind)
    then tr[..|tr| - 1] + [Data(e.kind, tr[|tr| - 1].bytes + e.bytes)]
    else tr + [e]
  }

  function PushAll(tr: seq<Event>, es: seq<Event>): seq<Event>
    decreases |es|
  {
    if es == [] then tr else PushAll(Push(tr, es[0]), es[1..])
  }

  /** The normal form of a recorded trace. */
  function Joined(trace: seq<Event>): seq<Event> {
    PushAll([], trace)
  }

  lemma PushJoins(tr: seq<Event>, k: Kind, x: string, y: string)
    ensures Push(Push(tr, Data(k, x)), Data(k, y)) == Push(tr, Data(k, x + y))
  {
    var one := Push(tr, Data(k, x));
    assert EndsIn(one, k);
    if EndsIn(tr, k) {
      assert one[..|one| - 1] == tr[..|tr| - 1];
      var w := tr[|tr| - 1].bytes;
      assert (w + x) + y == w + (x + y);
    } else {
      assert one[..|one| - 1] == tr;
    }
  }

  lemma PushNothing(tr: seq<Event>, k: Kind)
    requires EndsIn(tr, k)
    ensures Push(tr, Data(k, "")) == tr
  {
    var last := tr[|tr| - 1];
    assert last.bytes + "" == last.bytes;
    assert tr == tr[..|tr| - 1] + [last];
  }

  lemma PushAllConcat(tr: seq<Event>, a: seq<Event>, b: seq<Event>)
    ensures PushAll(tr, a + b) == PushAll(PushAll(tr, a), b)
    decreases |a|
  {
    if a == [] {
      assert a + b == b;
    } else {
      assert (a + b)[0] == a[0] && (a + b)[1..] == a[1..] + b;
      PushAllConcat(Push(tr, a[0]), a[1..], b);
    }
  }

  lemma JoinedSnoc(trace: seq<Event>, e: Event)
    ensures Joined(trace + [e]) == Push(Joined(trace), e)
  {
    PushAllConcat([], trace, [e]);
    var t := Joined(trace);
    assert PushAll(t, [e]) == PushAll(Push(t, e), [e][1..]);
  }

  lemma PushOne(tr: seq<Event>, e: Event)
    ensures PushAll(tr, [e]) == Push(tr, e)
  {
    hide Push;
    assert PushAll(tr, [e]) == PushAll(Push(tr, e), [e][1..]);
  }

  lemma PushTwo(tr: seq<Event>, e: Event, f: Event)
    ensures PushAll(tr, [e, f]) == Push(Push(tr, e), f)
  {
    hide Push;
    assert [e, f][1..] == [f];
    PushOne(Push(tr, e), f);
  }

  lemma PushPlain(tr: seq<Event>, e: Event)
    requires !e.Data?
    ensures Push(tr, e) == tr + [e]
  {
  }

  lemma PushNone(tr: seq<Event>)
    ensures PushAll(tr, []) == tr
  {
  }

  lemma NothingJoined()
    ensures Joined([]) == []
  {
  }

  lemma JoinedAppend(trace: seq<Event>, es: seq<Event>)
    ensures Joined(trace + es) == PushAll(Joined(trace), es)
  {
    PushAllConcat([], trace, es);
  }

  // ----- runs

  datatype Result = Result(ps: Parser, trace: seq<Event>, consumed: nat, stopped: bool)

  /**
   Feeds `data` byte by byte until it ends or a byte stops the parser. A byte the parser fails on is not
   consumed; the line feed on which an upgraded connection stops is.
   */
  function Run(ps: Parser, tr: seq<Event>, data: string): Result
    decreases |data|
  {
    if data == [] then Result(ps, tr, 0, false)
    else
      var o := Step(ps, data[0]);
      var tr' := PushAll(tr, o.events);
      if o.stop then Result(o.ps, tr', if o.ps.errno == OK then 1 else 0, true)
      else After(1, Run(o.ps, tr', data[1..]))
  }

  function After(n: nat, r: Result): Result {
    r.(consumed := n + r.consumed)
  }

  /** The rest of a run after `r`. */
  function Continue(r: Result, data: string): Result {
    if r.stopped then r else After(r.consumed, Run(r.ps, r.trace, data))
  }

  lemma {:induction false} RunConcat(ps: Parser, tr: seq<Event>, a: string, b: string)
    ensures Run(ps, tr, a + b) == Continue(Run(ps, tr, a), b)
    decreases |a|
  {
    if a == [] {
      assert a + b == b;
    } else {
      assert (a + b)[0] == a[0] && (a + b)[1..] == a[1..] + b;
      var o := Step(ps, a[0]);
      if !o.stop {
        RunConcat(o.ps, PushAll(tr, o.events), a[1..], b);
      }
    }
  }

  lemma RunOne(ps: Parser, tr: seq<Event>, ch: char)
    ensures var o := Step(ps, ch);
      Run(ps, tr, [ch]) == Result(o.ps, PushAll(tr, o.events), if o.ps.errno == OK || !o.stop then 1 else 0, o.stop)
  {
    hide Step, PushAll;
    assert [ch][1..] == "";
    var o := Step(ps, ch);
    assert Run(o.ps, PushAll(tr, o.events), "") == Result(o.ps, PushAll(tr, o.events), 0, false);
  }

  /** One more byte at the end of a run. */
  lemma RunSnoc(ps: Parser, tr: seq<Event>, a: string, ch: char)
    requires !Run(ps, tr, a).stopped
    ensures var r := Run(ps, tr, a);
      var o := Step(r.ps, ch);
      var r' := Run(ps, tr, a + [ch]);
      r'.ps == o.ps && r'.stopped == o.stop && r'.trace == PushAll(r.trace, o.events)
  {
    hide Step, PushAll;
    var r := Run(ps, tr, a);
    RunConcat(ps, tr, a, [ch]);
    RunOne(r.ps, r.trace, ch);
  }

  /** Two bytes that report nothing. */
  lemma RunQuietPair(q: Parser, tr: seq<Event>, a: char, b: char)
    requires var o := Step(q, a);
      !o.stop && o.events == [] && !Step(o.ps, b).stop && Step(o.ps, b).events == []
    ensures Run(q, tr, [a, b]) == Result(Step(Step(q, a).ps, b).ps, tr, 2, false)
  {
    hide Step;
    var o := Step(q, a);
    RunOne(q, tr, a);
    RunOne(o.ps, tr, b);
    PushNone(tr);
    assert [a, b] == [a] + [b];
    RunConcat(q, tr, [a], [b]);
  }

  /** A run that is not stopped takes every byte. */
  lemma {:induction false} RunTakesAll(ps: Parser, tr: seq<Event>, data: string)
    ensures Run(ps, tr, data).consumed <= |data|
    ensures !Run(ps, tr, data).stopped ==> Run(ps, tr, data).consumed == |data|
    decreases |data|
  {
    hide Step;
    if data != "" {
      RunTakesAll(Step(ps, data[0]).ps, PushAll(tr, Step(ps, data[0]).events), data[1..]);
    }
  }
}
