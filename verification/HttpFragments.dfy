/** The client's loop: whatever pieces the bytes arrive in, the outcome is that of the bytes in one piece. */
module HttpFragments {
  import opened HttpTypes
  import opened HttpRun
  import opened HttpInvariant
  import opened HttpHeard
  import opened HttpExecute
  import opened HttpTrace

  function Flatten(pieces: seq<string>): string
    decreases |pieces|
  {
    if pieces == [] then "" else pieces[0] + Flatten(pieces[1..])
  }

  /** Successive calls, one per piece, until one stops. */
  function RunPieces(ps: Parser, tr: seq<Event>, pieces: seq<string>): Result
    decreases |pieces|
  {
    if pieces == [] then Result(ps, tr, 0, false)
    else
      var r := Run(ps, tr, pieces[0]);
      if r.stopped then r else After(r.consumed, RunPieces(r.ps, r.trace, pieces[1..]))
  }

  /** The joined callbacks after these calls: an error costs the run that was going on in the piece in error. */
  function HeardPieces(ps: Parser, tr: seq<Event>, pieces: seq<string>): seq<Event>
    decreases |pieces|
  {
    if pieces == [] then tr
    else
      var r := Run(ps, tr, pieces[0]);
      if r.stopped then Heard(ps, tr, pieces[0]) else HeardPieces(r.ps, r.trace, pieces[1..])
  }

  lemma {:induction false} PiecesDoNotMatter(ps: Parser, tr: seq<Event>, pieces: seq<string>)
    ensures RunPieces(ps, tr, pieces) == Run(ps, tr, Flatten(pieces))
    decreases |pieces|
  {
    if pieces != [] {
      RunConcat(ps, tr, pieces[0], Flatten(pieces[1..]));
      var r := Run(ps, tr, pieces[0]);
      PiecesDoNotMatter(r.ps, r.trace, pieces[1..]);
    }
  }

  /** Any two ways of cutting one stream give the same fields, joined callbacks and consumed bytes. */
  lemma AnyTwoCutsAgree(ps: Parser, tr: seq<Event>, one: seq<string>, other: seq<string>)
    requires Flatten(one) == Flatten(other)
    ensures RunPieces(ps, tr, one) == RunPieces(ps, tr, other)
  {
    PiecesDoNotMatter(ps, tr, one);
    PiecesDoNotMatter(ps, tr, other);
  }

  /**
   Calls `http_parser_execute` on each piece until an error or an upgrade. An empty piece would mean
   end-of-file to the parser.
   */
  method Feed(parser: HttpParser, pieces: seq<string>) returns (consumed: nat)
    requires parser.Valid() && parser.errno == OK && !parser.upgrade
    requires forall i :: 0 <= i < |pieces| ==> pieces[i] != ""
    modifies parser
    ensures parser.Valid()
    ensures var r := Run(old(parser.View()), Joined(old(parser.trace)), Flatten(pieces));
      && parser.View() == r.ps && consumed == r.consumed
      && Joined(parser.trace) == HeardPieces(old(parser.View()), Joined(old(parser.trace)), pieces)
      && (parser.errno == OK ==> Joined(parser.trace) == r.trace)
      && (parser.errno != OK ==> LosesOneRun(Joined(parser.trace), r.trace))
  {
    hide Run, Joined, LosesOneRun, Legal, TailOk, Heard;
    ghost var heard := HeardPieces(parser.View(), Joined(parser.trace), pieces);
    ghost var r := Run(parser.View(), Joined(parser.trace), Flatten(pieces));
    PiecesDoNotMatter(parser.View(), Joined(parser.trace), pieces);
    consumed := 0;
    var i := 0;
    assert pieces[0..] == pieces;
    while i < |pieces|
      invariant 0 <= i <= |pieces|
      invariant parser.Valid() && parser.errno == OK && !parser.upgrade
      invariant r == After(consumed, RunPieces(parser.View(), Joined(parser.trace), pieces[i..]))
      invariant heard == HeardPieces(parser.View(), Joined(parser.trace), pieces[i..])
    {
      RunKeeps(parser.View(), Joined(parser.trace), pieces[i]);
      assert pieces[i..][1..] == pieces[i + 1..];
      var n := parser.Execute(pieces[i]);
      consumed := consumed + n;
      if parser.errno != OK || parser.upgrade {
        return;
      }
      i := i + 1;
    }
  }

  /** A connection from its first byte: whatever the client sends, the callbacks come in order. */
  method Serve(pieces: seq<string>) returns (parser: HttpParser, consumed: nat)
    requires forall i :: 0 <= i < |pieces| ==> pieces[i] != ""
    ensures parser.Valid() && consumed <= |Flatten(pieces)|
    ensures !ObserveAll(FRESH, parser.trace).phase.Broken?
  {
    hide Run, Joined, ObserveAll, Push, Flatten, Legal;
    var data := Flatten(pieces);
    parser := new HttpParser();
    consumed := Feed(parser, pieces);
    ghost var full := Run(INITIAL, Joined([]), data).trace;
    NothingJoined();
    RunTakesAll(INITIAL, [], data);
    EveryRunIsInOrder(data);
    if parser.errno == OK {
      ActualCallbacksInOrder(parser.trace, full, MessageBegin);
    } else {
      ghost var k, x :| full == Joined(parser.trace) || full == Push(Joined(parser.trace), Data(k, x));
      ActualCallbacksInOrder(parser.trace, full, Data(k, x));
    }
  }
}
