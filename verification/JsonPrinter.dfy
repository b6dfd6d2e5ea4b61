/** The `operator<<`s of jsonxx, appending to a stream, and printing followed by parsing. */
module JsonPrinter {
  import opened StdMap
  import opened Wrappers
  import opened JsonText
  import opened JsonGrammar
  import opened JsonParser

  /** `stream_string`. */
  method StreamString(stream: string, s: seq<Byte>) returns (stream': string)
    ensures stream' == stream + Quoted(s)
  {
    hide Escaped;
    stream' := stream + "\"";
    var i := 0;
    while i < |s|
      invariant 0 <= i <= |s|
      invariant stream' + EscapedAll(s[i..]) == stream + "\"" + EscapedAll(s)
    {
      assert s[i..][0] == s[i] && s[i..][1..] == s[i + 1..];
      stream' := stream' + Escaped(s[i]);
      i := i + 1;
    }
    assert stream' + "" == stream';
    stream' := stream' + "\"";
    assert stream + "\"" + EscapedAll(s) + "\"" == stream + Quoted(s);
  }

  method StreamValue(stream: string, v: Json) returns (stream': string)
    requires Legal(v)
    ensures stream' == stream + Print(v)
    decreases v
  {
    if v.Str? {
      stream' := StreamString(stream, v.s);
    } else if v.Bool? {
      stream' := stream + if v.b then "true" else "false";
    } else if v.Null? {
      stream' := stream + "null";
    } else if v.Obj? {
      stream' := StreamObject(stream, v.members);
    } else if v.Arr? {
      stream' := StreamArray(stream, v.items);
    } else {
      stream' := stream + PrintInt(v.x.Floor);
    }
  }

  method StreamArray(stream: string, v: List<Json>) returns (stream': string)
    requires LegalItems(v)
    ensures stream' == stream + ("[" + PrintItems(v) + "]")
    decreases v
  {
    hide Legal, Print;
    stream' := stream + "[";
    var it := v;
    while it.Cons?
      invariant LegalItems(it) && (it == v || it < v)
      invariant stream' + PrintItems(it) == stream + "[" + PrintItems(v)
      decreases it
    {
      ghost var before := stream';
      stream' := StreamValue(stream', it.first);
      if it.rest.Cons? {
        stream' := stream' + ", ";
        assert before + PrintItems(it) == stream' + PrintItems(it.rest);
      } else {
        assert before + PrintItems(it) == stream' + "";
      }
      it := it.rest;
    }
    assert stream' + "" == stream';
    stream' := stream' + "]";
    assert stream + "[" + PrintItems(v) + "]" == stream + ("[" + PrintItems(v) + "]");
  }

  method StreamObject(stream: string, v: List<(string, Json)>) returns (stream': string)
    requires LegalMembers(v)
    ensures stream' == stream + ("{" + PrintMembers(v) + "}")
    decreases v
  {
    hide Legal, Print, Quoted;
    stream' := stream + "{";
    var it := v;
    while it.Cons?
      invariant LegalMembers(it) && (it == v || it < v)
      invariant stream' + PrintMembers(it) == stream + "{" + PrintMembers(v)
      decreases it
    {
      ghost var before, k, p := stream', Quoted(it.first.0), Print(it.first.1);
      stream' := StreamString(stream', it.first.0);
      stream' := stream' + ": ";
      stream' := StreamValue(stream', it.first.1);
      if it.rest.Cons? {
        MemberText(before, k, p, ", " + PrintMembers(it.rest));
        stream' := stream' + ", ";
        MoreText(before + k + ": " + p, PrintMembers(it.rest));
      } else {
        MemberText(before, k, p, "");
      }
      it := it.rest;
    }
    assert stream' + "" == stream';
    stream' := stream' + "}";
    assert stream + "{" + PrintMembers(v) + "}" == stream + ("{" + PrintMembers(v) + "}");
  }

  lemma MemberText(stream: string, k: string, p: string, more: string)
    ensures stream + (k + ": " + p + more) == stream + k + ": " + p + more
  {
  }

  lemma MoreText(stream: string, more: string)
    ensures stream + (", " + more) == stream + ", " + more
  {
  }

  // ----- printed values are texts that are read

  function SourceOf(v: Json): Source
    decreases v, 0
  {
    match v
    case Arr(items) => ArrayOf(SourcesOf(items))
    case Obj(members) => ObjectOf(MembersOf(members))
    case _ => Literal(v)
  }

  function SourcesOf(items: List<Json>): List<Source>
    decreases items, 1
  {
    if items.Nil? then Nil else Cons(SourceOf(items.first), SourcesOf(items.rest))
  }

  function MembersOf(members: List<(string, Json)>): List<(string, Source)>
    decreases members, 1
  {
    if members.Nil? then Nil else Cons((members.first.0, SourceOf(members.first.1)), MembersOf(members.rest))
  }

  lemma {:induction false} SourceMeans(v: Json)
    requires Legal(v)
    ensures ValueOf(SourceOf(v)) == v
    decreases v, 0
  {
    match v
    case Arr(items) => SourcesMean(items);
    case Obj(members) =>
      MembersMean(Nil, members);
      assert Concat(Nil, members) == members;
    case _ =>
  }

  lemma {:induction false} SourcesMean(items: List<Json>)
    requires LegalItems(items)
    ensures ValuesOf(SourcesOf(items)) == items
    decreases items, 1
  {
    hide Legal;
    if items.Cons? {
      SourceMeans(items.first);
      SourcesMean(items.rest);
    }
  }

  /** Members that come in the order of their keys are collected as they are. */
  lemma {:induction false} MembersMean(done: List<(string, Json)>, members: List<(string, Json)>)
    requires LegalMembers(members) && Sorted(members) && (members.Cons? ==> Below(done, members.first.0))
    ensures Collect(done, MembersOf(members)) == Concat(done, members)
    decreases members, 1
  {
    hide Legal, Put;
    if members.Nil? {
      ConcatNil(done);
    } else {
      var (key, v) := members.first;
      SourceMeans(v);
      PutLast(done, key, v);
      ConcatSnoc(done, (key, v), members.rest);
      if members.rest.Cons? {
        BelowSnoc(done, key, v, members.rest.first.0);
      }
      MembersMean(Snoc(done, (key, v)), members.rest);
    }
  }

  /** A text that starts with a token is its own rest. */
  lemma AtToken(s: string)
    requires s != "" && !IsSpace(s[0]) && s[0] != '/'
    ensures Skip(s) == s && Skip(" " + s) == s
  {
    assert (" " + s)[1..] == s;
  }

  /** What follows a printed item or member ends a number. */
  predicate Follows(t: string) { t != "" && t[0] in ",]}" }

  lemma FollowsEnds(t: string)
    requires Follows(t)
    ensures EndsNumber(t) && Skip(t) == t
  {
    AtToken(t);
  }

  lemma PrintsLiteral(v: Json, after: string)
    requires Legal(v) && !v.Arr? && !v.Obj? && (v.Float? ==> EndsNumber(after))
    ensures ReadsLiteral(v, Print(v) + after, after)
  {
    hide StringBody, ReadReal;
    PrintStarts(v);
    var s := Print(v) + after;
    assert s[0] == Print(v)[0];
    if v.Str? {
      QuotedIsRead(v.s, after);
    } else if v.Float? {
      IntRoundTrip(v.x.Floor, after);
    } else {
      assert s[|Print(v)|..] == after;
    }
  }

  lemma QuotedIsRead(s: string, after: string)
    requires Clean(s)
    ensures StartsWith(Quoted(s) + after, "\"'") && (Quoted(s) + after)[0] == '"'
    ensures StringBody((Quoted(s) + after)[1..], '"') == Some((s, after))
  {
    StringRoundTrip(s, after);
    hide EscapedAll, StringBody;
    assert Quoted(s) + after == "\"" + (EscapedAll(s) + "\"" + after);
    assert (Quoted(s) + after)[1..] == EscapedAll(s) + "\"" + after;
  }

  /** `gap` is what the printer puts before an item: nothing or a space. */
  lemma {:induction false} PrintReads(v: Json, gap: string, after: string)
    requires Legal(v) && (v.Float? ==> EndsNumber(after)) && (gap == "" || gap == " ")
    ensures Reads(SourceOf(v), gap + (Print(v) + after), after)
    decreases v, 0
  {
    hide SourcesOf, MembersOf, Skip, Reads, PrintItems, PrintMembers, Legal, LegalItems, LegalMembers, EndsNumber;
    var s := Print(v) + after;
    FirstOfPrinted(v, gap, after);
    if v.Arr? {
      var t := PrintItems(v.items) + "]" + after;
      ItemsRead(v.items, "", after);
      assert "" + t == t;
      assert s == "[" + t;
      ArrayReads(SourcesOf(v.items), gap, t, after);
    } else if v.Obj? {
      var t := PrintMembers(v.members) + "}" + after;
      MembersRead(v.members, "", after);
      assert "" + t == t;
      assert s == "{" + t;
      ObjectReads(MembersOf(v.members), gap, t, after);
    } else {
      PrintsLiteral(v, after);
      LiteralReads(v, gap, s, after);
    }
  }

  lemma FirstOfPrinted(v: Json, gap: string, after: string)
    requires Legal(v) && (gap == "" || gap == " ")
    ensures var s := Print(v) + after; Skip(gap + s) == s
    ensures v.Arr? ==> LegalItems(v.items)
    ensures v.Obj? ==> LegalMembers(v.members)
  {
    hide Print, Skip;
    PrintStarts(v);
    var s := Print(v) + after;
    assert s[0] == Print(v)[0];
    AtToken(s);
    assert "" + s == s;
  }

  lemma ArrayReads(srcs: List<Source>, gap: string, t: string, after: string)
    requires ReadsArray(srcs, t, after) && Skip(gap + ("[" + t)) == "[" + t
    ensures Reads(ArrayOf(srcs), gap + ("[" + t), after)
  {
    hide Skip, ReadsArray;
    assert Token("[", gap + ("[" + t), t);
  }

  lemma ObjectReads(srcs: List<(string, Source)>, gap: string, t: string, after: string)
    requires ReadsObject(srcs, t, after) && Skip(gap + ("{" + t)) == "{" + t
    ensures Reads(ObjectOf(srcs), gap + ("{" + t), after)
  {
    hide Skip, ReadsObject;
    assert Token("{", gap + ("{" + t), t);
  }

  lemma LiteralReads(v: Json, gap: string, s: string, after: string)
    requires ReadsLiteral(v, s, after) && Skip(gap + s) == s
    ensures Reads(Literal(v), gap + s, after)
  {
    hide Skip, ReadsLiteral;
  }

  lemma Closes(bracket: string, after: string)
    requires bracket == "]" || bracket == "}"
    ensures Token(bracket, bracket + after, after)
  {
    AtToken(bracket + after);
    assert (bracket + after)[1..] == after;
  }

  lemma Comma(more: string)
    ensures Token(",", ", " + more, " " + more)
  {
    AtToken(", " + more);
    assert (", " + more)[1..] == " " + more;
  }

  lemma {:induction false} ItemsRead(items: List<Json>, gap: string, after: string)
    requires LegalItems(items) && (gap == "" || gap == " ")
    ensures ReadsArray(SourcesOf(items), gap + (PrintItems(items) + "]" + after), after)
    decreases items, 1
  {
    hide Legal, Print, Reads, Token;
    if items.Nil? {
      Closes("]", after);
      assert PrintItems(items) + "]" + after == "]" + after;
      if gap == "" {
        assert gap + ("]" + after) == "]" + after;
      } else {
        SpaceAhead("]", after);
      }
    } else {
      var p, t := Print(items.first), ItemsTail(items, after);
      TailFollows(items, after);
      PrintReads(items.first, gap, t);
      if items.rest.Nil? {
        Closes("]", after);
      } else {
        var u := PrintItems(items.rest) + "]" + after;
        Comma(u);
        ItemsRead(items.rest, " ", after);
        ItemsGoOnWith(items, " " + u, after);
      }
      ItemsAre(items, gap, t, after);
    }
  }

  lemma SpaceAhead(bracket: string, after: string)
    requires bracket == "]" || bracket == "}"
    ensures Token(bracket, " " + (bracket + after), after)
  {
    AtToken(bracket + after);
    assert (bracket + after)[1..] == after;
  }

  ghost function ItemsTail(items: List<Json>, after: string): string
    requires LegalItems(items) && items.Cons?
  {
    if items.rest.Nil? then "]" + after else ", " + (PrintItems(items.rest) + "]" + after)
  }

  lemma TailFollows(items: List<Json>, after: string)
    requires LegalItems(items) && items.Cons?
    ensures var t := ItemsTail(items, after);
      && EndsNumber(t) && PrintItems(items) + "]" + after == Print(items.first) + t
  {
    hide Print, PrintItems;
    var t := ItemsTail(items, after);
    FollowsEnds(t);
    PrintedItems(items);
    hide EndsNumber;
    Regroup(Print(items.first), if items.rest.Cons? then PrintItems(items.rest) else "", after);
  }

  lemma Regroup(p: string, m: string, after: string)
    ensures p + (", " + m) + "]" + after == p + (", " + (m + "]" + after))
    ensures p + "" + "]" + after == p + ("]" + after)
  {
  }

  lemma PrintedItems(items: List<Json>)
    requires LegalItems(items) && items.Cons?
    ensures PrintItems(items) == Print(items.first) + if items.rest.Nil? then "" else ", " + PrintItems(items.rest)
  {
  }

  lemma ItemsGoOnWith(items: List<Json>, u: string, after: string)
    requires items.Cons? && items.rest.Cons? && ReadsArray(SourcesOf(items.rest), u, after)
    requires LegalItems(items) && Token(",", ItemsTail(items, after), u)
    ensures ItemsGoOn(SourcesOf(items), ItemsTail(items, after), after)
  {
    hide Reads, Token, Legal, Print, ReadsItems;
  }

  lemma ItemsAre(items: List<Json>, gap: string, t: string, after: string)
    requires LegalItems(items) && items.Cons? && t == ItemsTail(items, after)
    requires Reads(SourceOf(items.first), gap + (Print(items.first) + t), t)
    requires items.rest.Nil? ==> Token("]", t, after)
    requires items.rest.Cons? ==> ItemsGoOn(SourcesOf(items), t, after)
    ensures ReadsArray(SourcesOf(items), gap + (PrintItems(items) + "]" + after), after)
  {
    hide Reads, Token, Legal, Print, PrintItems, ReadsItems, ItemsTail;
    TailFollows(items, after);
    var srcs := SourcesOf(items);
    assert ItemsGoOn(srcs, t, after) by {
      assert srcs.rest == SourcesOf(items.rest);
      assert items.rest.Nil? ==> SourcesOf(items.rest) == Nil;
    }
    ItemsLink(srcs, gap + (Print(items.first) + t), t, after);
  }

  lemma {:induction false} MembersRead(members: List<(string, Json)>, gap: string, after: string)
    requires LegalMembers(members) && (gap == "" || gap == " ")
    ensures ReadsObject(MembersOf(members), gap + (PrintMembers(members) + "}" + after), after)
    decreases members, 1
  {
    hide Legal, Print, Reads, Token, Quoted;
    if members.Nil? {
      Closes("}", after);
      assert PrintMembers(members) + "}" + after == "}" + after;
      if gap == "" {
        assert gap + ("}" + after) == "}" + after;
      } else {
        SpaceAhead("}", after);
      }
    } else {
      var t := MembersTail(members, after);
      MemberSplits(members, after);
      var value := Print(members.first.1) + t;
      PrintReads(members.first.1, " ", t);
      MemberReads(members.first.0, SourceOf(members.first.1), gap, value, t);
      if members.rest.Nil? {
        Closes("}", after);
      } else {
        var u := PrintMembers(members.rest) + "}" + after;
        Comma(u);
        MembersRead(members.rest, " ", after);
        MembersGoOnWith(members, " " + u, after);
      }
      MembersAre(members, gap, ": " + value, t, after);
    }
  }

  ghost function MembersTail(members: List<(string, Json)>, after: string): string
    requires LegalMembers(members) && members.Cons?
  {
    if members.rest.Nil? then "}" + after else ", " + (PrintMembers(members.rest) + "}" + after)
  }

  lemma MemberSplits(members: List<(string, Json)>, after: string)
    requires LegalMembers(members) && members.Cons?
    ensures var t := MembersTail(members, after);
      && EndsNumber(t)
      && PrintMembers(members) + "}" + after == Quoted(members.first.0) + (": " + (Print(members.first.1) + t))
  {
    hide Print, PrintMembers, Quoted;
    var t := MembersTail(members, after);
    FollowsEnds(t);
    PrintedMembers(members);
    var k, p := Quoted(members.first.0), Print(members.first.1);
    if members.rest.Cons? {
      var m := PrintMembers(members.rest);
      assert k + ": " + p + (", " + m) + "}" + after == k + (": " + (p + (", " + (m + "}" + after))));
    } else {
      assert k + ": " + p + "" + "}" + after == k + (": " + (p + ("}" + after)));
    }
  }

  lemma PrintedMembers(members: List<(string, Json)>)
    requires LegalMembers(members) && members.Cons?
    ensures PrintMembers(members) == Quoted(members.first.0) + ": " + Print(members.first.1)
      + if members.rest.Nil? then "" else ", " + PrintMembers(members.rest)
  {
  }

  lemma MemberReads(key: string, src: Source, gap: string, value: string, t: string)
    requires Clean(key) && (gap == "" || gap == " ") && Reads(src, " " + value, t)
    ensures ReadsMember((key, src), gap + (Quoted(key) + (": " + value)), ": " + value, t)
  {
    hide Reads, StringBody, Skip;
    var s := Quoted(key) + (": " + value);
    QuotedIsRead(key, ": " + value);
    AtToken(s);
    assert "" + s == s;
    AtToken(": " + value);
    assert (": " + value)[1..] == " " + value;
    assert Token(":", ": " + value, " " + value);
    hide Quoted;
  }

  lemma MembersGoOnWith(members: List<(string, Json)>, u: string, after: string)
    requires members.Cons? && members.rest.Cons? && ReadsObject(MembersOf(members.rest), u, after)
    requires LegalMembers(members) && Token(",", MembersTail(members, after), u)
    ensures MembersGoOn(MembersOf(members), MembersTail(members, after), after)
  {
    hide Reads, Token, Legal, Print, ReadsMembers;
  }

  lemma MembersAre(members: List<(string, Json)>, gap: string, colon: string, t: string, after: string)
    requires LegalMembers(members) && members.Cons? && t == MembersTail(members, after)
    requires ReadsMember(MembersOf(members).first, gap + (Quoted(members.first.0) + colon), colon, t)
    requires colon == ": " + (Print(members.first.1) + t)
    requires members.rest.Nil? ==> Token("}", t, after)
    requires members.rest.Cons? ==> MembersGoOn(MembersOf(members), t, after)
    ensures ReadsObject(MembersOf(members), gap + (PrintMembers(members) + "}" + after), after)
  {
    hide Reads, ReadsMember, Token, Legal, Print, PrintMembers, ReadsMembers, MembersTail, Quoted;
    MemberSplits(members, after);
    var srcs := MembersOf(members);
    assert MembersGoOn(srcs, t, after) by {
      assert srcs.rest == MembersOf(members.rest);
      assert members.rest.Nil? ==> MembersOf(members.rest) == Nil;
    }
    MembersLink(srcs, gap + (Quoted(members.first.0) + colon), colon, t, after);
  }

  /** A printed value is parsed back as itself, and exactly its text is consumed. */
  method RoundTrip(v: Json, after: string) returns (r: Option<Json>, left: string)
    requires Legal(v) && (v.Float? ==> EndsNumber(after))
    ensures r == Some(v) && left == after
  {
    hide Legal, Print, SourceOf, ValueOf, Reads;
    var stream := StreamValue("", v);
    assert "" + Print(v) == Print(v);
    var input := new Input(stream + after);
    SourceMeans(v);
    PrintReads(v, "", after);
    assert "" + (Print(v) + after) == Print(v) + after;
    assert input.Rest() == Print(v) + after;
    r := input.ParseValue(Some(SourceOf(v)), after);
    left := input.text[input.pos..];
  }
}
