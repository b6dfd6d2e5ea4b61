/**
 The texts that jsonxx reads, permissive as it is configured: white space and comments before every token, strings in
 either kind of quotes. Printed values are such texts.
 */
module JsonGrammar {
  import opened StdMap
  import opened Wrappers
  import opened JsonText

  /** A value as it is written: members in any order, and a key may occur more than once. */
  datatype Source =
    | Literal(v: Json)
    | ArrayOf(items: List<Source>)
    | ObjectOf(members: List<(string, Source)>)

  function ValueOf(src: Source): Json
    decreases src, 0
  {
    match src
    case Literal(v) => v
    case ArrayOf(items) => Arr(ValuesOf(items))
    case ObjectOf(members) => Obj(Collect(Nil, members))
  }

  function ValuesOf(items: List<Source>): List<Json>
    decreases items, 1
  {
    if items.Nil? then Nil else Cons(ValueOf(items.first), ValuesOf(items.rest))
  }

  /** The last value of a key counts. */
  function Collect(done: List<(string, Json)>, members: List<(string, Source)>): List<(string, Json)>
    decreases members, 1
  {
    if members.Nil? then done
    else Collect(Put(done, members.first.0, ValueOf(members.first.1)), members.rest)
  }

  predicate StartsWith(t: string, chars: string) { t != "" && t[0] in chars }

  ghost predicate ReadsString(value: string, t: string, after: string) {
    StartsWith(t, "\"'") && StringBody(t[1..], t[0]) == Some((value, after))
  }

  /** The token `t` and what follows it. */
  ghost predicate ReadsLiteral(v: Json, t: string, after: string) {
    match v
    case Null => "null" <= t && after == t[4..]
    case Bool(b) => if b then "true" <= t && after == t[4..] else "false" <= t && after == t[5..]
    case Float(x) => StartsWith(t, "0123456789+-.") && ReadReal(t) == (Some(x), after)
    case Str(s) => ReadsString(s, t, after)
    case _ => false
  }

  ghost predicate Token(token: string, s: string, after: string) {
    |token| == 1 && token <= Skip(s) && after == Skip(s)[1..]
  }

  /** The text `s` is the value, as written, and then `after`. */
  ghost predicate Reads(src: Source, s: string, after: string)
    decreases src, 0
  {
    match src
    case Literal(v) => ReadsLiteral(v, Skip(s), after)
    case ArrayOf(items) => exists t :: Token("[", s, t) && ReadsArray(items, t, after)
    case ObjectOf(members) => exists t :: Token("{", s, t) && ReadsObject(members, t, after)
  }

  ghost predicate ReadsArray(items: List<Source>, s: string, after: string)
    decreases items, 2
  {
    if items.Nil? then Token("]", s, after) else ReadsItems(items, s, after)
  }

  ghost predicate ReadsItems(items: List<Source>, s: string, after: string)
    decreases items, 1
  {
    items.Cons? && exists t :: Reads(items.first, s, t) && ItemsGoOn(items, t, after)
  }

  /** Behind an item. */
  ghost predicate ItemsGoOn(items: List<Source>, t: string, after: string)
    decreases items, 0
  {
    items.Cons? &&
    if items.rest.Nil? then Token("]", t, after) else exists u :: Token(",", t, u) && ReadsItems(items.rest, u, after)
  }

  ghost predicate ReadsObject(members: List<(string, Source)>, s: string, after: string)
    decreases members, 2
  {
    if members.Nil? then Token("}", s, after) else ReadsMembers(members, s, after)
  }

  ghost predicate ReadsMembers(members: List<(string, Source)>, s: string, after: string)
    decreases members, 1
  {
    members.Cons? && exists colon, t :: ReadsMember(members.first, s, colon, t) && MembersGoOn(members, t, after)
  }

  ghost predicate ReadsMember(member: (string, Source), s: string, colon: string, t: string)
    decreases member, 1
  {
    ReadsString(member.0, Skip(s), colon) && exists u :: Token(":", colon, u) && Reads(member.1, u, t)
  }

  ghost predicate MembersGoOn(members: List<(string, Source)>, t: string, after: string)
    decreases members, 0
  {
    members.Cons? &&
    if members.rest.Nil? then Token("}", t, after) else exists u :: Token(",", t, u) && ReadsMembers(members.rest, u, after)
  }

  /** What the text of a value starts with, by the kind of value. */
  lemma ReadsStarts(src: Source, s: string, after: string)
    requires Reads(src, s, after)
    ensures var t := Skip(s);
      && t != "" && t[0] != ']' && t[0] != '}' && t[0] != ','
      && (StartsWith(t, "\"'") <==> src.Literal? && src.v.Str?)
      && (StartsWith(t, "0123456789+-.") <==> src.Literal? && src.v.Float?)
      && (StartsWith(t, "tf") <==> src.Literal? && src.v.Bool?)
      && (StartsWith(t, "n") <==> src.Literal? && src.v.Null?)
      && (StartsWith(t, "[") <==> src.ArrayOf?) && (StartsWith(t, "{") <==> src.ObjectOf?)
  {
    hide Skip, StringBody, ReadReal, ReadsArray, ReadsObject;
  }
}
