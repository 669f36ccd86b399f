/** A tool call inside another call's arguments (tool_call_recovery.py): both are found, and
    cutting both takes text with them that belongs to neither. */
module NestedCalls {
  import opened JsonScanner
  import opened SpanRemoval

  /** An object of two members whose second is an object: a name and its arguments. */
  predicate IsCall(v: Json) {
    v.Obj? && v.members.Member? && v.members.rest.Member? && v.members.rest.rest.NoMembers? && v.members.rest.v.Obj?
  }

  /** The arguments object of a call. */
  function Arguments(v: Json): Json
    requires IsCall(v)
  {
    v.members.rest.v
  }

  /** A call whose arguments have a call as their second member. */
  predicate Nests(v: Json) {
    && IsCall(v)
    && var w := Arguments(v); w.members.Member? && w.members.rest.Member? && IsCall(w.members.rest.v)
  }

  function Inner(v: Json): Json
    requires Nests(v)
  {
    Arguments(v).members.rest.v
  }

  /** What precedes the second member's value in an object. */
  function Before(v: Json): string
    requires v.Obj? && v.members.Member? && v.members.rest.Member?
  {
    Head(v.members, v.members.rest)
  }

  function After(v: Json): string
    requires v.Obj? && v.members.Member? && v.members.rest.Member?
  {
    Tail(v.members.rest)
  }

  lemma Splits(v: Json)
    requires v.Obj? && v.members.Member? && v.members.rest.Member?
    ensures Print(v) == Before(v) + Print(v.members.rest.v) + After(v)
    ensures v == Call(v.members, v.members.rest, v.blank)
  {
    CallSplits(v.members, v.members.rest, v.blank);
  }

  /** The call printed at `start` is a candidate: the scanner finds the end of its arguments
      and the outer-end rule the end of the call. */
  ghost predicate Found(text: string, start: nat, v: Json)
    requires IsCall(v)
  {
    var args := start + |Before(v)|;
    var argsEnd := args + |Print(Arguments(v))|;
    IsEnd(text, args, argsEnd) && IsOuterEnd(text, argsEnd, start + |Print(v)|)
  }

  lemma PrintedIsFound(prefix: string, v: Json, suffix: string)
    requires IsCall(v) && ValidJson(v)
    ensures Found(prefix + Print(v) + suffix, |prefix|, v)
  {
    Splits(v);
    OuterEndExactly(prefix, v.members, v.members.rest, v.blank, suffix, |prefix| + |Print(v)|);
  }

  /** What precedes the inner call in the outer one. */
  function InnerLead(v: Json): string
    requires Nests(v)
  {
    Before(v) + Before(Arguments(v))
  }

  function InnerTail(v: Json): string
    requires Nests(v)
  {
    After(Arguments(v)) + After(v)
  }

  lemma InnerSplits(v: Json)
    requires Nests(v)
    ensures Print(v) == InnerLead(v) + Print(Inner(v)) + InnerTail(v)
    ensures InnerLead(v) != "" && InnerTail(v) != ""
  {
    var w := Arguments(v);
    Splits(v);
    Splits(w);
    Regrouped(Before(v), Before(w), Print(Inner(v)), After(w), After(v));
  }

  lemma Regrouped(a: string, b: string, c: string, d: string, e: string)
    ensures a + (b + c + d) + e == (a + b) + c + (d + e)
  {
  }

  lemma Surrounded(prefix: string, whole: string, a: string, b: string, c: string, suffix: string)
    requires whole == a + b + c
    ensures prefix + whole + suffix == (prefix + a) + b + (c + suffix)
  {
  }

  lemma InnerValid(v: Json)
    requires Nests(v) && ValidJson(v)
    ensures ValidJson(Inner(v))
  {
    assert ValidMembers(v.members) && ValidMembers(v.members.rest);
    var w := Arguments(v);
    assert ValidJson(w) && ValidMembers(w.members) && ValidMembers(w.members.rest);
  }

  lemma FoundWithin(text: string, at: nat, prefix: string, whole: string, a: string, v: Json, c: string, suffix: string)
    requires IsCall(v) && ValidJson(v) && whole == a + Print(v) + c
    requires text == prefix + whole + suffix && at == |prefix| + |a|
    ensures Found(text, at, v)
  {
    Surrounded(prefix, whole, a, Print(v), c, suffix);
    PrintedIsFound(prefix + a, v, c + suffix);
  }

  /** The inner call is a candidate as well. */
  lemma InnerIsFound(text: string, prefix: string, v: Json, suffix: string, at: nat, inner: Json)
    requires Nests(v) && ValidJson(v) && text == prefix + Print(v) + suffix
    requires at == |prefix| + |InnerLead(v)| && inner == Inner(v)
    ensures Found(text, at, inner)
  {
    var _, lead, tail, whole := InnerParts(v);
    FoundWithin(text, at, prefix, whole, lead, inner, tail, suffix);
  }

  lemma InnerParts(v: Json) returns (inner: Json, lead: string, tail: string, whole: string)
    requires Nests(v) && ValidJson(v)
    ensures inner == Inner(v) && lead == InnerLead(v) && tail == InnerTail(v) && whole == Print(v)
    ensures IsCall(inner) && ValidJson(inner) && whole == lead + Print(inner) + tail
  {
    InnerSplits(v);
    InnerValid(v);
    inner, lead, tail, whole := Inner(v), InnerLead(v), InnerTail(v), Print(v);
  }

  /** One span strictly inside another does harm exactly when anything follows the outer one. */
  lemma NestedPairExactly(outer: Span, inner: Span, n: nat)
    requires outer.start < inner.start < inner.end <= outer.end <= n
    ensures InRange([outer, inner], n)
    ensures Harmless([outer, inner], n) <==> outer.end == n
  {
    var a := [outer, inner];
    assert outer in a && inner in a && Overlap(a, inner, outer);
    if outer.end < n {
      assert !Covered(a, outer.end);
      assert !Full(a, outer.start, n);
    } else {
      assert forall k: nat :: outer.start <= k < n ==> Covered(a, k);
      forall s <- a, t <- a | Overlap(a, s, t)
        ensures Full(a, t.start, n)
      {
        assert t.start >= outer.start;
      }
    }
  }

  lemma NestedCutsExactly(text: string, outer: Span, inner: Span)
    requires outer.start < inner.start < inner.end <= outer.end <= |text|
    ensures CutAll(text, [inner, outer]) == Outside(text, [outer, inner], 0) <==> outer.end == |text|
  {
    NestedPairExactly(outer, inner, |text|);
    StripIs(text, [outer, inner], [inner, outer]);
  }

  /** The spans of the two calls. */
  function OuterSpan(prefix: string, v: Json): Span {
    Span(|prefix|, |prefix| + |Print(v)|)
  }

  function InnerSpan(prefix: string, v: Json): Span
    requires Nests(v)
  {
    Span(|prefix| + |InnerLead(v)|, |prefix| + |InnerLead(v)| + |Print(Inner(v))|)
  }

  lemma SpansNest(prefix: string, v: Json)
    requires Nests(v)
    ensures var outer, inner := OuterSpan(prefix, v), InnerSpan(prefix, v);
            outer.start < inner.start < inner.end < outer.end
  {
    InnerSplits(v);
    Splits(Inner(v));
  }

  lemma CutsAround(prefix: string, whole: string, suffix: string, outer: Span, inner: Span)
    requires outer == Span(|prefix|, |prefix| + |whole|) && outer.start < inner.start < inner.end <= outer.end
    ensures CutAll(prefix + whole + suffix, [inner, outer]) == Outside(prefix + whole + suffix, [outer, inner], 0)
            <==> suffix == ""
  {
    NestedCutsExactly(prefix + whole + suffix, outer, inner);
  }

  /** For every call printed with another call as the second member of its arguments, between
      any texts: both are found, nested, and cutting both leaves exactly the text outside them
      exactly when nothing follows. */
  lemma NestedCallsOvercutExactly(prefix: string, v: Json, suffix: string)
    requires Nests(v) && ValidJson(v)
    ensures var text, outer, inner := prefix + Print(v) + suffix, OuterSpan(prefix, v), InnerSpan(prefix, v);
            CutAll(text, [inner, outer]) == Outside(text, [outer, inner], 0) <==> suffix == ""
  {
    SpansNest(prefix, v);
    CutsAround(prefix, Print(v), suffix, OuterSpan(prefix, v), InnerSpan(prefix, v));
  }

  // ----- a message ----------------------------------------------------------------------------

  function Text(s: string): seq<Piece> {
    seq(|s|, i requires 0 <= i < |s| => Raw(s[i]))
  }

  function Pair(key: string, v: Json, rest: Members): Members {
    Member("", Text(key), "", "", v, "", rest)
  }

  function ToolCall(tool: string, arguments: Members): Json {
    Obj(Pair("name", Str(Text(tool)), Pair("arguments", Obj(arguments, ""), NoMembers)), "")
  }

  /** Tool `f` called with a call of `g` among its arguments, after an argument that ends in
      two braces.  There the non-greedy pattern ends its match of `f`, so it goes on to find
      `g` too. */
  function Message(f: string, g: string): Json {
    var braces := Obj(Pair("k", Obj(NoMembers, ""), NoMembers), "");
    ToolCall(f, Pair("a", braces, Pair("b", ToolCall(g, NoMembers), NoMembers)))
  }

  predicate Plain(s: string) {
    forall c <- s :: c != '"' && c != '\\'
  }

  lemma TextValid(s: string)
    requires Plain(s)
    ensures forall p <- Text(s) :: ValidPiece(p)
  {
    forall p <- Text(s)
      ensures ValidPiece(p)
    {
      var i :| 0 <= i < |s| && Text(s)[i] == p;
      assert s[i] in s;
    }
  }

  lemma PairValid(key: string, v: Json, rest: Members)
    requires Plain(key) && ValidJson(v) && ValidMembers(rest)
    ensures ValidMembers(Pair(key, v, rest))
  {
    TextValid(key);
  }

  lemma ToolCallValid(tool: string, arguments: Members)
    requires Plain(tool) && ValidMembers(arguments)
    ensures ValidJson(ToolCall(tool, arguments))
  {
    TextValid(tool);
    var args := Obj(arguments, "");
    PairValid("arguments", args, NoMembers);
    PairValid("name", Str(Text(tool)), Pair("arguments", args, NoMembers));
  }

  lemma MessageNests(f: string, g: string)
    requires Plain(f) && Plain(g)
    ensures ValidJson(Message(f, g)) && Nests(Message(f, g))
  {
    ToolCallValid(g, NoMembers);
    PairValid("b", ToolCall(g, NoMembers), NoMembers);
    PairValid("k", Obj(NoMembers, ""), NoMembers);
    PairValid("a", Obj(Pair("k", Obj(NoMembers, ""), NoMembers), ""), Pair("b", ToolCall(g, NoMembers), NoMembers));
    ToolCallValid(f, Arguments(Message(f, g)).members);
  }

  /** Whatever the two tools are called and whatever surrounds the message, text after it is
      lost. */
  lemma TextAfterMessageLost(prefix: string, f: string, g: string, suffix: string)
    requires Plain(f) && Plain(g) && suffix != ""
    ensures Nests(Message(f, g))
    ensures var v := Message(f, g);
            var text, outer, inner := prefix + Print(v) + suffix, OuterSpan(prefix, v), InnerSpan(prefix, v);
            CutAll(text, [inner, outer]) != Outside(text, [outer, inner], 0)
  {
    MessageNests(f, g);
    NestedCallsOvercutExactly(prefix, Message(f, g), suffix);
  }

  lemma {:induction false} TextReads(s: string)
    ensures PrintPieces(Text(s)) == s
    decreases |s|
  {
    if s != "" {
      assert Text(s)[0] == Raw(s[0]) && Text(s)[1..] == Text(s[1..]);
      TextReads(s[1..]);
    }
  }

  lemma PairReads(key: string, v: Json, rest: Members, first: bool)
    ensures PrintMembers(Pair(key, v, rest), first)
            == (if first then "" else ",") + "\"" + key + "\":" + Print(v) + PrintMembers(rest, false)
  {
    TextReads(key);
    var comma := if first then "" else ",";
    Unspaced(comma, key, PrintStr(Text(key)), Print(v), PrintMembers(rest, false), "");
  }

  lemma Unspaced(comma: string, key: string, str: string, value: string, more: string, none: string)
    requires str == ['"'] + key + ['"'] && none == ""
    ensures comma + none + str + none + ":" + none + value + none + more == comma + "\"" + key + "\":" + value + more
  {
    assert comma + none + str + none + ":" + none + value + none + more == comma + str + ":" + value + more;
  }

  lemma StrReads(s: string)
    ensures Print(Str(Text(s))) == "\"" + s + "\""
  {
    TextReads(s);
  }

  lemma Joined(a: string, b: string, c: string, d: string, e: string)
    ensures "{" + ("" + "\"" + a + "\":" + ("\"" + b + "\"") + ("," + "\"" + c + "\":" + d + "")) + e
            == "{\"" + a + "\":\"" + b + "\",\"" + c + "\":" + d + e
  {
  }

  /** A call as it reads in a message. */
  lemma ToolCallReads(tool: string, arguments: Members, name: string, args: string)
    requires name == "name" && args == "arguments"
    ensures Print(ToolCall(tool, arguments))
            == "{\"" + name + "\":\"" + tool + "\",\"" + args + "\":" + Print(Obj(arguments, "")) + "}"
  {
    var body := Obj(arguments, "");
    var second := Pair(args, body, NoMembers);
    StrReads(tool);
    PairReads(args, body, NoMembers, false);
    PairReads(name, Str(Text(tool)), second, true);
    ObjReads(Pair(name, Str(Text(tool)), second));
    Joined(name, tool, args, Print(body), "}");
  }

  lemma ObjReads(members: Members)
    requires members.Member?
    ensures Print(Obj(members, "")) == "{" + PrintMembers(members, true) + "}"
  {
  }
}
