/** The brace scanner of tool_call_recovery.py against the grammar of RFC 8259. */
module JsonScanner {
  import opened Common

  // ----- the scanner ------------------------------------------------------------------------

  /** The loop variables of `_balanced_object_at`. */
  datatype Scan = Scan(depth: int, inStr: bool, escape: bool)

  function Step(s: Scan, c: char): Scan {
    if s.inStr then
      if s.escape then s.(escape := false)
      else if c == '\\' then s.(escape := true)
      else if c == '"' then s.(inStr := false)
      else s
    else if c == '"' then s.(inStr := true)
    else if c == '{' then s.(depth := s.depth + 1)
    else if c == '}' then s.(depth := s.depth - 1)
    else s
  }

  function Scanned(s: Scan, text: string): Scan
    decreases |text|
  {
    if text == "" then s else Scanned(Step(s, text[0]), text[1..])
  }

  /** Outside any string literal, `depth` braces open. */
  function Open(depth: int): Scan {
    Scan(depth, false, false)
  }

  lemma {:induction false} ScannedConcat(s: Scan, a: string, b: string)
    ensures Scanned(s, a + b) == Scanned(Scanned(s, a), b)
    decreases |a|
  {
    if a == "" {
      assert a + b == b;
    } else {
      ScannedConcat(Step(s, a[0]), a[1..], b);
      assert (a + b)[0] == a[0] && (a + b)[1..] == a[1..] + b;
    }
  }

  lemma ScannedOne(s: Scan, c: char)
    ensures Scanned(s, [c]) == Step(s, c)
  {
    assert [c][1..] == "";
  }

  /** `e` is the least end at which the braces opened from `start` on are all closed. */
  ghost predicate IsEnd(text: string, start: nat, e: nat) {
    && start < e <= |text| && text[start] == '{'
    && Scanned(Open(0), text[start..e]).depth == 0
    && forall k :: start < k < e ==> Scanned(Open(0), text[start..k]).depth != 0
  }

  /** No balanced end up to `i`. */
  ghost predicate NoEndBy(text: string, start: nat, i: nat) {
    start <= i <= |text| && forall k :: start < k <= i ==> Scanned(Open(0), text[start..k]).depth != 0
  }

  lemma ScannedNext(text: string, start: nat, i: nat)
    requires start <= i < |text|
    ensures Scanned(Open(0), text[start..i + 1]) == Step(Scanned(Open(0), text[start..i]), text[i])
  {
    assert text[start..i + 1] == text[start..i] + [text[i]];
    ScannedConcat(Open(0), text[start..i], [text[i]]);
    ScannedOne(Scanned(Open(0), text[start..i]), text[i]);
  }

  /** `_balanced_object_at`: the least balanced end, or nothing. */
  method BalancedObjectAt(text: string, start: nat) returns (end: Option<nat>)
    ensures forall e: nat :: end == Some(e) <==> IsEnd(text, start, e)
  {
    if start >= |text| || text[start] != '{' {
      return None;
    }
    var s, i := Open(0), start;
    while i < |text|
      invariant start <= i <= |text| && s == Scanned(Open(0), text[start..i])
      invariant i == start || s.depth >= 1
      invariant i == start ==> s == Open(0)
      invariant NoEndBy(text, start, i)
    {
      var c := text[i];
      ScannedNext(text, start, i);
      if s.inStr {
        if s.escape {
          s := s.(escape := false);
        } else if c == '\\' {
          s := s.(escape := true);
        } else if c == '"' {
          s := s.(inStr := false);
        }
      } else if c == '"' {
        s := s.(inStr := true);
      } else if c == '{' {
        s := s.(depth := s.depth + 1);
      } else if c == '}' {
        s := s.(depth := s.depth - 1);
        if s.depth == 0 {
          return Some(i + 1);
        }
      }
      i := i + 1;
    }
    end := None;
  }

  // ----- the grammar ----------------------------------------------------------------------------

  predicate IsSpace(c: char) {
    c == ' ' || c == '\t' || c == '\r' || c == '\n'
  }

  predicate Spaces(ws: string) {
    forall c <- ws :: IsSpace(c)
  }

  /** One item of a string literal: a raw character, a two-character escape, or \uXXXX. */
  datatype Piece = Raw(c: char) | Esc(c: char) | Uni(hex: string)

  predicate IsHex(c: char) {
    '0' <= c <= '9' || 'a' <= c <= 'f' || 'A' <= c <= 'F'
  }

  predicate Escapable(c: char) {
    c == '"' || c == '\\' || c == '/' || c == 'b' || c == 'f' || c == 'n' || c == 'r' || c == 't'
  }

  predicate ValidPiece(p: Piece) {
    match p
    case Raw(c) => c != '"' && c != '\\'
    case Esc(c) => Escapable(c)
    case Uni(hex) => |hex| == 4 && forall c <- hex :: IsHex(c)
  }

  /** A value with all its white space.  `Lit` is any number or literal name. */
  datatype Json =
    | Lit(text: string)
    | Str(pieces: seq<Piece>)
    | Arr(items: Items, blank: string)
    | Obj(members: Members, blank: string)

  datatype Items = NoItems | Item(before: string, v: Json, after: string, rest: Items)

  datatype Members =
    | NoMembers
    | Member(before: string, key: seq<Piece>, mid: string, mid': string, v: Json, after: string, rest: Members)

  predicate ValidJson(v: Json) {
    match v
    case Lit(text) => text != "" && forall c <- text :: c !in "\"{}[]:,\\" && !IsSpace(c)
    case Str(pieces) => forall p <- pieces :: ValidPiece(p)
    case Arr(items, blank) => ValidItems(items) && Spaces(blank)
    case Obj(members, blank) => ValidMembers(members) && Spaces(blank)
  }

  predicate ValidItems(items: Items) {
    match items
    case NoItems => true
    case Item(before, v, after, rest) => Spaces(before) && ValidJson(v) && Spaces(after) && ValidItems(rest)
  }

  predicate ValidMembers(members: Members) {
    match members
    case NoMembers => true
    case Member(before, key, mid, mid', v, after, rest) =>
      && Spaces(before) && Spaces(mid) && Spaces(mid') && Spaces(after)
      && (forall p <- key :: ValidPiece(p)) && ValidJson(v) && ValidMembers(rest)
  }

  function PrintPiece(p: Piece): string {
    match p
    case Raw(c) => [c]
    case Esc(c) => ['\\', c]
    case Uni(hex) => ['\\', 'u'] + hex
  }

  function PrintPieces(ps: seq<Piece>): string {
    if ps == [] then "" else PrintPiece(ps[0]) + PrintPieces(ps[1..])
  }

  function PrintStr(ps: seq<Piece>): string {
    ['"'] + PrintPieces(ps) + ['"']
  }

  function Print(v: Json): string {
    match v
    case Lit(text) => text
    case Str(pieces) => PrintStr(pieces)
    case Arr(items, blank) => ['['] + (if items.NoItems? then blank else PrintItems(items, true)) + [']']
    case Obj(members, blank) => ['{'] + (if members.NoMembers? then blank else PrintMembers(members, true)) + ['}']
  }

  function PrintItems(items: Items, first: bool): string {
    match items
    case NoItems => ""
    case Item(before, v, after, rest) =>
      (if first then "" else ",") + before + Print(v) + after + PrintItems(rest, false)
  }

  function PrintMembers(members: Members, first: bool): string {
    match members
    case NoMembers => ""
    case Member(before, key, mid, mid', v, after, rest) =>
      (if first then "" else ",") + before + PrintStr(key) + mid + ":" + mid' + Print(v) + after
          + PrintMembers(rest, false)
  }

  // ----- printed values leave the scanner where it was ---------------------------------------------

  /** Scanning `t` takes `s` to `s'` and never goes below depth `d`. */
  ghost predicate Over(s: Scan, t: string, s': Scan, d: int) {
    && Scanned(s, t) == s'
    && forall k :: 0 <= k <= |t| ==> Scanned(s, t[..k]).depth >= d
  }

  lemma OverConcat(s: Scan, a: string, s1: Scan, b: string, s2: Scan, d: int)
    requires Over(s, a, s1, d) && Over(s1, b, s2, d)
    ensures Over(s, a + b, s2, d)
  {
    ScannedConcat(s, a, b);
    forall k | 0 <= k <= |a + b|
      ensures Scanned(s, (a + b)[..k]).depth >= d
    {
      if k <= |a| {
        assert (a + b)[..k] == a[..k];
      } else {
        assert (a + b)[..k] == a + b[..k - |a|];
        ScannedConcat(s, a, b[..k - |a|]);
      }
    }
  }

  lemma OverOne(s: Scan, c: char, d: int)
    requires s.depth >= d && Step(s, c).depth >= d
    ensures Over(s, [c], Step(s, c), d)
  {
    ScannedOne(s, c);
    forall k | 0 <= k <= 1
      ensures Scanned(s, [c][..k]).depth >= d
    {
      assert [c][..1] == [c] && [c][..0] == "";
    }
  }

  /** Scanned outside strings at depth `d`, `t` returns there and never goes below. */
  ghost predicate Level(t: string, d: int) {
    Over(Open(d), t, Open(d), d)
  }

  lemma LevelConcat(a: string, b: string, d: int)
    requires Level(a, d) && Level(b, d)
    ensures Level(a + b, d)
  {
    OverConcat(Open(d), a, Open(d), b, Open(d), d);
  }

  /** Characters that do not move the scanner. */
  ghost predicate Still(s: Scan, t: string) {
    forall c <- t :: Step(s, c) == s
  }

  lemma {:induction false} StillOver(s: Scan, t: string)
    requires Still(s, t)
    ensures Over(s, t, s, s.depth)
    decreases |t|
  {
    if t != "" {
      assert t[0] in t && forall c <- t[1..] :: c in t;
      StillOver(s, t[1..]);
      OverOne(s, t[0], s.depth);
      OverConcat(s, [t[0]], s, t[1..], s, s.depth);
      assert t == [t[0]] + t[1..];
    }
  }

  lemma SpacesLevel(ws: string, d: int)
    requires Spaces(ws)
    ensures Level(ws, d)
  {
    StillOver(Open(d), ws);
  }

  function Inside(d: int): Scan {
    Scan(d, true, false)
  }

  /** Escapes included, an item of a string literal leaves the scanner inside the string. */
  lemma PieceInside(p: Piece, d: int)
    requires ValidPiece(p)
    ensures Over(Inside(d), PrintPiece(p), Inside(d), d)
  {
    match p
    case Raw(c) =>
      OverOne(Inside(d), c, d);
    case Esc(c) =>
      EscapedInside(c, d);
    case Uni(hex) =>
      EscapedInside('u', d);
      assert Still(Inside(d), hex);
      StillOver(Inside(d), hex);
      OverConcat(Inside(d), ['\\', 'u'], Inside(d), hex, Inside(d), d);
  }

  lemma EscapedInside(c: char, d: int)
    ensures Over(Inside(d), ['\\', c], Inside(d), d)
  {
    OverOne(Inside(d), '\\', d);
    OverOne(Scan(d, true, true), c, d);
    OverConcat(Inside(d), ['\\'], Scan(d, true, true), [c], Inside(d), d);
    assert ['\\', c] == ['\\'] + [c];
  }

  lemma {:induction false} PiecesInside(ps: seq<Piece>, d: int)
    requires forall p <- ps :: ValidPiece(p)
    ensures Over(Inside(d), PrintPieces(ps), Inside(d), d)
  {
    if ps != [] {
      PieceInside(ps[0], d);
      PiecesInside(ps[1..], d);
      OverConcat(Inside(d), PrintPiece(ps[0]), Inside(d), PrintPieces(ps[1..]), Inside(d), d);
    }
  }

  lemma StrLevel(ps: seq<Piece>, d: int)
    requires forall p <- ps :: ValidPiece(p)
    ensures Level(PrintStr(ps), d)
  {
    OverOne(Open(d), '"', d);
    PiecesInside(ps, d);
    OverConcat(Open(d), ['"'], Inside(d), PrintPieces(ps), Inside(d), d);
    OverOne(Inside(d), '"', d);
    OverConcat(Open(d), ['"'] + PrintPieces(ps), Inside(d), ['"'], Open(d), d);
  }

  function Body(v: Json): string
    requires v.Obj?
  {
    if v.members.NoMembers? then v.blank else PrintMembers(v.members, true)
  }

  /** Between its braces an object stays one level up. */
  lemma BodyLevel(v: Json, d: int)
    requires v.Obj? && ValidJson(v)
    ensures Level(Body(v), d)
    decreases v, 1
  {
    if v.members.NoMembers? {
      SpacesLevel(v.blank, d);
    } else {
      MembersLevel(v.members, true, d);
    }
  }

  /** Any printed value, at any nesting, leaves the scanner where it was. */
  lemma {:induction false} PrintLevel(v: Json, d: int)
    requires ValidJson(v)
    ensures Level(Print(v), d)
    decreases v, 2
  {
    match v
    case Lit(text) =>
      assert Still(Open(d), text);
      StillOver(Open(d), text);
    case Str(pieces) =>
      StrLevel(pieces, d);
    case Arr(items, blank) =>
      if items.NoItems? {
        SpacesLevel(blank, d);
      } else {
        ItemsLevel(items, true, d);
      }
      var inner := if items.NoItems? then blank else PrintItems(items, true);
      StillOver(Open(d), ['[']);
      StillOver(Open(d), [']']);
      LevelConcat(['['], inner, d);
      LevelConcat(['['] + inner, [']'], d);
    case Obj(members, blank) =>
      BodyLevel(v, d + 1);
      BracesLevel(Body(v), d);
  }

  lemma BracesLevel(inner: string, d: int)
    requires Level(inner, d + 1)
    ensures Level(['{'] + inner + ['}'], d)
  {
    OverOne(Open(d), '{', d);
    assert Over(Open(d + 1), inner, Open(d + 1), d);
    OverConcat(Open(d), ['{'], Open(d + 1), inner, Open(d + 1), d);
    OverOne(Open(d + 1), '}', d);
    OverConcat(Open(d), ['{'] + inner, Open(d + 1), ['}'], Open(d), d);
  }

  lemma CommaLevel(first: bool, d: int)
    ensures Level(if first then "" else ",", d)
  {
    StillOver(Open(d), if first then "" else ",");
  }

  lemma {:induction false} ItemsLevel(items: Items, first: bool, d: int)
    requires ValidItems(items)
    ensures Level(PrintItems(items, first), d)
    decreases items, 0
  {
    match items
    case NoItems =>
    case Item(before, v, after, rest) =>
      var comma := if first then "" else ",";
      CommaLevel(first, d);
      SpacesLevel(before, d);
      PrintLevel(v, d);
      SpacesLevel(after, d);
      ItemsLevel(rest, false, d);
      LevelConcat(comma, before, d);
      LevelConcat(comma + before, Print(v), d);
      LevelConcat(comma + before + Print(v), after, d);
      LevelConcat(comma + before + Print(v) + after, PrintItems(rest, false), d);
  }

  /** A member up to its value. */
  function Lead(m: Members, first: bool): string
    requires m.Member?
  {
    (if first then "" else ",") + m.before + PrintStr(m.key) + m.mid + ":" + m.mid'
  }

  lemma LeadLevel(m: Members, first: bool, d: int)
    requires m.Member? && ValidMembers(m)
    ensures Level(Lead(m, first), d)
  {
    var comma := if first then "" else ",";
    CommaLevel(first, d);
    SpacesLevel(m.before, d);
    StrLevel(m.key, d);
    SpacesLevel(m.mid, d);
    StillOver(Open(d), ":");
    SpacesLevel(m.mid', d);
    LevelConcat(comma, m.before, d);
    LevelConcat(comma + m.before, PrintStr(m.key), d);
    LevelConcat(comma + m.before + PrintStr(m.key), m.mid, d);
    LevelConcat(comma + m.before + PrintStr(m.key) + m.mid, ":", d);
    LevelConcat(comma + m.before + PrintStr(m.key) + m.mid + ":", m.mid', d);
  }

  lemma {:induction false} MembersLevel(members: Members, first: bool, d: int)
    requires ValidMembers(members)
    ensures Level(PrintMembers(members, first), d)
    decreases members, 0
  {
    match members
    case NoMembers =>
    case Member(before, key, mid, mid', v, after, rest) =>
      LeadLevel(members, first, d);
      PrintLevel(v, d);
      SpacesLevel(after, d);
      MembersLevel(rest, false, d);
      var lead := Lead(members, first);
      LevelConcat(lead, Print(v), d);
      LevelConcat(lead + Print(v), after, d);
      LevelConcat(lead + Print(v) + after, PrintMembers(rest, false), d);
  }

  // ----- the scanner finds the end of every printed object ------------------------------------------------

  /** For every object of the grammar, whatever its nesting and string contents, between any
      prefix and any suffix, the scanner returns exactly its end. */
  lemma ScannerAgreesWithJson(prefix: string, v: Json, suffix: string)
    requires v.Obj? && ValidJson(v)
    ensures IsEnd(prefix + Print(v) + suffix, |prefix|, |prefix| + |Print(v)|)
  {
    var text, start, e := prefix + Print(v) + suffix, |prefix|, |prefix| + |Print(v)|;
    var inner := Body(v);
    assert Print(v) == ['{'] + inner + ['}'];
    assert text[start..e] == Print(v);
    PrintLevel(v, 0);
    BodyLevel(v, 1);
    forall k | start < k < e
      ensures Scanned(Open(0), text[start..k]).depth != 0
    {
      assert text[start..k] == ['{'] + inner[..k - start - 1];
      ScannedConcat(Open(0), ['{'], inner[..k - start - 1]);
      ScannedOne(Open(0), '{');
    }
  }

  // ----- the end of the wrapping call ----------------------------------------------------------------------

  /** White space only, then the closing brace that ends at `e`. */
  ghost predicate IsOuterEnd(text: string, argsEnd: nat, e: nat) {
    argsEnd < e <= |text| && Spaces(text[argsEnd..e - 1]) && text[e - 1] == '}'
  }

  lemma SpacesEverywhere(text: string, a: nat, b: nat)
    requires a <= b <= |text| && Spaces(text[a..b])
    ensures forall k :: a <= k < b ==> IsSpace(text[k])
  {
    forall k | a <= k < b
      ensures IsSpace(text[k])
    {
      assert text[a..b][k - a] in text[a..b];
    }
  }

  /** The outer end of a canonical call: white space, then a closing brace. */
  method OuterEnd(text: string, argsEnd: nat) returns (end: Option<nat>)
    requires argsEnd <= |text|
    ensures forall e: nat :: end == Some(e) <==> IsOuterEnd(text, argsEnd, e)
  {
    var i := argsEnd;
    while i < |text| && IsSpace(text[i])
      invariant argsEnd <= i <= |text| && Spaces(text[argsEnd..i])
    {
      assert text[argsEnd..i + 1] == text[argsEnd..i] + [text[i]];
      i := i + 1;
    }
    SpacesEverywhere(text, argsEnd, i);
    forall e: nat | IsOuterEnd(text, argsEnd, e)
      ensures e == i + 1
    {
      SpacesEverywhere(text, argsEnd, e - 1);
    }
    if i >= |text| || text[i] != '}' {
      return None;
    }
    end := Some(i + 1);
  }

  /** A call as the canonical pattern finds it: a name, then the arguments object, then
      possibly more members. */
  function Call(name: Members, args: Members, blank: string): Json
    requires name.Member? && args.Member?
  {
    Obj(name.(rest := args), blank)
  }

  /** Everything of a call before its arguments object. */
  function Head(name: Members, args: Members): string
    requires name.Member? && args.Member?
  {
    ['{'] + (Lead(name, true) + Print(name.v) + name.after + Lead(args, false))
  }

  /** What follows the arguments in a call. */
  function Tail(args: Members): string
    requires args.Member?
  {
    args.after + PrintMembers(args.rest, false) + ['}']
  }

  lemma CallSplits(name: Members, args: Members, blank: string)
    requires name.Member? && args.Member?
    ensures Print(Call(name, args, blank))
         == Head(name, args) + Print(args.v) + Tail(args)
  {
    var lead, lead', first, body := Lead(name, true), Lead(args, false), Print(name.v), Print(args.v);
    var more := PrintMembers(args.rest, false);
    assert PrintMembers(args, false) == lead' + body + args.after + more;
    assert PrintMembers(name.(rest := args), true) == lead + first + name.after + PrintMembers(args, false);
    Regroup(['{'], lead, first, name.after, lead', body, args.after, more, ['}']);
  }

  lemma Regroup(o: string, a: string, b: string, c: string, d: string, e: string, f: string, g: string, z: string)
    ensures o + (a + b + c + (d + e + f + g)) + z == (o + (a + b + c + d)) + e + (f + g + z)
  {
  }

  lemma CallValid(name: Members, args: Members, blank: string)
    requires name.Member? && args.Member? && ValidJson(Call(name, args, blank))
    ensures ValidMembers(args) && ValidJson(args.v) && Spaces(args.after)
  {
    assert ValidMembers(name.(rest := args));
  }

  lemma SplitsAround(prefix: string, head: string, body: string, tail: string, suffix: string)
    ensures var text := prefix + (head + body + tail) + suffix;
            var e := |prefix| + |head| + |body|;
            && text == (prefix + head) + body + (tail + suffix)
            && text[e..] == tail + suffix && |prefix| + |head + body + tail| == e + |tail|
  {
    var text, e := prefix + (head + body + tail) + suffix, |prefix| + |head| + |body|;
    var front, back := (prefix + head) + body, tail + suffix;
    assert text == front + back;
    assert (front + back)[|front|..] == back;
  }

  lemma ObjectWithin(prefix: string, head: string, v: Json, tail: string, suffix: string)
    requires v.Obj? && ValidJson(v)
    ensures var text, e := prefix + (head + Print(v) + tail) + suffix, |prefix| + |head| + |Print(v)|;
            IsEnd(text, |prefix| + |head|, e) && text[e..] == tail + suffix
                && |prefix| + |head + Print(v) + tail| == e + |tail|
  {
    SplitsAround(prefix, head, Print(v), tail, suffix);
    ScannerAgreesWithJson(prefix + head, v, tail + suffix);
  }

  lemma ArgsWithin(prefix: string, name: Members, args: Members, blank: string, suffix: string)
    requires name.Member? && args.Member? && args.v.Obj? && ValidJson(args.v)
    ensures var text, head := prefix + Print(Call(name, args, blank)) + suffix, Head(name, args);
            var argsEnd := |prefix| + |head| + |Print(args.v)|;
            && IsEnd(text, |prefix| + |head|, argsEnd)
            && argsEnd <= |text| && text[argsEnd..] == Tail(args) + suffix
            && |prefix| + |Print(Call(name, args, blank))| == argsEnd + |Tail(args)|
  {
    CallSplits(name, args, blank);
    ObjectWithin(prefix, Head(name, args), args.v, Tail(args), suffix);
  }

  lemma FirstAfter(rest: Members)
    ensures var more := PrintMembers(rest, false) + ['}'];
            && more[0] == (if rest.NoMembers? then '}' else ',') && !IsSpace(more[0])
            && (rest.NoMembers? ==> |more| == 1)
  {
    if rest.Member? {
      assert PrintMembers(rest, false)[0] == ',';
    }
  }

  lemma OuterAfterArgs(text: string, argsEnd: nat, args: Members, suffix: string, e: nat)
    requires args.Member? && Spaces(args.after)
    requires argsEnd <= |text| && text[argsEnd..] == Tail(args) + suffix
    ensures IsOuterEnd(text, argsEnd, e) <==> args.rest.NoMembers? && e == argsEnd + |Tail(args)|
  {
    var more := PrintMembers(args.rest, false) + ['}'];
    FirstAfter(args.rest);
    SplitFirst(args.after, PrintMembers(args.rest, false), ['}'], suffix);
    AfterArgs(text, argsEnd, args.after, more[0], more[1..] + suffix, e);
  }

  lemma SplitFirst(a: string, b: string, c: string, d: string)
    requires b + c != ""
    ensures a + b + c + d == a + [(b + c)[0]] + ((b + c)[1..] + d)
  {
    assert a + b + c + d == a + (b + c) + d;
    assert b + c == [(b + c)[0]] + (b + c)[1..];
  }

  /** For every printed call the white-space-then-brace rule, started at the balanced end of
      the arguments, finds the balanced end of the whole call when the arguments are its last
      member, and nothing otherwise. */
  lemma OuterEndExactly(prefix: string, name: Members, args: Members, blank: string, suffix: string, e: nat)
    requires name.Member? && args.Member? && args.v.Obj? && ValidJson(Call(name, args, blank))
    ensures var call, text := Print(Call(name, args, blank)), prefix + Print(Call(name, args, blank)) + suffix;
            var argsStart := |prefix| + |Head(name, args)|;
            var argsEnd := argsStart + |Print(args.v)|;
            && IsEnd(text, argsStart, argsEnd)
            && IsEnd(text, |prefix|, |prefix| + |call|)
            && (IsOuterEnd(text, argsEnd, e) <==> args.rest.NoMembers? && e == |prefix| + |call|)
  {
    CallValid(name, args, blank);
    ScannerAgreesWithJson(prefix, Call(name, args, blank), suffix);
    ArgsWithin(prefix, name, args, blank, suffix);
    OuterWithin(prefix, Print(Call(name, args, blank)), Head(name, args), Print(args.v), args, suffix, e);
  }

  lemma OuterWithin(prefix: string, call: string, head: string, body: string, args: Members, suffix: string, e: nat)
    requires args.Member? && Spaces(args.after)
    requires var text, argsEnd := prefix + call + suffix, |prefix| + |head| + |body|;
             argsEnd <= |text| && text[argsEnd..] == Tail(args) + suffix && |prefix| + |call| == argsEnd + |Tail(args)|
    ensures IsOuterEnd(prefix + call + suffix, |prefix| + |head| + |body|, e)
            <==> args.rest.NoMembers? && e == |prefix| + |call|
  {
    OuterAfterArgs(prefix + call + suffix, |prefix| + |head| + |body|, args, suffix, e);
  }

  /** What follows the white space after the arguments decides. */
  lemma AfterArgs(text: string, argsEnd: nat, after: string, c: char, more: string, e: nat)
    requires Spaces(after) && !IsSpace(c)
    requires argsEnd <= |text| && text[argsEnd..] == after + [c] + more
    ensures IsOuterEnd(text, argsEnd, e) <==> c == '}' && e == argsEnd + |after| + 1
  {
    var i := argsEnd + |after|;
    assert text[argsEnd..i] == text[argsEnd..][..|after|] == after;
    assert text[i] == text[argsEnd..][|after|] == c;
    SpacesEverywhere(text, argsEnd, i);
    if IsOuterEnd(text, argsEnd, e) {
      SpacesEverywhere(text, argsEnd, e - 1);
    }
  }
}
