/** From a manifest's flag dictionary to llama-server's argument list and back to the width
    (manifest.py, subprocess_mgr.py). */
module FlagsArgv {
  import opened Common

  // ----- integers as text -------------------------------------------------------------------------

  function Digit(d: nat): char
    requires d < 10
  {
    "0123456789"[d]
  }

  predicate IsDigit(c: char) {
    '0' <= c <= '9'
  }

  function PrintNat(n: nat): (s: string)
    ensures s != "" && IsDigit(s[0])
  {
    if n < 10 then [Digit(n)] else PrintNat(n / 10) + [Digit(n % 10)]
  }

  predicate Digits(s: string) {
    s != "" && forall c <- s :: IsDigit(c)
  }

  function ParseNat(s: string): nat
    requires forall c <- s :: IsDigit(c)
  {
    if s == "" then 0
    else
      var last := s[|s| - 1];
      assert last in s && IsDigit(last);
      ParseNat(s[..|s| - 1]) * 10 + (last as int - '0' as int)
  }

  lemma {:induction false} NatRoundTrip(n: nat)
    ensures Digits(PrintNat(n)) && ParseNat(PrintNat(n)) == n
  {
    if n >= 10 {
      NatRoundTrip(n / 10);
      assert PrintNat(n)[..|PrintNat(n)| - 1] == PrintNat(n / 10);
    } else {
      assert PrintNat(n)[..0] == "";
    }
  }

  /** `str` of an int. */
  function PrintInt(n: int): string {
    if n < 0 then "-" + PrintNat(-n) else PrintNat(n)
  }

  predicate IsInt(s: string) {
    Digits(s) || (s != "" && s[0] == '-' && Digits(s[1..]))
  }

  /** `int` of a plain decimal text. */
  function ParseInt(s: string): int
    requires IsInt(s)
  {
    var magnitude: int := if Digits(s) then ParseNat(s) else ParseNat(s[1..]);
    if Digits(s) then magnitude else -magnitude
  }

  lemma SignedParse(s: string)
    requires Digits(s)
    ensures IsInt("-" + s) && ParseInt("-" + s) == -(ParseNat(s) as int)
  {
    var t := "-" + s;
    assert t[0] == '-' && t[0] in t && t[1..] == s;
  }

  lemma IntRoundTrip(n: int)
    ensures IsInt(PrintInt(n)) && ParseInt(PrintInt(n)) == n
  {
    if n < 0 {
      NatRoundTrip(-n);
      SignedParse(PrintNat(-n));
    } else {
      NatRoundTrip(n);
    }
  }

  // ----- flags ----------------------------------------------------------------------------------------

  /** What the allowlist expects of a flag. */
  datatype Kind = Toggle | Whole | Decimal | Word | GpuLayers | FlashAttn | Template

  /** A value; `Real` carries the text `str` gives for a float. */
  datatype Value = Bool(b: bool) | Whole(n: int) | Real(text: string) | Word(s: string)

  datatype Entry = Entry(key: string, value: Value)

  type Table = map<string, Kind>

  /** What the allowlist satisfies: names without dashes, the two special names, and
      `parallel` among the integers. */
  predicate ValidTable(t: Table) {
    && (forall k <- t.Keys :: k != "" && '-' !in k)
    && (forall k <- t.Keys ::
        (t[k] == FlashAttn <==> k == "flash_attn") && (t[k] == Template <==> k == "chat_template"))
    && "parallel" in t && t["parallel"] == Kind.Whole
  }

  function LowerChar(c: char): (r: char)
    ensures !('A' <= r <= 'Z') && (!('A' <= c <= 'Z') ==> r == c)
    ensures 'A' <= c <= 'Z' ==> r as int - 'a' as int == c as int - 'A' as int
  {
    if 'A' <= c <= 'Z' then (c as int + 32) as char else c
  }

  function Lower(s: string): (r: string)
    ensures |r| == |s| && forall i :: 0 <= i < |s| ==> r[i] == LowerChar(s[i])
  {
    if s == "" then "" else [LowerChar(s[0])] + Lower(s[1..])
  }

  predicate Dashed(s: string) {
    |s| >= 2 && s[0] == '-' && s[1] == '-'
  }

  /** `_validate_flag_value`, as far as the text of the value goes.  A float's text has a
      point, an exponent or is inf or nan; enumerated words do not begin with two dashes. */
  predicate ValidValue(k: string, kind: Kind, v: Value) {
    match kind
    case Toggle => v.Bool?
    case Whole => v.Whole? && (k == "parallel" ==> 1 <= v.n <= 256)
    case Decimal => v.Whole? || (v.Real? && !Dashed(v.text) && !IsInt(v.text))
    case Word => v.Word? && !Dashed(v.s)
    case GpuLayers => v.Whole? || (v.Word? && (Lower(v.s) == "all" || Lower(v.s) == "auto"))
    case FlashAttn => v.Bool? || (v.Word? && Lower(v.s) in ["on", "off", "auto", "enabled", "disabled"])
    case Template =>
      && v.Word? && |v.s| <= 256
      && (TemplateName(v.s) || (v.s != "" && EndsLine(v.s) && TemplateName(v.s[..|v.s| - 1])))
  }

  predicate TemplateName(s: string) {
    s != "" && forall c <- s :: TemplateChar(c)
  }

  /** A `$` in a regular expression also matches before a final newline. */
  predicate EndsLine(s: string)
    requires s != ""
  {
    s[|s| - 1] == '\n'
  }

  predicate TemplateChar(c: char) {
    'A' <= c <= 'Z' || 'a' <= c <= 'z' || '0' <= c <= '9' || c == '_' || c == '.' || c == '-'
  }

  /** A dictionary in insertion order. */
  ghost predicate ValidFlags(t: Table, flags: seq<Entry>) {
    && (forall i, j :: 0 <= i < j < |flags| ==> flags[i].key != flags[j].key)
    && forall e <- flags :: e.key in t && ValidValue(e.key, t[e.key], e.value)
  }

  function Swap(s: string, from: char, to: char): (r: string)
    ensures |r| == |s| && forall i :: 0 <= i < |s| ==> r[i] == if s[i] == from then to else s[i]
  {
    if s == "" then "" else [if s[0] == from then to else s[0]] + Swap(s[1..], from, to)
  }

  lemma SwapNothing(s: string, from: char, to: char)
    requires from !in s
    ensures Swap(s, from, to) == s
  {
    forall i | 0 <= i < |s|
      ensures Swap(s, from, to)[i] == s[i]
    {
      assert s[i] in s;
    }
  }

  /** The command-line name of a flag. */
  function Cli(key: string): string {
    "--" + Swap(key, '_', '-')
  }

  function KeyOf(token: string): string
    requires Dashed(token)
  {
    Swap(token[2..], '-', '_')
  }

  lemma CliRoundTrip(key: string)
    requires '-' !in key
    ensures Dashed(Cli(key)) && KeyOf(Cli(key)) == key
  {
    assert Cli(key)[2..] == Swap(key, '_', '-');
    forall i | 0 <= i < |key|
      ensures KeyOf(Cli(key))[i] == key[i]
    {
      assert key[i] in key;
    }
  }

  lemma ParallelCli()
    ensures Cli("parallel") == "--parallel" && Dashed("--parallel") && KeyOf("--parallel") == "parallel"
  {
    var name := "parallel";
    assert '_' !in name && '-' !in name;
    SwapNothing(name, '_', '-');
    CliRoundTrip(name);
  }

  function Text(v: Value): string
    requires !v.Bool?
  {
    match v
    case Whole(n) => PrintInt(n)
    case Real(text) => text
    case Word(s) => s
  }

  /** What one flag contributes. */
  function Item(e: Entry): seq<string> {
    if e.key == "flash_attn" then
      [Cli(e.key), if e.value.Bool? then (if e.value.b then "on" else "off") else Lower(Text(e.value))]
    else if e.value.Bool? then (if e.value.b then [Cli(e.key)] else [])
    else [Cli(e.key), Text(e.value)]
  }

  function Argv(flags: seq<Entry>): seq<string> {
    if flags == [] then [] else Item(flags[0]) + Argv(flags[1..])
  }

  lemma {:induction false} ArgvSnoc(flags: seq<Entry>, e: Entry)
    ensures Argv(flags + [e]) == Argv(flags) + Item(e)
  {
    if flags == [] {
      assert [e][1..] == [];
    } else {
      ArgvSnoc(flags[1..], e);
      assert (flags + [e])[1..] == flags[1..] + [e];
    }
  }

  /** `flags_to_argv`: None when a key is not allowed. */
  method FlagsToArgv(t: Table, flags: seq<Entry>) returns (argv: Option<seq<string>>)
    ensures argv == if forall e <- flags :: e.key in t then Some(Argv(flags)) else None
  {
    var out := [];
    for i := 0 to |flags|
      invariant out == Argv(flags[..i])
      invariant forall e <- flags[..i] :: e.key in t
    {
      var key, value := flags[i].key, flags[i].value;
      if key !in t {
        assert flags[i] in flags;
        return None;
      }
      ArgvSnoc(flags[..i], flags[i]);
      assert flags[..i + 1] == flags[..i] + [flags[i]];
      if key == "flash_attn" {
        if value.Bool? {
          out := out + [Cli(key), if value.b then "on" else "off"];
        } else {
          out := out + [Cli(key), Lower(Text(value))];
        }
      } else if value.Bool? {
        if value.b {
          out := out + [Cli(key)];
        }
      } else {
        out := out + [Cli(key), Text(value)];
      }
    }
    assert flags[..|flags|] == flags;
    argv := Some(out);
  }

  // ----- decoding -----------------------------------------------------------------------------------------

  function ParseValue(kind: Kind, text: string): Value {
    match kind
    case Whole => if IsInt(text) then Value.Whole(ParseInt(text)) else Value.Word(text)
    case Decimal => if IsInt(text) then Value.Whole(ParseInt(text)) else Real(text)
    case GpuLayers => if IsInt(text) then Value.Whole(ParseInt(text)) else Value.Word(text)
    case _ => Value.Word(text)
  }

  /** Read an argument list from left to right; the name of a flag says whether a value
      follows. */
  function Decode(t: Table, argv: seq<string>): Option<seq<Entry>> {
    if argv == [] then Some([])
    else if !Dashed(argv[0]) || KeyOf(argv[0]) !in t then None
    else
      var key := KeyOf(argv[0]);
      if t[key] == Toggle then
        match Decode(t, argv[1..])
        case Some(more) => Some([Entry(key, Bool(true))] + more)
        case None => None
      else if |argv| == 1 then None
      else
        match Decode(t, argv[2..])
        case Some(more) => Some([Entry(key, ParseValue(t[key], argv[1]))] + more)
        case None => None
  }

  /** What the argument list can say: false toggles are gone, and flash_attn is a word. */
  function Normal(e: Entry): Entry {
    if e.key != "flash_attn" then e
    else if e.value == Bool(true) then Entry(e.key, Value.Word("on"))
    else if e.value == Bool(false) then Entry(e.key, Value.Word("off"))
    else Entry(e.key, Value.Word(Lower(Text(e.value))))
  }

  /** What the decoding keeps of one flag. */
  function KeptOf(e: Entry): seq<Entry> {
    if e.key != "flash_attn" && e.value == Bool(false) then [] else [Normal(e)]
  }

  function Kept(flags: seq<Entry>): seq<Entry> {
    if flags == [] then [] else KeptOf(flags[0]) + Kept(flags[1..])
  }

  lemma WordNotInt(s: string)
    requires Lower(s) == "all" || Lower(s) == "auto"
    ensures !IsInt(s)
  {
    assert Lower(s)[0] == LowerChar(s[0]) == 'a';
    assert s[0] in s;
  }

  lemma ValueRoundTrip(k: string, kind: Kind, v: Value)
    requires ValidValue(k, kind, v) && kind != Toggle && kind != FlashAttn
    ensures !v.Bool? && ParseValue(kind, Text(v)) == v
  {
    if v.Whole? {
      IntRoundTrip(v.n);
    } else if kind == GpuLayers {
      WordNotInt(v.s);
    }
  }

  lemma DecodeToggle(t: Table, key: string, rest: seq<string>, more: seq<Entry>)
    requires '-' !in key && key in t && t[key] == Toggle && Decode(t, rest) == Some(more)
    ensures Decode(t, [Cli(key)] + rest) == Some([Entry(key, Bool(true))] + more)
  {
    CliRoundTrip(key);
    var argv := [Cli(key)] + rest;
    assert argv[0] == Cli(key) && argv[1..] == rest;
  }

  lemma DecodeValued(t: Table, key: string, text: string, rest: seq<string>, more: seq<Entry>)
    requires '-' !in key && key in t && t[key] != Toggle && Decode(t, rest) == Some(more)
    ensures Decode(t, [Cli(key), text] + rest) == Some([Entry(key, ParseValue(t[key], text))] + more)
  {
    CliRoundTrip(key);
    var argv := [Cli(key), text] + rest;
    assert argv[0] == Cli(key) && argv[1] == text && argv[2..] == rest;
  }

  lemma TailValid(t: Table, flags: seq<Entry>)
    requires ValidFlags(t, flags) && flags != []
    ensures ValidFlags(t, flags[1..]) && flags[0].key in t && ValidValue(flags[0].key, t[flags[0].key], flags[0].value)
    ensures forall e <- flags[1..] :: e.key != flags[0].key
  {
    assert flags[0] in flags;
    assert forall e <- flags[1..] :: e in flags;
  }

  lemma FlashText(e: Entry)
    requires e.key == "flash_attn"
    ensures Normal(e).value.Word? && Item(e) == [Cli(e.key), Normal(e).value.s]
  {
  }

  lemma FlashDecodes(t: Table, e: Entry, rest: seq<string>, more: seq<Entry>)
    requires ValidTable(t) && e.key in t && ValidValue(e.key, t[e.key], e.value) && e.key == "flash_attn"
    requires Decode(t, rest) == Some(more)
    ensures Decode(t, Item(e) + rest) == Some(KeptOf(e) + more)
  {
    FlashText(e);
    DecodeValued(t, e.key, Normal(e).value.s, rest, more);
  }

  lemma OtherDecodes(t: Table, e: Entry, rest: seq<string>, more: seq<Entry>)
    requires ValidTable(t) && e.key in t && ValidValue(e.key, t[e.key], e.value) && e.key != "flash_attn"
    requires Decode(t, rest) == Some(more)
    ensures Decode(t, Item(e) + rest) == Some(KeptOf(e) + more)
  {
    if !e.value.Bool? {
      ValueRoundTrip(e.key, t[e.key], e.value);
      DecodeValued(t, e.key, Text(e.value), rest, more);
    } else if e.value.b {
      DecodeToggle(t, e.key, rest, more);
    } else {
      assert [] + rest == rest && [] + more == more;
    }
  }

  /** For every validated dictionary, in any order, the argument list decodes to it, less the
      false toggles and with flash_attn as the word it is passed as: no two dictionaries that
      differ in more than that share an argument list. */
  lemma {:induction false} ArgvDecodes(t: Table, flags: seq<Entry>)
    requires ValidTable(t) && ValidFlags(t, flags)
    ensures Decode(t, Argv(flags)) == Some(Kept(flags))
  {
    if flags != [] {
      TailValid(t, flags);
      ArgvDecodes(t, flags[1..]);
      if flags[0].key == "flash_attn" {
        FlashDecodes(t, flags[0], Argv(flags[1..]), Kept(flags[1..]));
      } else {
        OtherDecodes(t, flags[0], Argv(flags[1..]), Kept(flags[1..]));
      }
    }
  }

  lemma KeptSplit(flags: seq<Entry>)
    requires flags != []
    ensures Kept(flags) == KeptOf(flags[0]) + Kept(flags[1..])
  {
  }

  lemma Regrouped(a: seq<Entry>, b: seq<Entry>, c: seq<Entry>)
    ensures a + (b + c) == a + b + c
  {
  }

  lemma {:induction false} KeptConcat(a: seq<Entry>, b: seq<Entry>)
    ensures Kept(a + b) == Kept(a) + Kept(b)
    decreases |a|
  {
    if a == [] {
      assert [] + b == b;
    } else {
      KeptConcat(a[1..], b);
      assert (a + b)[1..] == a[1..] + b && (a + b)[0] == a[0];
      KeptSplit(a + b);
      KeptSplit(a);
      Regrouped(KeptOf(a[0]), Kept(a[1..]), Kept(b));
    }
  }

  /** Dictionaries that differ only in whether flash attention is on never share an argument
      list. */
  lemma FlashAttnTold(t: Table, before: seq<Entry>, after: seq<Entry>)
    requires ValidTable(t)
    requires ValidFlags(t, before + [Entry("flash_attn", Bool(true))] + after)
    requires ValidFlags(t, before + [Entry("flash_attn", Bool(false))] + after)
    ensures Argv(before + [Entry("flash_attn", Bool(true))] + after)
            != Argv(before + [Entry("flash_attn", Bool(false))] + after)
  {
    var on, off := Entry("flash_attn", Bool(true)), Entry("flash_attn", Bool(false));
    ArgvDecodes(t, before + [on] + after);
    ArgvDecodes(t, before + [off] + after);
    KeptSingle(before, on, after);
    KeptSingle(before, off, after);
    var n := |Kept(before)|;
    assert "on" != "off";
    assert Kept(before + [on] + after)[n] == Entry("flash_attn", Value.Word("on"));
    assert Kept(before + [off] + after)[n] == Entry("flash_attn", Value.Word("off"));
  }

  lemma KeptSingle(before: seq<Entry>, e: Entry, after: seq<Entry>)
    requires e.key == "flash_attn"
    ensures Kept(before + [e] + after) == Kept(before) + [Normal(e)] + Kept(after)
  {
    KeptConcat(before + [e], after);
    KeptConcat(before, [e]);
    assert [e][1..] == [];
  }

  // ----- the width --------------------------------------------------------------------------------------------

  function AtLeastOne(n: int): nat {
    if n > 1 then n else 1
  }

  /** The width pinned on a sidecar: the number after the first "--parallel" token. */
  function Width(argv: seq<string>): nat {
    if argv == [] then 1
    else if argv[0] == "--parallel" && |argv| > 1 then (if IsInt(argv[1]) then AtLeastOne(ParseInt(argv[1])) else 1)
    else Width(argv[1..])
  }

  /** The scan in `spawn_sidecar`. */
  method ScanWidth(argv: seq<string>) returns (parallel: nat)
    ensures parallel == Width(argv)
  {
    parallel := 1;
    var i := 0;
    while i < |argv|
      invariant i <= |argv| && parallel == 1 && Width(argv) == Width(argv[i..])
    {
      if argv[i] == "--parallel" && i + 1 < |argv| {
        parallel := if IsInt(argv[i + 1]) then AtLeastOne(ParseInt(argv[i + 1])) else 1;
        return;
      }
      assert argv[i..][1..] == argv[i + 1..];
      i := i + 1;
    }
  }

  /** `flags.get("parallel", 1)` of a validated dictionary. */
  function Parallel(flags: seq<Entry>): nat {
    if flags == [] then 1
    else if flags[0].key == "parallel" && flags[0].value.Whole? then AtLeastOne(flags[0].value.n)
    else Parallel(flags[1..])
  }

  /** A chat template called like the width flag, ahead of a width other than one. */
  ghost predicate Shadowed(flags: seq<Entry>) {
    exists i :: 0 <= i < |flags| && flags[i] == Entry("chat_template", Value.Word("--parallel"))
        && Parallel(flags[i + 1..]) != 1
  }

  lemma {:induction false} NoParallelKey(flags: seq<Entry>)
    requires forall e <- flags :: e.key != "parallel"
    ensures Parallel(flags) == 1
  {
    if flags != [] {
      assert flags[0] in flags && forall e <- flags[1..] :: e in flags;
      NoParallelKey(flags[1..]);
    }
  }

  lemma NotShadowed(flags: seq<Entry>)
    requires flags != [] && forall e <- flags[1..] :: e.key != "parallel"
    requires flags[0].key == "parallel"
    ensures !Shadowed(flags)
  {
    forall i | 0 <= i < |flags| && flags[i] == Entry("chat_template", Value.Word("--parallel"))
      ensures Parallel(flags[i + 1..]) == 1
    {
      assert forall e <- flags[i + 1..] :: e in flags[1..];
      NoParallelKey(flags[i + 1..]);
    }
  }

  /** Shadowing is decided by the head and the rest. */
  lemma ShadowedTail(flags: seq<Entry>)
    requires flags != []
    ensures Shadowed(flags) <==>
            (flags[0] == Entry("chat_template", Value.Word("--parallel")) && Parallel(flags[1..]) != 1)
                || Shadowed(flags[1..])
  {
    var tail := flags[1..];
    if Shadowed(tail) {
      var i :| 0 <= i < |tail| && tail[i] == Entry("chat_template", Value.Word("--parallel"))
          && Parallel(tail[i + 1..]) != 1;
      assert flags[i + 1] == tail[i] && flags[i + 1 + 1..] == tail[i + 1..];
    }
    if Shadowed(flags) {
      var i :| 0 <= i < |flags| && flags[i] == Entry("chat_template", Value.Word("--parallel"))
          && Parallel(flags[i + 1..]) != 1;
      if i > 0 {
        assert tail[i - 1] == flags[i] && tail[i - 1 + 1..] == flags[i + 1..];
      }
    }
  }

  lemma OnlyOneTemplate(flags: seq<Entry>)
    requires forall e <- flags :: e.key != "chat_template"
    ensures !Shadowed(flags)
  {
    forall i | 0 <= i < |flags|
      ensures flags[i].key != "chat_template"
    {
      assert flags[i] in flags;
    }
  }

  lemma CliIsParallel(key: string)
    requires '-' !in key && Cli(key) == "--parallel"
    ensures key == "parallel"
  {
    CliRoundTrip(key);
    ParallelCli();
  }

  lemma SkipOne(a: string, rest: seq<string>)
    requires a != "--parallel"
    ensures Width([a] + rest) == Width(rest)
  {
    assert ([a] + rest)[1..] == rest;
  }

  lemma SkipTwo(a: string, b: string, rest: seq<string>)
    requires a != "--parallel" && b != "--parallel"
    ensures Width([a, b] + rest) == Width(rest)
  {
    assert [a, b] + rest == [a] + ([b] + rest);
    SkipOne(b, rest);
    SkipOne(a, [b] + rest);
  }

  lemma DashedNotInt(s: string)
    requires Dashed(s)
    ensures !IsInt(s)
  {
    assert s[0] in s && s[1..][0] in s[1..];
  }

  /** After a value called "--parallel" comes the name of a flag, which is no number, or
      nothing. */
  lemma TemplateHidesWidth(name: string, rest: seq<string>)
    requires name != "--parallel" && (rest != [] ==> Dashed(rest[0]))
    ensures Width([name, "--parallel"] + rest) == 1
  {
    var later := ["--parallel"] + rest;
    assert [name, "--parallel"] + rest == [name] + later;
    SkipOne(name, later);
    assert later[0] == "--parallel" && later[1..] == rest;
    if rest != [] {
      DashedNotInt(rest[0]);
      assert later[1] == rest[0];
    }
  }

  lemma {:induction false} ArgvStartsDashed(t: Table, flags: seq<Entry>)
    requires ValidTable(t) && ValidFlags(t, flags)
    ensures Argv(flags) != [] ==> Dashed(Argv(flags)[0])
  {
    if flags != [] {
      TailValid(t, flags);
      ArgvStartsDashed(t, flags[1..]);
      if Item(flags[0]) != [] {
        CliRoundTrip(flags[0].key);
      }
    }
  }

  lemma TextIsNotWidth(e: Entry, kind: Kind)
    requires ValidValue(e.key, kind, e.value) && !e.value.Bool? && kind != FlashAttn
    requires e != Entry(e.key, Value.Word("--parallel"))
    ensures Text(e.value) != "--parallel"
  {
    if e.value.Whole? {
      IntRoundTrip(e.value.n);
      assert "--parallel"[1..][0] in "--parallel"[1..] && "--parallel"[0] in "--parallel";
    } else if kind == GpuLayers {
      assert Dashed("--parallel");
      assert Lower(e.value.s)[0] == LowerChar(e.value.s[0]);
    }
  }

  lemma FlashIsNotWidth(e: Entry)
    requires e.key == "flash_attn" && ValidValue(e.key, FlashAttn, e.value)
    ensures Item(e) == [Cli(e.key), Item(e)[1]] && Item(e)[1] != "--parallel"
  {
  }

  /** The head of the dictionary, when it is neither the width nor a template that looks like
      it, does not matter to the scan. */
  lemma OtherItemSkipped(t: Table, e: Entry, rest: seq<string>)
    requires ValidTable(t) && e.key in t && ValidValue(e.key, t[e.key], e.value)
    requires e.key != "parallel" && e != Entry("chat_template", Value.Word("--parallel"))
    ensures Width(Item(e) + rest) == Width(rest)
  {
    if Cli(e.key) == "--parallel" {
      CliIsParallel(e.key);
    }
    if e.key == "flash_attn" {
      FlashIsNotWidth(e);
      SkipTwo(Cli(e.key), Item(e)[1], rest);
    } else if e.value.Bool? {
      if e.value.b {
        SkipOne(Cli(e.key), rest);
      } else {
        assert [] + rest == rest;
      }
    } else {
      TextIsNotWidth(e, t[e.key]);
      SkipTwo(Cli(e.key), Text(e.value), rest);
    }
  }

  lemma ParallelItem(e: Entry, rest: seq<string>)
    requires e.key == "parallel" && e.value.Whole?
    ensures Width(Item(e) + rest) == AtLeastOne(e.value.n)
  {
    ParallelCli();
    IntRoundTrip(e.value.n);
    assert Item(e) == [Cli(e.key), PrintInt(e.value.n)];
    WidthAt(Cli(e.key), PrintInt(e.value.n), rest);
  }

  lemma WidthAt(name: string, number: string, rest: seq<string>)
    requires name == "--parallel" && IsInt(number)
    ensures Width([name, number] + rest) == AtLeastOne(ParseInt(number))
  {
    var argv := [name, number] + rest;
    assert argv[0] == name && argv[1] == number;
  }

  const LOOKALIKE := Entry("chat_template", Value.Word("--parallel"))

  lemma TemplateItem(e: Entry, value: string, rest: seq<string>)
    requires |e.key| == 13 && e.value == Value.Word(value) && value == "--parallel"
    requires rest != [] ==> Dashed(rest[0])
    ensures Width(Item(e) + rest) == 1
  {
    assert |Cli(e.key)| == 15 && |value| == 10 && |"flash_attn"| == 10;
    assert Item(e) == [Cli(e.key), value];
    TemplateHidesWidth(Cli(e.key), rest);
  }

  lemma HeadIsWidth(t: Table, flags: seq<Entry>)
    requires ValidTable(t) && ValidFlags(t, flags) && flags != [] && flags[0].key == "parallel"
    ensures Width(Argv(flags)) == Parallel(flags) && !Shadowed(flags)
  {
    TailValid(t, flags);
    ParallelItem(flags[0], Argv(flags[1..]));
    NotShadowed(flags);
  }

  lemma HeadIsLookalike(t: Table, flags: seq<Entry>)
    requires ValidTable(t) && ValidFlags(t, flags) && flags != [] && flags[0] == LOOKALIKE
    ensures Width(Argv(flags)) == Parallel(flags) <==> !Shadowed(flags)
  {
    TailValid(t, flags);
    ArgvStartsDashed(t, flags[1..]);
    TemplateItem(flags[0], flags[0].value.s, Argv(flags[1..]));
    OnlyOneTemplate(flags[1..]);
    ShadowedTail(flags);
  }

  lemma HeadIsOther(t: Table, flags: seq<Entry>)
    requires ValidTable(t) && ValidFlags(t, flags) && flags != [] && flags[0].key != "parallel" && flags[0] != LOOKALIKE
    ensures Width(Argv(flags)) == Width(Argv(flags[1..])) && Parallel(flags) == Parallel(flags[1..])
    ensures Shadowed(flags) <==> Shadowed(flags[1..])
  {
    TailValid(t, flags);
    OtherItemSkipped(t, flags[0], Argv(flags[1..]));
    ShadowedTail(flags);
  }

  /** For every validated dictionary, in any order, the width scanned from the argument list
      is the manifest's own, except exactly when a chat template named "--parallel" comes
      before a width other than one. */
  lemma {:induction false} WidthRoundTripExactly(t: Table, flags: seq<Entry>)
    requires ValidTable(t) && ValidFlags(t, flags)
    ensures Width(Argv(flags)) == Parallel(flags) <==> !Shadowed(flags)
  {
    if flags != [] {
      if flags[0].key == "parallel" {
        HeadIsWidth(t, flags);
      } else if flags[0] == LOOKALIKE {
        HeadIsLookalike(t, flags);
      } else {
        HeadIsOther(t, flags);
        TailValid(t, flags);
        WidthRoundTripExactly(t, flags[1..]);
      }
    }
  }
}
