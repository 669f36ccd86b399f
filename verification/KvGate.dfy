/** The KV-cache estimate and the VRAM fit gate of safety.py. */
module KvGate {
  import opened Common

  const MIB := 1048576
  const PER_SLOT_COMPUTE_FLOOR_MIB := 256

  /** A scale factor of the quantisation table, as an exact fraction. */
  datatype Scale = Scale(num: nat, den: nat)

  /** `_KV_QUANT_SCALE`, by lower-cased name; anything else counts as f16. */
  function QuantScale(quant: string): (s: Scale)
    ensures 0 < s.den && 0 < s.num < 128
  {
    if quant == "f32" then Scale(2, 1)
    else if quant == "q8_0" then Scale(1, 2)
    else if quant == "q4_0" || quant == "q4_1" || quant == "iq4_nl" || quant == "turbo4" then Scale(1, 4)
    else if quant == "q5_0" || quant == "q5_1" then Scale(8, 25)
    else if quant == "turbo2" then Scale(1, 8)
    else if quant == "turbo3" then Scale(3, 16)
    else Scale(1, 1)
  }

  /** The bits per element a name of the table stands for, in hundredths: the number after its
      letters, but for the five-bit types, which the table takes at a little more. */
  function CentiBits(quant: string): Option<nat> {
    match quant
    case "f32" => Some(3200)
    case "f16" => Some(1600)
    case "bf16" => Some(1600)
    case "q8_0" => Some(800)
    case "q5_0" => Some(512)
    case "q5_1" => Some(512)
    case "q4_0" => Some(400)
    case "q4_1" => Some(400)
    case "iq4_nl" => Some(400)
    case "turbo4" => Some(400)
    case "turbo3" => Some(300)
    case "turbo2" => Some(200)
    case _ => None
  }

  /** Every factor is the type's bits over the sixteen of f16; an unknown type counts as f16. */
  lemma QuantScaleIsBits(quant: string)
    ensures var s := QuantScale(quant);
            match CentiBits(quant)
            case Some(bits) => s.num * 1600 == bits * s.den
            case None => s.num == s.den
  {
  }

  /** KB per token at f16, then scaled: two floors. */
  function TokenKb(size: int, s: Scale): nat
    requires size > 0 && s.den > 0
  {
    9 * (size / MIB) / 1024 * s.num / s.den
  }

  /** `estimate_kv_cache_mib`. */
  function EstimateKvMib(ctx: int, size: int, quant: string): nat {
    if ctx <= 0 || size <= 0 then 0 else TokenKb(size, QuantScale(quant)) * ctx / 1024
  }

  // ----- how close the estimate is ----------------------------------------------------------------
  //
  // Without any rounding the formula is 9 * size / 2^30 KB per token at f16, times num / den,
  // times ctx, over 1024 MiB.  The bounds below have their denominators cleared.

  const GIB := 1073741824

  lemma FloorBounds(a: int, d: int)
    requires d > 0
    ensures a / d * d <= a <= a / d * d + (d - 1)
  {
  }

  lemma Times(a: int, b: int, c: int)
    requires a <= b && c >= 0
    ensures a * c <= b * c
  {
  }

  lemma TimesStrictly(a: int, b: int, c: int)
    requires a < b && c > 0
    ensures a * c < b * c
  {
  }

  /** The two floors before the quantisation lose less than 1032/1024 KB. */
  lemma F16Bounds(size: int)
    requires size > 0
    ensures var k := 9 * (size / MIB) / 1024; GIB * k <= 9 * size < GIB * k + 1032 * MIB
  {
    FloorBounds(size, MIB);
    FloorBounds(9 * (size / MIB), 1024);
  }

  /** The products named: per token, `kn` is the f16 figure times num, `qd` the estimate times
      den, `bn` the exact numerator. */
  lemma TokenCore(qd: int, kn: int, bn: int, num: int, den: int)
    requires qd <= kn <= qd + den - 1 && GIB * kn <= bn < GIB * kn + 1032 * MIB * num && 0 < num < 128
    ensures GIB * qd <= bn < GIB * (qd + den + num)
  {
  }

  lemma Scaled(k: int, b: int, num: int)
    requires GIB * k <= b < GIB * k + 1032 * MIB && num > 0
    ensures GIB * (k * num) <= b * num < GIB * (k * num) + 1032 * MIB * num
  {
    Times(GIB * k, b, num);
    TimesStrictly(b, GIB * k + 1032 * MIB, num);
  }

  /** Per token the estimate is never above the exact figure, and less than num / den + 1 KB
      below it. */
  lemma TokenBounds(size: int, s: Scale)
    requires size > 0 && s.den > 0 && 0 < s.num < 128
    ensures var qd := TokenKb(size, s) * s.den; GIB * qd <= 9 * size * s.num < GIB * (qd + s.den + s.num)
  {
    var k := 9 * (size / MIB) / 1024;
    F16Bounds(size);
    Scaled(k, 9 * size, s.num);
    FloorBounds(k * s.num, s.den);
    TokenCore(TokenKb(size, s) * s.den, k * s.num, 9 * size * s.num, s.num, s.den);
  }

  /** A whole context: `qdc`, `bnc` and `slack` are the products by ctx, `td` the estimate in
      KB times den, `ed` the estimate in MiB times den. */
  lemma ContextCore(ed: int, td: int, bnc: int, slack: int, den: int)
    requires 1024 * ed <= td <= 1024 * ed + 1023 * den && GIB * td <= bnc < GIB * td + GIB * slack && den > 0
    ensures GIB * 1024 * ed <= bnc < GIB * 1024 * ed + GIB * 1024 * den + GIB * slack
  {
  }

  lemma ContextScaled(qd: int, bn: int, w: int, ctx: int)
    requires GIB * qd <= bn < GIB * (qd + w) && ctx > 0
    ensures GIB * (qd * ctx) <= bn * ctx < GIB * (qd * ctx) + GIB * (w * ctx)
  {
    Times(GIB * qd, bn, ctx);
    TimesStrictly(bn, GIB * (qd + w), ctx);
    assert GIB * (qd + w) * ctx == GIB * (qd * ctx) + GIB * (w * ctx);
  }

  lemma LastFloor(q: int, ctx: int, den: int)
    requires den > 0
    ensures var e := q * ctx / 1024; 1024 * (e * den) <= q * den * ctx <= 1024 * (e * den) + 1023 * den
  {
    var t := q * ctx;
    var e := t / 1024;
    FloorBounds(t, 1024);
    Times(1024 * e, t, den);
    Times(t, 1024 * e + 1023, den);
    assert q * den * ctx == t * den;
  }

  /** The nested-floor estimate never exceeds the exact value, and falls short of it by less
      than (num / den + 1) * ctx / 1024 + 1 MiB. */
  lemma EstimateBounds(ctx: int, size: int, quant: string)
    requires ctx > 0 && size > 0
    ensures var s, e := QuantScale(quant), EstimateKvMib(ctx, size, quant);
            && GIB * 1024 * (e * s.den) <= 9 * size * s.num * ctx
            && 9 * size * s.num * ctx < GIB * 1024 * (e * s.den) + GIB * 1024 * s.den + GIB * ((s.den + s.num) * ctx)
  {
    var s := QuantScale(quant);
    var q := TokenKb(size, s);
    TokenBounds(size, s);
    ContextScaled(q * s.den, 9 * size * s.num, s.den + s.num, ctx);
    LastFloor(q, ctx, s.den);
    ContextCore(EstimateKvMib(ctx, size, quant) * s.den, q * s.den * ctx, 9 * size * s.num * ctx,
        (s.den + s.num) * ctx, s.den);
  }

  // ----- monotonicity -------------------------------------------------------------------------------

  lemma FloorGrows(a: int, b: int, d: int)
    requires a <= b && d > 0
    ensures a / d <= b / d
  {
    if a / d > b / d {
      FloorBounds(a, d);
      FloorBounds(b, d);
      StepUp(b / d, a / d, d);
    }
  }

  lemma Positive(n: nat, d: int)
    requires d > 0
    ensures 0 <= n * d
  {
  }

  lemma StepUp(x: int, y: int, d: int)
    requires x < y && d > 0
    ensures x * d + d <= y * d
  {
    Positive(y - x - 1, d);
    assert (y - x - 1) * d == y * d - x * d - d;
  }

  lemma ProductGrows(a: nat, b: nat, c: nat, e: nat)
    requires a <= b && c <= e
    ensures a * c <= b * e
  {
  }

  lemma TokenKbGrows(size: int, size': int, s: Scale)
    requires 0 < size <= size' && s.den > 0
    ensures TokenKb(size, s) <= TokenKb(size', s)
  {
    FloorGrows(size, size', MIB);
    FloorGrows(9 * (size / MIB), 9 * (size' / MIB), 1024);
    ProductGrows(9 * (size / MIB) / 1024, 9 * (size' / MIB) / 1024, s.num, s.num);
    FloorGrows(9 * (size / MIB) / 1024 * s.num, 9 * (size' / MIB) / 1024 * s.num, s.den);
  }

  /** A longer context or a larger model never gets a smaller estimate. */
  lemma EstimateGrows(ctx: int, ctx': int, size: int, size': int, quant: string)
    requires ctx <= ctx' && size <= size'
    ensures EstimateKvMib(ctx, size, quant) <= EstimateKvMib(ctx', size', quant)
  {
    if ctx > 0 && size > 0 {
      var s := QuantScale(quant);
      TokenKbGrows(size, size', s);
      ProductGrows(TokenKb(size, s), TokenKb(size', s), ctx, ctx');
      FloorGrows(TokenKb(size, s) * ctx, TokenKb(size', s) * ctx', 1024);
    }
  }

  // ----- the gate -------------------------------------------------------------------------------------

  function Sum(vals: seq<nat>): nat {
    if vals == [] then 0 else vals[0] + Sum(vals[1..])
  }

  /** `_vram_budget`: the free memory a spawn is budgeted against; None when the probe cannot
      be read or sees no card. */
  function VramBudget(vals: Option<seq<nat>>, pinned: bool, mainGpu: int): Option<nat> {
    if vals == None || vals.value == [] then None
    else if pinned then Some(vals.value[if 0 <= mainGpu < |vals.value| then mainGpu else 0])
    else Some(Sum(vals.value))
  }

  /** What makes it the sum: nothing counts nothing, one card counts itself, and cards counted
      in two heaps count together. */
  lemma {:induction false} SumSplits(a: seq<nat>, b: seq<nat>)
    ensures Sum([]) == 0 && forall x: nat :: Sum([x]) == x
    ensures Sum(a + b) == Sum(a) + Sum(b)
  {
    forall x: nat
      ensures Sum([x]) == x
    {
      assert [x][1..] == [];
    }
    if a == [] {
      assert [] + b == b;
    } else {
      SumSplits(a[1..], b);
      assert (a + b)[1..] == a[1..] + b;
    }
  }

  /** The figure a spawn is budgeted against: none exactly without a reading or a card, the
      card's own for a model pinned to a card in range, the first card's for one pinned
      elsewhere, and the sum of all cards, to which each adds itself, otherwise. */
  lemma BudgetExactly(vals: Option<seq<nat>>, pinned: bool, mainGpu: int)
    ensures VramBudget(vals, pinned, mainGpu) == None <==> vals == None || vals == Some([])
    ensures vals.Some? && pinned && 0 <= mainGpu < |vals.value| ==>
            VramBudget(vals, pinned, mainGpu) == Some(vals.value[mainGpu])
    ensures vals.Some? && vals.value != [] && pinned && !(0 <= mainGpu < |vals.value|) ==>
            VramBudget(vals, pinned, mainGpu) == Some(vals.value[0])
    ensures vals.Some? && !pinned ==>
            forall a, b :: vals.value == a + b && a != [] && b != [] ==>
              VramBudget(vals, false, mainGpu)
              == Some(VramBudget(Some(a), false, mainGpu).value + VramBudget(Some(b), false, mainGpu).value)
    ensures !pinned ==> forall x: nat :: VramBudget(Some([x]), false, mainGpu) == Some(x)
  {
    SumSplits([], []);
    if vals.Some? && !pinned {
      forall a, b | vals.value == a + b
        ensures Sum(vals.value) == Sum(a) + Sum(b)
      {
        SumSplits(a, b);
      }
    }
  }

  lemma {:induction false} CardWithinSum(vals: seq<nat>, i: nat)
    requires i < |vals|
    ensures vals[i] <= Sum(vals)
  {
    if i > 0 {
      CardWithinSum(vals[1..], i - 1);
    }
  }

  /** Pinning a model to a card never enlarges its budget, and with one card it changes
      nothing. */
  lemma PinnedBudgetWithinAggregate(vals: Option<seq<nat>>, mainGpu: int)
    ensures var pinned, all := VramBudget(vals, true, mainGpu), VramBudget(vals, false, mainGpu);
            && (pinned == None <==> all == None)
            && (pinned.Some? ==> pinned.value <= all.value)
            && (pinned.Some? && |vals.value| == 1 ==> pinned == all)
  {
    if vals.Some? && vals.value != [] {
      var i := if 0 <= mainGpu < |vals.value| then mainGpu else 0;
      CardWithinSum(vals.value, i);
      if |vals.value| == 1 {
        assert vals.value[1..] == [];
      }
    }
  }

  datatype Request = Request(ctx: int, size: int, overhead: int, quant: string, noKvOffload: bool, parallel: int,
                             pinned: bool, mainGpu: int, expectedMib: int, cpuMoe: bool)

  function Slots(parallel: int): nat {
    if parallel > 1 then parallel else 1
  }

  /** The VRAM a request is taken to need, branch by branch. */
  function VramNeed(r: Request): int {
    var extra := (Slots(r.parallel) - 1) * PER_SLOT_COMPUTE_FLOOR_MIB;
    if r.cpuMoe && r.expectedMib > 0 then r.expectedMib + r.overhead + extra
    else if r.noKvOffload then r.size / MIB + (r.overhead + r.ctx / 128 + extra)
    else r.size / MIB + EstimateKvMib(r.ctx, r.size, r.quant) + r.overhead + extra
  }

  /** `check_kv_cache_fit`; `ram` is the available host memory in KiB, if readable. */
  predicate Fits(r: Request, vals: Option<seq<nat>>, ram: Option<nat>) {
    if r.ctx <= 0 || r.size <= 0 then true
    else
      var budget := VramBudget(vals, r.pinned, r.mainGpu);
      if budget == None then Slots(r.parallel) == 1
      else
        && VramNeed(r) <= budget.value
        && (r.noKvOffload && !(r.cpuMoe && r.expectedMib > 0) && ram.Some? ==>
              EstimateKvMib(r.ctx, r.size, r.quant) <= ram.value / 1024)
  }

  /** Expert weights in host memory and a measured footprint to go by. */
  predicate Measured(r: Request) {
    r.cpuMoe && r.expectedMib > 0
  }

  lemma SlotsExtra(parallel: int, extra: nat)
    requires extra == if parallel > 1 then parallel - 1 else 0
    ensures (Slots(parallel) - 1) * PER_SLOT_COMPUTE_FLOOR_MIB == 256 * extra
  {
  }

  /** What the gate compares with the budget, `extra` being the slots after the first: the body,
      the KV cache and the overhead; the body, the overhead and a scratch by the context when
      the cache lives in host memory, which then has to hold it, if it can be read; or the
      measured footprint and the overhead.  Every further slot adds 256 MiB.  Without a budget
      one slot passes and several do not; without a context or a size everything passes. */
  lemma FitsExactly(r: Request, vals: Option<seq<nat>>, ram: Option<nat>, extra: nat)
    requires extra == if r.parallel > 1 then r.parallel - 1 else 0
    ensures r.ctx <= 0 || r.size <= 0 ==> Fits(r, vals, ram)
    ensures var budget := VramBudget(vals, r.pinned, r.mainGpu);
            r.ctx > 0 && r.size > 0 ==>
              && (budget == None ==> (Fits(r, vals, ram) <==> extra == 0))
              && (budget.Some? && Measured(r) ==>
                    (Fits(r, vals, ram) <==> r.expectedMib + r.overhead + 256 * extra <= budget.value))
              && (budget.Some? && !Measured(r) && r.noKvOffload ==>
                    (Fits(r, vals, ram) <==>
                     && r.size / MIB + r.overhead + r.ctx / 128 + 256 * extra <= budget.value
                     && (ram.Some? ==> EstimateKvMib(r.ctx, r.size, r.quant) <= ram.value / 1024)))
              && (budget.Some? && !Measured(r) && !r.noKvOffload ==>
                    (Fits(r, vals, ram) <==>
                     r.size / MIB + EstimateKvMib(r.ctx, r.size, r.quant) + r.overhead + 256 * extra
                     <= budget.value))
  {
    SlotsExtra(r.parallel, extra);
  }

  lemma NeedGrows(r: Request, ctx: int, size: int, parallel: int)
    requires 0 < ctx <= r.ctx && 0 < size <= r.size && parallel <= r.parallel
    ensures VramNeed(r.(ctx := ctx, size := size, parallel := parallel)) <= VramNeed(r)
  {
    EstimateGrows(ctx, r.ctx, size, r.size, r.quant);
    FloorGrows(size, r.size, MIB);
    FloorGrows(ctx, r.ctx, 128);
  }

  /** In every branch — measured footprint, host-resident cache, closed form, no probe, no
      information — what fits keeps fitting with less context, a smaller model or fewer
      slots. */
  lemma FitIsAntitone(r: Request, ctx: int, size: int, parallel: int, vals: Option<seq<nat>>, ram: Option<nat>)
    requires Fits(r, vals, ram) && ctx <= r.ctx && size <= r.size && parallel <= r.parallel
    ensures Fits(r.(ctx := ctx, size := size, parallel := parallel), vals, ram)
  {
    if ctx > 0 && size > 0 {
      NeedGrows(r, ctx, size, parallel);
      EstimateGrows(ctx, r.ctx, size, r.size, r.quant);
    }
  }
}
