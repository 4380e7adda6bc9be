/** The upscale planner (upscale_logic.h): should this source be upscaled, and to what? */
module Planner {
  import opened Arith

  const TARGET_AUTO := 0
  const TARGET_720P := 1
  const TARGET_MAX := 6
  const MAX_RATIO := 4
  const MAX_DIM := 32768
  const INT_MAX := 0x7FFF_FFFF
  const PRESET_HEIGHTS := [0, 720, 1080, 1440, 2160, 2880, 4320]

  datatype Dims = Dims(width: int, height: int)

  /** The success and failure returns. */
  datatype Plan = Bypass | Upscale(d: Dims)

  /** up__clamp_even: v & ~1 for v >= 0. */
  function ClampEven(v: int): int {
    if v < 0 then 0 else v - v % 2
  }

  function AutoTargetHeight(srcH: int, cores: int): int
    requires 0 < srcH
  {
    if cores >= 4 && srcH <= INT_MAX / MAX_RATIO && srcH * MAX_RATIO >= 1080 then 1080 else 720
  }

  /** up_decide_target_height. */
  function TargetHeight(srcH: int, preset: int, cores: int): int {
    if srcH <= 0 then 0
    else
      var n := if cores <= 0 then 1 else cores;
      var wish := if TARGET_720P <= preset <= TARGET_MAX then PRESET_HEIGHTS[preset] else AutoTargetHeight(srcH, n);
      var capped := if srcH <= INT_MAX / MAX_RATIO && wish > srcH * MAX_RATIO then srcH * MAX_RATIO else wish;
      if capped < srcH then srcH else capped
  }

  predicate DimsInputsValid(srcW: int, srcH: int, targetH: int) {
    && 0 < srcW <= MAX_DIM && 0 < srcH <= MAX_DIM && 0 < targetH <= MAX_DIM
  }

  /** The width that keeps the aspect ratio, before it is made even: 64-bit, rounded down. */
  function ScaledWidth(srcW: int, srcH: int, targetH: int): nat
    requires 0 < srcW && 0 < srcH && 0 < targetH
  {
    Share(srcW, targetH, srcH)
  }

  /** up_compute_target_dims. */
  function TargetDims(srcW: int, srcH: int, targetH: int): Plan {
    if !DimsInputsValid(srcW, srcH, targetH) then Bypass
    else
      var w := ClampEven(ScaledWidth(srcW, srcH, targetH));
      var h := ClampEven(targetH);
      if w <= 0 || h <= 0 || w > MAX_DIM || h > MAX_DIM then Bypass else Upscale(Dims(w, h))
  }

  predicate PlanInputsOk(srcW: int, srcH: int, skipAbove: int, preset: int) {
    && 0 < srcW <= MAX_DIM && 0 < srcH <= MAX_DIM
    && !(preset == TARGET_AUTO && skipAbove > 0 && srcH >= skipAbove)
  }

  predicate PlanResultOk(srcW: int, srcH: int, d: Dims) {
    d.width >= srcW && d.height >= srcH && !(d.width == srcW && d.height == srcH)
  }

  /** up_plan_upscale. */
  function PlanUpscale(srcW: int, srcH: int, skipAbove: int, preset: int, cores: int): Plan {
    if !PlanInputsOk(srcW, srcH, skipAbove, preset) then Bypass
    else
      var targetH := TargetHeight(srcH, preset, cores);
      if targetH <= srcH then Bypass
      else
        var p := TargetDims(srcW, srcH, targetH);
        if p.Upscale? && PlanResultOk(srcW, srcH, p.d) then p else Bypass
  }

  lemma PresetsAreEven(preset: int)
    requires TARGET_720P <= preset <= TARGET_MAX
    ensures PRESET_HEIGHTS[preset] % 2 == 0 && 720 <= PRESET_HEIGHTS[preset] <= 4320
  {
  }

  /** A target above the source is even, within the ratio, and no larger than the preset;
      AUTO never goes beyond 1080. */
  lemma TargetAbove(srcH: int, preset: int, cores: int)
    requires 0 < srcH <= MAX_DIM && TargetHeight(srcH, preset, cores) > srcH
    ensures var t := TargetHeight(srcH, preset, cores);
            && t % 2 == 0 && t <= MAX_RATIO * srcH && t <= 4320
            && (!(TARGET_720P <= preset <= TARGET_MAX) ==> t <= 1080)
            && (TARGET_720P <= preset <= TARGET_MAX ==> t <= PRESET_HEIGHTS[preset])
  {
    if TARGET_720P <= preset <= TARGET_MAX {
      PresetsAreEven(preset);
    }
  }

  /** The height a preset stands for; AUTO wants 1080 with at least four cores and a source of
      at least a quarter of that, otherwise 720. */
  function Wish(srcH: int, preset: int, cores: int): int {
    if preset == 1 then 720
    else if preset == 2 then 1080
    else if preset == 3 then 1440
    else if preset == 4 then 2160
    else if preset == 5 then 2880
    else if preset == 6 then 4320
    else if cores >= 4 && srcH >= 270 then 1080
    else 720
  }

  /** The target is what is wished for, but at most four times the source and never less than
      the source. */
  lemma TargetExactly(srcH: int, preset: int, cores: int)
    requires 0 < srcH <= 32768
    ensures var w, t := Wish(srcH, preset, cores), TargetHeight(srcH, preset, cores);
            && srcH <= t <= 4 * srcH && (srcH <= w <= 4 * srcH ==> t == w)
            && (w < srcH ==> t == srcH) && (w > 4 * srcH ==> t == 4 * srcH)
  {
  }

  /** The scaled width is at least the source width, and exactly the source width only if
      the target adds less than one column. */
  lemma WidthGrows(srcW: int, srcH: int, targetH: int)
    requires 0 < srcW && 0 < srcH < targetH
    ensures var q := ScaledWidth(srcW, srcH, targetH);
            q >= srcW && q * srcH <= srcW * targetH < q * srcH + srcH
  {
    DivBounds(srcW * targetH, srcH);
    MulMono(srcH, targetH, srcW);
    DivAtLeast(srcW * targetH, srcH, srcW);
  }

  lemma Aspect(product: int, q: nat, w: int, srcH: nat)
    requires q * srcH <= product < q * srcH + srcH && (w == q || w == q - 1)
    ensures 0 <= product - w * srcH < 2 * srcH
  {
    assert (q - 1) * srcH == q * srcH - srcH;
  }

  lemma PlanDims(srcW: int, srcH: int, skipAbove: int, preset: int, cores: int)
    requires PlanUpscale(srcW, srcH, skipAbove, preset, cores).Upscale?
    ensures var t := TargetHeight(srcH, preset, cores);
            && 0 < srcW <= MAX_DIM && 0 < srcH <= MAX_DIM && srcH < t
            && PlanUpscale(srcW, srcH, skipAbove, preset, cores).d == Dims(ClampEven(ScaledWidth(srcW, srcH, t)), t)
            && srcW <= ClampEven(ScaledWidth(srcW, srcH, t)) <= MAX_DIM
  {
    TargetAbove(srcH, preset, cores);
  }

  lemma PlanAspect(srcW: nat, srcH: nat, t: nat)
    requires 0 < srcW && 0 < srcH < t
    ensures 0 <= srcW * t - ClampEven(ScaledWidth(srcW, srcH, t)) * srcH < 2 * srcH
  {
    WidthGrows(srcW, srcH, t);
    var q := ScaledWidth(srcW, srcH, t);
    Aspect(srcW * t, q, ClampEven(q), srcH);
  }

  /** What a successful plan promises: even dimensions, at least the source's width, a
      strictly larger height at most four times the source's, AUTO at most 1080, and a
      width less than two columns short of the exact aspect ratio. */
  lemma PlanContract(srcW: int, srcH: int, skipAbove: int, preset: int, cores: int)
    requires PlanUpscale(srcW, srcH, skipAbove, preset, cores).Upscale?
    ensures var d := PlanUpscale(srcW, srcH, skipAbove, preset, cores).d;
            && d.width % 2 == 0 && d.height % 2 == 0 && srcW <= d.width <= MAX_DIM
               && srcH < d.height <= MAX_RATIO * srcH
            && (!(TARGET_720P <= preset <= TARGET_MAX) ==> d.height <= 1080)
            && 0 <= srcW * d.height - d.width * srcH < 2 * srcH
  {
    PlanDims(srcW, srcH, skipAbove, preset, cores);
    TargetAbove(srcH, preset, cores);
    PlanAspect(srcW, srcH, TargetHeight(srcH, preset, cores));
  }

  /** Exactly when a source is bypassed: bad dimensions, the AUTO skip, no larger target, a
      width beyond the limit, or an odd width that does not grow by a whole column and so
      would shrink when made even. */
  lemma BypassExactly(srcW: int, srcH: int, skipAbove: int, preset: int, cores: int)
    ensures PlanUpscale(srcW, srcH, skipAbove, preset, cores) == Bypass <==>
              || !(0 < srcW <= 32768 && 0 < srcH <= 32768)
              || (preset == 0 && 0 < skipAbove <= srcH)
              || TargetHeight(srcH, preset, cores) <= srcH
              || ClampEven(ScaledWidth(srcW, srcH, TargetHeight(srcH, preset, cores))) > MAX_DIM
              || (srcW % 2 == 1 && ScaledWidth(srcW, srcH, TargetHeight(srcH, preset, cores)) == srcW)
  {
    var t := TargetHeight(srcH, preset, cores);
    if PlanInputsOk(srcW, srcH, skipAbove, preset) && t > srcH {
      TargetAbove(srcH, preset, cores);
      WidthGrows(srcW, srcH, t);
    }
  }

  /** For instance a 3 x 1024 source with preset 1080p: its width would not grow, and made
      even it would shrink. */
  lemma OddWidthWitness()
    ensures TargetHeight(1024, 2, 4) == 1080 && ScaledWidth(3, 1024, 1080) == 3
    ensures PlanUpscale(3, 1024, 0, 2, 4) == Bypass
  {
    BypassExactly(3, 1024, 0, 2, 4);
  }
}
