/**
 * `dither` of src/tools.py: check the argument contract on `levels`, then hand the image
 * to `dither_FS` for the Floyd–Steinberg method names and to `dither_basic` otherwise.
 */
module Dither {
  import opened Wrappers
  import opened Grids
  import opened Quantise
  import FloydSteinberg
  import CarryDither

  /** The method names that select error diffusion. */
  predicate IsFloydSteinberg(name: string)
  {
    name == "floyd" || name == "fs" || name == "floyd-steinberg"
  }

  /** The clip bound `levels - 1` of the quantiser that `name` selects. */
  function ClipBound(g: Grid, w: nat, h: nat, levels: Option<int>, name: string): Result<real, DitherError>
    requires IsGrid(g, w, h)
  {
    if IsFloydSteinberg(name) then FloydSteinberg.Upper(g, w, h, levels) else CarryDither.Upper(g, w, h, levels)
  }

  /** `dither(image, levels, method=name)`, before the conversion to `dtype`. */
  function Dither(g: Grid, w: nat, h: nat, levels: Option<int>, name: string): Result<seq<seq<int>>, DitherError>
    requires IsGrid(g, w, h)
  {
    if levels.Some? && levels.value <= 1 then Err(TooFewLevels)
    else if IsFloydSteinberg(name) then FloydSteinberg.Output(g, w, h, levels)
    else CarryDither.Output(g, w, h, levels)
  }

  /**
   * `dither` fails exactly when `levels` breaks the contract, or is absent on an image
   * without pixels; otherwise every pixel lies in [0, levels - 1] and is the floor of the
   * input pixel or one more, before clipping.
   */
  lemma DitherOutcome(g: Grid, w: nat, h: nat, levels: Option<int>, name: string)
    requires IsGrid(g, w, h)
    ensures Dither(g, w, h, levels, name) == Err(TooFewLevels) <==> levels.Some? && levels.value <= 1
    ensures Dither(g, w, h, levels, name) == Err(EmptyImage) <==> levels.None? && (w == 0 || h == 0)
    ensures Dither(g, w, h, levels, name).Ok? ==>
              var out := Dither(g, w, h, levels, name).value;
              |out| == w &&
              forall r, c :: 0 <= r < w && 0 <= c < h ==>
                |out[r]| == h &&
                var upper := ClipBound(g, w, h, levels, name).value;
                out[r][c] == Quantised(g[r][c].Floor as real, upper)
                || out[r][c] == Quantised(g[r][c].Floor as real + 1.0, upper)
    ensures levels.Some? && levels.value > 1 ==>
              Dither(g, w, h, levels, name).Ok?
              && forall r, c :: 0 <= r < w && 0 <= c < h ==> 0 <= Dither(g, w, h, levels, name).value[r][c] < levels.value
  {
    if levels.None? || levels.value > 1 {
      if IsFloydSteinberg(name) {
        FloydSteinberg.OutputPixels(g, w, h, levels);
      } else {
        CarryDither.OutputPixels(g, w, h, levels);
      }
    }
  }

  /** The two examples of the `dither` docstring: the quarter ramp with four levels, by each method. */
  lemma DitherExamples()
    ensures Dither(Quarters(), 4, 4, Some(4), "floyd") == Ok([[0, 0, 0, 1], [1, 1, 1, 2], [2, 2, 3, 2], [3, 3, 3, 3]])
    ensures Dither(Quarters(), 4, 4, Some(4), "basic") == Ok([[0, 0, 0, 1], [1, 1, 2, 2], [2, 2, 2, 3], [3, 3, 3, 3]])
  {
    FloydSteinberg.QuartersExample();
    CarryDither.QuartersExample();
    assert !IsFloydSteinberg("basic");
  }
}
