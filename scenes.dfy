/** The run-time controls of the harness: the scene being drawn, the shader
    loop counts that the key handlers step up and down, and the pyramid grid
    whose vertex streams are rebuilt whenever its size changes. In the
    program these are globals (`g_draw_case`, `x_count`, `y_count`,
    `z_count`, the pyramid buffers) and fields of the window; here they are
    the fields of one object. */
module Scenes {
  import opened DrawCases
  import opened Pyramids
  import ConfigParse

  /** The three shader loop counts: dials scene, pyramid scenes, long
      shader. The program keeps them as floats stepped by whole numbers. */
  datatype LoopCounts = LoopCounts(dials: int, short: int, long: int)

  predicate NonNegative(lc: LoopCounts)
  {
    lc.dials >= 0 && lc.short >= 0 && lc.long >= 0
  }

  /** The scenes that have a loop count of their own. */
  predicate HasLoopCount(scene: DrawCase)
  {
    scene.SimpleDial? || PyramidScene(scene) || scene.LongShader?
  }

  /** The pyramid scenes, which share the short-shader count. */
  predicate PyramidScene(scene: DrawCase)
  {
    scene.SingleDrawArrays? || scene.MultiDrawArrays? || scene.BatchDrawArrays?
  }

  /** `add_shader_loops`: the dials count and the pyramid count rise by 25,
      the long-shader count by 50, and any other scene changes nothing. */
  function AddedLoops(scene: DrawCase, lc: LoopCounts): (r: LoopCounts)
    ensures NonNegative(lc) ==> NonNegative(r)
    ensures !HasLoopCount(scene) ==> r == lc
    ensures r.dials >= lc.dials && r.short >= lc.short && r.long >= lc.long
    ensures r.dials != lc.dials <==> scene.SimpleDial?
    ensures r.short != lc.short <==> PyramidScene(scene)
    ensures r.long != lc.long <==> scene.LongShader?
  {
    match scene
    case SimpleDial => lc.(dials := lc.dials + 25)
    case SingleDrawArrays => lc.(short := lc.short + 25)
    case MultiDrawArrays => lc.(short := lc.short + 25)
    case BatchDrawArrays => lc.(short := lc.short + 25)
    case LongShader => lc.(long := lc.long + 50)
    case _ => lc
  }

  /** A count lowered by `step` and clamped at 0. */
  function Lowered(n: int, step: nat): (r: int)
    ensures r >= 0
    ensures n >= step ==> r == n - step
    ensures n < step ==> r == 0
  {
    if n - step < 0 then 0 else n - step
  }

  /** `shrink_shader_loops`: the mirror of `AddedLoops`, each count clamped
      at 0; a scene without a count of its own falls through to the
      long-shader case and lowers that count. */
  function ShrunkLoops(scene: DrawCase, lc: LoopCounts): (r: LoopCounts)
    ensures NonNegative(lc) ==> NonNegative(r)
    ensures NonNegative(lc) ==> r.dials <= lc.dials && r.short <= lc.short && r.long <= lc.long
    ensures r.dials != lc.dials ==> scene.SimpleDial?
    ensures r.short != lc.short ==> PyramidScene(scene)
    ensures r.long != lc.long ==> !HasLoopCount(scene) || scene.LongShader?
    ensures !HasLoopCount(scene) || scene.LongShader? ==> r == lc.(long := Lowered(lc.long, 50))
  {
    match scene
    case SimpleDial => lc.(dials := Lowered(lc.dials, 25))
    case SingleDrawArrays => lc.(short := Lowered(lc.short, 25))
    case MultiDrawArrays => lc.(short := Lowered(lc.short, 25))
    case BatchDrawArrays => lc.(short := Lowered(lc.short, 25))
    case _ => lc.(long := Lowered(lc.long, 50))
  }

  /** Shrinking undoes adding for every scene with a count of its own; for
      the other scenes adding does nothing while shrinking still lowers the
      long-shader count, so the pair is the identity only when that count
      is already 0. */
  lemma ShrinkUndoesAdd(scene: DrawCase, lc: LoopCounts)
    requires NonNegative(lc)
    ensures ShrunkLoops(scene, AddedLoops(scene, lc)) == lc <==> HasLoopCount(scene) || lc.long == 0
  {
    var r := ShrunkLoops(scene, AddedLoops(scene, lc));
    if !HasLoopCount(scene) && lc.long > 0 {
      assert r.long != lc.long;
    }
  }

  /** `add_pyramids` on one dimension. */
  function Grown(n: int): (r: int)
    ensures r > n
  {
    n + 5
  }

  /** `remove_pyramids` on one dimension: five fewer, but never below 3. */
  function Reduced(n: int): (r: int)
    ensures r >= 3
    ensures n - 5 > 3 ==> r == n - 5
  {
    if n - 5 <= 3 then 3 else n - 5
  }

  /** Removing after adding gives the old size back, raised to 3. */
  lemma ReduceUndoesGrow(n: int)
    ensures Reduced(Grown(n)) == if n <= 3 then 3 else n
  {
  }

  /** Removing pyramids makes a dimension larger exactly when it is below
      3, which the parameter file allows (its minimum is 1). */
  lemma ReduceCanGrow(n: int)
    ensures Reduced(n) > n <==> n < 3
    ensures Reduced(n) == n <==> n == 3
  {
  }

  class Controls {
    /** `g_draw_case`. */
    var drawCase: DrawCase
    var dialsLoops: int
    var shortLoops: int
    var longLoops: int
    /** The pyramid grid, `x_count` by `y_count` by `z_count`. */
    var xCount: int
    var yCount: int
    var zCount: int
    /** The three vertex streams of the single-draw pyramid scenes. */
    var positions: array<real>
    var colors: array<real>
    var transforms: array<int>
    /** The 54 position floats and 72 colour floats of one pyramid, from a
        header of the program. */
    const pyramidVerts: seq<real>
    const pyramidColors: seq<real>

    function Loops(): LoopCounts
      reads this
    {
      LoopCounts(dialsLoops, shortLoops, longLoops)
    }

    /** The grid is at least one pyramid in each direction, the loop counts
        are not negative, and the streams describe the current grid. */
    ghost predicate Valid()
      reads this, positions, colors, transforms
    {
      && |pyramidVerts| == 54 && |pyramidColors| == 72
      && xCount >= 1 && yCount >= 1 && zCount >= 1
      && NonNegative(Loops())
      && BuffersMatch()
    }

    /** Each stream holds one block per pyramid: positions and colours
        repeat the template, transforms carry the pyramid's offset. */
    ghost predicate BuffersMatch()
      requires |pyramidVerts| == 54 && |pyramidColors| == 72
      requires xCount >= 1 && yCount >= 1
      reads this, positions, colors, transforms
    {
      var n := Count(xCount, yCount, zCount);
      && positions.Length == 54 * n
      && colors.Length == 72 * n
      && transforms.Length == 54 * n
      && (forall k :: 0 <= k < positions.Length ==> positions[k] == pyramidVerts[k % 54])
      && (forall k :: 0 <= k < colors.Length ==> colors[k] == pyramidColors[k % 72])
      && (forall k :: 0 <= k < transforms.Length ==> transforms[k] == TransformAt(xCount, yCount, zCount, k))
    }

    /** Start-up: the parameters `read_config_file` left (`ConfigParse.ReadConfig`
        gives them for a file), then the pyramid streams for the configured
        grid. */
    constructor (s: ConfigParse.Settings, verts: seq<real>, colorTemplate: seq<real>)
      requires ConfigParse.InRange(s)
      requires |verts| == 54 && |colorTemplate| == 72
      ensures Valid()
      ensures drawCase == s.drawCase
      ensures Loops() == LoopCounts(s.dialsLoops, s.shortLoops, s.longLoops)
      ensures xCount == s.xCount && yCount == s.yCount && zCount == s.zCount
      ensures pyramidVerts == verts && pyramidColors == colorTemplate
    {
      drawCase := s.drawCase;
      dialsLoops, shortLoops, longLoops := s.dialsLoops, s.shortLoops, s.longLoops;
      xCount, yCount, zCount := s.xCount, s.yCount, s.zCount;
      pyramidVerts, pyramidColors := verts, colorTemplate;
      positions, colors, transforms := new real[0], new real[0], new int[0];
      new;
      GeneratePyramidBuffers();
    }

    /** `swap_draw_case`: the next scene of the cycle; the requested scene
        is not looked at. */
    method SwapDrawCase(requested: DrawCase)
      modifies this`drawCase
      ensures drawCase == NextScene(old(drawCase))
    {
      match drawCase
      case SingleDrawArrays => drawCase := MultiDrawArrays;
      case MultiDrawArrays => drawCase := BatchDrawArrays;
      case SimpleTexture => drawCase := LongShader;
      case LongShader => drawCase := SimpleDial;
      case SimpleDial => drawCase := SingleDrawArrays;
      case BatchDrawArrays => drawCase := SimpleTexture;
      case _ =>
    }

    /** `add_shader_loops`. */
    method AddShaderLoops(scene: DrawCase)
      requires Valid()
      modifies this`dialsLoops, this`shortLoops, this`longLoops
      ensures Loops() == AddedLoops(scene, old(Loops()))
      ensures Valid()
    {
      match scene
      case SimpleDial => dialsLoops := dialsLoops + 25;
      case SingleDrawArrays => shortLoops := shortLoops + 25;
      case MultiDrawArrays => shortLoops := shortLoops + 25;
      case BatchDrawArrays => shortLoops := shortLoops + 25;
      case LongShader => longLoops := longLoops + 50;
      case _ =>
    }

    /** `shrink_shader_loops`. */
    method ShrinkShaderLoops(scene: DrawCase)
      requires Valid()
      modifies this`dialsLoops, this`shortLoops, this`longLoops
      ensures Loops() == ShrunkLoops(scene, old(Loops()))
      ensures Valid()
    {
      match scene
      case SimpleDial =>
        dialsLoops := dialsLoops - 25;
        if dialsLoops < 0 {
          dialsLoops := 0;
        }
      case SingleDrawArrays | MultiDrawArrays | BatchDrawArrays =>
        shortLoops := shortLoops - 25;
        if shortLoops < 0 {
          shortLoops := 0;
        }
      case _ =>
        longLoops := longLoops - 50;
        if longLoops < 0 {
          longLoops := 0;
        }
    }

    /** `add_pyramids`: five more pyramids in each direction, and new
        streams for the larger grid. */
    method AddPyramids()
      requires Valid()
      modifies this
      ensures Valid()
      ensures xCount == Grown(old(xCount)) && yCount == Grown(old(yCount)) && zCount == Grown(old(zCount))
      ensures drawCase == old(drawCase) && Loops() == old(Loops())
      ensures fresh(positions) && fresh(colors) && fresh(transforms)
    {
      xCount := xCount + 5;
      yCount := yCount + 5;
      zCount := zCount + 5;
      GeneratePyramidBuffers();
    }

    /** `remove_pyramids`: five fewer in each direction, at least 3, and new
        streams for the smaller grid. */
    method RemovePyramids()
      requires Valid()
      modifies this
      ensures Valid()
      ensures xCount == Reduced(old(xCount)) && yCount == Reduced(old(yCount)) && zCount == Reduced(old(zCount))
      ensures drawCase == old(drawCase) && Loops() == old(Loops())
      ensures fresh(positions) && fresh(colors) && fresh(transforms)
    {
      xCount := xCount - 5;
      yCount := yCount - 5;
      zCount := zCount - 5;
      if xCount <= 3 {
        xCount := 3;
      }
      if yCount <= 3 {
        yCount := 3;
      }
      if zCount <= 3 {
        zCount := 3;
      }
      GeneratePyramidBuffers();
    }

    /** `generate_pyramid_buffers`: new streams sized for the grid, filled
        with the transforms and the cyclic copies of the templates. */
    method GeneratePyramidBuffers()
      requires |pyramidVerts| == 54 && |pyramidColors| == 72
      requires xCount >= 1 && yCount >= 1 && zCount >= 1
      modifies this`positions, this`colors, this`transforms
      ensures BuffersMatch()
      ensures fresh(positions) && fresh(colors) && fresh(transforms)
    {
      var n := Count(xCount, yCount, zCount);
      transforms := FillTransforms(xCount, yCount, zCount);
      positions := FillCyclic(pyramidVerts, n * 54);
      colors := FillCyclic(pyramidColors, n * 72);
    }
  }
}
