/** The frame-rate strip drawn in the upper-left corner: the formatted
    frame rate becomes a row of textured quads, one per character, cut off
    two characters after the decimal point. The glyph atlas (the template
    quad, its texture coordinates and the per-glyph u ranges) comes from
    headers of the program and is a parameter here. */
module DigitLayout {
  import opened ConfigParse

  /** The glyph atlas: the 6 vertices (18 floats) of the template quad, its
      6 texture coordinates (12 floats), the u range of each of the 11
      glyphs (`0`..`9` and the point), and the quad width and spacing. */
  datatype Atlas = Atlas(
    digitVerts: seq<real>,
    quadTexcoords: seq<real>,
    uvStart: seq<real>,
    uvEnd: seq<real>,
    width: real,
    spacing: real)

  predicate WellFormed(atlas: Atlas)
  {
    |atlas.digitVerts| == 18 && |atlas.quadTexcoords| == 12
    && |atlas.uvStart| == 11 && |atlas.uvEnd| == 11
  }

  /** The distance between the left edges of two neighbouring quads. */
  function Pitch(atlas: Atlas): real
  {
    atlas.width + atlas.spacing
  }

  /** The position of the first decimal point. */
  function FirstDot(s: string): (d: nat)
    requires '.' in s
    ensures d < |s| && s[d] == '.'
    ensures forall j :: 0 <= j < d ==> s[j] != '.'
  {
    if s[0] == '.' then 0 else 1 + FirstDot(s[1..])
  }

  /** The number of quads drawn: every character, or the characters up to
      the first point plus the point and one more. */
  function GlyphCount(s: string): (n: nat)
    ensures n <= |s| + 1
    ensures n == 0 <==> s == []
  {
    if '.' in s then FirstDot(s) + 2 else |s|
  }

  /** Indexing the string one past its end yields the terminating NUL. */
  function CharAt(s: string, i: nat): char
  {
    if i < |s| then s[i] else '\0'
  }

  /** The atlas entry of a character: its digit value, or 10 for the point. */
  function Glyph(c: char): int
  {
    if c == '.' then 10 else c as int - '0' as int
  }

  /** The quad at layout position `k` is the one after the point, which is
      pulled half a quad width to the left. */
  predicate Shifted(s: string, k: int)
  {
    '.' in s && k == FirstDot(s) + 1
  }

  /** What the layout relies on and does not check: every counted
      character is a digit or the point. */
  predicate Drawable(s: string)
  {
    forall i: nat :: i < GlyphCount(s) ==> IsDigit(CharAt(s, i)) || CharAt(s, i) == '.'
  }

  /** Float `m` of the 18 position floats of quad `k`: the template vertex,
      its x moved right by `k` pitches (and back half a width for the quad
      after the point), y and z unchanged. */
  function VertexValue(atlas: Atlas, k: int, shifted: bool, m: int): real
    requires WellFormed(atlas) && 0 <= m < 18
  {
    if m % 3 == 0 then
      atlas.digitVerts[m] + (k as real) * Pitch(atlas) - (if shifted then atlas.width / 2.0 else 0.0)
    else
      atlas.digitVerts[m]
  }

  /** Float `m` of the 12 texture floats of a quad showing glyph `g`: u is
      the glyph's start or end depending on whether the template u is 0,
      v is the template's. */
  function TexValue(atlas: Atlas, g: int, m: int): real
    requires WellFormed(atlas) && 0 <= g <= 10 && 0 <= m < 12
  {
    if m % 2 == 0 then
      (if atlas.quadTexcoords[m] == 0.0 then atlas.uvStart[g] else atlas.uvEnd[g])
    else
      atlas.quadTexcoords[m]
  }

  /** Position float `j` of the strip for string `s`. */
  function VertexFloat(s: string, atlas: Atlas, j: nat): (v: real)
    requires WellFormed(atlas)
    ensures (j % 18) % 3 != 0 ==> v == atlas.digitVerts[j % 18]
    ensures (j % 18) % 3 == 0 && !Shifted(s, j / 18) ==> v == atlas.digitVerts[j % 18] + ((j / 18) as real) * Pitch(atlas)
  {
    VertexValue(atlas, j / 18, Shifted(s, j / 18), j % 18)
  }

  /** Texture float `j` of the strip for string `s`. */
  function TexcoordFloat(s: string, atlas: Atlas, j: nat): (u: real)
    requires WellFormed(atlas) && Drawable(s) && j < 12 * GlyphCount(s)
    ensures (j % 12) % 2 == 1 ==> u == atlas.quadTexcoords[j % 12]
    ensures var g := Glyph(CharAt(s, j / 12));
      0 <= g <= 10 && ((j % 12) % 2 == 0 ==> u == atlas.uvStart[g] || u == atlas.uvEnd[g])
  {
    var c := CharAt(s, j / 12);
    assert IsDigit(c) || c == '.';
    TexValue(atlas, Glyph(c), j % 12)
  }

  /** The draw call issues six vertices (two triangles) per quad. */
  function DrawnVertices(n: int): int
  {
    6 * n
  }

  lemma SplitIndex(k: int, m: int)
    requires 0 <= k && 0 <= m < 18
    ensures (18 * k + m) / 18 == k && (18 * k + m) % 18 == m
    ensures m < 12 ==> (12 * k + m) / 12 == k && (12 * k + m) % 12 == m
  {
  }

  /** Float `j` of quad `i`, for the position and the texture streams. */
  lemma QuadFloat(s: string, atlas: Atlas, i: nat, j: nat)
    requires WellFormed(atlas) && Drawable(s) && i < GlyphCount(s)
    ensures 18 * i <= j < 18 * i + 18 ==>
      VertexFloat(s, atlas, j) == VertexValue(atlas, i, Shifted(s, i), j - 18 * i)
    ensures 12 * i <= j < 12 * i + 12 ==>
      TexcoordFloat(s, atlas, j) == TexValue(atlas, Glyph(CharAt(s, i)), j - 12 * i)
  {
    if 18 * i <= j < 18 * i + 18 {
      SplitIndex(i, j - 18 * i);
    }
    if 12 * i <= j < 12 * i + 12 {
      SplitIndex(i, j - 12 * i);
    }
  }

  /** The counting loop: stop at the first point, counting it and the
      character after it. */
  method CountGlyphs(s: string) returns (n: int)
    ensures n == GlyphCount(s)
  {
    n := 0;
    var i := 0;
    while i < |s|
      invariant 0 <= i <= |s| && n == i
      invariant forall j :: 0 <= j < i ==> s[j] != '.'
    {
      if s[i] == '.' {
        n := n + 2;
        break;
      }
      n := n + 1;
      i := i + 1;
    }
  }

  /** One pass of the inner loop: the six vertices of one quad, written
      from `vertIndex` and `texIndex` on. `place` counts the vertices moved
      back, as the decimal-place counter does. */
  method LayoutQuad(verts: array<real>, texcoords: array<real>, atlas: Atlas,
                    vertIndex: int, texIndex: int, digitIndex: int, digit: int,
                    afterDecimal: bool, decimalPlace: int)
    returns (vertNext: int, texNext: int, place: int)
    requires WellFormed(atlas) && 0 <= digit <= 10 && verts != texcoords
    requires 0 <= vertIndex && vertIndex + 18 <= verts.Length
    requires 0 <= texIndex && texIndex + 12 <= texcoords.Length
    modifies verts, texcoords
    ensures vertNext == vertIndex + 18 && texNext == texIndex + 12
    ensures place == decimalPlace + (if afterDecimal then 6 else 0)
    ensures forall m :: 0 <= m < 18 ==> verts[vertIndex + m] == VertexValue(atlas, digitIndex, afterDecimal, m)
    ensures forall m :: 0 <= m < 12 ==> texcoords[texIndex + m] == TexValue(atlas, digit, m)
    ensures forall j :: 0 <= j < verts.Length && !(vertIndex <= j < vertIndex + 18) ==> verts[j] == old(verts[j])
    ensures forall j :: 0 <= j < texcoords.Length && !(texIndex <= j < texIndex + 12) ==> texcoords[j] == old(texcoords[j])
  {
    vertNext, texNext, place := vertIndex, texIndex, decimalPlace;
    var source := 0;
    var x := 0;
    ghost var v := 0;
    while x < 18
      invariant 0 <= v <= 6 && x == 3 * v && source == 2 * v
      invariant vertNext == vertIndex + x && texNext == texIndex + source
      invariant place == decimalPlace + (if afterDecimal then v else 0)
      invariant forall m :: 0 <= m < x ==> verts[vertIndex + m] == VertexValue(atlas, digitIndex, afterDecimal, m)
      invariant forall m :: 0 <= m < source ==> texcoords[texIndex + m] == TexValue(atlas, digit, m)
      invariant forall j :: 0 <= j < verts.Length && !(vertIndex <= j < vertIndex + x) ==> verts[j] == old(verts[j])
      invariant forall j :: 0 <= j < texcoords.Length && !(texIndex <= j < texIndex + source) ==> texcoords[j] == old(texcoords[j])
    {
      place := LayoutVertex(verts, texcoords, atlas, vertNext, texNext, x, source, digitIndex, digit, afterDecimal, place);
      vertNext, texNext, source := vertNext + 3, texNext + 2, source + 2;
      x, v := x + 3, v + 1;
    }
  }

  /** The body of the inner loop: vertex `x / 3` of one quad, its three
      position floats at `vi` and its two texture floats at `ti`. */
  method LayoutVertex(verts: array<real>, texcoords: array<real>, atlas: Atlas,
                      vi: int, ti: int, x: int, source: int, digitIndex: int, digit: int,
                      afterDecimal: bool, decimalPlace: int)
    returns (place: int)
    requires WellFormed(atlas) && 0 <= digit <= 10 && verts != texcoords
    requires 0 <= x <= 15 && x % 3 == 0 && source == 2 * (x / 3)
    requires 0 <= vi && vi + 3 <= verts.Length && 0 <= ti && ti + 2 <= texcoords.Length
    modifies verts, texcoords
    ensures place == decimalPlace + (if afterDecimal then 1 else 0)
    ensures verts[vi] == VertexValue(atlas, digitIndex, afterDecimal, x)
    ensures verts[vi + 1] == VertexValue(atlas, digitIndex, afterDecimal, x + 1)
    ensures verts[vi + 2] == VertexValue(atlas, digitIndex, afterDecimal, x + 2)
    ensures texcoords[ti] == TexValue(atlas, digit, source)
    ensures texcoords[ti + 1] == TexValue(atlas, digit, source + 1)
    ensures forall j :: 0 <= j < verts.Length && !(vi <= j < vi + 3) ==> verts[j] == old(verts[j])
    ensures forall j :: 0 <= j < texcoords.Length && !(ti <= j < ti + 2) ==> texcoords[j] == old(texcoords[j])
  {
    place := decimalPlace;
    verts[vi] := atlas.digitVerts[x] + (digitIndex as real) * (atlas.width + atlas.spacing);
    if afterDecimal {
      place := place + 1;
      verts[vi] := verts[vi] - atlas.width / 2.0;
    }
    verts[vi + 1] := atlas.digitVerts[x + 1];
    verts[vi + 2] := atlas.digitVerts[x + 2];
    if atlas.quadTexcoords[source] == 0.0 {
      texcoords[ti] := atlas.uvStart[digit];
    } else {
      texcoords[ti] := atlas.uvEnd[digit];
    }
    texcoords[ti + 1] := atlas.quadTexcoords[source + 1];
  }

  /** The layout of the strip: count the quads, zero two buffers of 18 and
      12 floats per quad, then lay the quads out left to right, stopping
      after the quad that follows the point. */
  method LayoutDigits(s: string, atlas: Atlas) returns (n: int, verts: array<real>, texcoords: array<real>)
    requires WellFormed(atlas) && Drawable(s)
    ensures n == GlyphCount(s)
    ensures fresh(verts) && fresh(texcoords)
    ensures verts.Length == 3 * DrawnVertices(n) && texcoords.Length == 2 * DrawnVertices(n)
    ensures forall j: nat :: j < verts.Length ==> verts[j] == VertexFloat(s, atlas, j)
    ensures forall j: nat :: j < texcoords.Length ==> texcoords[j] == TexcoordFloat(s, atlas, j)
  {
    n := CountGlyphs(s);
    verts := new real[18 * n](_ => 0.0);
    texcoords := new real[12 * n](_ => 0.0);
    var digitIndex := 0;
    var vertIndex := 0;
    var texIndex := 0;
    var afterDecimal := false;
    var decimalPlace := 0;
    var i := 0;
    while i < n
      invariant 0 <= i <= n
      invariant digitIndex == i && vertIndex == 18 * i && texIndex == 12 * i
      invariant decimalPlace == 0
      invariant afterDecimal <==> Shifted(s, i)
      invariant forall j: nat :: j < vertIndex ==> verts[j] == VertexFloat(s, atlas, j)
      invariant forall j: nat :: j < texIndex ==> texcoords[j] == TexcoordFloat(s, atlas, j)
    {
      var c := CharAt(s, i);
      var digit := c as int - '0' as int;
      if c == '.' {
        digit := 10;
      }
      if 1 >= decimalPlace {
        ghost var quad := vertIndex;
        ghost var texQuad := texIndex;
        vertIndex, texIndex, decimalPlace :=
          LayoutQuad(verts, texcoords, atlas, vertIndex, texIndex, digitIndex, digit, afterDecimal, decimalPlace);
        assert digit == Glyph(c);
        forall j: nat | quad <= j < vertIndex
          ensures verts[j] == VertexFloat(s, atlas, j)
        {
          QuadFloat(s, atlas, i, j);
        }
        forall j: nat | texQuad <= j < texIndex
          ensures texcoords[j] == TexcoordFloat(s, atlas, j)
        {
          QuadFloat(s, atlas, i, j);
        }
      }
      if afterDecimal {
        break;
      }
      if 10 == digit {
        afterDecimal := true;
      }
      digitIndex := digitIndex + 1;
      i := i + 1;
    }
  }

  /** The count never exceeds the string by more than one, and exceeds
      it exactly when the first point is the last character. */
  lemma GlyphCountBound(s: string)
    ensures GlyphCount(s) <= |s| + 1
    ensures '.' !in s ==> GlyphCount(s) == |s|
    ensures GlyphCount(s) == |s| + 1 <==> '.' in s && FirstDot(s) == |s| - 1
  {
  }

  /** A string of digits and points can be drawn exactly when a character
      follows its first point; otherwise the layout reads the terminating
      NUL as a glyph. */
  lemma DrawableExactly(s: string)
    requires forall i :: 0 <= i < |s| ==> IsDigit(s[i]) || s[i] == '.'
    ensures Drawable(s) <==> !('.' in s && FirstDot(s) == |s| - 1)
  {
    if '.' in s && FirstDot(s) == |s| - 1 {
      assert CharAt(s, |s|) == '\0';
    } else {
      forall i: nat | i < GlyphCount(s)
        ensures IsDigit(CharAt(s, i)) || CharAt(s, i) == '.'
      {
        assert i < |s|;
      }
    }
  }

  /** The glyph index is in the atlas exactly for the digits, the point
      and the character right after `9`, which the layout would also treat
      as a point. */
  lemma GlyphInAtlas(c: char)
    ensures 0 <= Glyph(c) <= 10 <==> '0' <= c <= ':' || c == '.'
    ensures IsDigit(c) || c == '.' ==> 0 <= Glyph(c) <= 10
  {
  }

  /** Of the quads drawn, only the last can be shifted, and it is shifted
      exactly when the string has a point. */
  lemma OnlyLastQuadShifted(s: string, k: nat)
    requires k < GlyphCount(s)
    ensures Shifted(s, k) <==> '.' in s && k == GlyphCount(s) - 1
  {
  }

  lemma StepOffset(k: int, p: real)
    ensures ((k + 1) as real) * p == (k as real) * p + p
  {
  }

  /** Neighbouring quads before the shifted one are exactly one pitch
      apart, vertex by vertex. */
  lemma EvenSpacing(s: string, atlas: Atlas, k: nat, m: nat)
    requires WellFormed(atlas) && m < 18 && m % 3 == 0
    requires k + 1 < GlyphCount(s) && !Shifted(s, k + 1)
    ensures VertexFloat(s, atlas, 18 * (k + 1) + m) == VertexFloat(s, atlas, 18 * k + m) + Pitch(atlas)
  {
    SplitIndex(k, m);
    SplitIndex(k + 1, m);
    assert !Shifted(s, k);
    StepOffset(k, Pitch(atlas));
  }

  /** The quad after the point sits half a width closer to the point's
      quad than the pitch. */
  lemma PointGap(s: string, atlas: Atlas, m: nat)
    requires WellFormed(atlas) && m < 18 && m % 3 == 0 && '.' in s
    ensures var d := FirstDot(s);
      VertexFloat(s, atlas, 18 * (d + 1) + m) == VertexFloat(s, atlas, 18 * d + m) + Pitch(atlas) - atlas.width / 2.0
  {
    var d := FirstDot(s);
    SplitIndex(d, m);
    SplitIndex(d + 1, m);
    ShiftedStep(atlas, d, m);
  }

  lemma ShiftedStep(atlas: Atlas, k: int, m: int)
    requires WellFormed(atlas) && 0 <= m < 18 && m % 3 == 0
    ensures VertexValue(atlas, k + 1, true, m) == VertexValue(atlas, k, false, m) + Pitch(atlas) - atlas.width / 2.0
  {
    StepOffset(k, Pitch(atlas));
  }

  /** The y and z floats of every quad are the template's. */
  lemma HeightAndDepthCopied(s: string, atlas: Atlas, k: nat, m: nat)
    requires WellFormed(atlas) && m < 18 && m % 3 != 0
    ensures VertexFloat(s, atlas, 18 * k + m) == atlas.digitVerts[m]
  {
    SplitIndex(k, m);
  }

  /** Texture coordinates depend on the character alone, not on where it
      stands in the strip. */
  lemma TexcoordsFollowCharacter(s: string, atlas: Atlas, k1: nat, k2: nat, m: nat)
    requires WellFormed(atlas) && Drawable(s) && m < 12
    requires k1 < GlyphCount(s) && k2 < GlyphCount(s) && CharAt(s, k1) == CharAt(s, k2)
    ensures TexcoordFloat(s, atlas, 12 * k1 + m) == TexcoordFloat(s, atlas, 12 * k2 + m)
  {
    SplitIndex(k1, m);
    SplitIndex(k2, m);
  }
}
