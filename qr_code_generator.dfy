/** The share dialog: the quiz URL, the download file name, and the cosmetic
    placeholder code drawn on a canvas. The canvas is 200 pixels square and
    every rectangle drawn on it is aligned to 10-pixel cells, so it is
    modelled exactly as a 20 by 20 grid of cells, `true` for dark. */
module QRCodeGenerator {

  const Two31: int := 0x8000_0000
  const Two32: int := 0x1_0000_0000

  /** ECMAScript's ToInt32: the int32 value congruent to `x` modulo 2^32. */
  function ToInt32(x: int): (r: int)
    ensures -Two31 <= r < Two31
    ensures (x - r) % Two32 == 0
  {
    (x + Two31) % Two32 - Two31
  }

  /** Euclidean division by 2^32 is unique. */
  lemma ModUnique(m: int, q: int, r: int)
    requires 0 <= r < Two32 && m == Two32 * q + r
    ensures m % Two32 == r
  {
    var d := m / Two32;
    assert m == Two32 * d + m % Two32;
    assert Two32 * (q - d) == m % Two32 - r;
  }

  /** Adding a multiple of 2^32 does not change the int32. */
  lemma ToInt32Shift(y: int, k: int)
    ensures ToInt32(y + Two32 * k) == ToInt32(y)
  {
    var m := y + Two31;
    var d, r := m / Two32, m % Two32;
    assert m == Two32 * d + r;
    assert m + Two32 * k == Two32 * (d + k) + r;
    ModUnique(m + Two32 * k, d + k, r);
  }

  /** One step of the fold `a = ((a << 5) - a) + b.charCodeAt(0); return a & a`:
      the shift wraps to int32, the subtraction and addition are exact, and
      `a & a` wraps the sum to int32 again. */
  function HashStep(a: int, c: char): (h: int)
    ensures -Two31 <= h < Two31
  {
    ToInt32(ToInt32(a * 32) - a + (c as int))
  }

  /** The step is Java's string-hash step: multiply by 31, add the code, wrap. */
  lemma HashStepIsTimes31(a: int, c: char)
    ensures HashStep(a, c) == ToInt32(31 * a + (c as int))
  {
    var w := ToInt32(a * 32);
    var q := (a * 32 - w) / Two32;
    assert a * 32 - w == Two32 * q;
    assert w - a + (c as int) == (31 * a + (c as int)) + Two32 * (-q);
    ToInt32Shift(31 * a + (c as int), -q);
  }

  /** The hash of the text: the fold from 0 over its characters. */
  function Hash(text: string): (h: int)
    ensures -Two31 <= h < Two31
  {
    if text == [] then 0 else HashStep(Hash(text[..|text| - 1]), text[|text| - 1])
  }

  /** Java's polynomial string hash without wrap-around:
      the sum of `code(text[i]) * 31^(n - 1 - i)`. */
  function Polynomial(text: string): int
  {
    if text == [] then 0 else 31 * Polynomial(text[..|text| - 1]) + (text[|text| - 1] as int)
  }

  /** The fold is the polynomial hash reduced to int32. */
  lemma {:induction false} HashIsWrappedPolynomial(text: string)
    ensures Hash(text) == ToInt32(Polynomial(text))
  {
    if text != [] {
      var prefix, c := text[..|text| - 1], text[|text| - 1];
      HashIsWrappedPolynomial(prefix);
      var h, p := Hash(prefix), Polynomial(prefix);
      HashStepIsTimes31(h, c);
      var q := (p - h) / Two32;
      assert p - h == Two32 * q;
      assert 31 * p + (c as int) == (31 * h + (c as int)) + Two32 * (31 * q);
      ToInt32Shift(31 * h + (c as int), 31 * q);
    }
  }

  /** `Math.abs`, exact on doubles, so the absolute value of -2^31 is 2^31. */
  function Abs(x: int): nat
  {
    if x < 0 then -x else x
  }

  /** The canvas is 200 pixels square, a cell 10 pixels and a marker 30:
      in cells, a 20 by 20 grid with 3 by 3 markers. */
  const CellSize := 10
  const GridCells := 20
  const MarkerCells := 3
  const Size := GridCells * CellSize

  const Dark := true
  const Light := false

  /** The pattern before the markers: cell (x, y) is dark when `x + y + |hash|`
      is a multiple of 3. */
  predicate PatternCell(hash: int, x: int, y: int)
  {
    (x + y + Abs(hash)) % 3 == 0
  }

  /** Whether (x, y) lies in the `w` by `h` cell rectangle at (x0, y0). */
  predicate InRect(x: int, y: int, x0: int, y0: int, w: int, h: int)
  {
    x0 <= x < x0 + w && y0 <= y < y0 + h
  }

  /** The three corner markers: a dark 3 by 3 block with a light centre at
      the top left, top right and bottom left; nothing elsewhere. */
  predicate InMarker(x: int, y: int)
  {
    || InRect(x, y, 0, 0, MarkerCells, MarkerCells)
    || InRect(x, y, GridCells - MarkerCells, 0, MarkerCells, MarkerCells)
    || InRect(x, y, 0, GridCells - MarkerCells, MarkerCells, MarkerCells)
  }

  predicate IsMarkerCentre(x: int, y: int)
  {
    (x, y) == (1, 1) || (x, y) == (GridCells - MarkerCells + 1, 1) || (x, y) == (1, GridCells - MarkerCells + 1)
  }

  /** The finished picture for a hash: marker cells as the markers paint
      them, every other cell as the pattern paints it. */
  predicate HashCell(hash: int, x: int, y: int)
  {
    if InMarker(x, y) then !IsMarkerCentre(x, y) else PatternCell(hash, x, y)
  }

  /** The finished picture of `text`. */
  predicate CodeCell(text: string, x: int, y: int)
  {
    HashCell(Hash(text), x, y)
  }

  /** The markers sit where the screen draws them: x 0..2 / y 0..2,
      x 17..19 / y 0..2 and x 0..2 / y 17..19, dark except the three centres. */
  lemma MarkerLayout(text: string, x: int, y: int)
    requires 0 <= x < GridCells && 0 <= y < GridCells
    requires (x < 3 && y < 3) || (17 <= x && y < 3) || (x < 3 && 17 <= y)
    ensures CodeCell(text, x, y) <==> !((x, y) == (1, 1) || (x, y) == (18, 1) || (x, y) == (1, 18))
  {
  }

  /** Away from the three marked corners (in particular in the whole bottom
      right corner), every cell keeps its pattern value. */
  lemma OutsideMarkersKeepPattern(text: string, x: int, y: int)
    requires 0 <= x < GridCells && 0 <= y < GridCells
    requires !((x < 3 && y < 3) || (17 <= x && y < 3) || (x < 3 && 17 <= y))
    ensures CodeCell(text, x, y) == PatternCell(Hash(text), x, y)
  {
  }

  /** A pattern cell depends on the hash only through `|hash| mod 3`. */
  lemma PatternByResidue(hash: int, x: int, y: int)
    ensures PatternCell(hash, x, y) <==> (x + y + Abs(hash) % 3) % 3 == 0
  {
    var q, r := Abs(hash) / 3, Abs(hash) % 3;
    assert x + y + Abs(hash) == (x + y + r) + 3 * q;
  }

  /** The picture depends on the text only through `|hash| mod 3`: two texts
      draw the same grid exactly when their hashes agree modulo 3. */
  lemma SamePictureIffSameResidue(a: string, b: string)
    ensures (forall x, y :: 0 <= x < GridCells && 0 <= y < GridCells ==> CodeCell(a, x, y) == CodeCell(b, x, y))
            <==> Abs(Hash(a)) % 3 == Abs(Hash(b)) % 3
  {
    SameHashPictureIffSameResidue(Hash(a), Hash(b));
    assert forall x, y :: CodeCell(a, x, y) == HashCell(Hash(a), x, y);
    assert forall x, y :: CodeCell(b, x, y) == HashCell(Hash(b), x, y);
  }

  /** The same for two hashes. */
  lemma SameHashPictureIffSameResidue(ha: int, hb: int)
    ensures (forall x, y :: 0 <= x < GridCells && 0 <= y < GridCells ==> HashCell(ha, x, y) == HashCell(hb, x, y))
            <==> Abs(ha) % 3 == Abs(hb) % 3
  {
    var ra, rb := Abs(ha) % 3, Abs(hb) % 3;
    if ra == rb {
      forall x, y | 0 <= x < GridCells && 0 <= y < GridCells
        ensures HashCell(ha, x, y) == HashCell(hb, x, y)
      {
        PatternByResidue(ha, x, y);
        PatternByResidue(hb, x, y);
      }
    } else {
      // Cells (5, 5), (5, 6) and (5, 7) lie outside every marker, and each
      // residue darkens exactly one of them.
      var y := 7 - ra;
      PatternByResidue(ha, 5, y);
      PatternByResidue(hb, 5, y);
      assert HashCell(ha, 5, y) != HashCell(hb, 5, y);
    }
  }

  /** `ctx.fillRect` in cell units: paints a rectangle, clipped to the canvas,
      and leaves every other cell alone. */
  method FillRect(canvas: array2<bool>, x0: int, y0: int, w: int, h: int, colour: bool)
    modifies canvas
    ensures forall x, y :: 0 <= x < canvas.Length0 && 0 <= y < canvas.Length1 ==>
              canvas[x, y] == if InRect(x, y, x0, y0, w, h) then colour else old(canvas[x, y])
  {
    var x := 0;
    while x < canvas.Length0
      invariant 0 <= x <= canvas.Length0
      invariant forall i, j :: 0 <= i < canvas.Length0 && 0 <= j < canvas.Length1 ==>
                  canvas[i, j] == if i < x && InRect(i, j, x0, y0, w, h) then colour else old(canvas[i, j])
    {
      var y := 0;
      while y < canvas.Length1
        invariant 0 <= y <= canvas.Length1
        invariant forall i, j :: 0 <= i < canvas.Length0 && 0 <= j < canvas.Length1 ==>
                    canvas[i, j] == if (i < x || (i == x && j < y)) && InRect(i, j, x0, y0, w, h) then colour
                                    else old(canvas[i, j])
      {
        if InRect(x, y, x0, y0, w, h) {
          canvas[x, y] := colour;
        }
        y := y + 1;
      }
      x := x + 1;
    }
  }

  /** `generateQRCode(text, canvas)`: clear to light, fill the pattern cell by
      cell (recomputing the hash for every cell, as the screen does), then
      paint the three markers, each a dark block and then its light centre. */
  method GenerateQRCode(text: string, canvas: array2<bool>)
    requires canvas.Length0 == GridCells && canvas.Length1 == GridCells
    modifies canvas
    ensures forall x, y :: 0 <= x < GridCells && 0 <= y < GridCells ==> canvas[x, y] == CodeCell(text, x, y)
  {
    FillRect(canvas, 0, 0, GridCells, GridCells, Light);
    var i := 0;
    while i < GridCells
      invariant 0 <= i <= GridCells
      invariant forall x, y :: 0 <= x < GridCells && 0 <= y < GridCells ==>
                  canvas[x, y] == (x < i && PatternCell(Hash(text), x, y))
    {
      var j := 0;
      while j < GridCells
        invariant 0 <= j <= GridCells
        invariant forall x, y :: 0 <= x < GridCells && 0 <= y < GridCells ==>
                    canvas[x, y] == ((x < i || (x == i && y < j)) && PatternCell(Hash(text), x, y))
      {
        var hash := Hash(text);
        if (i + j + Abs(hash)) % 3 == 0 {
          canvas[i, j] := Dark;
        }
        j := j + 1;
      }
      i := i + 1;
    }
    FillRect(canvas, 0, 0, MarkerCells, MarkerCells, Dark);
    FillRect(canvas, 1, 1, 1, 1, Light);
    FillRect(canvas, GridCells - MarkerCells, 0, MarkerCells, MarkerCells, Dark);
    FillRect(canvas, GridCells - MarkerCells + 1, 1, 1, 1, Light);
    FillRect(canvas, 0, GridCells - MarkerCells, MarkerCells, MarkerCells, Dark);
    FillRect(canvas, 1, GridCells - MarkerCells + 1, 1, 1, Light);
  }

  /** The link the code stands for, the one the dialog shows and the one
      "Copy URL" copies: `${origin}/?quiz=${quizId}`. */
  function ShareUrl(origin: string, quizId: string): (url: string)
    ensures |url| == |origin| + 7 + |quizId|
    ensures url[..|origin|] == origin
    ensures url[|origin|..|origin| + 7] == "/?quiz="
    ensures url[|origin| + 7..] == quizId
  {
    origin + "/?quiz=" + quizId
  }

  /** The dialog's effect: the code drawn is the one of the share link. */
  method DrawShareCode(origin: string, quizId: string, canvas: array2<bool>)
    requires canvas.Length0 == GridCells && canvas.Length1 == GridCells
    modifies canvas
    ensures forall x, y :: 0 <= x < GridCells && 0 <= y < GridCells ==>
              canvas[x, y] == CodeCell(ShareUrl(origin, quizId), x, y)
  {
    var quizUrl := ShareUrl(origin, quizId);
    GenerateQRCode(quizUrl, canvas);
  }

  /** The download name `quiz-${quizId}-qr-code.png`. */
  function DownloadName(quizId: string): (name: string)
    ensures |name| == |quizId| + 17
    ensures name[5..|name| - 12] == quizId
    ensures name[..5] == "quiz-" && name[|name| - 12..] == "-qr-code.png"
  {
    "quiz-" + quizId + "-qr-code.png"
  }

  /** Different quizzes download under different names. */
  lemma DownloadNameInjective(a: string, b: string)
    requires DownloadName(a) == DownloadName(b)
    ensures a == b
  {
    var n := DownloadName(a);
    assert a == n[5..|n| - 12];
  }

}
