/** Frame buffer sizing and scan-out addresses of the LCD driver
(excerpts/s3c2440_LCD_driver.c). */
module ScanOut {
  import opened Common

  const WORD: nat := 0x1_0000_0000

  datatype Display = Display(typ: nat, xres: nat, yres: nat, bpp: nat)

  datatype Visual = TrueColor | PseudoColor | Mono

  /** Bits of one frame, the product the driver computes. */
  function Bits(d: Display): nat { d.xres * d.yres * d.bpp }

  /** The product computed in 32 bits, then shifted by 3. */
  function FrameBytes(d: Display): nat { Bits(d) % WORD / 8 }

  function LineBytes(xres: nat, bpp: nat): nat { xres * bpp % WORD / 8 }

  /** The same display mode, as check_var compares it. */
  predicate SameMode(d: Display, xres: nat, yres: nat, bpp: nat) { d.xres == xres && d.yres == yres && d.bpp == bpp }

  /** Truncating a line to whole bytes never makes a frame longer than truncating
      the frame. */
  lemma LinesFit(x: nat, y: nat, b: nat)
    ensures x * b / 8 * y <= x * y * b / 8
    ensures x * b % 8 == 0 ==> x * b / 8 * y == x * y * b / 8
  {
    var q := x * b / 8;
    assert 8 * q <= x * b;
    MulMono(8 * q, x * b, y);
    assert 8 * q * y == 8 * (q * y) && x * b * y == x * y * b by { Shuffle(q, x, y, b); }
    if x * b % 8 == 0 { assert 8 * q == x * b; }
  }

  lemma MulMono(a: nat, c: nat, y: nat)
    requires a <= c
    ensures a * y <= c * y
  {}

  lemma Shuffle(q: nat, x: nat, y: nat, b: nat)
    ensures 8 * q * y == 8 * (q * y)
    ensures x * b * y == x * y * b
  {}

  /** A line is no longer than the frame it is part of. */
  lemma LineInWord(x: nat, y: nat, b: nat)
    requires x * y * b < WORD && y > 0
    ensures x * b < WORD
  {
    Shuffle(0, x, y, b);
    MulMono(1, y, x * b);
  }

  lemma FitsWord(bits: nat, bytes: nat)
    requires bytes <= bits / 8
    ensures bits < WORD ==> bytes <= bits % WORD / 8
    ensures bytes == bits / 8 ==> (bytes <= bits % WORD / 8 <==> bits < WORD)
  {}

  /** What scan-out reads of a mode fits the bytes computed for its frame whenever
      the product does not wrap; with whole bytes a line, only then. */
  lemma ScanOutBytes(d: Display)
    ensures Bits(d) < WORD ==> LineBytes(d.xres, d.bpp) * d.yres <= FrameBytes(d)
    ensures d.xres * d.bpp < WORD && d.xres * d.bpp % 8 == 0 ==>
              (LineBytes(d.xres, d.bpp) * d.yres <= FrameBytes(d) <==> Bits(d) < WORD)
  {
    var x, y, b := d.xres, d.yres, d.bpp;
    LinesFit(x, y, b);
    if y > 0 && Bits(d) < WORD { LineInWord(x, y, b); }
    var bits, line, bytes := x * y * b, x * b, x * b / 8 * y;
    FitsWord(bits, bytes);
    if line < WORD { assert LineBytes(x, b) == line / 8; }
  }

  /** In a buffer of that size or more, as the sizing loop leaves it, scan-out of
      a mode with whole bytes a line ends inside if and only if the product does not
      wrap. */
  lemma ScanOutFits(d: Display, smemLen: nat)
    requires FrameBytes(d) <= smemLen < WORD / 8
    requires d.xres * d.bpp < WORD && d.xres * d.bpp % 8 == 0
    ensures LineBytes(d.xres, d.bpp) * d.yres <= smemLen <==> Bits(d) < WORD
  {
    ScanOutBytes(d);
    LinesFit(d.xres, d.yres, d.bpp);
    var bits, bytes := Bits(d), LineBytes(d.xres, d.bpp) * d.yres;
    assert bytes == bits / 8 by { assert LineBytes(d.xres, d.bpp) == d.xres * d.bpp / 8; }
  }

  lemma EndsInside(start: nat, size: nat, n: nat)
    requires n <= size && start + size < WORD
    ensures (start + n) % WORD == start + n
    ensures start / 2 <= (start + n) / 2 && 2 * ((start + n) / 2) <= start + size
  {}

  /** The product of this mode wraps to nothing. */
  const OVERSIZED := Display(0, 0x8000, 0x8000, 8)

  lemma OversizedWraps()
    ensures FrameBytes(OVERSIZED) == 0 && LineBytes(OVERSIZED.xres, OVERSIZED.bpp) * OVERSIZED.yres == 0x4000_0000
  {
    assert 0x8000 * 0x8000 * 8 == 2 * WORD;
  }

  /** A table with that mode, sized and set: scan-out of the accepted mode runs past
      the end of the buffer. */
  method OversizedOverruns() returns (f: FbInfo, ok: bool)
    ensures ok && f.displays == [OVERSIZED] && f.Sized() && f.smemLen == 0
    ensures f.smemStart + f.lineLength * f.yres == f.smemStart + f.smemLen + 0x4000_0000
  {
    f := new FbInfo([OVERSIZED], 0);
    f.SizeBuffer();
    OversizedWraps();
    assert f.Accepts(0);
    ok := f.SetMode();
    assert f.InMode(0);
  }

  class FbInfo {
    const displays: seq<Display>
    const default_: nat
    // fix
    var smemStart: nat
    var smemLen: nat
    var lineLength: nat
    // var
    var xres: nat
    var yres: nat
    var bpp: nat
    var xresVirtual: nat
    var yresVirtual: nat
    // registers
    var saddr1: nat
    var saddr2: nat
    var saddr3: nat
    var visual: Visual

    predicate Table()
    {
      default_ < |displays| && forall i :: 0 <= i < |displays| ==> Bits(displays[i]) < WORD
    }

    /** The buffer is big enough for one frame of every mode in the table. */
    predicate Sized()
      reads this
    {
      forall i :: 0 <= i < |displays| ==> FrameBytes(displays[i]) <= smemLen
    }

    /** A mode of the table that check_var accepts: the default one, or one of the
        default's type. */
    predicate Accepts(i: nat)
      reads this
      requires default_ < |displays|
    {
      i < |displays| && SameMode(displays[i], xres, yres, bpp) && (i == default_ || displays[i].typ == displays[default_].typ)
    }

    /** Set up with the mode of one table entry. */
    predicate InMode(i: nat)
      reads this
    {
      i < |displays| && SameMode(displays[i], xres, yres, bpp) && xresVirtual == displays[i].xres && yresVirtual == displays[i].yres
    }

    constructor (displays: seq<Display>, default_: nat)
      requires default_ < |displays|
      ensures this.displays == displays && this.default_ == default_ && smemLen == 0
      ensures SameMode(displays[default_], xres, yres, bpp)
    {
      this.displays, this.default_ := displays, default_;
      smemStart, smemLen, lineLength := 0, 0, 0;
      xres, yres, bpp := displays[default_].xres, displays[default_].yres, displays[default_].bpp;
      xresVirtual, yresVirtual := 0, 0;
      saddr1, saddr2, saddr3, visual := 0, 0, 0, PseudoColor;
    }

    /** The sizing loop of lcd_fb_probe: the largest frame of the table. */
    method SizeBuffer()
      modifies this`smemLen
      ensures Sized() && smemLen >= old(smemLen)
      ensures smemLen == old(smemLen) || exists i :: 0 <= i < |displays| && smemLen == FrameBytes(displays[i])
    {
      for i := 0 to |displays|
        invariant forall j :: 0 <= j < i ==> FrameBytes(displays[j]) <= smemLen
        invariant smemLen >= old(smemLen)
        invariant smemLen == old(smemLen) || exists j :: 0 <= j < i && smemLen == FrameBytes(displays[j])
      {
        var len := displays[i].xres * displays[i].yres * displays[i].bpp % WORD / 8;
        if smemLen < len { smemLen := len; }
      }
    }

    /** my2440fb_check_var(): -EINVAL is false. */
    method CheckVar() returns (ok: bool)
      requires default_ < |displays|
      modifies this`xresVirtual, this`yresVirtual
      ensures ok <==> exists i :: old(Accepts(i))
      ensures ok ==> exists i :: InMode(i)
      ensures !ok ==> xresVirtual == old(xresVirtual) && yresVirtual == old(yresVirtual)
    {
      var d := displays[default_];
      var k: Option<nat> := None;
      if yres == d.yres && xres == d.xres && bpp == d.bpp {
        k := Some(default_);
        assert Accepts(default_);
      } else {
        var i := 0;
        while i < |displays| && k.None?
          invariant 0 <= i <= |displays|
          invariant k.None? ==> forall j :: 0 <= j < i ==> !Accepts(j)
          invariant k.Some? ==> Accepts(k.value)
        {
          var e := displays[i];
          if d.typ == e.typ && yres == e.yres && xres == e.xres && bpp == e.bpp {
            k := Some(i);
          }
          i := i + 1;
        }
      }
      if k.None? {
        assert forall j :: !Accepts(j);
        return false;
      }
      assert Accepts(k.value);
      xresVirtual, yresVirtual := displays[k.value].xres, displays[k.value].yres;
      assert InMode(k.value);
      ok := true;
    }

    /** my2440fb_set_lcdaddr(): the sums are computed in 32 bits. */
    method SetLcdAddr()
      modifies this`saddr1, this`saddr2, this`saddr3
      ensures saddr1 == smemStart / 2 && saddr2 == (smemStart + lineLength * yres) % WORD / 2
      ensures saddr3 == lineLength / 2 % 0x400
    {
      saddr1 := smemStart / 2;
      saddr2 := smemStart;
      saddr2 := (saddr2 + lineLength * yres) % WORD;
      saddr2 := saddr2 / 2;
      saddr3 := lineLength / 2 % 0x400;
    }

    /** my2440fb_set_par(), as far as it concerns colours and scan-out. */
    method SetPar()
      modifies this`visual, this`lineLength, this`saddr1, this`saddr2, this`saddr3
      ensures lineLength == LineBytes(xresVirtual, bpp)
      ensures saddr1 == smemStart / 2 && saddr2 == (smemStart + lineLength * yres) % WORD / 2
      ensures saddr3 == lineLength / 2 % 0x400
      ensures visual.Mono? <==> bpp == 1
      ensures visual.TrueColor? <==> bpp in {12, 16, 32}
    {
      if bpp == 32 || bpp == 16 || bpp == 12 { visual := TrueColor; }
      else if bpp == 1 { visual := Mono; }
      else { visual := PseudoColor; }
      lineLength := xresVirtual * bpp % WORD / 8;
      SetLcdAddr();
    }

    /** A mode change, check_var and then set_par: in a buffer sized for the table,
        scan-out of every accepted mode ends inside the buffer. */
    method SetMode() returns (ok: bool)
      requires default_ < |displays|
      modifies this`xresVirtual, this`yresVirtual, this`visual, this`lineLength, this`saddr1, this`saddr2, this`saddr3
      ensures ok <==> exists i :: old(Accepts(i))
      ensures ok ==> (exists i :: InMode(i)) && lineLength == LineBytes(xresVirtual, bpp)
      ensures ok && Table() && Sized() && smemStart + smemLen < WORD ==>
                && smemStart + lineLength * yres <= smemStart + smemLen
                && saddr1 == smemStart / 2 && saddr2 == (smemStart + lineLength * yres) / 2
                && saddr1 <= saddr2 && 2 * saddr2 <= smemStart + smemLen
      ensures ok && Sized() && smemLen < WORD / 8 && xres * bpp < WORD && xres * bpp % 8 == 0 ==>
                (smemStart + lineLength * yres <= smemStart + smemLen <==> xres * yres * bpp < WORD)
    {
      hide FrameBytes, LineBytes;
      ok := CheckVar();
      if !ok { return; }
      ghost var i: nat :| InMode(i);
      SetPar();
      assert InMode(i);
      if Sized() && smemLen < WORD / 8 && xres * bpp < WORD && xres * bpp % 8 == 0 {
        ScanOutFits(displays[i], smemLen);
      }
      if Table() && Sized() && smemStart + smemLen < WORD {
        ScanOutBytes(displays[i]);
        EndsInside(smemStart, smemLen, lineLength * yres);
      }
    }
  }
}
