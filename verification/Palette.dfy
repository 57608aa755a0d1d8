/** The palette of the LCD driver (excerpts/s3c2440_LCD_driver.c): colours are
written to the hardware at once and also kept in a shadow buffer, from which the
frame interrupt writes again whatever the hardware did not accept. */
module Palette {
  import opened Common

  const SIZE: nat := 256
  const CLEAR: int := 0x8000_0000

  /** The colours of the palette. */
  predicate IsColour(v: int) { 0 <= v < 0x1_0000 }

  /** What one register holds after a write that the hardware may drop; it is read
      back as 16 bits. */
  function Written(reg: int, ent: int, landed: bool): int { if landed then ent % 0x1_0000 else reg }

  /** One entry of my2440fb_write_palette(): the register and the buffer after it. */
  function HwAfter(hw: int, ent: int, landed: bool): int { if ent == CLEAR then hw else Written(hw, ent, landed) }

  function BufAfter(hw: int, ent: int, landed: bool): int {
    if ent == CLEAR || HwAfter(hw, ent, landed) == ent then CLEAR else ent
  }

  /** The driver and the 256 hardware registers.  `masked`: the frame interrupt is
      off.  `last` is the last colour scheduled for each register, `busy` a
      setcolreg between its register write and its scheduling. */
  datatype Sys = Sys(buf: seq<int>, hw: seq<int>, ready: bool, masked: bool,
                     last: map<nat, int>, busy: Option<(nat, int)>)

  datatype Event =
    | Write(regno: nat, val: int, landed: bool)  // writel() in setcolreg
    | Schedule                                   // schedule_palette_update(), interrupts off
    | Frame(taken: seq<bool>)                   // frame interrupt

  function Init(hw: seq<int>, masked: bool): Sys {
    Sys(seq(SIZE, _ => CLEAR), hw, false, masked, map[], None)
  }

  predicate Shaped(s: Sys) { |s.buf| == |s.hw| == SIZE && (s.busy.Some? ==> s.busy.value.0 < SIZE) }

  function DoWrite(s: Sys, regno: nat, val: int, landed: bool): Option<Sys>
    requires Shaped(s)
  {
    if s.busy.Some? || regno >= SIZE || !IsColour(val) then None
    else Some(s.(hw := s.hw[regno := Written(s.hw[regno], val, landed)], busy := Some((regno, val))))
  }

  function DoSchedule(s: Sys): Option<Sys>
    requires Shaped(s)
  {
    match s.busy
    case None => None
    case Some((regno, val)) =>
      Some(s.(buf := s.buf[regno := val], ready := true, masked := s.masked && s.ready,
              last := s.last[regno := val], busy := None))
  }

  function DoFrame(s: Sys, landed: seq<bool>): Option<Sys>
    requires Shaped(s)
  {
    if s.masked || |landed| != SIZE then None
    else if !s.ready then Some(s)
    else
      var buf := seq(SIZE, i requires 0 <= i < SIZE => BufAfter(s.hw[i], s.buf[i], landed[i]));
      Some(s.(buf := buf,
              hw := seq(SIZE, i requires 0 <= i < SIZE => HwAfter(s.hw[i], s.buf[i], landed[i])),
              ready := exists i :: 0 <= i < SIZE && buf[i] != CLEAR))
  }

  function Do(s: Sys, e: Event): Option<Sys>
    requires Shaped(s)
  {
    match e
    case Write(regno, val, landed) => DoWrite(s, regno, val, landed)
    case Schedule => DoSchedule(s)
    case Frame(landed) => DoFrame(s, landed)
  }

  // ---------------------------------------------------------------- agreement

  /** Register r shows its last scheduled colour, or will be written again. */
  predicate Settled(s: Sys, r: nat)
    requires Shaped(s) && r < SIZE && r in s.last
  {
    s.hw[r] == s.last[r] || (s.buf[r] == s.last[r] && s.ready && !s.masked)
  }

  predicate Inv(s: Sys) {
    && Shaped(s)
    && (s.busy.Some? ==> IsColour(s.busy.value.1))
    && (s.ready ==> !s.masked)
    && (!s.ready ==> forall r :: 0 <= r < SIZE ==> s.buf[r] == CLEAR)
    && (forall r <- s.last :: r < SIZE && IsColour(s.last[r]))
    && (forall r :: 0 <= r < SIZE && s.buf[r] != CLEAR ==> r in s.last && s.buf[r] == s.last[r])
    && (forall r <- s.last :: (s.busy.Some? && s.busy.value.0 == r) || Settled(s, r))
  }

  lemma StepInv(s: Sys, e: Event)
    requires Inv(s) && Do(s, e).Some?
    ensures Inv(Do(s, e).value)
  {
    var t := Do(s, e).value;
    if e.Frame? && s.ready {
      forall r | 0 <= r < SIZE && t.buf[r] != CLEAR ensures r in t.last && t.buf[r] == t.last[r] && t.ready {
        assert t.buf[r] == s.buf[r];
      }
      forall r <- t.last | !(t.busy.Some? && t.busy.value.0 == r) ensures Settled(t, r) {
        assert Settled(s, r);
      }
    }
  }

  function Run(s: Sys, es: seq<Event>): Option<Sys>
    requires Shaped(s)
    decreases |es|
  {
    if es == [] then Some(s)
    else match Do(s, es[0])
         case None => None
         case Some(t) => Run(t, es[1..])
  }

  lemma {:induction false} RunInv(s: Sys, es: seq<Event>)
    requires Inv(s) && Run(s, es).Some?
    ensures Inv(Run(s, es).value)
    decreases |es|
  {
    if es != [] {
      StepInv(s, es[0]);
      RunInv(Do(s, es[0]).value, es[1..]);
    }
  }

  /** After any run of updates and frame interrupts, whatever writes the hardware
      dropped: with no setcolreg in progress every register shows its last colour
      or still has it buffered, with the interrupt that will write it enabled; and
      a clear flag means a clear buffer. */
  lemma Agreement(hw: seq<int>, masked: bool, es: seq<Event>, s: Sys)
    requires |hw| == SIZE && Run(Init(hw, masked), es) == Some(s)
    ensures Inv(s)
    ensures s.busy.None? ==> forall r <- s.last :: Settled(s, r)
    ensures !s.ready ==> forall r :: 0 <= r < SIZE ==> s.buf[r] == CLEAR
    ensures s.busy.None? && !s.ready ==> forall r <- s.last :: s.hw[r] == s.last[r]
  {
    RunInv(Init(hw, masked), es);
  }

  /** One frame in which the hardware takes every write settles everything. */
  lemma FrameCompletes(s: Sys)
    requires Inv(s) && s.busy.None? && s.ready
    ensures var t := Do(s, Frame(seq(SIZE, _ => true)));
            t.Some? && !t.value.ready && t.value.last == s.last && forall r <- t.value.last :: t.value.hw[r] == s.last[r]
  {
    var t := Do(s, Frame(seq(SIZE, _ => true))).value;
    forall r | 0 <= r < SIZE ensures t.buf[r] == CLEAR {
      if s.buf[r] != CLEAR { assert IsColour(s.last[r]); }
    }
    forall r <- t.last ensures t.hw[r] == s.last[r] { assert Settled(s, r); }
  }

  // ---------------------------------------------------------------- colours

  /** (red & 0xf800) | ((green >> 5) & 0x07e0) | ((blue >> 11) & 0x001f) */
  function Rgb565(red: nat, green: nat, blue: nat): nat {
    red / 2048 % 32 * 2048 + green / 1024 % 64 * 32 + blue / 2048 % 32
  }

  /** The fields do not overlap: each is read back from its place, so no colour
      looks like the clear mark. */
  lemma Rgb565Fields(red: nat, green: nat, blue: nat)
    ensures var v := Rgb565(red, green, blue);
            v / 2048 == red / 2048 % 32 && v / 32 % 64 == green / 1024 % 64 && v % 32 == blue / 2048 % 32
            && IsColour(v) && v != CLEAR
  {
    FieldsApart(red / 2048 % 32, green / 1024 % 64, blue / 2048 % 32);
  }

  lemma FieldsApart(r: nat, g: nat, b: nat)
    requires r < 32 && g < 64 && b < 32
    ensures var v := r * 2048 + g * 32 + b;
            v / 2048 == r && v / 32 % 64 == g && v % 32 == b && v < 0x1_0000
  {
    assert (r * 2048 + g * 32 + b) / 32 == r * 64 + g;
  }

  type Word = bv32

  /** A colour channel's place in a true-colour value. */
  datatype Field = Field(offset: bv5, length: bv5)

  datatype Fields = Fields(red: Field, green: Field, blue: Field)

  /** The true-colour formats of check_var: 12 bits, 565, 5551, and 888. */
  datatype Format = Bpp12 | Bpp565 | Bpp5551 | Bpp32

  function FieldsOf(f: Format): Fields {
    match f
    case Bpp12 => Fields(Field(8, 4), Field(4, 4), Field(0, 4))
    case Bpp565 => Fields(Field(11, 5), Field(5, 6), Field(0, 5))
    case Bpp5551 => Fields(Field(11, 5), Field(6, 5), Field(1, 5))
    case Bpp32 => Fields(Field(16, 8), Field(8, 8), Field(0, 8))
  }

  /** The top bits of a 16-bit channel. */
  function Top(chan: Word, length: bv5): Word { (chan & 0xffff) >> (16 - length) }

  function Shl(v: Word, k: bv5): Word { v << k }

  function BitOr(v: Word, w: Word): Word { v | w }

  function ChanToField(chan: Word, f: Field): Word { Shl(Top(chan, f.length), f.offset) }

  function Packed(r: Word, ro: bv5, g: Word, go: bv5, b: Word, bo: bv5): Word { BitOr(BitOr(Shl(r, ro), Shl(g, go)), Shl(b, bo)) }

  function TrueValue(fs: Fields, red: Word, green: Word, blue: Word): Word {
    Packed(Top(red, fs.red.length), fs.red.offset, Top(green, fs.green.length), fs.green.offset, Top(blue, fs.blue.length), fs.blue.offset)
  }

  /** What a field of the value holds. */
  function FieldIn(v: Word, offset: bv5, length: bv5): Word { (v >> offset) & ((1 << length) - 1) }

  /** In every format each field holds the top bits of its channel. */
  lemma TrueFields(format: Format, red: Word, green: Word, blue: Word)
    ensures var fs := FieldsOf(format);
            var v := TrueValue(fs, red, green, blue);
            && FieldIn(v, fs.red.offset, fs.red.length) == Top(red, fs.red.length)
            && FieldIn(v, fs.green.offset, fs.green.length) == Top(green, fs.green.length)
            && FieldIn(v, fs.blue.offset, fs.blue.length) == Top(blue, fs.blue.length)
  {
    hide Top, FieldIn, Packed;
    match format
    case Bpp12 => Bits12(red, green, blue);
    case Bpp565 => Bits565(red, green, blue);
    case Bpp5551 => Bits5551(red, green, blue);
    case Bpp32 => Bits32(red, green, blue);
  }

  /** Pure red, green and blue in each format. */
  lemma PureColours()
    ensures var fs := FieldsOf(Bpp12);
            TrueValue(fs, 0xffff, 0, 0) == 0xf00 && TrueValue(fs, 0, 0xffff, 0) == 0x0f0 && TrueValue(fs, 0, 0, 0xffff) == 0x00f
    ensures var fs := FieldsOf(Bpp565);
            TrueValue(fs, 0xffff, 0, 0) == 0xf800 && TrueValue(fs, 0, 0xffff, 0) == 0x07e0 && TrueValue(fs, 0, 0, 0xffff) == 0x001f
    ensures var fs := FieldsOf(Bpp5551);
            TrueValue(fs, 0xffff, 0, 0) == 0xf800 && TrueValue(fs, 0, 0xffff, 0) == 0x07c0 && TrueValue(fs, 0, 0, 0xffff) == 0x003e
    ensures var fs := FieldsOf(Bpp32);
            TrueValue(fs, 0xffff, 0, 0) == 0xff0000 && TrueValue(fs, 0, 0xffff, 0) == 0x00ff00 && TrueValue(fs, 0, 0, 0xffff) == 0x0000ff
    ensures Rgb565(0xffff, 0, 0) == 0xf800 && Rgb565(0, 0xffff, 0) == 0x07e0 && Rgb565(0, 0, 0xffff) == 0x001f
  {}

  lemma Bits12(red: Word, green: Word, blue: Word)
    ensures var v := Packed(Top(red, 4), 8, Top(green, 4), 4, Top(blue, 4), 0);
            FieldIn(v, 8, 4) == Top(red, 4) && FieldIn(v, 4, 4) == Top(green, 4) && FieldIn(v, 0, 4) == Top(blue, 4)
  {}

  lemma Bits565(red: Word, green: Word, blue: Word)
    ensures var v := Packed(Top(red, 5), 11, Top(green, 6), 5, Top(blue, 5), 0);
            FieldIn(v, 11, 5) == Top(red, 5) && FieldIn(v, 5, 6) == Top(green, 6) && FieldIn(v, 0, 5) == Top(blue, 5)
  {}

  lemma Bits5551(red: Word, green: Word, blue: Word)
    ensures var v := Packed(Top(red, 5), 11, Top(green, 5), 6, Top(blue, 5), 1);
            FieldIn(v, 11, 5) == Top(red, 5) && FieldIn(v, 6, 5) == Top(green, 5) && FieldIn(v, 1, 5) == Top(blue, 5)
  {}

  lemma Bits32(red: Word, green: Word, blue: Word)
    ensures var v := Packed(Top(red, 8), 16, Top(green, 8), 8, Top(blue, 8), 0);
            FieldIn(v, 16, 8) == Top(red, 8) && FieldIn(v, 8, 8) == Top(green, 8) && FieldIn(v, 0, 8) == Top(blue, 8)
  {}

  // ---------------------------------------------------------------- in place

  datatype Visual = TrueColor(format: Format) | PseudoColor | Mono

  class Driver {
    const palette: array<int>  // palette_buffer
    const regs: array<int>     // the hardware palette
    const pseudo: array<Word>   // pseudo_pal
    var ready: bool
    var masked: bool
    ghost var last: map<nat, int>
    ghost var busy: Option<(nat, int)>

    ghost function State(): Sys
      reads this, palette, regs
    {
      Sys(palette[..], regs[..], ready, masked, last, busy)
    }

    ghost predicate Valid()
      reads this, palette, regs
    {
      palette != regs && pseudo.Length == 16
      && palette.Length == regs.Length == SIZE && Inv(State())
    }

    /** The probe clears the buffer. */
    constructor (hw: seq<int>, masked: bool)
      requires |hw| == SIZE
      ensures Valid() && State() == Init(hw, masked) && fresh(palette) && fresh(regs) && fresh(pseudo)
    {
      palette := new int[SIZE](_ => CLEAR);
      regs := new int[SIZE](i requires 0 <= i < SIZE => hw[i]);
      pseudo := new Word[16](_ => 0);
      ready, this.masked, last, busy := false, masked, map[], None;
      new;
      assert palette[..] == Init(hw, masked).buf && regs[..] == hw;
    }

    /** Writes the buffered entries to the hardware and keeps those that do not
        read back; `landed` says which writes the hardware takes. */
    method WritePalette(landed: seq<bool>)
      requires palette != regs && palette.Length == regs.Length == SIZE == |landed|
      modifies this`ready, palette, regs
      ensures forall i :: 0 <= i < SIZE ==> palette[i] == BufAfter(old(regs[i]), old(palette[i]), landed[i])
      ensures forall i :: 0 <= i < SIZE ==> regs[i] == HwAfter(old(regs[i]), old(palette[i]), landed[i])
      ensures ready <==> exists i :: 0 <= i < SIZE && palette[i] != CLEAR
    {
      ready := false;
      for i := 0 to SIZE
        invariant forall j :: 0 <= j < i ==> palette[j] == BufAfter(old(regs[j]), old(palette[j]), landed[j])
        invariant forall j :: 0 <= j < i ==> regs[j] == HwAfter(old(regs[j]), old(palette[j]), landed[j])
        invariant forall j :: i <= j < SIZE ==> palette[j] == old(palette[j]) && regs[j] == old(regs[j])
        invariant ready <==> exists j :: 0 <= j < i && palette[j] != CLEAR
      {
        var ent := palette[i];
        if ent == CLEAR { continue; }
        if landed[i] { regs[i] := ent % 0x1_0000; }
        if regs[i] == ent {
          palette[i] := CLEAR;
        } else {
          ready := true;
        }
      }
    }

    /** lcd_fb_irq() for a frame interrupt. */
    method Irq(landed: seq<bool>)
      requires Valid() && !masked && |landed| == SIZE
      modifies this`ready, palette, regs
      ensures Valid() && Do(old(State()), Frame(landed)) == Some(State())
    {
      ghost var s := State();
      if ready {
        WritePalette(landed);
        var t := Do(s, Frame(landed)).value;
        assert palette[..] == t.buf;
        assert regs[..] == t.hw;
        assert ready == t.ready;
      }
      StepInv(s, Frame(landed));
    }

    /** Any number of frame interrupts, if they are enabled. */
    method Frames()
      requires Valid()
      modifies this`ready, palette, regs
      ensures Valid()
    {
      var n: nat := *;
      while n > 0 && !masked
        invariant Valid()
        decreases n
      {
        var landed: seq<bool> := *;
        if |landed| == SIZE { Irq(landed); }
        n := n - 1;
      }
    }

    method SchedulePaletteUpdate(regno: nat, val: int)
      requires Valid() && busy == Some((regno, val))
      modifies this, palette
      ensures Valid() && busy == None && Do(old(State()), Schedule) == Some(State())
    {
      ghost var s := State();
      StepInv(s, Schedule);
      palette[regno] := val;
      if !ready {
        ready := true;
        masked := false;
      }
      last, busy := last[regno := val], None;
    }

    method ChanFields(fs: Fields, red: Word, green: Word, blue: Word) returns (val: Word)
      ensures val == TrueValue(fs, red, green, blue)
    {
      hide Top, Shl, BitOr;
      val := ChanToField(red, fs.red);
      val := BitOr(val, ChanToField(green, fs.green));
      val := BitOr(val, ChanToField(blue, fs.blue));
    }

    /** my2440fb_setcolreg(); frame interrupts may come between any two steps. */
    method SetColReg(visual: Visual, regno: nat, red: Word, green: Word, blue: Word) returns (rc: int)
      requires Valid() && busy == None
      modifies this, palette, regs, pseudo
      ensures Valid() && busy == None
      ensures rc == if visual.Mono? then 1 else 0
      ensures last == if visual.PseudoColor? && regno < SIZE then old(last)[regno := Rgb565(red as nat, green as nat, blue as nat)] else old(last)
      ensures forall i :: 0 <= i < 16 ==> pseudo[i] == if visual.TrueColor? && regno == i then TrueValue(FieldsOf(visual.format), red, green, blue) else old(pseudo[i])
    {
      hide Top, Inv, Rgb565, TrueValue, FieldsOf;
      rc := 0;
      match visual {
        case TrueColor(format) =>
          if regno < 16 {
            var val := ChanFields(FieldsOf(format), red, green, blue);
            pseudo[regno] := val;
          }
        case PseudoColor =>
          if regno < SIZE {
            var val := Rgb565(red as nat, green as nat, blue as nat);
            Rgb565Fields(red as nat, green as nat, blue as nat);
            var landed: bool := *;
            ghost var s := State();
            if landed { regs[regno] := val % 0x1_0000; }
            busy := Some((regno, val));
            assert regs[..] == s.hw[regno := Written(s.hw[regno], val, landed)];
            StepInv(s, Write(regno, val, landed));
            Frames();
            SchedulePaletteUpdate(regno, val);
          }
        case Mono =>
          rc := 1;
      }
    }
  }
}
