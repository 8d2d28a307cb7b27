/** Formats read by eye: text stands for itself, parts of a format print one after the
    other, and what a conversion prints is told by the characters it is written with. */
module FmtFields {
  import opened Thumb
  import opened Fmt

  // ---- one conversion, as it is written ----------------------------------------------------

  predicate IsFlags(s: string) {
    forall i :: 0 <= i < |s| ==> s[i] == '-' || s[i] == '0'
  }

  /** Digits that are no flags: a zero in front would be one. */
  predicate IsWidth(s: string) {
    (forall i :: 0 <= i < |s| ==> '0' <= s[i] <= '9') && (s != [] ==> s[0] != '0')
  }

  function LengthOf(s: string): Mod
    requires s in {"", "l", "ll", "z"}
  {
    if s == "l" then Long else if s == "ll" then LongLong else if s == "z" then Size else Plain
  }

  /** The letter is not taken for more of what stands before it. */
  predicate Stands(width: string, length: string, letter: char) {
    && (length == "" ==> letter != 'l' && letter != 'z' && !('0' <= letter <= '9') && (width == "" ==> letter != '-'))
    && (length == "l" ==> letter != 'l')
  }

  predicate Written(flags: string, width: string, length: string, letter: char) {
    IsFlags(flags) && IsWidth(width) && length in {"", "l", "ll", "z"} && Stands(width, length, letter)
  }

  function Spec(flags: string, width: string, length: string, letter: char): string {
    "%" + flags + width + length + [letter]
  }

  lemma {:induction false} FlagsRead(f: string, p: nat, n: nat)
    requires p + n < |f| && (forall i :: p <= i < p + n ==>
      f[i] == '-' || f[i] == '0') && f[p + n] != '-' && f[p + n] != '0'
    ensures FlagsEnd(f, p) == p + n
    decreases n
  {
    if n > 0 {
      FlagsRead(f, p + 1, n - 1);
    }
  }

  lemma {:induction false} WidthRead(f: string, p: nat, n: nat)
    requires p + n < |f| && (forall i :: p <= i < p + n ==> '0' <= f[i] <= '9') && !('0' <= f[p + n] <= '9')
    ensures WidthEnd(f, p) == p + n
    decreases n
  {
    if n > 0 {
      WidthRead(f, p + 1, n - 1);
    }
  }

  lemma SpecAt(flags: string, width: string, length: string, letter: char)
    ensures var f := Spec(flags, width, length, letter);
      && |f| == 2 + |flags| + |width| + |length|
      && f[1..1 + |flags|] == flags && f[1 + |flags|..1 + |flags| + |width|] == width
      && f[1 + |flags| + |width|..|f| - 1] == length && f[|f| - 1] == letter
      && (forall i :: 0 <= i < |flags| ==> f[1 + i] == flags[i])
      && (forall i :: 0 <= i < |width| ==> f[1 + |flags| + i] == width[i])
      && (forall i :: 0 <= i < |length| ==> f[1 + |flags| + |width| + i] == length[i])
  {
  }

  lemma LengthRead(f: string, b: nat, length: string, letter: char)
    requires |f| == b + |length| + 1 && f[b + |length|] == letter && length in {"", "l", "ll", "z"}
    requires forall i :: 0 <= i < |length| ==> f[b + i] == length[i]
    requires (length == "" ==> letter != 'l' && letter != 'z') && (length == "l" ==> letter != 'l')
    ensures ModAt(f, b) == (LengthOf(length), b + |length|)
  {
    assert length != "" ==> f[b + 0] == length[0];
    assert length == "ll" ==> f[b + 1] == length[1];
  }

  lemma FlagsOfSpec(f: string, flags: string, next: char)
    requires |f| > 1 + |flags| && IsFlags(flags) && f[1 + |flags|] == next && next != '-' && next != '0'
    requires forall i :: 0 <= i < |flags| ==> f[1 + i] == flags[i]
    ensures FlagsEnd(f, 1) == 1 + |flags|
  {
    forall i | 1 <= i < 1 + |flags|
      ensures f[i] == '-' || f[i] == '0'
    {
      assert f[1 + (i - 1)] == flags[i - 1];
    }
    FlagsRead(f, 1, |flags|);
  }

  lemma WidthOfSpec(f: string, a: nat, width: string, next: char)
    requires |f| > a + |width| && IsWidth(width) && f[a + |width|] == next && !('0' <= next <= '9')
    requires forall i :: 0 <= i < |width| ==> f[a + i] == width[i]
    ensures WidthEnd(f, a) == a + |width|
  {
    forall i | a <= i < a + |width|
      ensures '0' <= f[i] <= '9'
    {
      assert f[a + (i - a)] == width[i - a];
    }
    WidthRead(f, a, |width|);
  }

  /** A conversion is read as it is written. */
  lemma SpecRead(flags: string, width: string, length: string, letter: char)
    requires Written(flags, width, length, letter)
    ensures var f := Spec(flags, width, length, letter);
      ConvAt(f, 1) == (Conv('-' in flags, '0' in flags, Min(Value(width, 10), CAP), LengthOf(length), letter), |f|)
  {
    var f, a, b := Spec(flags, width, length, letter), 1 + |flags|, 1 + |flags| + |width|;
    SpecAt(flags, width, length, letter);
    hide Value, FlagsEnd, WidthEnd, Spec, IsFlags, ModAt;
    assert length != "" ==> f[b + 0] == length[0];
    assert f[b] == if length == "" then letter else length[0];
    assert width != "" ==> f[a + 0] == width[0];
    FlagsOfSpec(f, flags, f[a]);
    WidthOfSpec(f, a, width, f[b]);
    LengthRead(f, b, length, letter);
  }

  // ---- what a number prints ----------------------------------------------------------------------

  function Chars(n: nat, c: char): string {
    seq(n, _ => c)
  }

  lemma {:induction false} FillIs(c: char, n: nat)
    ensures Fill(c, n) == Chars(n, c)
  {
  }

  /** The digits a numeral is written with. */
  function DigitSet(base: nat, upper: bool): string {
    if base == 10 then "0123456789" else if upper then "0123456789ABCDEF" else "0123456789abcdef"
  }

  /** s spells v: in the base's own digits, without a zero in front of others. */
  predicate Spells(s: string, base: nat, upper: bool, v: nat) {
    && s != [] && (forall i :: 0 <= i < |s| ==> s[i] in DigitSet(base, upper)) && (|s| > 1 ==> s[0] != '0')
    && Value(s, base) == v
  }

  lemma DigitIn(d: nat, base: nat, upper: bool)
    requires (base == 10 || base == 16) && d < base
    ensures Digit(d, upper) in DigitSet(base, upper)
  {
    assert base == 10 ==> Digit(d, upper) == DigitSet(base, upper)[d];
    assert base == 16 ==> Digit(d, upper) == DigitSet(base, upper)[d];
  }

  lemma {:induction false} DigitsIn(mag: nat, base: nat, upper: bool)
    requires base == 10 || base == 16
    ensures forall i :: 0 <= i < |Digits(mag, base, upper)| ==> Digits(mag, base, upper)[i] in DigitSet(base, upper)
    ensures mag == 0 ==> |Digits(mag, base, upper)| == 1
    decreases mag
  {
    hide Digit, DigitSet, Quot, Rem;
    DigitIn(Rem(mag, base), base, upper);
    if mag >= base {
      DigitsIn(Quot(mag, base), base, upper);
    }
  }

  lemma NumeralSpells(mag: nat, base: nat, upper: bool)
    requires base == 10 || base == 16
    ensures Spells(Digits(mag, base, upper), base, upper, mag)
  {
    hide Digits, DigitSet, Value;
    DigitsIn(mag, base, upper);
    DigitsBack(mag, base, upper);
    DigitsOnly(mag, base, upper);
  }

  /** A bit pattern as a signed number: the same modulo its width, and in range. */
  lemma SignedExact(a: Arg)
    requires !a.Text?
    ensures a.Narrow? ==> (Signed(a) - a.n) % 0x1_0000_0000 == 0 && -0x8000_0000 <= Signed(a) < 0x8000_0000
    ensures a.Wide? ==> (Signed(a) - a.w) % 0x1_0000_0000_0000_0000 == 0
  {
  }

  /** What is left of the width for filling. */
  function Room(width: string, natural: nat): nat {
    var w := if Value(width, 10) < 4096 then Value(width, 10) else 4096;
    if w > natural then w - natural else 0
  }

  function BaseOf(letter: char): nat {
    if letter in "diu" then 10 else 16
  }

  /** The number a conversion prints, and what stands before its digits. */
  function Shown(letter: char, a: Arg): int
    requires !a.Text?
  {
    if letter in "di" then Signed(a) else Unsigned(a)
  }

  function SignOf(letter: char, a: Arg): string
    requires !a.Text?
  {
    if letter == 'p' then "0x" else if Shown(letter, a) < 0 then "-" else ""
  }

  lemma Alone(f: string, i: Item, args: seq<Arg>)
    requires f != [] && f[0] == '%' && ConvAt(f, 1) == (i, |f|)
    requires if TakesArg(i) then |args| == 1 && Suits(i, args[0]) else args == []
    ensures ArgsFit(Items(f, 0), args)
    ensures Formatted(f, args) == if TakesArg(i) then FieldText(i, args[0]) else BareText(i)
  {
    hide ConvAt, FieldText, BareText, TakesArg, Suits;
    assert Items(f, |f|) == [];
    assert Items(f, 0) == [i] && [i][1..] == [];
    assert Rendered([], []) == [];
    assert TakesArg(i) ==> args[1..] == [];
  }

  lemma NumberText(i: Item, a: Arg, digits: string)
    requires TakesArg(i) && i.conv != 'c' && i.conv != 's' && Suits(i, a)
    requires digits == Digits(Magnitude(Shown(i.conv, a)), BaseOf(i.conv), i.conv == 'X')
    ensures FieldText(i, a) == Padded(SignOf(i.conv, a), digits, i.width, i.zero, i.left)
  {
    hide Digits, Padded, Signed;
  }

  /** A number: spelt in digits of its base, small for `%x` and `%p` and capital for `%X`;
      with a '-' among the flags the filling is spaces at the end, with a '0' and no '-'
      zeros behind the sign, else spaces in front. */
  lemma NumberPrints(flags: string, width: string, length: string, letter: char, a: Arg) returns (digits: string)
    requires Written(flags, width, length, letter) && letter in "diuxXp"
    requires if length == "ll" && letter != 'p' then a.Wide? else a.Narrow?
    ensures Spells(digits, BaseOf(letter), letter == 'X', Magnitude(Shown(letter, a)))
    ensures var f, sign := Spec(flags, width, length, letter), SignOf(letter, a);
      var room := Room(width, |sign| + |digits|);
      && ArgsFit(Items(f, 0), [a])
      && Formatted(f, [a]) ==
        if '-' in flags then sign + digits + Chars(room, ' ')
        else if '0' in flags then sign + Chars(room, '0') + digits
        else Chars(room, ' ') + sign + digits
  {
    hide Spells, Value, ConvAt, Items, FieldText, Digits, Signed, Formatted, ArgsFit, Fill, FlagsEnd, WidthEnd;
    var i := Conv('-' in flags, '0' in flags, Min(Value(width, 10), CAP), LengthOf(length), letter);
    digits := Digits(Magnitude(Shown(letter, a)), BaseOf(letter), letter == 'X');
    NumeralSpells(Magnitude(Shown(letter, a)), BaseOf(letter), letter == 'X');
    SpecRead(flags, width, length, letter);
    Alone(Spec(flags, width, length, letter), i, [a]);
    NumberText(i, a, digits);
    var room := Room(width, |SignOf(letter, a)| + |digits|);
    FillIs(' ', room);
    FillIs('0', room);
  }

  function TextOf(letter: char, a: Arg): string
    requires if letter == 'c' then a.Narrow? else a.Text?
  {
    if letter == 'c' then [(a.n % 256) as char] else if a.s.None? then "(null)" else a.s.value
  }

  lemma TextField(i: Item, a: Arg)
    requires TakesArg(i) && (i.conv == 'c' || i.conv == 's') && Suits(i, a)
    ensures FieldText(i, a) == Padded("", TextOf(i.conv, a), i.width, false, i.left)
  {
    hide Padded;
  }

  lemma PaddedText(text: string, width: nat, left: bool, room: nat)
    requires room == if width > |text| then width - |text| else 0
    ensures Padded("", text, width, false, left) == if left then text + Chars(room, ' ') else Chars(room, ' ') + text
  {
    FillIs(' ', room);
    assert "" + text == text && Chars(room, ' ') + "" == Chars(room, ' ');
  }

  /** A character or a string: spaces at the end with a '-' among the flags, else in front;
      a '0' changes nothing. */
  lemma TextPrints(flags: string, width: string, length: string, letter: char, a: Arg)
    requires Written(flags, width, length, letter) && letter in "cs" && (if letter == 's' then a.Text? else a.Narrow?)
    ensures var f := Spec(flags, width, length, letter);
      var text := TextOf(letter, a);
      var room := Room(width, |text|);
      && ArgsFit(Items(f, 0), [a])
      && Formatted(f, [a]) == if '-' in flags then text + Chars(room, ' ') else Chars(room, ' ') + text
  {
    hide Value, ConvAt, Items, Formatted, ArgsFit, FieldText, Padded, TextOf, Spec, Written, Chars;
    SpecStarts(flags, width, length, letter);
    var i := Conv('-' in flags, '0' in flags, Min(Value(width, 10), CAP), LengthOf(length), letter);
    SpecRead(flags, width, length, letter);
    SpecAt(flags, width, length, letter);
    Alone(Spec(flags, width, length, letter), i, [a]);
    TextField(i, a);
    PaddedText(TextOf(letter, a), i.width, i.left, Room(width, |TextOf(letter, a)|));
  }

  lemma SpecStarts(flags: string, width: string, length: string, letter: char)
    requires Written(flags, width, length, letter)
    ensures Spec(flags, width, length, letter)[0] == '%' && length in {"", "l", "ll", "z"}
  {
  }

  /** Any other letter takes no argument: a percent sign, and the letter behind it unless
      it is one itself. */
  lemma OtherPrints(flags: string, width: string, length: string, letter: char)
    requires Written(flags, width, length, letter) && letter !in "csdiuxXp"
    ensures var f := Spec(flags, width, length, letter);
      ArgsFit(Items(f, 0), []) && Formatted(f, []) == if letter == '%' then "%" else ['%', letter]
  {
    hide Value, ConvAt, Items, Formatted, ArgsFit, FlagsEnd, WidthEnd;
    var i := Conv('-' in flags, '0' in flags, Min(Value(width, 10), CAP), LengthOf(length), letter);
    SpecRead(flags, width, length, letter);
    Alone(Spec(flags, width, length, letter), i, []);
  }

  // ---- the parts of a format ---------------------------------------------------------------------

  /** A format that does not end within a conversion. */
  predicate Whole(f: string) {
    Lone !in Items(f, 0)
  }

  lemma {:induction false} FlagsFurther(f: string, g: string, p: nat)
    requires p <= |f| && FlagsEnd(f, p) < |f|
    ensures FlagsEnd(f + g, p) == FlagsEnd(f, p)
    decreases |f| - p
  {
    assert p < |f| && (f + g)[p] == f[p];
    if f[p] == '-' || f[p] == '0' {
      FlagsFurther(f, g, p + 1);
    }
  }

  lemma {:induction false} WidthFurther(f: string, g: string, p: nat)
    requires p <= |f| && WidthEnd(f, p) < |f|
    ensures WidthEnd(f + g, p) == WidthEnd(f, p)
    decreases |f| - p
  {
    assert p < |f| && (f + g)[p] == f[p];
    if '0' <= f[p] <= '9' {
      WidthFurther(f, g, p + 1);
    }
  }

  lemma ModFurther(f: string, g: string, p: nat)
    requires p <= |f| && ModAt(f, p).1 < |f|
    ensures ModAt(f + g, p) == ModAt(f, p)
  {
    assert forall k :: 0 <= k < |f| ==> (f + g)[k] == f[k];
  }

  /** What follows a whole conversion does not change it. */
  lemma ConvFurther(f: string, g: string, p: nat)
    requires p <= |f| && ConvAt(f, p).0 != Lone
    ensures ConvAt(f + g, p) == ConvAt(f, p)
  {
    hide FlagsEnd, WidthEnd, Value, ModAt;
    var q := FlagsEnd(f, p);
    var w := WidthEnd(f, q);
    var (mod, c) := ModAt(f, w);
    assert c < |f|;
    FlagsFurther(f, g, p);
    WidthFurther(f, g, q);
    ModFurther(f, g, w);
    assert (f + g)[p..q] == f[p..q] && (f + g)[q..w] == f[q..w] && (f + g)[c] == f[c];
  }

  lemma {:induction false} FlagsShift(f: string, g: string, p: nat)
    requires p <= |g|
    ensures FlagsEnd(f + g, |f| + p) == |f| + FlagsEnd(g, p)
    decreases |g| - p
  {
    if p < |g| {
      assert (f + g)[|f| + p] == g[p];
      if g[p] == '-' || g[p] == '0' {
        FlagsShift(f, g, p + 1);
      }
    }
  }

  lemma {:induction false} WidthShift(f: string, g: string, p: nat)
    requires p <= |g|
    ensures WidthEnd(f + g, |f| + p) == |f| + WidthEnd(g, p)
    decreases |g| - p
  {
    if p < |g| {
      assert (f + g)[|f| + p] == g[p];
      if '0' <= g[p] <= '9' {
        WidthShift(f, g, p + 1);
      }
    }
  }

  lemma ModShift(f: string, g: string, p: nat)
    requires p <= |g|
    ensures ModAt(f + g, |f| + p) == (ModAt(g, p).0, |f| + ModAt(g, p).1)
  {
    assert p < |g| ==> (f + g)[|f| + p] == g[p];
    assert p + 1 < |g| ==> (f + g)[|f| + p + 1] == g[p + 1];
  }

  lemma ConvShift(f: string, g: string, p: nat)
    requires p <= |g|
    ensures ConvAt(f + g, |f| + p) == (ConvAt(g, p).0, |f| + ConvAt(g, p).1)
  {
    hide FlagsEnd, WidthEnd, Value, ModAt;
    var q := FlagsEnd(g, p);
    var w := WidthEnd(g, q);
    var c := ModAt(g, w).1;
    FlagsShift(f, g, p);
    WidthShift(f, g, q);
    ModShift(f, g, w);
    assert (f + g)[|f| + p..|f| + q] == g[p..q] && (f + g)[|f| + q..|f| + w] == g[q..w];
    assert c < |g| ==> (f + g)[|f| + c] == g[c];
  }

  lemma ItemsStep(f: string, p: nat)
    requires p < |f|
    ensures f[p] != '%' ==> Items(f, p) == [Literal(f[p])] + Items(f, p + 1)
    ensures f[p] == '%' ==> Items(f, p) == [ConvAt(f, p + 1).0] + Items(f, ConvAt(f, p + 1).1)
  {
    hide ConvAt;
  }

  lemma ItemsDone(f: string)
    ensures Items(f, |f|) == []
  {
  }

  lemma {:induction false} ItemsShift(f: string, g: string, p: nat)
    requires p <= |g|
    ensures Items(f + g, |f| + p) == Items(g, p)
    decreases |g| - p
  {
    hide ConvAt, Items;
    if p < |g| {
      assert (f + g)[|f| + p] == g[p];
      ItemsStep(f + g, |f| + p);
      ItemsStep(g, p);
      if g[p] != '%' {
        ItemsShift(f, g, p + 1);
      } else {
        ConvShift(f, g, p + 1);
        ItemsShift(f, g, ConvAt(g, p + 1).1);
      }
    } else {
      ItemsDone(f + g);
      ItemsDone(g);
    }
  }

  lemma Prefixed(i: Item, x: seq<Item>, y: seq<Item>)
    ensures [i] + (x + y) == [i] + x + y
    ensures Lone !in [i] + x ==> i != Lone && Lone !in x
  {
    assert ([i] + x)[0] == i && forall k :: 0 <= k < |x| ==> ([i] + x)[k + 1] == x[k];
    if Lone in x {
      var k :| 0 <= k < |x| && x[k] == Lone;
      assert ([i] + x)[k + 1] == Lone;
    }
  }

  lemma {:induction false} ItemsJoin(f: string, g: string, p: nat)
    requires p <= |f| && Lone !in Items(f, p)
    ensures Items(f + g, p) == Items(f, p) + Items(g, 0)
    decreases |f| - p
  {
    hide ConvAt, Items;
    if p == |f| {
      ItemsShift(f, g, 0);
      ItemsDone(f);
      assert Items(f, p) + Items(g, 0) == Items(g, 0);
    } else {
      assert (f + g)[p] == f[p];
      ItemsStep(f, p);
      ItemsStep(f + g, p);
      if f[p] != '%' {
        Prefixed(Literal(f[p]), Items(f, p + 1), Items(g, 0));
        ItemsJoin(f, g, p + 1);
      } else {
        var (i, next) := ConvAt(f, p + 1);
        Prefixed(i, Items(f, next), Items(g, 0));
        ConvFurther(f, g, p + 1);
        ItemsJoin(f, g, next);
      }
    }
  }

  /** How many arguments some items take. */
  function Takes(items: seq<Item>): nat {
    if items == [] then 0 else (if TakesArg(items[0]) then 1 else 0) + Takes(items[1..])
  }

  lemma {:induction false} RenderedJoin(x: seq<Item>, y: seq<Item>, xs: seq<Arg>, ys: seq<Arg>)
    requires ArgsFit(x, xs) && |xs| == Takes(x) && ArgsFit(y, ys)
    ensures ArgsFit(x + y, xs + ys) && Rendered(x + y, xs + ys) == Rendered(x, xs) + Rendered(y, ys)
    decreases |x|
  {
    hide TakesArg, Suits, FieldText, BareText;
    if x == [] {
      assert x + y == y && xs + ys == ys;
    } else {
      assert (x + y)[1..] == x[1..] + y;
      if TakesArg(x[0]) {
        assert (xs + ys)[1..] == xs[1..] + ys;
        RenderedJoin(x[1..], y, xs[1..], ys);
        Associative(FieldText(x[0], xs[0]), Rendered(x[1..], xs[1..]), Rendered(y, ys));
      } else {
        RenderedJoin(x[1..], y, xs, ys);
        Associative(BareText(x[0]), Rendered(x[1..], xs), Rendered(y, ys));
      }
    }
  }

  lemma Associative(a: string, b: string, c: string)
    ensures a + (b + c) == a + b + c
  {
  }

  /** A format in two parts prints the one and then the other, each with its own arguments. */
  lemma PartsJoin(f: string, g: string, xs: seq<Arg>, ys: seq<Arg>)
    requires Whole(f) && ArgsFit(Items(f, 0), xs) && |xs| == Takes(Items(f, 0)) && ArgsFit(Items(g, 0), ys)
    ensures ArgsFit(Items(f + g, 0), xs + ys) && Formatted(f + g, xs + ys) == Formatted(f, xs) + Formatted(g, ys)
  {
    hide Items, ArgsFit, Rendered, Takes;
    ItemsJoin(f, g, 0);
    RenderedJoin(Items(f, 0), Items(g, 0), xs, ys);
  }

  lemma {:induction false} TextItems(f: string, p: nat)
    requires p <= |f| && forall i :: p <= i < |f| ==> f[i] != '%'
    ensures Lone !in Items(f, p) && ArgsFit(Items(f, p), []) && Takes(Items(f, p)) == 0
      && Rendered(Items(f, p), []) == f[p..]
    decreases |f| - p
  {
    hide ConvAt;
    if p < |f| {
      TextItems(f, p + 1);
      assert Items(f, p)[1..] == Items(f, p + 1);
      assert [f[p]] + f[p + 1..] == f[p..];
    }
  }

  /** Text without a percent sign stands for itself. */
  lemma TextIsItself(f: string)
    requires '%' !in f
    ensures Whole(f) && ArgsFit(Items(f, 0), []) && Takes(Items(f, 0)) == 0 && Formatted(f, []) == f
  {
    hide Items, ArgsFit, Rendered, Takes;
    TextItems(f, 0);
  }

  /** A conversion is a whole format and takes its own arguments. */
  lemma SpecWhole(flags: string, width: string, length: string, letter: char)
    requires Written(flags, width, length, letter)
    ensures var f := Spec(flags, width, length, letter);
      Whole(f) && Takes(Items(f, 0)) == if letter in "csdiuxXp" then 1 else 0
  {
    hide Value, ConvAt, FlagsEnd, WidthEnd;
    SpecRead(flags, width, length, letter);
    var f := Spec(flags, width, length, letter);
    var i := ConvAt(f, 1).0;
    assert Items(f, |f|) == [];
    assert Items(f, 0) == [i] && [i][1..] == [];
  }

  /** A percent sign with nothing, or with no letter, behind it is one. */
  lemma LonePercent(flags: string)
    requires IsFlags(flags)
    ensures var f := "%" + flags; ArgsFit(Items(f, 0), []) && Formatted(f, []) == "%"
  {
    var f := "%" + flags;
    FlagsToEnd(f, 1);
    assert Items(f, |f|) == [] && Items(f, 0) == [Lone] && [Lone][1..] == [];
    assert Rendered([Lone], []) == "%" + Rendered([], []);
  }

  lemma {:induction false} FlagsToEnd(f: string, p: nat)
    requires p <= |f| && forall i :: p <= i < |f| ==> f[i] == '-' || f[i] == '0'
    ensures FlagsEnd(f, p) == |f|
    decreases |f| - p
  {
    if p < |f| {
      FlagsToEnd(f, p + 1);
    }
  }
}
