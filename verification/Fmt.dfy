/** The printf formatter: one pass over the format string, one character at a time into a
    sink, and a fixed buffer as one such sink. */
module Fmt {
  import opened Thumb

  type Bits32 = n: int | 0 <= n < 0x1_0000_0000 witness 0

  type Bits64 = n: int | 0 <= n < 0x1_0000_0000_0000_0000 witness 0

  /** What the caller passes where int, long, size_t and pointers are 32 bits wide: the bits,
      or a string that may be null. */
  datatype Arg = Narrow(n: Bits32) | Wide(w: Bits64) | Text(s: Option<string>)

  datatype Mod = Plain | Long | LongLong | Size

  /** A character, a conversion, or a percent sign with no conversion behind it. */
  datatype Item =
    | Literal(ch: char)
    | Conv(left: bool, zero: bool, width: nat, mod: Mod, conv: char)
    | Lone

  const CAP: nat := 4096

  function Min(a: nat, b: nat): nat {
    if a < b then a else b
  }

  // ---- digits ----------------------------------------------------------------------------------

  function Digit(d: nat, upper: bool): char
    requires d < 16
  {
    if upper then "0123456789ABCDEF"[d] else "0123456789abcdef"[d]
  }

  function DigitValue(c: char): nat {
    if '0' <= c <= '9' then (c - '0') as nat
    else if 'a' <= c <= 'f' then (c - 'a') as nat + 10
    else if 'A' <= c <= 'F' then (c - 'A') as nat + 10
    else 0
  }

  /** mag / base and mag % base, so that the proofs need no division. */
  function Quot(mag: nat, base: nat): (q: nat)
    requires base >= 10
    ensures mag >= base ==> 0 < q < mag
    ensures mag < base ==> q == 0
  {
    mag / base
  }

  function Rem(mag: nat, base: nat): (r: nat)
    requires base >= 10
    ensures r < base && (mag < base ==> r == mag)
  {
    mag % base
  }

  /** The numeral of mag, highest digit first. */
  function Digits(mag: nat, base: nat, upper: bool): (s: string)
    requires 10 <= base <= 16
    ensures s != []
  {
    if mag < base then [Digit(mag, upper)] else Digits(Quot(mag, base), base, upper) + [Digit(Rem(mag, base), upper)]
  }

  /** Reading a numeral. */
  function Value(s: string, base: nat): nat {
    if s == [] then 0 else Shift(Value(s[..|s| - 1], base), base, DigitValue(s[|s| - 1]))
  }

  function Shift(v: nat, base: nat, d: nat): nat {
    v * base + d
  }

  lemma DivBack(mag: nat, base: nat)
    requires base >= 10
    ensures Shift(Quot(mag, base), base, Rem(mag, base)) == mag
  {
  }

  lemma DigitBack(d: nat, upper: bool)
    requires d < 16
    ensures DigitValue(Digit(d, upper)) == d && IsDigit(Digit(d, upper)) && (d != 0 ==> Digit(d, upper) != '0')
  {
  }

  predicate IsDigit(c: char) {
    '0' <= c <= '9' || 'a' <= c <= 'f' || 'A' <= c <= 'F'
  }

  /** A numeral reads back. */
  lemma {:induction false} DigitsBack(mag: nat, base: nat, upper: bool)
    requires 10 <= base <= 16
    ensures Value(Digits(mag, base, upper), base) == mag
  {
    hide Digit, DigitValue, IsDigit, Shift, Quot, Rem;
    DigitBack(Rem(mag, base), upper);
    DivBack(mag, base);
    var s := Digits(mag, base, upper);
    if mag < base {
      assert s[..0] == [] && Rem(mag, base) == mag && Quot(mag, base) == 0;
    } else {
      DigitsBack(Quot(mag, base), base, upper);
      assert s[..|s| - 1] == Digits(Quot(mag, base), base, upper);
    }
  }

  /** It is made of digits and has no zero in front but in "0". */
  lemma {:induction false} DigitsOnly(mag: nat, base: nat, upper: bool)
    requires 10 <= base <= 16
    ensures forall k :: 0 <= k < |Digits(mag, base, upper)| ==> IsDigit(Digits(mag, base, upper)[k])
    ensures mag != 0 ==> Digits(mag, base, upper)[0] != '0'
  {
    hide Digit, IsDigit, Quot, Rem;
    if mag < base {
      DigitBack(mag, upper);
    } else {
      DigitBack(Rem(mag, base), upper);
      DigitsOnly(Quot(mag, base), base, upper);
    }
  }

  function Pow10(k: nat): nat {
    if k == 0 then 1 else 10 * Pow10(k - 1)
  }

  lemma {:induction false} FewDigits(mag: nat, base: nat, upper: bool, k: nat)
    requires 10 <= base <= 16 && k > 0 && mag < Pow10(k)
    ensures |Digits(mag, base, upper)| <= k
    decreases k
  {
    if mag >= base {
      assert k > 1;
      FewDigits(Quot(mag, base), base, upper, k - 1);
    }
  }

  /** Twenty characters hold every 64-bit number. */
  lemma TwentyEnough(mag: Bits64, base: nat, upper: bool)
    requires 10 <= base <= 16
    ensures |Digits(mag, base, upper)| <= 20
  {
    assert Pow10(5) == 100000;
    assert Pow10(10) == 10000000000;
    assert Pow10(15) == 1000000000000000;
    assert Pow10(20) == 100000000000000000000;
    FewDigits(mag, base, upper, 20);
  }

  /** The digits, the lowest first. */
  method LowestFirst(mag: Bits64, base: nat, upper: bool) returns (tmp: array<char>, n: nat)
    requires base == 10 || base == 16
    ensures fresh(tmp) && tmp.Length == 20 && n == |Digits(mag, base, upper)| <= 20
    ensures forall j :: 0 <= j < n ==> tmp[j] == Digits(mag, base, upper)[n - 1 - j]
  {
    hide Digit, Quot, Rem;
    TwentyEnough(mag, base, upper);
    ghost var all := Digits(mag, base, upper);
    tmp := new char[20];
    var m: nat := mag;
    n := 0;
    assert all[..|all|] == all;
    while true
      invariant n < |all| && all[..|all| - n] == Digits(m, base, upper)
      invariant forall j :: 0 <= j < n ==> tmp[j] == all[|all| - 1 - j]
      decreases |all| - n
    {
      assert all[|all| - n - 1] == all[..|all| - n][|all| - n - 1];
      assert Quot(m, base) != 0 ==> Digits(m, base, upper)[..|all| - n - 1] == Digits(Quot(m, base), base, upper);
      assert all[..|all| - n - 1] == all[..|all| - n][..|all| - n - 1];
      tmp[n] := Digit(Rem(m, base), upper);
      n := n + 1;
      m := Quot(m, base);
      if m == 0 {
        break;
      }
    }
  }

  /** The digits in a scratch array, then turned round. */
  method Utoa(mag: Bits64, base: nat, upper: bool, buf: array<char>) returns (n: nat)
    requires (base == 10 || base == 16) && buf.Length >= 20
    modifies buf
    ensures n <= 20 && buf[..n] == Digits(mag, base, upper) && buf[n..] == old(buf[n..])
  {
    var tmp;
    tmp, n := LowestFirst(mag, base, upper);
    ghost var all := Digits(mag, base, upper);
    for i := 0 to n
      invariant forall j :: 0 <= j < n ==> tmp[j] == all[n - 1 - j]
      invariant forall j :: 0 <= j < i ==> buf[j] == all[j]
      invariant forall j :: i <= j < buf.Length ==> buf[j] == old(buf[j])
    {
      buf[i] := tmp[n - 1 - i];
    }
  }

  // ---- padding ----------------------------------------------------------------------------------

  function Fill(c: char, n: nat): (s: string)
    ensures |s| == n && forall k :: 0 <= k < n ==> s[k] == c
  {
    if n == 0 then [] else Fill(c, n - 1) + [c]
  }

  /** Prefix and body in a field of the given width. */
  function Padded(prefix: string, body: string, width: int, zero: bool, left: bool): string {
    var total := |prefix| + |body|;
    var pad := if width > total then width - total else 0;
    if left then prefix + body + Fill(' ', pad)
    else if zero then prefix + Fill('0', pad) + body
    else Fill(' ', pad) + prefix + body
  }

  /** The field is as wide as asked or as its text needs. */
  lemma FieldWidth(prefix: string, body: string, width: int, zero: bool, left: bool)
    ensures var natural := |prefix| + |body|;
      |Padded(prefix, body, width, zero, left)| == (if width > natural then width else natural)
  {
  }

  function TrimFront(s: string): string {
    if s != [] && s[0] == ' ' then TrimFront(s[1..]) else s
  }

  function TrimBack(s: string): string {
    if s != [] && s[|s| - 1] == ' ' then TrimBack(s[..|s| - 1]) else s
  }

  /** A number as a reader takes it from its field: spaces off, sign or 0x off, digits. */
  function ReadNumber(s: string, base: nat): int {
    var t := TrimBack(TrimFront(s));
    if t != [] && t[0] == '-' then 0 - Value(t[1..], base)
    else if |t| >= 2 && t[0] == '0' && t[1] == 'x' then Value(t[2..], base)
    else Value(t, base)
  }

  lemma {:induction false} TrimmedFront(n: nat, t: string)
    requires t != [] && t[0] != ' '
    ensures TrimFront(Fill(' ', n) + t) == t
  {
    if n == 0 {
      assert Fill(' ', 0) + t == t;
    } else {
      assert (Fill(' ', n) + t)[1..] == Fill(' ', n - 1) + t by { Shorter(n); }
      TrimmedFront(n - 1, t);
    }
  }

  lemma Shorter(n: nat)
    requires n > 0
    ensures Fill(' ', n)[1..] == Fill(' ', n - 1)
  {
  }

  lemma {:induction false} TrimmedBack(n: nat, t: string)
    requires t != [] && t[|t| - 1] != ' '
    ensures TrimBack(t + Fill(' ', n)) == t
  {
    if n == 0 {
      assert t + Fill(' ', 0) == t;
    } else {
      assert (t + Fill(' ', n))[..|t| + n - 1] == t + Fill(' ', n - 1);
      TrimmedBack(n - 1, t);
    }
  }

  lemma {:induction false} ZerosInFront(n: nat, body: string, base: nat)
    ensures Value(Fill('0', n) + body, base) == Value(body, base)
    decreases n + |body|
  {
    var s := Fill('0', n) + body;
    if body != [] {
      assert s[..|s| - 1] == Fill('0', n) + body[..|body| - 1];
      ZerosInFront(n, body[..|body| - 1], base);
    } else if n > 0 {
      assert s[..|s| - 1] == Fill('0', n - 1) + [];
      ZerosInFront(n - 1, [], base);
    }
  }

  lemma TrimmedBoth(a: nat, t: string, b: nat)
    requires t != [] && t[0] != ' ' && t[|t| - 1] != ' '
    ensures TrimBack(TrimFront(Fill(' ', a) + (t + Fill(' ', b)))) == t
  {
    hide TrimFront, TrimBack;
    TrimmedFront(a, t + Fill(' ', b));
    TrimmedBack(b, t);
  }

  /** A field is its text between spaces; the zeros that fill it belong to the text. */
  lemma AsSpaced(prefix: string, body: string, width: int, zero: bool, left: bool, pad: nat, zeros: nat)
    requires pad == if width > |prefix| + |body| then width - |prefix| - |body| else 0
    requires zeros == if zero && !left then pad else 0
    ensures Padded(prefix, body, width, zero, left)
         == Fill(' ', if left || zero then 0 else pad) + ((prefix + (Fill('0', zeros) + body)) + Fill(' ', if left then pad else 0))
  {
    NoFill();
    hide Fill;
  }

  /** Taking the spaces off a field leaves the text, with the zeros that fill it. */
  lemma Stripped(prefix: string, body: string, width: int, zero: bool, left: bool, zeros: nat)
    requires body != [] && (prefix == "" || prefix == "-" || prefix == "0x") && forall k :: 0 <= k < |body| ==> IsDigit(body[k])
    requires zeros == if zero && !left && width > |prefix| + |body| then width - |prefix| - |body| else 0
    ensures TrimBack(TrimFront(Padded(prefix, body, width, zero, left))) == prefix + (Fill('0', zeros) + body)
  {
    hide Fill, TrimFront, TrimBack, IsDigit, Padded;
    var pad := if width > |prefix| + |body| then width - |prefix| - |body| else 0;
    Ends(prefix, zeros, body);
    AsSpaced(prefix, body, width, zero, left, pad, zeros);
    TrimmedBoth(if left || zero then 0 else pad, prefix + (Fill('0', zeros) + body), if left then pad else 0);
  }

  /** A number reads back from its field, whatever the width and the flags. */
  lemma NumberReadsBack(prefix: string, mag: nat, base: nat, upper: bool, width: int, zero: bool, left: bool)
    requires (base == 10 || base == 16) && (prefix == "" || prefix == "-" || prefix == "0x")
    ensures ReadNumber(Padded(prefix, Digits(mag, base, upper), width, zero, left), base)
         == if prefix == "-" then 0 - mag else mag
  {
    hide Digits, Value, Fill, TrimFront, TrimBack, IsDigit, Padded;
    var body := Digits(mag, base, upper);
    DigitsBack(mag, base, upper);
    DigitsOnly(mag, base, upper);
    var zeros := if zero && !left && width > |prefix| + |body| then width - |prefix| - |body| else 0;
    Stripped(prefix, body, width, zero, left, zeros);
    ZerosInFront(zeros, body, base);
    Ends(prefix, zeros, body);
    ReadText(prefix, Fill('0', zeros) + body, base);
  }

  lemma NoFill()
    ensures Fill(' ', 0) == [] && Fill('0', 0) == []
  {
  }

  lemma Ends(prefix: string, zeros: nat, body: string)
    requires body != [] && (prefix == "" || prefix == "-" || prefix == "0x") && forall k :: 0 <= k < |body| ==> IsDigit(body[k])
    ensures var digits := Fill('0', zeros) + body;
      var text := prefix + digits;
      && text[0] != ' ' && text[|text| - 1] != ' ' && forall k :: 0 <= k < |digits| ==> IsDigit(digits[k])
  {
    var digits := Fill('0', zeros) + body;
    assert forall k :: 0 <= k < |digits| ==> IsDigit(digits[k]);
    assert (prefix + digits)[|prefix| + |digits| - 1] == digits[|digits| - 1];
  }

  lemma ReadText(prefix: string, digits: string, base: nat)
    requires digits != [] && (prefix == "" || prefix == "-" || prefix == "0x")
    requires forall k :: 0 <= k < |digits| ==> IsDigit(digits[k])
    ensures var t := prefix + digits;
      (if t[0] == '-' then 0 - Value(t[1..], base)
       else if |t| >= 2 && t[0] == '0' && t[1] == 'x' then Value(t[2..], base)
       else Value(t, base))
      == if prefix == "-" then 0 - Value(digits, base) else Value(digits, base)
  {
    hide Value;
    var t := prefix + digits;
    assert prefix != "" ==> t[|prefix|..] == digits;
    assert prefix == "" ==> t == digits;
  }

  // ---- what a format string says ----------------------------------------------------------------

  function FlagsEnd(f: string, p: nat): (q: nat)
    requires p <= |f|
    ensures p <= q <= |f| && (q < |f| ==> f[q] != '-' && f[q] != '0')
    decreases |f| - p
  {
    if p < |f| && (f[p] == '-' || f[p] == '0') then FlagsEnd(f, p + 1) else p
  }

  function WidthEnd(f: string, p: nat): (q: nat)
    requires p <= |f|
    ensures p <= q <= |f| && (q < |f| ==> !('0' <= f[q] <= '9'))
    decreases |f| - p
  {
    if p < |f| && '0' <= f[p] <= '9' then WidthEnd(f, p + 1) else p
  }

  function ModAt(f: string, p: nat): (r: (Mod, nat))
    requires p <= |f|
    ensures p <= r.1 <= |f|
  {
    if p < |f| && f[p] == 'l' then
      if p + 1 < |f| && f[p + 1] == 'l' then (LongLong, p + 2) else (Long, p + 1)
    else if p < |f| && f[p] == 'z' then (Size, p + 1)
    else (Plain, p)
  }

  /** The conversion behind the percent sign before p, and where it ends. */
  function ConvAt(f: string, p: nat): (r: (Item, nat))
    requires p <= |f|
    ensures p <= r.1 <= |f|
  {
    var q := FlagsEnd(f, p);
    var w := WidthEnd(f, q);
    var (mod, c) := ModAt(f, w);
    if c == |f| then (Lone, c)
    else (Conv('-' in f[p..q], '0' in f[p..q], Min(Value(f[q..w], 10), CAP), mod, f[c]), c + 1)
  }

  function Items(f: string, p: nat): seq<Item>
    requires p <= |f|
    decreases |f| - p
  {
    if p == |f| then []
    else if f[p] != '%' then [Literal(f[p])] + Items(f, p + 1)
    else [ConvAt(f, p + 1).0] + Items(f, ConvAt(f, p + 1).1)
  }

  predicate TakesArg(item: Item) {
    item.Conv? && item.conv in "csdiuxXp"
  }

  /** The argument is of the kind the conversion reads. */
  predicate Suits(item: Item, a: Arg)
    requires TakesArg(item)
  {
    if item.conv == 's' then a.Text?
    else if item.conv == 'c' || item.conv == 'p' || item.mod != LongLong then a.Narrow?
    else a.Wide?
  }

  predicate ArgsFit(items: seq<Item>, args: seq<Arg>) {
    if items == [] then true
    else if TakesArg(items[0]) then args != [] && Suits(items[0], args[0]) && ArgsFit(items[1..], args[1..])
    else ArgsFit(items[1..], args)
  }

  function Unsigned(a: Arg): (v: Bits64)
    requires !a.Text?
  {
    if a.Narrow? then a.n else a.w
  }

  /** The same bits read as a signed number. */
  function Signed(a: Arg): (v: int)
    requires !a.Text?
    ensures -0x8000_0000_0000_0000 <= v < 0x8000_0000_0000_0000
  {
    if a.Narrow? then (if a.n < 0x8000_0000 then a.n else a.n - 0x1_0000_0000)
    else if a.w < 0x8000_0000_0000_0000 then a.w else a.w - 0x1_0000_0000_0000_0000
  }

  function Magnitude(v: int): nat {
    if v < 0 then -v else v
  }

  /** What a conversion that takes an argument prints. */
  function FieldText(i: Item, a: Arg): string
    requires TakesArg(i) && Suits(i, a)
  {
    if i.conv == 'c' then Padded("", [(a.n % 256) as char], i.width, false, i.left)
    else if i.conv == 's' then Padded("", if a.s.None? then "(null)" else a.s.value, i.width, false, i.left)
    else if i.conv == 'd' || i.conv == 'i' then
      Padded(if Signed(a) < 0 then "-" else "", Digits(Magnitude(Signed(a)), 10, false), i.width, i.zero, i.left)
    else if i.conv == 'u' then Padded("", Digits(Unsigned(a), 10, false), i.width, i.zero, i.left)
    else if i.conv == 'x' then Padded("", Digits(Unsigned(a), 16, false), i.width, i.zero, i.left)
    else if i.conv == 'X' then Padded("", Digits(Unsigned(a), 16, true), i.width, i.zero, i.left)
    else Padded("0x", Digits(Unsigned(a), 16, false), i.width, i.zero, i.left)
  }

  function BareText(i: Item): string
    requires !TakesArg(i)
  {
    match i
    case Literal(c) => [c]
    case Lone => "%"
    case Conv(_, _, _, _, c) => if c == '%' then "%" else ['%', c]
  }

  /** What the whole prints. */
  function Rendered(items: seq<Item>, args: seq<Arg>): string
    requires ArgsFit(items, args)
  {
    if items == [] then []
    else if TakesArg(items[0]) then FieldText(items[0], args[0]) + Rendered(items[1..], args[1..])
    else BareText(items[0]) + Rendered(items[1..], args)
  }

  function Formatted(f: string, args: seq<Arg>): string
    requires ArgsFit(Items(f, 0), args)
  {
    Rendered(Items(f, 0), args)
  }

  // ---- what it promises ----------------------------------------------------------------------------

  /** The text of a conversion before any padding. */
  function NaturalText(i: Item, a: Arg): string
    requires TakesArg(i) && Suits(i, a)
  {
    if i.conv == 'c' then [(a.n % 256) as char]
    else if i.conv == 's' then (if a.s.None? then "(null)" else a.s.value)
    else if i.conv == 'd' || i.conv == 'i' then (if Signed(a) < 0 then "-" else "") + Digits(Magnitude(Signed(a)), 10, false)
    else if i.conv == 'u' then Digits(Unsigned(a), 10, false)
    else if i.conv == 'p' then "0x" + Digits(Unsigned(a), 16, false)
    else Digits(Unsigned(a), 16, i.conv == 'X')
  }

  /** Every field is exactly as wide as asked, or as its text where that is wider; then it
      is just the text. */
  lemma FieldExact(i: Item, a: Arg)
    requires TakesArg(i) && Suits(i, a)
    ensures var n := |NaturalText(i, a)|;
      |FieldText(i, a)| == (if i.width > n then i.width else n) && (i.width <= n ==> FieldText(i, a) == NaturalText(i, a))
  {
    hide Digits, Padded;
    var prefix := if i.conv == 'p' then "0x" else if (i.conv == 'd' || i.conv == 'i') && Signed(a) < 0 then "-" else "";
    var body := NaturalText(i, a)[|prefix|..];
    assert prefix + body == NaturalText(i, a);
    var zero := i.conv != 'c' && i.conv != 's' && i.zero;
    assert FieldText(i, a) == Padded(prefix, body, i.width, zero, i.left);
    FieldWidth(prefix, body, i.width, zero, i.left);
    Unpadded(prefix, body, i.width, zero, i.left);
  }

  lemma Unpadded(prefix: string, body: string, width: int, zero: bool, left: bool)
    ensures width <= |prefix| + |body| ==> Padded(prefix, body, width, zero, left) == prefix + body
  {
    NoFill();
  }

  /** Every integer conversion prints a field that reads back as its argument, exactly as
      wide as asked or as the number needs. */
  lemma IntegersReadBack(i: Item, a: Arg)
    requires TakesArg(i) && i.conv != 'c' && i.conv != 's' && Suits(i, a)
    ensures ReadNumber(FieldText(i, a), if i.conv in "diu" then 10 else 16)
         == if i.conv in "di" then Signed(a) else Unsigned(a)
    ensures var n := |NaturalText(i, a)|; |FieldText(i, a)| == if i.width > n then i.width else n
    ensures |FieldText(i, a)| > i.width ==> ' ' !in FieldText(i, a)
  {
    hide FieldText, NaturalText, ReadNumber, Signed, Unsigned;
    FieldExact(i, a);
    FieldReadsBack(i, a);
  }

  lemma FieldReadsBack(i: Item, a: Arg)
    requires TakesArg(i) && i.conv != 'c' && i.conv != 's' && Suits(i, a)
    ensures ReadNumber(FieldText(i, a), if i.conv in "diu" then 10 else 16)
         == if i.conv in "di" then Signed(a) else Unsigned(a)
    ensures |FieldText(i, a)| > i.width ==> ' ' !in FieldText(i, a)
  {
    hide Digits, ReadNumber, Signed;
    if i.conv == 'd' || i.conv == 'i' {
      var prefix := if Signed(a) < 0 then "-" else "";
      OneNumber(prefix, Magnitude(Signed(a)), 10, false, i);
    } else {
      OneNumber(if i.conv == 'p' then "0x" else "", Unsigned(a), if i.conv == 'u' then 10 else 16, i.conv == 'X', i);
    }
  }

  lemma OneNumber(prefix: string, mag: nat, base: nat, upper: bool, i: Item)
    requires (base == 10 || base == 16) && (prefix == "" || prefix == "-" || prefix == "0x") && i.Conv?
    ensures var t := Padded(prefix, Digits(mag, base, upper), i.width, i.zero, i.left);
      && ReadNumber(t, base) == (if prefix == "-" then 0 - mag else mag)
      && (|t| > i.width ==> ' ' !in t)
  {
    hide Digits, ReadNumber;
    NumberReadsBack(prefix, mag, base, upper, i.width, i.zero, i.left);
    DigitsOnly(mag, base, upper);
  }

  /** One step of the width loop keeps the smaller of the number and the cap. */
  lemma CapKept(v: nat, d: nat)
    ensures Min(Min(v, CAP) * 10 + d, CAP) == Min(v * 10 + d, CAP)
  {
  }

  /** An unknown conversion comes out as it stood exactly when nothing stood between the
      percent sign and its letter: flags, width and length are dropped. */
  lemma UnknownVerbatim(f: string, p: nat)
    requires 0 < p <= |f| && f[p - 1] == '%' && !TakesArg(ConvAt(f, p).0)
    ensures var (i, end) := ConvAt(f, p);
      BareText(i) == f[p - 1..end] <==> ((i.Lone? && end == p) || (i.Conv? && i.conv != '%' && end == p + 1))
  {
    var (i, end) := ConvAt(f, p);
    assert |f[p - 1..end]| == end - p + 1;
    if i.Conv? {
      assert f[end - 1] == i.conv;
      if end == p + 1 {
        assert f[p - 1..end] == ['%', i.conv];
      }
    } else if end == p {
      assert f[p - 1..end] == ['%'];
    }
  }

  /** For one: the width of an unknown conversion is lost. */
  lemma WidthDropped()
    ensures Formatted("%5q", []) == "%q"
  {
    var f := "%5q";
    assert FlagsEnd(f, 1) == 1 && WidthEnd(f, 1) == 2 && ModAt(f, 2) == (Plain, 2);
    var item := ConvAt(f, 1).0;
    assert item.Conv? && item.conv == 'q' && ConvAt(f, 1).1 == 3 && Items(f, 3) == [];
    assert Items(f, 0) == [item];
    assert [item][1..] == [];
    assert Rendered([item], []) == BareText(item) + Rendered([], []);
  }

  // ---- the sink and the pass over the format ---------------------------------------------------------

  /** A buffer of `size` characters that takes what still fits beside the closing NUL.
      `sent` is everything it was given. */
  class Sink {
    const buf: array<char>
    const size: nat
    var pos: nat
    ghost var sent: string

    ghost predicate Valid()
      reads this, buf
    {
      0 < size <= buf.Length && pos == Min(|sent|, size - 1) && buf[..pos] == sent[..pos]
    }

    constructor (b: array<char>, n: nat)
      requires 0 < n <= b.Length
      ensures Valid() && sent == [] && buf == b && size == n
    {
      buf, size, pos, sent := b, n, 0, [];
    }

    method Put(c: char)
      requires Valid()
      modifies this, buf
      ensures Valid() && sent == old(sent) + [c] && Spared()
    {
      if pos + 1 < size {
        buf[pos] := c;
        pos := pos + 1;
      }
      sent := sent + [c];
    }

    /** What lies behind the text so far has not been touched. */
    twostate predicate Spared()
      reads this, buf
    {
      && old(pos) <= pos
      && forall k :: pos <= k < buf.Length ==> buf[k] == old(buf[k])
    }

    method PutText(s: string)
      requires Valid()
      modifies this, buf
      ensures Valid() && sent == old(sent) + s && Spared()
    {
      for i := 0 to |s|
        invariant Valid() && sent == old(sent) + s[..i] && Spared()
      {
        Put(s[i]);
        assert s[..i + 1] == s[..i] + [s[i]];
      }
      assert s[..|s|] == s;
    }

    method PutFill(c: char, n: int)
      requires Valid()
      modifies this, buf
      ensures Valid() && sent == old(sent) + Fill(c, if n > 0 then n else 0) && Spared()
    {
      var pad := n;
      ghost var done: nat := 0;
      while pad > 0
        invariant Valid() && sent == old(sent) + Fill(c, done) && Spared()
        invariant pad <= n && (n > 0 ==> pad >= 0 && done == n - pad) && (n <= 0 ==> done == 0)
      {
        Put(c);
        pad := pad - 1;
        done := done + 1;
      }
    }

    method PutPadded(prefix: string, body: string, width: int, zero: bool, left: bool)
      requires Valid()
      modifies this, buf
      ensures Valid() && sent == old(sent) + Padded(prefix, body, width, zero, left) && Spared()
    {
      hide Fill, Valid;
      var total := |prefix| + |body|;
      var pad := if width > total then width - total else 0;
      if left {
        PutText(prefix);
        PutText(body);
        PutFill(' ', pad);
        Regrouped(old(sent), prefix, body, Fill(' ', pad));
      } else if zero {
        PutText(prefix);
        PutFill('0', pad);
        PutText(body);
        Regrouped(old(sent), prefix, Fill('0', pad), body);
      } else {
        PutFill(' ', pad);
        PutText(prefix);
        PutText(body);
        Regrouped(old(sent), Fill(' ', pad), prefix, body);
      }
    }

    /** An integer's digits through a buffer of twenty, into its field. */
    method PutNumber(prefix: string, mag: Bits64, base: nat, upper: bool, i: Item)
      requires Valid() && (base == 10 || base == 16) && i.Conv?
      modifies this, buf
      ensures Valid() && sent == old(sent) + Padded(prefix, Digits(mag, base, upper), i.width, i.zero, i.left) && Spared()
    {
      var body := new char[20];
      var blen := Utoa(mag, base, upper, body);
      PutPadded(prefix, body[..blen], i.width, i.zero, i.left);
    }

    /** The cases of the conversions that take an argument. */
    method PutField(i: Item, a: Arg)
      requires Valid() && TakesArg(i) && Suits(i, a)
      modifies this, buf
      ensures Valid() && sent == old(sent) + FieldText(i, a) && Spared()
    {
      hide Padded, Digits;
      match i.conv {
        case 'c' => PutPadded("", [(a.n % 256) as char], i.width, false, i.left);
        case 's' => PutPadded("", if a.s.None? then "(null)" else a.s.value, i.width, false, i.left);
        case 'u' => PutNumber("", Unsigned(a), 10, false, i);
        case 'x' => PutNumber("", Unsigned(a), 16, false, i);
        case 'X' => PutNumber("", Unsigned(a), 16, true, i);
        case 'p' => PutNumber("0x", Unsigned(a), 16, false, i);
        case _ =>
          var v := Signed(a);
          var mag := if v < 0 then -(v + 1) + 1 else v;
          PutNumber(if v < 0 then "-" else "", mag, 10, false, i);
      }
    }

    /** One pass over the format string. */
    method Format(f: string, args: seq<Arg>)
      requires Valid() && ArgsFit(Items(f, 0), args)
      modifies this, buf
      ensures Valid() && sent == old(sent) + Formatted(f, args) && Spared()
    {
      hide Items, Rendered, ArgsFit, ConvAt, FieldText, Suits;
      var p, a := 0, 0;
      while p < |f|
        invariant p <= |f| && a <= |args| && Valid() && Spared()
        invariant ArgsFit(Items(f, p), args[a..])
        invariant sent + Rendered(Items(f, p), args[a..]) == old(sent) + Rendered(Items(f, 0), args)
      {
        if f[p] != '%' {
          NextLiteral(f, p, args[a..]);
          Put(f[p]);
          p := p + 1;
        } else {
          NextConv(f, p, args[a..]);
          var i, next := ReadConv(f, p + 1);
          if TakesArg(i) {
            PutField(i, args[a]);
            a := a + 1;
          } else {
            PutText(BareText(i));
          }
          p := next;
        }
      }
      NoneLeft(f, args[a..]);
    }
  }

  lemma Regrouped(s: string, a: string, b: string, c: string)
    ensures s + a + b + c == s + (a + b + c)
  {
  }

  lemma NextLiteral(f: string, p: nat, args: seq<Arg>)
    requires p < |f| && f[p] != '%' && ArgsFit(Items(f, p), args)
    ensures ArgsFit(Items(f, p + 1), args)
    ensures Rendered(Items(f, p), args) == [f[p]] + Rendered(Items(f, p + 1), args)
  {
    assert Items(f, p)[1..] == Items(f, p + 1);
  }

  lemma NextConv(f: string, p: nat, args: seq<Arg>)
    requires p < |f| && f[p] == '%' && ArgsFit(Items(f, p), args)
    ensures var (i, next) := ConvAt(f, p + 1);
      if TakesArg(i) then
        && args != [] && Suits(i, args[0]) && ArgsFit(Items(f, next), args[1..])
        && Rendered(Items(f, p), args) == FieldText(i, args[0]) + Rendered(Items(f, next), args[1..])
      else
        && ArgsFit(Items(f, next), args)
        && Rendered(Items(f, p), args) == BareText(i) + Rendered(Items(f, next), args)
  {
    hide ConvAt, FieldText, Suits, BareText, TakesArg;
    assert Items(f, p)[1..] == Items(f, ConvAt(f, p + 1).1);
  }

  lemma NoneLeft(f: string, args: seq<Arg>)
    requires ArgsFit(Items(f, |f|), args)
    ensures Rendered(Items(f, |f|), args) == []
  {
  }

  method ReadFlags(f: string, from: nat) returns (left: bool, zero: bool, p: nat)
    requires from <= |f|
    ensures p == FlagsEnd(f, from) && left == ('-' in f[from..p]) && zero == ('0' in f[from..p])
  {
    left, zero, p := false, false, from;
    while p < |f| && (f[p] == '-' || f[p] == '0')
      invariant from <= p <= |f| && FlagsEnd(f, from) == FlagsEnd(f, p)
      invariant left == ('-' in f[from..p]) && zero == ('0' in f[from..p])
    {
      assert f[from..p + 1] == f[from..p] + [f[p]];
      if f[p] == '-' {
        left := true;
      } else {
        zero := true;
      }
      p := p + 1;
    }
  }

  method ReadWidth(f: string, from: nat) returns (width: nat, p: nat)
    requires from <= |f|
    ensures p == WidthEnd(f, from) && width == Min(Value(f[from..p], 10), CAP)
  {
    hide Value;
    width, p := 0, from;
    NoDigits();
    assert f[from..from] == "";
    while p < |f| && '0' <= f[p] <= '9'
      invariant from <= p <= |f| && WidthEnd(f, from) == WidthEnd(f, p) && width == Min(Value(f[from..p], 10), CAP)
    {
      OneDigitMore(f, from, p);
      width := width * 10 + (f[p] - '0') as nat;
      if width > CAP {
        width := CAP;
      }
      p := p + 1;
    }
  }

  /** Flags, width, length and letter. */
  method ReadConv(f: string, from: nat) returns (i: Item, p: nat)
    requires from <= |f|
    ensures (i, p) == ConvAt(f, from)
  {
    hide Value, FlagsEnd, WidthEnd;
    var left, zero, width;
    left, zero, p := ReadFlags(f, from);
    width, p := ReadWidth(f, p);
    var mod := Plain;
    if p < |f| && f[p] == 'l' {
      p := p + 1;
      if p < |f| && f[p] == 'l' {
        mod := LongLong;
        p := p + 1;
      } else {
        mod := Long;
      }
    } else if p < |f| && f[p] == 'z' {
      mod := Size;
      p := p + 1;
    }
    if p == |f| {
      return Lone, p;
    }
    i := Conv(left, zero, width, mod, f[p]);
    p := p + 1;
  }

  lemma NoDigits()
    ensures Value("", 10) == 0
  {
  }

  lemma OneDigitMore(f: string, q: nat, p: nat)
    requires q <= p < |f| && '0' <= f[p] <= '9'
    ensures Min(Min(Value(f[q..p], 10), CAP) * 10 + (f[p] - '0') as nat, CAP) == Min(Value(f[q..p + 1], 10), CAP)
  {
    assert f[q..p + 1][..p - q] == f[q..p];
    CapKept(Value(f[q..p], 10), (f[p] - '0') as nat);
  }

  /** Into a buffer: what fits, cut short, and always closed. */
  method FormatInto(buf: array<char>, size: nat, f: string, args: seq<Arg>) returns (n: nat)
    requires size <= buf.Length && ArgsFit(Items(f, 0), args)
    modifies buf
    ensures size == 0 ==> n == 0 && buf[..] == old(buf[..])
    ensures size > 0 ==> n == Min(|Formatted(f, args)|, size - 1) && buf[n] == 0 as char
    ensures size > 0 ==> buf[..n] == Formatted(f, args)[..n]
    ensures size > 0 ==> forall k :: n < k < buf.Length ==> buf[k] == old(buf[k])
  {
    hide Items, Rendered, ArgsFit;
    if size == 0 {
      return 0;
    }
    var s := new Sink(buf, size);
    s.Format(f, args);
    assert s.sent == Formatted(f, args);
    buf[s.pos] := 0 as char;
    n := s.pos;
  }
}
