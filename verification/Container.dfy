/** The container of a plugin and its model: laid out once in a buffer, and read back the
    way the device reads it. */
module Container {
  import opened Thumb

  type Byte = b: int | 0 <= b < 256 witness 0

  type Word = n: int | 0 <= n < 0x1_0000_0000 witness 0

  type Positive = n: int | 0 < n witness 1

  predicate PowerOfTwo(n: int) {
    n == 1 || (n > 1 && n % 2 == 0 && PowerOfTwo(n / 2))
  }

  type Alignment = n: Positive | PowerOfTwo(n) witness 1

  /** Where the header, the manifest and a section entry keep their fields; from the ABI. */
  datatype Layout = Layout(
    hdrSize: nat, manifestSize: nat, sectionSize: nat, modelAlign: Alignment,
    magic: seq<Byte>, format: seq<Byte>, abi: Word,
    magicAt: nat, formatAt: nat, hdrSizeAt: nat, abiAt: nat, totalAt: nat, countAt: nat, digestAt: nat, sectionsAt: nat,
    typeAt: nat, offsetAt: nat, lengthAt: nat,
    pluginType: Word, modelType: Word, dataType: Word)

  predicate Apart(a: nat, n: nat, b: nat, m: nat) {
    a + n <= b || b + m <= a
  }

  /** The seven words of the header, in the order they are written. */
  function Words(l: Layout): (w: seq<nat>)
    ensures |w| == 7
  {
    [l.magicAt, l.formatAt, l.hdrSizeAt, l.abiAt, l.totalAt, l.countAt, l.digestAt]
  }

  /** No two fields overlap and all lie in their part.  The reader takes the magic and the
      format word from the first eight bytes, whatever the layout says. */
  ghost predicate LayoutOk(l: Layout) {
    && |l.magic| == 4 && |l.format| == 4
    && l.magicAt == 0 && l.formatAt == 4
    && l.hdrSize < 0x1_0000_0000
    && (forall i :: 0 <= i < 7 ==> Words(l)[i] + 4 <= l.hdrSize && Apart(Words(l)[i], 4, l.sectionsAt, 3 * l.sectionSize))
    && (forall i, j :: 0 <= i < j < 7 ==> Apart(Words(l)[i], 4, Words(l)[j], 4))
    && l.sectionsAt + 3 * l.sectionSize <= l.hdrSize
    && l.typeAt + 4 <= l.sectionSize && l.offsetAt + 4 <= l.sectionSize && l.lengthAt + 4 <= l.sectionSize
    && Apart(l.typeAt, 4, l.offsetAt, 4) && Apart(l.typeAt, 4, l.lengthAt, 4) && Apart(l.offsetAt, 4, l.lengthAt, 4)
    && l.pluginType != l.modelType && l.pluginType != l.dataType && l.modelType != l.dataType
  }

  // ---- words in a buffer ---------------------------------------------------------------------

  /** A word as four bytes, the lowest first. */
  function Le32(v: Word): (p: seq<Byte>)
    ensures |p| == 4
  {
    [v % 0x100, v / 0x100 % 0x100, v / 0x1_0000 % 0x100, v / 0x100_0000]
  }

  function FromLe32(p: seq<Byte>): (v: Word)
    requires |p| == 4
  {
    p[0] as int + 0x100 * (p[1] as int) + 0x1_0000 * (p[2] as int) + 0x100_0000 * (p[3] as int)
  }

  lemma WordBack(v: Word)
    ensures FromLe32(Le32(v)) == v
  {
    var a := v / 0x100;
    var b := a / 0x100;
    assert b == v / 0x1_0000 && b / 0x100 == v / 0x100_0000;
  }

  /** The bytes p stand at place `at`. */
  ghost predicate Holds(buf: seq<Byte>, at: nat, p: seq<Byte>) {
    at + |p| <= |buf| && buf[at..at + |p|] == p
  }

  /** x & ~m, bit by bit. */
  function AndNot(x: nat, m: nat): nat
    decreases x
  {
    if x == 0 then 0 else (if x % 2 == 1 && m % 2 == 0 then 1 else 0) + 2 * AndNot(x / 2, m / 2)
  }

  /** The mask that rounds up, right only when align is a power of two. */
  function AlignUp(off: nat, align: Positive): nat
  {
    AndNot(off + align - 1, align - 1)
  }

  lemma {:induction false} MaskDivides(x: nat, align: Positive)
    requires PowerOfTwo(align)
    ensures AndNot(x, align - 1) <= x < AndNot(x, align - 1) + align && AndNot(x, align - 1) % align == 0
    decreases x
  {
    if x == 0 {
    } else if align == 1 {
      MaskDivides(x / 2, 1);
    } else {
      var half: Positive := align / 2;
      MaskDivides(x / 2, half);
      DoubledMask(x, half);
      DoubledMultiple(AndNot(x / 2, half - 1), half);
    }
  }

  lemma DoubledMask(x: nat, half: Positive)
    ensures AndNot(x, 2 * half - 1) == 2 * AndNot(x / 2, half - 1)
  {
    assert (2 * half - 1) / 2 == half - 1 && (2 * half - 1) % 2 == 1;
  }

  lemma DoubledMultiple(y: nat, half: Positive)
    requires y % half == 0
    ensures 2 * y % (2 * half) == 0
  {
    var q := y / half;
    assert 2 * y == q * (2 * half);
    MultipleOf(q, 2 * half);
  }

  lemma AlignedUp(off: nat, align: Alignment)
    ensures off <= AlignUp(off, align) < off + align && AlignUp(off, align) % align == 0
  {
    MaskDivides(off + align - 1, align);
  }

  lemma MultipleOf(q: nat, align: nat)
    requires align > 0
    ensures q * align % align == 0
  {
    if q > 0 {
      MultipleOf(q - 1, align);
      assert q * align == (q - 1) * align + align;
      AddOne((q - 1) * align, align);
    }
  }

  lemma AddOne(v: nat, align: nat)
    requires align > 0
    ensures (v + align) % align == v % align
  {
    var q := v / align;
    assert v + align == (q + 1) * align + v % align;
    Unique(v + align, q + 1, v % align, align);
  }

  lemma Unique(v: nat, q: nat, r: nat, align: nat)
    requires align > 0 && r < align && v == q * align + r
    ensures v % align == r
  {
    var d := v / align - q;
    assert v == v / align * align + v % align;
    assert d * align == v / align * align - q * align;
    Steps(d, align);
  }

  lemma Steps(d: int, align: nat)
    ensures (d > 0 ==> d * align >= align) && (d < 0 ==> d * align + align <= 0)
  {
  }

  // ---- the plan -----------------------------------------------------------------------------------

  /** What goes in: the manifest's fields with their places in it, the plugin's image, the
      model, and data if there are any. */
  datatype Parts = Parts(manifest: seq<(nat, seq<Byte>)>, image: seq<Byte>, model: seq<Byte>, data: seq<Byte>)

  function PluginLen(l: Layout, p: Parts): nat {
    l.manifestSize + |p.image|
  }

  function ModelAt(l: Layout, p: Parts): nat
  {
    AlignUp(l.hdrSize + PluginLen(l, p), l.modelAlign)
  }

  function DataAt(l: Layout, p: Parts): nat
  {
    ModelAt(l, p) + |p.model|
  }

  function Total(l: Layout, p: Parts): nat
  {
    DataAt(l, p) + |p.data|
  }

  function Count(p: Parts): (n: nat)
    ensures n == 2 || n == 3
  {
    if p.data == [] then 2 else 3
  }

  /** The entries of the section table. */
  function Entry(l: Layout, p: Parts, i: nat): (Word, nat, nat)
    requires i < 3
  {
    if i == 0 then (l.pluginType, l.hdrSize, PluginLen(l, p))
    else if i == 1 then (l.modelType, ModelAt(l, p), |p.model|)
    else (l.dataType, DataAt(l, p), |p.data|)
  }

  /** The manifest's fields lie in it and do not overlap. */
  ghost predicate PartsOk(l: Layout, p: Parts)
  {
    var m := p.manifest;
    && (forall i :: 0 <= i < |m| ==> m[i].0 + |m[i].1| <= l.manifestSize)
    && (forall i, j :: 0 <= i < j < |m| ==> Apart(m[i].0, |m[i].1|, m[j].0, |m[j].1|))
  }

  predicate Fits(l: Layout, p: Parts) {
    Total(l, p) < 0x1_0000_0000
  }

  /** The parts lie one after the other. */
  lemma InOrder(l: Layout, p: Parts)
    ensures l.hdrSize + PluginLen(l, p) <= ModelAt(l, p) <= DataAt(l, p) <= Total(l, p) && ModelAt(l, p) % l.modelAlign == 0
  {
    AlignedUp(l.hdrSize + PluginLen(l, p), l.modelAlign);
  }


  // ---- what the finished container holds ----------------------------------------------------------

  /** The finished container: every word of the header, every entry, every part, and zeros up
      to the model.  `digest` stands for the checksum of the plugin. */
  ghost predicate Laid(l: Layout, p: Parts, digest: seq<Byte> -> Word, blob: seq<Byte>)
  {
    && l.hdrSize < 0x1_0000_0000 && Fits(l, p) && |blob| == Total(l, p)
    && EntriesLaid(l, p, blob)
    && BodiesLaid(l, p, blob)
    && WordsHold(l, WordValues(l, p, digest(blob[l.hdrSize..l.hdrSize + PluginLen(l, p)])), blob, 7)
  }

  ghost predicate EntriesLaid(l: Layout, p: Parts, blob: seq<Byte>)
  {
    forall i :: 0 <= i < Count(p) ==> EntryLaid(l, p, blob, i)
  }

  ghost predicate EntryLaid(l: Layout, p: Parts, blob: seq<Byte>, i: nat)
    requires i < 3
  {
    var (t, o, n) := Entry(l, p, i);
    o + n <= Total(l, p) && TripleHeld(l, blob, EntryAt(l, i), t, o, n)
  }

  ghost predicate TripleHeld(l: Layout, buf: seq<Byte>, at: nat, t: Word, o: nat, n: nat) {
    && o < 0x1_0000_0000 && n < 0x1_0000_0000
    && Holds(buf, at + l.typeAt, Le32(t)) && Holds(buf, at + l.offsetAt, Le32(o)) && Holds(buf, at + l.lengthAt, Le32(n))
  }

  ghost predicate BodiesLaid(l: Layout, p: Parts, blob: seq<Byte>)
  {
    && l.hdrSize + PluginLen(l, p) <= |blob|
    && FieldsLaid(l, p, blob, |p.manifest|) && Padded(l, p, blob)
    && Holds(blob, l.hdrSize + l.manifestSize, p.image) && Holds(blob, ModelAt(l, p), p.model) && Holds(blob, DataAt(l, p), p.data)
  }

  /** The first n fields of the manifest are in place. */
  ghost predicate FieldsLaid(l: Layout, p: Parts, buf: seq<Byte>, n: nat) {
    forall i :: 0 <= i < n && i < |p.manifest| ==> Holds(buf, l.hdrSize + p.manifest[i].0, p.manifest[i].1)
  }

  /** Nothing lies between the plugin and the model. */
  ghost predicate Padded(l: Layout, p: Parts, buf: seq<Byte>) {
    forall k :: l.hdrSize + PluginLen(l, p) <= k < ModelAt(l, p) && k < |buf| ==> buf[k] == 0
  }

  // ---- building it -----------------------------------------------------------------------------------

  /** Writes p at place `at` and nothing else. */
  method Put(buf: array<Byte>, at: nat, p: seq<Byte>)
    requires at + |p| <= buf.Length
    modifies buf
    ensures Holds(buf[..], at, p)
    ensures forall k :: 0 <= k < buf.Length && !(at <= k < at + |p|) ==> buf[k] == old(buf[k])
  {
    for i := 0 to |p|
      invariant buf[at..at + i] == p[..i]
      invariant forall k :: 0 <= k < buf.Length && !(at <= k < at + i) ==> buf[k] == old(buf[k])
    {
      buf[at + i] := p[i];
    }
    assert buf[..][at..at + |p|] == buf[at..at + |p|] == p[..|p|] == p;
  }

  /** What stood apart from a change still stands. */
  lemma StillHolds(before: seq<Byte>, after: seq<Byte>, at: nat, p: seq<Byte>, from: nat, n: nat)
    requires |after| == |before| && Holds(before, at, p) && Apart(at, |p|, from, n)
    requires forall k :: 0 <= k < |after| && !(from <= k < from + n) ==> after[k] == before[k]
    ensures Holds(after, at, p)
  {
    assert forall k :: at <= k < at + |p| ==> after[k] == before[k];
  }

  /** Only the n bytes from `from` on differ. */
  ghost predicate ChangedOnly(before: seq<Byte>, after: seq<Byte>, from: nat, n: nat) {
    |after| == |before| && forall k :: 0 <= k < |after| && !(from <= k < from + n) ==> after[k] == before[k]
  }

  /** What the words of the header are to hold. */
  function WordValues(l: Layout, p: Parts, digest: Word): (v: seq<seq<Byte>>)
    requires l.hdrSize < 0x1_0000_0000 && Fits(l, p)
    ensures |v| == 7
  {
    [l.magic, l.format, Le32(l.hdrSize), Le32(l.abi), Le32(Total(l, p)), Le32(Count(p)), Le32(digest)]
  }

  /** The first n of them are in place. */
  ghost predicate WordsHold(l: Layout, v: seq<seq<Byte>>, buf: seq<Byte>, n: nat)
    requires |v| == 7
  {
    forall i :: 0 <= i < n && i < 7 ==> Holds(buf, Words(l)[i], v[i])
  }

  lemma WordAdded(l: Layout, v: seq<seq<Byte>>, before: seq<Byte>, after: seq<Byte>, n: nat)
    requires LayoutOk(l) && |v| == 7 && (forall i :: 0 <= i < 7 ==> |v[i]| == 4) && n < 7
    requires WordsHold(l, v, before, n) && Holds(after, Words(l)[n], v[n]) && ChangedOnly(before, after, Words(l)[n], 4)
    ensures WordsHold(l, v, after, n + 1)
  {
    hide Holds, Words;
    forall i | 0 <= i < n
      ensures Holds(after, Words(l)[i], v[i])
    {
      assert Apart(Words(l)[i], 4, Words(l)[n], 4);
      StillHolds(before, after, Words(l)[i], v[i], Words(l)[n], 4);
    }
  }

  lemma WordsStay(l: Layout, v: seq<seq<Byte>>, before: seq<Byte>, after: seq<Byte>, n: nat, from: nat, m: nat)
    requires |v| == 7 && (forall i :: 0 <= i < 7 ==> |v[i]| == 4 && Apart(Words(l)[i], 4, from, m))
    requires WordsHold(l, v, before, n) && ChangedOnly(before, after, from, m)
    ensures WordsHold(l, v, after, n)
  {
    hide Holds, Words;
    forall i | 0 <= i < n && i < 7
      ensures Holds(after, Words(l)[i], v[i])
    {
      StillHolds(before, after, Words(l)[i], v[i], from, m);
    }
  }

  /** One word of the header; `start` is the buffer before the header's first. */
  method PutWord(l: Layout, buf: array<Byte>, ghost start: seq<Byte>, ghost v: seq<seq<Byte>>, n: nat, w: seq<Byte>)
    requires LayoutOk(l) && |v| == 7 && (forall i :: 0 <= i < 7 ==> |v[i]| == 4) && n < 7 && w == v[n]
    requires l.hdrSize <= buf.Length && WordsHold(l, v, buf[..], n) && ChangedOnly(start, buf[..], 0, l.hdrSize)
    modifies buf
    ensures WordsHold(l, v, buf[..], n + 1) && ChangedOnly(start, buf[..], 0, l.hdrSize)
    ensures ChangedOnly(old(buf[..]), buf[..], Words(l)[n], 4)
  {
    hide Holds, WordsHold;
    ghost var before := buf[..];
    Put(buf, Words(l)[n], w);
    WordAdded(l, v, before, buf[..], n);
  }

  /** The header, but for the digest. */
  method PutHeader(l: Layout, p: Parts, buf: array<Byte>, ghost v: seq<seq<Byte>>)
    requires LayoutOk(l) && PartsOk(l, p) && Fits(l, p) && buf.Length == Total(l, p)
    requires exists digest :: v == WordValues(l, p, digest)
    modifies buf
    ensures WordsHold(l, v, buf[..], 6) && ChangedOnly(old(buf[..]), buf[..], 0, l.hdrSize)
  {
    hide Words, Holds, WordsHold, Total, Count, ChangedOnly;
    HeaderFits(l, p);
    ghost var start := buf[..];
    NoWords(l, v, start);
    PutWord(l, buf, start, v, 0, l.magic);
    PutWord(l, buf, start, v, 1, l.format);
    PutWord(l, buf, start, v, 2, Le32(l.hdrSize));
    PutWord(l, buf, start, v, 3, Le32(l.abi));
    PutWord(l, buf, start, v, 4, Le32(Total(l, p)));
    PutWord(l, buf, start, v, 5, Le32(Count(p)));
  }

  lemma HeaderFits(l: Layout, p: Parts)
    ensures l.hdrSize <= Total(l, p)
  {
    InOrder(l, p);
  }

  lemma NoWords(l: Layout, v: seq<seq<Byte>>, buf: seq<Byte>)
    requires |v| == 7
    ensures WordsHold(l, v, buf, 0) && ChangedOnly(buf, buf, 0, l.hdrSize)
  {
  }

  /** Entry i of the section table is inside the table. */
  function EntryAt(l: Layout, i: nat): nat {
    l.sectionsAt + i * l.sectionSize
  }

  lemma EntryInside(l: Layout, i: nat)
    requires i < 3
    ensures l.sectionsAt <= EntryAt(l, i) && EntryAt(l, i) + l.sectionSize <= l.sectionsAt + 3 * l.sectionSize
    ensures forall j: nat :: j < i ==> EntryAt(l, j) + l.sectionSize <= EntryAt(l, i)
  {
    assert EntryAt(l, 0) == l.sectionsAt && EntryAt(l, 1) == l.sectionsAt + l.sectionSize && EntryAt(l, 2) == l.sectionsAt + 2 * l.sectionSize;
  }

  method PutEntry(l: Layout, p: Parts, buf: array<Byte>, i: nat)
    requires LayoutOk(l) && PartsOk(l, p) && Fits(l, p) && buf.Length == Total(l, p) && i < 3
    modifies buf
    ensures EntryLaid(l, p, buf[..], i) && ChangedOnly(old(buf[..]), buf[..], EntryAt(l, i), l.sectionSize)
  {
    hide Words, Holds, Total, EntryAt, Entry;
    HeaderFits(l, p);
    EntryInside(l, i);
    EntryWords(l, p, i);
    var (t, o, n) := Entry(l, p, i);
    PutTriple(l, buf, EntryAt(l, i), Le32(t), Le32(o), Le32(n));
  }

  /** The three words of an entry. */
  method PutTriple(l: Layout, buf: array<Byte>, at: nat, t: seq<Byte>, o: seq<Byte>, n: seq<Byte>)
    requires l.typeAt + 4 <= l.sectionSize && l.offsetAt + 4 <= l.sectionSize && l.lengthAt + 4 <= l.sectionSize
    requires Apart(l.typeAt, 4, l.offsetAt, 4) && Apart(l.typeAt, 4, l.lengthAt, 4) && Apart(l.offsetAt, 4, l.lengthAt, 4)
    requires |t| == |o| == |n| == 4 && at + l.sectionSize <= buf.Length
    modifies buf
    ensures Holds(buf[..], at + l.typeAt, t) && Holds(buf[..], at + l.offsetAt, o) && Holds(buf[..], at + l.lengthAt, n)
    ensures ChangedOnly(old(buf[..]), buf[..], at, l.sectionSize)
  {
    hide Holds;
    Put(buf, at + l.typeAt, t);
    ghost var b1 := buf[..];
    Put(buf, at + l.offsetAt, o);
    ghost var b2 := buf[..];
    StillHolds(b1, b2, at + l.typeAt, t, at + l.offsetAt, 4);
    Put(buf, at + l.lengthAt, n);
    StillHolds(b2, buf[..], at + l.typeAt, t, at + l.lengthAt, 4);
    StillHolds(b2, buf[..], at + l.offsetAt, o, at + l.lengthAt, 4);
  }

  lemma EntryWords(l: Layout, p: Parts, i: nat)
    requires Fits(l, p) && i < 3
    ensures var (t, o, n) := Entry(l, p, i); o + n <= Total(l, p) < 0x1_0000_0000
  {
    InOrder(l, p);
  }

  /** A change elsewhere leaves an entry alone. */
  lemma EntryStays(l: Layout, p: Parts, before: seq<Byte>, after: seq<Byte>, i: nat, from: nat, m: nat)
    requires LayoutOk(l) && Fits(l, p) && i < 3
    requires EntryLaid(l, p, before, i) && ChangedOnly(before, after, from, m) && Apart(EntryAt(l, i), l.sectionSize, from, m)
    ensures EntryLaid(l, p, after, i)
  {
    hide Holds, Words;
    var (t, o, n) := Entry(l, p, i);
    var at := EntryAt(l, i);
    StillHolds(before, after, at + l.typeAt, Le32(t), from, m);
    StillHolds(before, after, at + l.offsetAt, Le32(o), from, m);
    StillHolds(before, after, at + l.lengthAt, Le32(n), from, m);
  }

  method PutEntries(l: Layout, p: Parts, buf: array<Byte>)
    requires LayoutOk(l) && PartsOk(l, p) && Fits(l, p) && buf.Length == Total(l, p)
    modifies buf
    ensures EntriesLaid(l, p, buf[..]) && ChangedOnly(old(buf[..]), buf[..], l.sectionsAt, 3 * l.sectionSize)
  {
    hide Words, Holds, Total, EntryLaid, EntryAt;
    ghost var start := buf[..];
    for i := 0 to Count(p)
      invariant forall j :: 0 <= j < i ==> EntryLaid(l, p, buf[..], j)
      invariant ChangedOnly(start, buf[..], l.sectionsAt, 3 * l.sectionSize)
    {
      ghost var before := buf[..];
      EntryInside(l, i);
      PutEntry(l, p, buf, i);
      forall j | 0 <= j < i
        ensures EntryLaid(l, p, buf[..], j)
      {
        EntryStays(l, p, before, buf[..], j, EntryAt(l, i), l.sectionSize);
      }
    }
  }

  lemma Changed(before: seq<Byte>, mid: seq<Byte>, after: seq<Byte>, a: nat, n: nat, b: nat, m: nat, from: nat, size: nat)
    requires ChangedOnly(before, mid, a, n) && ChangedOnly(mid, after, b, m)
    requires from <= a && a + n <= from + size && from <= b && b + m <= from + size
    ensures ChangedOnly(before, after, from, size)
  {
  }

  /** A change elsewhere leaves the fields alone. */
  lemma FieldsStay(l: Layout, p: Parts, before: seq<Byte>, after: seq<Byte>, n: nat, from: nat, m: nat)
    requires FieldsLaid(l, p, before, n) && ChangedOnly(before, after, from, m)
    requires forall i :: 0 <= i < n && i < |p.manifest| ==> Apart(l.hdrSize + p.manifest[i].0, |p.manifest[i].1|, from, m)
    ensures FieldsLaid(l, p, after, n)
  {
    hide Holds;
    forall i | 0 <= i < n && i < |p.manifest|
      ensures Holds(after, l.hdrSize + p.manifest[i].0, p.manifest[i].1)
    {
      StillHolds(before, after, l.hdrSize + p.manifest[i].0, p.manifest[i].1, from, m);
    }
  }

  /** The manifest's fields. */
  method PutManifest(l: Layout, p: Parts, buf: array<Byte>)
    requires PartsOk(l, p) && Fits(l, p) && buf.Length == Total(l, p)
    modifies buf
    ensures FieldsLaid(l, p, buf[..], |p.manifest|) && ChangedOnly(old(buf[..]), buf[..], l.hdrSize, l.manifestSize)
  {
    hide Total, Holds, FieldsLaid;
    PluginEnds(l, p);
    ghost var start := buf[..];
    NoFields(l, p, start);
    for i := 0 to |p.manifest|
      invariant ChangedOnly(start, buf[..], l.hdrSize, l.manifestSize) && FieldsLaid(l, p, buf[..], i)
    {
      var f := p.manifest[i];
      ghost var before := buf[..];
      Put(buf, l.hdrSize + f.0, f.1);
      FieldsStay(l, p, before, buf[..], i, l.hdrSize + f.0, |f.1|);
      FieldAdded(l, p, buf[..], i);
    }
  }

  lemma NoFields(l: Layout, p: Parts, buf: seq<Byte>)
    ensures FieldsLaid(l, p, buf, 0)
  {
  }

  lemma FieldAdded(l: Layout, p: Parts, buf: seq<Byte>, n: nat)
    requires n < |p.manifest| && FieldsLaid(l, p, buf, n) && Holds(buf, l.hdrSize + p.manifest[n].0, p.manifest[n].1)
    ensures FieldsLaid(l, p, buf, n + 1)
  {
  }

  lemma PaddedStays(l: Layout, p: Parts, before: seq<Byte>, after: seq<Byte>, from: nat, m: nat)
    requires Padded(l, p, before) && ChangedOnly(before, after, from, m)
    requires from + m <= l.hdrSize + PluginLen(l, p) || ModelAt(l, p) <= from
    ensures Padded(l, p, after)
  {
  }

  /** One of the parts behind the manifest, without harm to what is there. */
  method PutPart(l: Layout, p: Parts, buf: array<Byte>, at: nat, part: seq<Byte>)
    requires PartsOk(l, p) && Fits(l, p) && buf.Length == Total(l, p)
    requires l.hdrSize + PluginLen(l, p) <= ModelAt(l, p)
    requires l.hdrSize + l.manifestSize <= at && at + |part| <= buf.Length
    requires at + |part| <= l.hdrSize + PluginLen(l, p) || ModelAt(l, p) <= at
    requires FieldsLaid(l, p, buf[..], |p.manifest|) && Padded(l, p, buf[..])
    modifies buf
    ensures FieldsLaid(l, p, buf[..], |p.manifest|) && Padded(l, p, buf[..])
    ensures Holds(buf[..], at, part) && ChangedOnly(old(buf[..]), buf[..], at, |part|)
  {
    hide Total, Holds, FieldsLaid, Padded, ModelAt;
    ghost var before := buf[..];
    Put(buf, at, part);
    FieldsStay(l, p, before, buf[..], |p.manifest|, at, |part|);
    PaddedStays(l, p, before, buf[..], at, |part|);
  }

  /** Manifest, image, model and data, each in its place. */
  method PutBodies(l: Layout, p: Parts, buf: array<Byte>)
    requires PartsOk(l, p) && Fits(l, p) && buf.Length == Total(l, p) && Padded(l, p, buf[..])
    modifies buf
    ensures BodiesLaid(l, p, buf[..]) && ChangedOnly(old(buf[..]), buf[..], l.hdrSize, Total(l, p) - l.hdrSize)
  {
    hide Holds, PartsOk, Fits, FieldsLaid, Padded, ModelAt;
    InOrder(l, p);
    HeaderFits(l, p);
    ghost var start := buf[..];
    PutManifest(l, p, buf);
    PaddedStays(l, p, start, buf[..], l.hdrSize, l.manifestSize);
    PutPart(l, p, buf, l.hdrSize + l.manifestSize, p.image);
    ghost var b1 := buf[..];
    PutPart(l, p, buf, ModelAt(l, p), p.model);
    StillHolds(b1, buf[..], l.hdrSize + l.manifestSize, p.image, ModelAt(l, p), |p.model|);
    if p.data != [] {
      ghost var b2 := buf[..];
      PutPart(l, p, buf, DataAt(l, p), p.data);
      StillHolds(b2, buf[..], l.hdrSize + l.manifestSize, p.image, DataAt(l, p), |p.data|);
      StillHolds(b2, buf[..], ModelAt(l, p), p.model, DataAt(l, p), |p.data|);
    }
    assert Holds(buf[..], DataAt(l, p), p.data) by { NoData(buf[..], DataAt(l, p), p.data); }
  }

  lemma NoData(buf: seq<Byte>, at: nat, p: seq<Byte>)
    requires at + |p| <= |buf|
    ensures p == [] ==> Holds(buf, at, p)
  {
  }

  /** Words and entries are in the header, the bodies behind it. */
  lemma HeadersStay(l: Layout, p: Parts, v: seq<seq<Byte>>, before: seq<Byte>, after: seq<Byte>)
    requires LayoutOk(l) && Fits(l, p) && |v| == 7 && (forall i :: 0 <= i < 7 ==> |v[i]| == 4)
    requires WordsHold(l, v, before, 6) && EntriesLaid(l, p, before)
    requires l.hdrSize <= Total(l, p) && ChangedOnly(before, after, l.hdrSize, Total(l, p) - l.hdrSize)
    ensures WordsHold(l, v, after, 6) && EntriesLaid(l, p, after)
  {
    hide Holds, Words, EntryLaid, Total, WordsHold, EntryAt, ChangedOnly;
    WordsStay(l, v, before, after, 6, l.hdrSize, Total(l, p) - l.hdrSize);
    forall i: nat | i < Count(p)
      ensures EntryLaid(l, p, after, i)
    {
      EntryInside(l, i);
      EntryStays(l, p, before, after, i, l.hdrSize, Total(l, p) - l.hdrSize);
    }
  }

  lemma DigestStays(l: Layout, p: Parts, before: seq<Byte>, after: seq<Byte>)
    requires LayoutOk(l) && PartsOk(l, p) && Fits(l, p) && EntriesLaid(l, p, before) && BodiesLaid(l, p, before)
    requires ChangedOnly(before, after, l.digestAt, 4)
    ensures EntriesLaid(l, p, after) && BodiesLaid(l, p, after)
    ensures l.hdrSize + PluginLen(l, p) <= |before|
    ensures after[l.hdrSize..l.hdrSize + PluginLen(l, p)] == before[l.hdrSize..l.hdrSize + PluginLen(l, p)]
  {
    hide Holds, EntryLaid, Total, EntryAt, FieldsLaid, Padded, ModelAt;
    assert Words(l)[6] == l.digestAt;
    InOrder(l, p);
    forall i: nat | i < Count(p)
      ensures EntryLaid(l, p, after, i)
    {
      EntryInside(l, i);
      EntryStays(l, p, before, after, i, l.digestAt, 4);
    }
    FieldsStay(l, p, before, after, |p.manifest|, l.digestAt, 4);
    PaddedStays(l, p, before, after, l.digestAt, 4);
    StillHolds(before, after, l.hdrSize + l.manifestSize, p.image, l.digestAt, 4);
    StillHolds(before, after, ModelAt(l, p), p.model, l.digestAt, 4);
    StillHolds(before, after, DataAt(l, p), p.data, l.digestAt, 4);
  }

  /** Lays everything out in one buffer, the digest last; fails when a size needs more than a
      word. */
  method Build(l: Layout, p: Parts, digest: seq<Byte> -> Word) returns (r: Option<seq<Byte>>)
    requires LayoutOk(l) && PartsOk(l, p)
    ensures r.Some? <==> Fits(l, p)
    ensures r.Some? ==> Laid(l, p, digest, r.value)
  {
    hide Holds, Words, LayoutOk, EntriesLaid, BodiesLaid, Total, WordsHold, ChangedOnly, Padded, ModelAt;
    if Total(l, p) >= 0x1_0000_0000 {
      return None;
    }
    LayoutWords(l);
    InOrder(l, p);
    HeaderFits(l, p);
    var buf := new Byte[Total(l, p)](_ => 0);
    ghost var b0 := buf[..];
    ghost var v := WordValues(l, p, 0);
    PutHeader(l, p, buf, v);
    ghost var b1 := buf[..];
    PutEntries(l, p, buf);
    WordsStay(l, v, b1, buf[..], 6, l.sectionsAt, 3 * l.sectionSize);
    ghost var b2 := buf[..];
    StartsPadded(l, p, b0, b1, b2);
    PutBodies(l, p, buf);
    HeadersStay(l, p, v, b2, buf[..]);
    ghost var b3 := buf[..];
    PluginEnds(l, p);
    var d := digest(buf[l.hdrSize..l.hdrSize + PluginLen(l, p)]);
    ghost var u := WordValues(l, p, d);
    SameWords(l, v, u, buf[..]);
    Unchanged(l, b3);
    PutWord(l, buf, b3, u, 6, Le32(d));
    DigestStays(l, p, b3, buf[..]);
    r := Some(buf[..]);
    LaidFrom(l, p, digest, buf[..], d);
  }

  lemma StartsPadded(l: Layout, p: Parts, b0: seq<Byte>, b1: seq<Byte>, b2: seq<Byte>)
    requires LayoutOk(l) && forall k :: 0 <= k < |b0| ==> b0[k] == 0
    requires ChangedOnly(b0, b1, 0, l.hdrSize) && ChangedOnly(b1, b2, l.sectionsAt, 3 * l.sectionSize)
    ensures Padded(l, p, b2)
  {
    hide Words, ModelAt;
  }

  lemma Unchanged(l: Layout, buf: seq<Byte>)
    ensures ChangedOnly(buf, buf, 0, l.hdrSize)
  {
  }

  lemma LayoutWords(l: Layout)
    requires LayoutOk(l)
    ensures |l.magic| == 4 && |l.format| == 4 && l.hdrSize < 0x1_0000_0000
    ensures Words(l)[6] == l.digestAt
    ensures forall i :: 0 <= i < 7 ==> Apart(Words(l)[i], 4, l.sectionsAt, 3 * l.sectionSize)
  {
  }

  lemma PluginEnds(l: Layout, p: Parts)
    ensures l.hdrSize + PluginLen(l, p) <= Total(l, p)
  {
    InOrder(l, p);
  }

  lemma SameWords(l: Layout, v: seq<seq<Byte>>, u: seq<seq<Byte>>, buf: seq<Byte>)
    requires |v| == |u| == 7 && forall i :: 0 <= i < 6 ==> v[i] == u[i]
    requires WordsHold(l, v, buf, 6)
    ensures WordsHold(l, u, buf, 6)
  {
    hide Holds, Words;
  }

  lemma LaidFrom(l: Layout, p: Parts, digest: seq<Byte> -> Word, blob: seq<Byte>, d: Word)
    requires l.hdrSize < 0x1_0000_0000 && Fits(l, p) && |blob| == Total(l, p) && l.hdrSize + PluginLen(l, p) <= |blob|
    requires EntriesLaid(l, p, blob) && BodiesLaid(l, p, blob) && WordsHold(l, WordValues(l, p, d), blob, 7)
    requires d == digest(blob[l.hdrSize..l.hdrSize + PluginLen(l, p)])
    ensures Laid(l, p, digest, blob)
  {
    hide WordsHold, EntriesLaid, WordValues;
  }

  // ---- reading it back -------------------------------------------------------------------------------

  /** b[i:j] as Python takes it: no further than the bytes go. */
  function Slice(b: seq<Byte>, i: nat, j: nat): seq<Byte>
    requires i <= j
  {
    if j <= |b| then b[i..j] else if i <= |b| then b[i..] else []
  }

  function WordAt(b: seq<Byte>, at: nat): Option<Word> {
    if at + 4 <= |b| then Some(FromLe32(b[at..at + 4])) else None
  }

  type Sections = map<Word, (Word, Word)>

  /** The table's entry i, if it is there and lies inside the container. */
  function ReadEntry(l: Layout, b: seq<Byte>, total: Word, i: nat): Option<(Word, (Word, Word))> {
    var at := EntryAt(l, i);
    match (WordAt(b, at + l.typeAt), WordAt(b, at + l.offsetAt), WordAt(b, at + l.lengthAt))
    case (Some(t), Some(o), Some(n)) => if (o as int) + n > total then None else Some((t, (o, n)))
    case _ => None
  }

  function ReadEntries(l: Layout, b: seq<Byte>, total: Word, n: nat): Option<Sections> {
    if n == 0 then Some(map[])
    else
      match (ReadEntries(l, b, total, n - 1), ReadEntry(l, b, total, n - 1))
      case (Some(secs), Some(e)) => Some(secs[e.0 := e.1])
      case _ => None
  }

  /** What the reader makes of any bytes: the sections, or nothing when a check fails. */
  function Reparsed(l: Layout, digest: seq<Byte> -> Word, b: seq<Byte>): Option<Sections> {
    if Slice(b, 0, 4) != l.magic || Slice(b, 4, 8) != l.format then None
    else
      match (WordAt(b, l.totalAt), WordAt(b, l.countAt), WordAt(b, l.digestAt))
      case (Some(total), Some(count), Some(want)) =>
        if total != |b| then None
        else
          (match ReadEntries(l, b, total, count)
           case None => None
           case Some(secs) =>
             if l.pluginType !in secs || l.modelType !in secs then None
             else
               var (o, n) := secs[l.pluginType];
               if digest(Slice(b, o, (o as int) + n)) != want || secs[l.modelType].0 % l.modelAlign != 0 then None else Some(secs))
      case _ => None
  }

  // ---- what the reader accepts ---------------------------------------------------------------------

  /** Entry i stands in the table, its three words in place, and its section is inside. */
  ghost predicate EntryHeld(l: Layout, b: seq<Byte>, i: nat, e: (Word, (Word, Word))) {
    TripleHeld(l, b, EntryAt(l, i), e.0, e.1.0, e.1.1) && e.1.0 as int + e.1.1 as int <= |b|
  }

  /** i is the last entry of type t. */
  predicate LastOf(es: seq<(Word, (Word, Word))>, i: int, t: Word) {
    0 <= i < |es| && es[i].0 == t && forall j :: i < j < |es| ==> es[j].0 != t
  }

  /** The entries are all there, and of several of one type the last counts. */
  ghost predicate Table(l: Layout, b: seq<Byte>, es: seq<(Word, (Word, Word))>, secs: Sections) {
    && (forall i :: 0 <= i < |es| ==> EntryHeld(l, b, i, es[i]))
    && (forall i :: 0 <= i < |es| ==> es[i].0 in secs)
    && (forall t :: t in secs ==> exists i :: LastOf(es, i, t) && secs[t] == es[i].1)
  }

  /** Bytes that are a container with these sections: the magic and the format word, the
      length in its place, a whole table, a plugin whose digest is the one recorded, and a
      model that is aligned. */
  ghost predicate Readable(l: Layout, digest: seq<Byte> -> Word, b: seq<Byte>, secs: Sections) {
    && |b| < 0x1_0000_0000
    && Holds(b, 0, l.magic) && Holds(b, 4, l.format) && Holds(b, l.totalAt, Le32(|b|))
    && (exists es :: |es| < 0x1_0000_0000 && Holds(b, l.countAt, Le32(|es|)) && Table(l, b, es, secs))
    && l.pluginType in secs && l.modelType in secs
    && PluginInside(l, b, secs) && Holds(b, l.digestAt, Le32(digest(PluginBytes(l, b, secs))))
    && secs[l.modelType].0 % l.modelAlign == 0
  }

  predicate PluginInside(l: Layout, b: seq<Byte>, secs: Sections)
    requires l.pluginType in secs
  {
    secs[l.pluginType].0 as int + secs[l.pluginType].1 as int <= |b|
  }

  function PluginBytes(l: Layout, b: seq<Byte>, secs: Sections): seq<Byte>
    requires l.pluginType in secs && PluginInside(l, b, secs)
  {
    b[secs[l.pluginType].0 as int..secs[l.pluginType].0 as int + secs[l.pluginType].1 as int]
  }

  lemma LeBack(p: seq<Byte>)
    requires |p| == 4
    ensures Le32(FromLe32(p)) == p
  {
    var v := FromLe32(p);
    var high1 := p[1] as int + 0x100 * (p[2] as int) + 0x1_0000 * (p[3] as int);
    var high2 := p[2] as int + 0x100 * (p[3] as int);
    assert v == p[0] as int + 0x100 * high1 && high1 == p[1] as int + 0x100 * high2;
    assert v / 0x100 == high1 && high1 / 0x100 == high2 && high2 / 0x100 == p[3] as int;
    assert v / 0x1_0000 == high1 / 0x100 && v / 0x100_0000 == high2 / 0x100;
  }

  lemma WordMeans(b: seq<Byte>, at: nat, v: Word)
    ensures WordAt(b, at) == Some(v) <==> Holds(b, at, Le32(v))
  {
    hide Le32, FromLe32;
    WordBack(v);
    if at + 4 <= |b| {
      LeBack(b[at..at + 4]);
    }
  }

  lemma EntryMeans(l: Layout, b: seq<Byte>, total: Word, i: nat, e: (Word, (Word, Word)))
    requires total == |b|
    ensures ReadEntry(l, b, total, i) == Some(e) <==> EntryHeld(l, b, i, e)
  {
    hide WordAt, Holds, EntryAt;
    var at := EntryAt(l, i);
    WordMeans(b, at + l.typeAt, e.0);
    WordMeans(b, at + l.offsetAt, e.1.0);
    WordMeans(b, at + l.lengthAt, e.1.1);
  }

  /** One more entry at the end of a table. */
  lemma TableMore(l: Layout, b: seq<Byte>, es: seq<(Word, (Word, Word))>, e: (Word, (Word, Word)), secs: Sections)
    requires Table(l, b, es, secs) && EntryHeld(l, b, |es|, e)
    ensures Table(l, b, es + [e], secs[e.0 := e.1])
  {
    hide EntryHeld;
    var more, secs' := es + [e], secs[e.0 := e.1];
    forall t | t in secs'
      ensures exists i :: LastOf(more, i, t) && secs'[t] == more[i].1
    {
      if t == e.0 {
        assert LastOf(more, |es|, t);
      } else {
        var i :| LastOf(es, i, t) && secs[t] == es[i].1;
        assert LastOf(more, i, t);
      }
    }
  }

  lemma {:induction false} EntriesTable(l: Layout, b: seq<Byte>, total: Word, n: nat) returns (es: seq<(Word, (Word, Word))>)
    requires total == |b| && ReadEntries(l, b, total, n).Some?
    ensures |es| == n && Table(l, b, es, ReadEntries(l, b, total, n).value)
    decreases n
  {
    hide ReadEntry, EntryHeld, Table;
    if n == 0 {
      es := [];
      NoTable(l, b);
    } else {
      var init := EntriesTable(l, b, total, n - 1);
      var e := ReadEntry(l, b, total, n - 1).value;
      EntryMeans(l, b, total, n - 1, e);
      TableMore(l, b, init, e, ReadEntries(l, b, total, n - 1).value);
      es := init + [e];
    }
  }

  lemma NoTable(l: Layout, b: seq<Byte>)
    ensures Table(l, b, [], map[])
  {
  }

  lemma {:induction false} TableEntries(l: Layout, b: seq<Byte>, total: Word, es: seq<(Word, (Word, Word))>, n: nat)
    requires total == |b| && n <= |es| && forall i :: 0 <= i < |es| ==> EntryHeld(l, b, i, es[i])
    ensures ReadEntries(l, b, total, n).Some?
    decreases n
  {
    hide ReadEntry, EntryHeld;
    if n > 0 {
      TableEntries(l, b, total, es, n - 1);
      EntryMeans(l, b, total, n - 1, es[n - 1]);
    }
  }

  lemma SameEntries(l: Layout, b: seq<Byte>, es: seq<(Word, (Word, Word))>, es': seq<(Word, (Word, Word))>)
    requires |es| == |es'| && |b| < 0x1_0000_0000
    requires forall i :: 0 <= i < |es| ==> EntryHeld(l, b, i, es[i]) && EntryHeld(l, b, i, es'[i])
    ensures es == es'
  {
    hide EntryHeld, ReadEntry;
    forall i | 0 <= i < |es|
      ensures es[i] == es'[i]
    {
      EntryMeans(l, b, |b|, i, es[i]);
      EntryMeans(l, b, |b|, i, es'[i]);
    }
  }

  /** The sections are determined by the entries, and the entries by the bytes. */
  lemma TableOnce(l: Layout, b: seq<Byte>, es: seq<(Word, (Word, Word))>, secs: Sections, es': seq<(Word, (Word, Word))>, secs': Sections)
    requires |es| == |es'| && |b| < 0x1_0000_0000 && Table(l, b, es, secs) && Table(l, b, es', secs')
    ensures secs == secs'
  {
    hide EntryHeld;
    SameEntries(l, b, es, es');
    forall t: Word
      ensures t in secs ==> t in secs' && secs[t] == secs'[t]
      ensures t in secs' ==> t in secs
    {
      if t in secs {
        var i :| LastOf(es, i, t) && secs[t] == es[i].1;
        assert es[i].0 in secs';
        var j :| LastOf(es, j, t) && secs'[t] == es[j].1;
        assert i == j;
      }
      if t in secs' {
        var j :| LastOf(es, j, t) && secs'[t] == es[j].1;
        assert es[j].0 in secs;
      }
    }
  }

  lemma EntriesMean(l: Layout, b: seq<Byte>, n: Word, secs: Sections)
    requires |b| < 0x1_0000_0000
    ensures ReadEntries(l, b, |b|, n) == Some(secs) <==> exists es :: |es| == n && Table(l, b, es, secs)
  {
    hide Table, ReadEntries;
    if ReadEntries(l, b, |b|, n).Some? {
      var es := EntriesTable(l, b, |b|, n);
      if es' :| |es'| == n && Table(l, b, es', secs) {
        TableOnce(l, b, es, ReadEntries(l, b, |b|, n).value, es', secs);
      }
    }
    if es :| |es| == n && Table(l, b, es, secs) {
      TableHeld(l, b, es, secs);
      TableEntries(l, b, |b|, es, n);
    }
  }

  lemma TableHeld(l: Layout, b: seq<Byte>, es: seq<(Word, (Word, Word))>, secs: Sections)
    requires Table(l, b, es, secs)
    ensures forall i :: 0 <= i < |es| ==> EntryHeld(l, b, i, es[i])
    ensures forall t :: t in secs ==> secs[t].0 as int + secs[t].1 as int <= |b|
  {
    hide TripleHeld;
    forall t | t in secs
      ensures secs[t].0 as int + secs[t].1 as int <= |b|
    {
      var i :| LastOf(es, i, t) && secs[t] == es[i].1;
      assert EntryHeld(l, b, i, es[i]);
    }
  }

  lemma StartMeans(b: seq<Byte>, at: nat, p: seq<Byte>)
    requires |p| == 4
    ensures Slice(b, at, at + 4) == p <==> Holds(b, at, p)
  {
  }

  /** The reader gives sections for exactly the bytes that are a container with them. */
  lemma ReadsExactly(l: Layout, digest: seq<Byte> -> Word, b: seq<Byte>, secs: Sections)
    requires |l.magic| == 4 && |l.format| == 4
    ensures Reparsed(l, digest, b) == Some(secs) <==> Readable(l, digest, b, secs)
  {
    hide Slice, WordAt, ReadEntries, Table, Holds, Le32;
    StartMeans(b, 0, l.magic);
    StartMeans(b, 4, l.format);
    if Reparsed(l, digest, b) == Some(secs) {
      var count, want := WordAt(b, l.countAt).value, WordAt(b, l.digestAt).value;
      WordMeans(b, l.totalAt, |b|);
      WordMeans(b, l.countAt, count);
      WordMeans(b, l.digestAt, want);
      EntriesMean(l, b, count, secs);
      var es :| |es| == count && Table(l, b, es, secs);
      TableHeld(l, b, es, secs);
      PluginSlice(l, b, secs);
    }
    if Readable(l, digest, b, secs) {
      var es :| |es| < 0x1_0000_0000 && Holds(b, l.countAt, Le32(|es|)) && Table(l, b, es, secs);
      WordMeans(b, l.totalAt, |b|);
      WordMeans(b, l.countAt, |es|);
      WordMeans(b, l.digestAt, digest(PluginBytes(l, b, secs)));
      EntriesMean(l, b, |es|, secs);
      PluginSlice(l, b, secs);
    }
  }

  lemma PluginSlice(l: Layout, b: seq<Byte>, secs: Sections)
    requires l.pluginType in secs && PluginInside(l, b, secs)
    ensures Slice(b, secs[l.pluginType].0, secs[l.pluginType].0 as int + secs[l.pluginType].1 as int) == PluginBytes(l, b, secs)
  {
  }

  lemma ReadsAll(l: Layout, digest: seq<Byte> -> Word, b: seq<Byte>)
    ensures |l.magic| == 4 && |l.format| == 4 ==> forall secs :: Reparsed(l, digest, b) == Some(secs) <==> Readable(l, digest, b, secs)
  {
    hide Reparsed, Readable;
    if |l.magic| == 4 && |l.format| == 4 {
      forall secs
        ensures Reparsed(l, digest, b) == Some(secs) <==> Readable(l, digest, b, secs)
      {
        ReadsExactly(l, digest, b, secs);
      }
    }
  }

  /** The reader's loop over the table. */
  method Reparse(l: Layout, digest: seq<Byte> -> Word, b: seq<Byte>) returns (r: Option<Sections>)
    ensures r == Reparsed(l, digest, b)
    ensures |l.magic| == 4 && |l.format| == 4 ==> forall secs :: r == Some(secs) <==> Readable(l, digest, b, secs)
  {
    hide Slice, WordAt, ReadEntry, Readable, EntryHeld, Table, Holds, Le32, FromLe32;
    ReadsAll(l, digest, b);
    if Slice(b, 0, 4) != l.magic || Slice(b, 4, 8) != l.format {
      return None;
    }
    var total, count, want := WordAt(b, l.totalAt), WordAt(b, l.countAt), WordAt(b, l.digestAt);
    if total.None? || count.None? || want.None? || total.value != |b| {
      return None;
    }
    var secs: Sections := map[];
    for i := 0 to count.value
      invariant ReadEntries(l, b, total.value, i) == Some(secs)
    {
      var e := ReadEntry(l, b, total.value, i);
      if e.None? {
        NoneLater(l, b, total.value, i, count.value);
        return None;
      }
      secs := secs[e.value.0 := e.value.1];
    }
    if l.pluginType !in secs || l.modelType !in secs {
      return None;
    }
    var (o, n) := secs[l.pluginType];
    if digest(Slice(b, o, (o as int) + n)) != want.value || secs[l.modelType].0 % l.modelAlign != 0 {
      return None;
    }
    r := Some(secs);
  }

  lemma {:induction false} NoneLater(l: Layout, b: seq<Byte>, total: Word, i: nat, n: nat)
    requires i < n && ReadEntry(l, b, total, i).None?
    ensures ReadEntries(l, b, total, n).None?
    decreases n
  {
    hide ReadEntry;
    if i < n - 1 {
      NoneLater(l, b, total, i, n - 1);
    }
  }

  // ---- the round trip -----------------------------------------------------------------------------------

  lemma HeldWord(b: seq<Byte>, at: nat, v: Word)
    requires Holds(b, at, Le32(v))
    ensures WordAt(b, at) == Some(v)
  {
    WordBack(v);
  }

  lemma EntryWordsRead(l: Layout, p: Parts, b: seq<Byte>, i: nat)
    requires i < 3 && EntryLaid(l, p, b, i)
    ensures var (t, o, n) := Entry(l, p, i);
      var at := EntryAt(l, i);
      && o + n <= Total(l, p) && o < 0x1_0000_0000 && n < 0x1_0000_0000
      && WordAt(b, at + l.typeAt) == Some(t) && WordAt(b, at + l.offsetAt) == Some(o) && WordAt(b, at + l.lengthAt) == Some(n)
  {
    hide Holds, WordAt, Total, Entry, EntryAt;
    var (t, o, n) := Entry(l, p, i);
    var at := EntryAt(l, i);
    HeldWord(b, at + l.typeAt, t);
    HeldWord(b, at + l.offsetAt, o);
    HeldWord(b, at + l.lengthAt, n);
  }

  lemma EntryRead(l: Layout, p: Parts, b: seq<Byte>, i: nat)
    requires Fits(l, p) && i < 3 && EntryLaid(l, p, b, i)
    ensures var (t, o, n) := Entry(l, p, i);
      o + n <= Total(l, p) && ReadEntry(l, b, Total(l, p), i) == Some((t, (o, n)))
  {
    hide WordAt, Total, Entry, EntryAt, EntryLaid;
    EntryWordsRead(l, p, b, i);
  }

  /** What the reader should find. */
  function Expected(l: Layout, p: Parts): map<Word, (nat, nat)> {
    var two := map[l.pluginType := (l.hdrSize, PluginLen(l, p)), l.modelType := (ModelAt(l, p), |p.model|)];
    if p.data == [] then two else two[l.dataType := (DataAt(l, p), |p.data|)]
  }

  lemma EntriesRead(l: Layout, p: Parts, b: seq<Byte>)
    requires Fits(l, p) && EntriesLaid(l, p, b)
    ensures ReadEntries(l, b, Total(l, p), Count(p)).Some?
    ensures ReadEntries(l, b, Total(l, p), Count(p)).value == Expected(l, p)
  {
    hide ReadEntry, EntryLaid, Total;
    var total := Total(l, p);
    assert EntryLaid(l, p, b, 0) && EntryLaid(l, p, b, 1);
    EntryRead(l, p, b, 0);
    EntryRead(l, p, b, 1);
    assert ReadEntries(l, b, total, 0) == Some(map[]);
    assert ReadEntries(l, b, total, 1).Some?;
    assert ReadEntries(l, b, total, 2).Some?;
    if p.data != [] {
      assert EntryLaid(l, p, b, 2);
      EntryRead(l, p, b, 2);
    }
  }

  /** Pulling the model out: the first section that says it is one. */
  function Extracted(l: Layout, b: seq<Byte>, i: nat, n: nat): Option<seq<Byte>>
    requires i <= n
    decreases n - i
  {
    if i == n then None
    else
      var at := EntryAt(l, i);
      match (WordAt(b, at + l.typeAt), WordAt(b, at + l.offsetAt), WordAt(b, at + l.lengthAt))
      case (Some(t), Some(o), Some(len)) => if t == l.modelType then Some(Slice(b, o, (o as int) + len)) else Extracted(l, b, i + 1, n)
      case _ => None
  }

  lemma WordsRead(l: Layout, v: seq<seq<Byte>>, b: seq<Byte>, total: Word, count: Word, d: Word)
    requires LayoutOk(l) && |v| == 7 && WordsHold(l, v, b, 7)
    requires v[0] == l.magic && v[1] == l.format && v[4] == Le32(total) && v[5] == Le32(count) && v[6] == Le32(d)
    ensures Slice(b, 0, 4) == l.magic && Slice(b, 4, 8) == l.format
    ensures WordAt(b, l.totalAt) == Some(total) && WordAt(b, l.countAt) == Some(count) && WordAt(b, l.digestAt) == Some(d)
  {
    hide WordAt, Le32;
    assert Holds(b, Words(l)[0], v[0]) && Holds(b, Words(l)[1], v[1]);
    assert Holds(b, Words(l)[4], v[4]) && Holds(b, Words(l)[5], v[5]) && Holds(b, Words(l)[6], v[6]);
    HeldWord(b, l.totalAt, total);
    HeldWord(b, l.countAt, count);
    HeldWord(b, l.digestAt, d);
  }

  lemma ModelExtracted(l: Layout, p: Parts, b: seq<Byte>)
    requires LayoutOk(l) && EntriesLaid(l, p, b) && |b| == Total(l, p) && Holds(b, ModelAt(l, p), p.model)
    ensures Extracted(l, b, 0, Count(p)) == Some(p.model)
  {
    hide EntryAt, WordAt, Words, ModelAt, Total, Le32, EntryLaid, Slice;
    assert EntryLaid(l, p, b, 0) && EntryLaid(l, p, b, 1);
    EntryWordsRead(l, p, b, 0);
    EntryWordsRead(l, p, b, 1);
    SliceIs(b, ModelAt(l, p), ModelAt(l, p) + |p.model|);
    assert Extracted(l, b, 1, Count(p)) == Some(p.model);
  }

  lemma ExpectedAt(l: Layout, p: Parts)
    requires LayoutOk(l)
    ensures l.pluginType in Expected(l, p) && Expected(l, p)[l.pluginType] == (l.hdrSize, PluginLen(l, p))
    ensures l.modelType in Expected(l, p) && Expected(l, p)[l.modelType] == (ModelAt(l, p), |p.model|)
  {
    hide Words, ModelAt;
  }

  /** The reader accepts what was built and finds the parts, inside the container, one after
      the other, with the model aligned; what lies there is what went in, and the model comes
      back out. */
  lemma RoundTrip(l: Layout, p: Parts, digest: seq<Byte> -> Word, blob: seq<Byte>)
    requires LayoutOk(l) && Laid(l, p, digest, blob)
    ensures var r := Reparsed(l, digest, blob);
      r.Some? && r.value == Expected(l, p)
    ensures l.hdrSize + PluginLen(l, p) <= ModelAt(l, p) <= DataAt(l, p) <= |blob| && DataAt(l, p) + |p.data| == |blob|
    ensures ModelAt(l, p) % l.modelAlign == 0
    ensures blob[l.hdrSize + l.manifestSize..l.hdrSize + PluginLen(l, p)] == p.image
    ensures blob[ModelAt(l, p)..ModelAt(l, p) + |p.model|] == p.model
    ensures blob[DataAt(l, p)..DataAt(l, p) + |p.data|] == p.data
    ensures Extracted(l, blob, 0, Count(p)) == Some(p.model)
  {
    hide EntriesLaid, Total, ReadEntries, ModelAt, WordAt, LayoutOk, FieldsLaid, Padded, WordsHold, Extracted, Le32, Slice, Expected;
    ExpectedAt(l, p);
    InOrder(l, p);
    TotalIs(l, p);
    EntriesRead(l, p, blob);
    var d := digest(blob[l.hdrSize..l.hdrSize + PluginLen(l, p)]);
    WordsRead(l, WordValues(l, p, d), blob, Total(l, p), Count(p), d);
    SliceIs(blob, l.hdrSize, l.hdrSize + PluginLen(l, p));
    ModelExtracted(l, p, blob);
  }

  lemma SliceIs(b: seq<Byte>, i: nat, j: nat)
    requires i <= j <= |b|
    ensures Slice(b, i, j) == b[i..j]
  {
  }

  lemma TotalIs(l: Layout, p: Parts)
    ensures Total(l, p) == DataAt(l, p) + |p.data|
  {
  }

  /** A plugin changed after the container was built is accepted if and only if its digest
      is what it was. */
  lemma ChangedPlugin(l: Layout, p: Parts, digest: seq<Byte> -> Word, blob: seq<Byte>, b: seq<Byte>)
    requires LayoutOk(l) && Laid(l, p, digest, blob) && ChangedOnly(blob, b, l.hdrSize, PluginLen(l, p))
    ensures l.hdrSize + PluginLen(l, p) <= |b|
    ensures Reparsed(l, digest, b).Some? <==>
      digest(b[l.hdrSize..l.hdrSize + PluginLen(l, p)]) == digest(blob[l.hdrSize..l.hdrSize + PluginLen(l, p)])
  {
    hide Total, ReadEntries, ModelAt, WordAt, FieldsLaid, Padded, WordsHold, Le32, Slice, Expected, Holds, Words, EntryLaid, EntryAt;
    ExpectedAt(l, p);
    InOrder(l, p);
    PluginEnds(l, p);
    var d := digest(blob[l.hdrSize..l.hdrSize + PluginLen(l, p)]);
    var v := WordValues(l, p, d);
    HeaderWordsApart(l, l.hdrSize, PluginLen(l, p));
    WordsStay(l, v, blob, b, 7, l.hdrSize, PluginLen(l, p));
    forall i: nat | i < Count(p)
      ensures EntryLaid(l, p, b, i)
    {
      EntryInside(l, i);
      EntryStays(l, p, blob, b, i, l.hdrSize, PluginLen(l, p));
    }
    EntriesRead(l, p, b);
    WordsRead(l, v, b, Total(l, p), Count(p), d);
    SliceIs(b, l.hdrSize, l.hdrSize + PluginLen(l, p));
  }

  lemma HeaderWordsApart(l: Layout, from: nat, m: nat)
    requires LayoutOk(l) && l.hdrSize <= from
    ensures forall i :: 0 <= i < 7 ==> Apart(Words(l)[i], 4, from, m)
  {
    hide Words;
  }
}
