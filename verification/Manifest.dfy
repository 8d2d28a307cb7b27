/** The plugin's manifest: which fields the packer writes, and what a loader reads back of
    the stack declaration and the names. */
module Manifest {
  import opened Thumb
  import opened Container

  /** One service slot: its entry, 0 when absent; the stack its own frames take; and what
      it takes below a crossing, if it reaches one. */
  datatype Slot = Slot(entry: Word, own: Word, cross: Option<Word>)

  /** Where the fields stand, and how much the two names may take with their NUL. */
  datatype Places = Places(magicAt: nat, slotAt: nat, ownAt: nat, crossAt: nat, crossingAt: nat,
                           nameAt: nat, nameMax: Positive, buildAt: nat, buildMax: Positive)

  /** `words` are the fields that are one word each, with their places. */
  datatype Manifest = Manifest(magic: seq<Byte>, words: seq<(nat, Word)>, slots: seq<Slot>, name: seq<Byte>, build: seq<Byte>)

  /** What is declared of a slot: nothing, when it is absent. */
  function Declared(s: Slot): Slot {
    if s.entry == 0 then Slot(0, 0, None) else s
  }

  function Pow2(i: nat): (p: nat)
    ensures p > 0
  {
    if i == 0 then 1 else 2 * Pow2(i - 1)
  }

  /** Bit i is set for a slot that reaches a crossing. */
  function Crossing(slots: seq<Slot>): nat {
    if slots == [] then 0
    else
      var n := |slots| - 1;
      Crossing(slots[..n]) + if Declared(slots[n]).cross.Some? then Pow2(n) else 0
  }

  /** A name is cut so that its NUL fits. */
  function Cut(name: seq<Byte>, max: Positive): seq<Byte> {
    if |name| < max then name else name[..max - 1]
  }

  function WordFields(words: seq<(nat, Word)>): seq<(nat, seq<Byte>)> {
    seq(|words|, i requires 0 <= i < |words| => (words[i].0, Le32(words[i].1)))
  }

  /** The three words of each slot. */
  function SlotFields(l: Places, slots: seq<Slot>): seq<(nat, seq<Byte>)> {
    if slots == [] then []
    else
      var n := |slots| - 1;
      var s := Declared(slots[n]);
      SlotFields(l, slots[..n])
      + [(l.slotAt + 4 * n, Le32(s.entry)), (l.ownAt + 4 * n, Le32(s.own)),
         (l.crossAt + 4 * n, Le32(if s.cross.None? then 0 else s.cross.value))]
  }

  /** Everything the packer writes into the manifest. */
  function Fields(l: Places, m: Manifest): seq<(nat, seq<Byte>)>
    requires Crossing(m.slots) < 0x1_0000_0000
  {
    [(l.magicAt, m.magic)] + WordFields(m.words) + SlotFields(l, m.slots)
    + [(l.crossingAt, Le32(Crossing(m.slots))), (l.nameAt, Cut(m.name, l.nameMax)), (l.buildAt, Cut(m.build, l.buildMax))]
  }

  // ---- the bits of the crossing word ----------------------------------------------------------

  predicate BitOf(v: nat, i: nat) {
    v / Pow2(i) % 2 == 1
  }

  lemma {:induction false} CrossingBelow(slots: seq<Slot>)
    ensures Crossing(slots) < Pow2(|slots|)
  {
    if slots != [] {
      CrossingBelow(slots[..|slots| - 1]);
    }
  }

  /** A number below 2^n, and 2^n or not: the bit n, and the bits below it. */
  lemma TopBit(v: nat, n: nat, top: bool, i: nat)
    requires v < Pow2(n)
    ensures var w := v + if top then Pow2(n) else 0;
      && (i == n ==> (BitOf(w, i) <==> top)) && (i < n ==> (BitOf(w, i) <==> BitOf(v, i)))
  {
    hide Pow2;
    if i == n {
      Over(v, Pow2(n));
    } else if i < n && top {
      Doubled(i, n);
      LowBits(v, Pow2(i), Pow2(n - i - 1), Pow2(n));
    }
  }

  lemma Over(v: nat, p: nat)
    requires v < p
    ensures v / p == 0 && (v + p) / p == 1
  {
    Quotient(v, p, 0, v);
    Quotient(v + p, p, 1, v);
  }

  lemma LowBits(v: nat, p: nat, q: nat, top: nat)
    requires p > 0 && top == 2 * q * p
    ensures (v + top) / p % 2 == v / p % 2
  {
    Shifted(v, p, 2 * q);
    var d := v / p;
    assert (d + 2 * q) % 2 == d % 2;
  }

  lemma Shifted(v: nat, p: nat, k: nat)
    requires p > 0
    ensures (v + k * p) / p == v / p + k
  {
    assert v == v / p * p + v % p;
    assert v + k * p == (v / p + k) * p + v % p;
    Quotient(v + k * p, p, v / p + k, v % p);
  }

  lemma Quotient(v: nat, p: nat, q: nat, r: nat)
    requires p > 0 && r < p && v == q * p + r
    ensures v / p == q
  {
    var d := v / p - q;
    assert v == v / p * p + v % p;
    assert d * p == v / p * p - q * p;
    Steps(d, p);
  }

  lemma {:induction false} Doubled(i: nat, n: nat)
    requires i < n
    ensures Pow2(n) == 2 * Pow2(n - i - 1) * Pow2(i)
  {
    if i > 0 {
      Doubled(i - 1, n - 1);
      Regroup(Pow2(n - i - 1), Pow2(i - 1));
    }
  }

  lemma Regroup(q: nat, p: nat)
    ensures 2 * (2 * q * p) == 2 * q * (2 * p)
  {
  }

  /** Bit i of the word is set exactly when slot i is there and reaches a crossing. */
  lemma {:induction false} CrossingBits(slots: seq<Slot>, i: nat)
    requires i < |slots|
    ensures BitOf(Crossing(slots), i) <==> slots[i].entry != 0 && slots[i].cross.Some?
  {
    hide BitOf;
    var n := |slots| - 1;
    CrossingBelow(slots[..n]);
    TopBit(Crossing(slots[..n]), n, Declared(slots[n]).cross.Some?, i);
    if i < n {
      CrossingBits(slots[..n], i);
      assert slots[..n][i] == slots[i];
    }
  }

  /** Up to 32 slots the word holds them. */
  lemma CrossingFits(slots: seq<Slot>)
    requires |slots| <= 32
    ensures Crossing(slots) < 0x1_0000_0000
  {
    hide Pow2, Crossing;
    CrossingBelow(slots);
    Powers(|slots|, 32);
    Eight(0);
    Eight(8);
    Eight(16);
    Eight(24);
    assert Pow2(0) == 1 by { One(); }
  }

  lemma One()
    ensures Pow2(0) == 1
  {
  }

  lemma Eight(n: nat)
    ensures Pow2(n + 8) == 0x100 * Pow2(n)
  {
    assert Pow2(n + 2) == 4 * Pow2(n);
    assert Pow2(n + 4) == 4 * Pow2(n + 2);
    assert Pow2(n + 6) == 4 * Pow2(n + 4);
  }

  lemma {:induction false} Powers(i: nat, n: nat)
    requires i <= n
    ensures Pow2(i) <= Pow2(n)
    decreases n
  {
    if i < n {
      Powers(i, n - 1);
    }
  }

  // ---- what a loader reads ----------------------------------------------------------------------

  lemma {:induction false} SlotFieldsHave(l: Places, slots: seq<Slot>, i: nat)
    requires i < |slots|
    ensures var s := Declared(slots[i]);
      && (l.slotAt + 4 * i, Le32(s.entry)) in SlotFields(l, slots)
      && (l.ownAt + 4 * i, Le32(s.own)) in SlotFields(l, slots)
      && (l.crossAt + 4 * i, Le32(if s.cross.None? then 0 else s.cross.value)) in SlotFields(l, slots)
  {
    hide Le32;
    var n := |slots| - 1;
    if i < n {
      SlotFieldsHave(l, slots[..n], i);
      assert slots[..n][i] == slots[i];
    }
  }

  lemma FieldHeld(l: Layout, p: Parts, blob: seq<Byte>, f: (nat, seq<Byte>))
    requires FieldsLaid(l, p, blob, |p.manifest|) && f in p.manifest
    ensures Holds(blob, l.hdrSize + f.0, f.1)
  {
    hide Holds;
  }

  /** In a container that was built, the loader finds of every slot what is declared of it,
      the bit that tells whether it reaches a crossing, and the names as far as they fit. */
  lemma DeclarationRead(l: Layout, places: Places, m: Manifest, p: Parts, digest: seq<Byte> -> Word, blob: seq<Byte>, i: nat)
    requires Crossing(m.slots) < 0x1_0000_0000 && p.manifest == Fields(places, m) && Laid(l, p, digest, blob) && i < |m.slots|
    ensures var s := Declared(m.slots[i]);
      && WordAt(blob, l.hdrSize + places.slotAt + 4 * i) == Some(s.entry)
      && WordAt(blob, l.hdrSize + places.ownAt + 4 * i) == Some(s.own)
      && WordAt(blob, l.hdrSize + places.crossAt + 4 * i) == Some(if s.cross.None? then 0 else s.cross.value)
    ensures var w := WordAt(blob, l.hdrSize + places.crossingAt);
      w.Some? && (BitOf(w.value, i) <==> m.slots[i].entry != 0 && m.slots[i].cross.Some?)
    ensures Holds(blob, l.hdrSize + places.nameAt, Cut(m.name, places.nameMax))
    ensures Holds(blob, l.hdrSize + places.buildAt, Cut(m.build, places.buildMax))
  {
    hide Holds, WordAt, Le32, BitOf, SlotFields, Crossing, WordFields, EntriesLaid, WordsHold, FieldsLaid, Padded, Total, ModelAt;
    var s := Declared(m.slots[i]);
    var cross: Word := if s.cross.None? then 0 else s.cross.value;
    SlotFieldsHave(places, m.slots, i);
    FieldHeld(l, p, blob, (places.slotAt + 4 * i, Le32(s.entry)));
    FieldHeld(l, p, blob, (places.ownAt + 4 * i, Le32(s.own)));
    FieldHeld(l, p, blob, (places.crossAt + 4 * i, Le32(cross)));
    FieldHeld(l, p, blob, (places.crossingAt, Le32(Crossing(m.slots))));
    FieldHeld(l, p, blob, (places.nameAt, Cut(m.name, places.nameMax)));
    FieldHeld(l, p, blob, (places.buildAt, Cut(m.build, places.buildMax)));
    HeldWord(blob, l.hdrSize + places.slotAt + 4 * i, s.entry);
    HeldWord(blob, l.hdrSize + places.ownAt + 4 * i, s.own);
    HeldWord(blob, l.hdrSize + places.crossAt + 4 * i, cross);
    HeldWord(blob, l.hdrSize + places.crossingAt, Crossing(m.slots));
    CrossingBits(m.slots, i);
  }
}
