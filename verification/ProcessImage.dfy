/** Process-image fields: from a PDO map to byte locations, and little-endian access through them. */
module ProcessImage {
  import opened Cia402
  import opened PdoMapping

  // --- sizes -------------------------------------------------------------------------------------

  function Bits(list: seq<PdoEntry>): nat { if list == [] then 0 else Bits(list[..|list| - 1]) + list[|list| - 1].bits }

  /** Bits of all entry lists with a PDO index below n, in the map's key order. */
  function BitsBelow(entries: map<U16, seq<PdoEntry>>, n: nat): nat
    requires n <= 0x1_0000
  {
    if n == 0 then 0 else BitsBelow(entries, n - 1) + if n - 1 in entries then Bits(entries[n - 1]) else 0
  }

  /** Size of the image in bytes; None when the bits do not fill whole bytes. */
  method ByteSize(m: PdoMap) returns (size: Option<nat>)
    ensures size == if BitsBelow(m.entries, 0x1_0000) % 8 == 0 then Some(BitsBelow(m.entries, 0x1_0000) / 8) else None
  {
    var bits := 0;
    for pdo := 0 to 0x1_0000
      invariant bits == BitsBelow(m.entries, pdo)
    {
      if pdo in m.entries {
        var list := m.entries[pdo];
        var before := bits;
        for k := 0 to |list|
          invariant bits == before + Bits(list[..k])
        {
          assert list[..k + 1][..k] == list[..k];
          bits := bits + list[k].bits;
        }
        assert list[..|list|] == list;
      }
    }
    size := if bits % 8 != 0 then None else Some(bits / 8);
  }

  // --- the field table ---------------------------------------------------------------------------

  datatype Field = Field(offset: nat, bits: nat)

  datatype Built = Table(fields: map<nat, Field>) | MissingList(pdo: U16) | Misaligned

  function Key(index: U16, subindex: U8): nat { index * 0x100 + subindex }

  lemma KeyIsInjective(i: U16, s: U8, j: U16, t: U8)
    requires Key(i, s) == Key(j, t)
    ensures i == j && s == t
  {
  }

  /** All entries of the assigned PDOs, in image order. */
  function Flat(m: PdoMap, n: nat): seq<PdoEntry>
    requires n <= |m.pdos|
  {
    if n == 0 then [] else Flat(m, n - 1) + if m.pdos[n - 1] in m.entries then m.entries[m.pdos[n - 1]] else []
  }

  /** Every named entry starts on a byte and fills whole bytes. */
  predicate Aligned(flat: seq<PdoEntry>) {
    forall k :: 0 <= k < |flat| && flat[k].index != 0 ==> Bits(flat[..k]) % 8 == 0 && flat[k].bits % 8 == 0
  }

  /** `flat[k]` is the last entry with this key. */
  predicate LastWith(flat: seq<PdoEntry>, key: nat, k: nat) {
    && k < |flat| && flat[k].index != 0 && Key(flat[k].index, flat[k].subindex) == key
    && forall j :: k < j < |flat| && flat[j].index != 0 ==> Key(flat[j].index, flat[j].subindex) != key
  }

  /** The field is where the map puts the entry. */
  predicate Places(flat: seq<PdoEntry>, f: Field, k: nat) {
    k < |flat| && 8 * f.offset == Bits(flat[..k]) && f.bits == flat[k].bits
  }

  /** The table of an entry sequence: its keys are the named entries', each at the last one's place. */
  ghost predicate Describes(flat: seq<PdoEntry>, fields: map<nat, Field>) {
    && (forall key :: key in fields ==> exists k :: LastWith(flat, key, k) && Places(flat, fields[key], k))
    && (forall k :: 0 <= k < |flat| && flat[k].index != 0 ==> Key(flat[k].index, flat[k].subindex) in fields)
  }

  lemma PrefixStays(flat: seq<PdoEntry>, e: PdoEntry, k: nat)
    requires k <= |flat|
    ensures (flat + [e])[..k] == flat[..k]
  {
  }

  lemma DescribesOneMore(flat: seq<PdoEntry>, e: PdoEntry, fields: map<nat, Field>)
    requires Describes(flat, fields) && (e.index != 0 ==> Bits(flat) % 8 == 0)
    ensures Describes(flat + [e], if e.index == 0 then fields
                                  else fields[Key(e.index, e.subindex) := Field(Bits(flat) / 8, e.bits)])
  {
    var all := flat + [e];
    var now := if e.index == 0 then fields else fields[Key(e.index, e.subindex) := Field(Bits(flat) / 8, e.bits)];
    assert all[..|flat|] == flat;
    forall key | key in now ensures exists k :: LastWith(all, key, k) && Places(all, now[key], k) {
      if e.index != 0 && key == Key(e.index, e.subindex) {
        assert LastWith(all, key, |flat|) && Places(all, now[key], |flat|);
      } else {
        var k :| LastWith(flat, key, k) && Places(flat, fields[key], k);
        PrefixStays(flat, e, k);
        assert LastWith(all, key, k) && Places(all, now[key], k);
      }
    }
  }

  lemma AlignedOneMore(flat: seq<PdoEntry>, e: PdoEntry)
    ensures Aligned(flat + [e]) <==> Aligned(flat) && (e.index != 0 ==> Bits(flat) % 8 == 0 && e.bits % 8 == 0)
  {
    var all := flat + [e];
    assert all[..|flat|] == flat;
    forall k | 0 <= k < |flat| ensures all[..k] == flat[..k] {
      PrefixStays(flat, e, k);
    }
    if Aligned(all) {
      assert all[|flat|] == e;
      forall k | 0 <= k < |flat| && flat[k].index != 0 ensures Bits(flat[..k]) % 8 == 0 && flat[k].bits % 8 == 0 {
        assert all[k] == flat[k];
      }
    }
  }

  lemma BitsOneMore(flat: seq<PdoEntry>, e: PdoEntry)
    ensures Bits(flat + [e]) == Bits(flat) + e.bits
  {
    assert (flat + [e])[..|flat|] == flat;
  }

  lemma AlignedPrefix(short: seq<PdoEntry>, long: seq<PdoEntry>)
    requires short <= long && Aligned(long)
    ensures Aligned(short)
  {
    forall k | 0 <= k < |short| && short[k].index != 0 ensures Bits(short[..k]) % 8 == 0 && short[k].bits % 8 == 0 {
      assert long[k] == short[k] && long[..k] == short[..k];
    }
  }

  lemma {:induction false} FlatGrows(m: PdoMap, n: nat, k: nat)
    requires n <= k <= |m.pdos|
    ensures Flat(m, n) <= Flat(m, k)
    decreases k
  {
    if n < k {
      FlatGrows(m, n, k - 1);
    }
  }

  /** One entry more: its bits, whether it keeps the alignment, and the table if it does. */
  lemma TableOneMore(flat: seq<PdoEntry>, e: PdoEntry, fields: map<nat, Field>)
    requires Describes(flat, fields) && Aligned(flat)
    ensures Bits(flat + [e]) == Bits(flat) + e.bits
    ensures Aligned(flat + [e]) <==> e.index == 0 || (Bits(flat) % 8 == 0 && e.bits % 8 == 0)
    ensures e.index == 0 ==> Describes(flat + [e], fields)
    ensures e.index != 0 && Bits(flat) % 8 == 0 ==>
              Describes(flat + [e], fields[Key(e.index, e.subindex) := Field(Bits(flat) / 8, e.bits)])
  {
    BitsOneMore(flat, e);
    AlignedOneMore(flat, e);
    if e.index == 0 || Bits(flat) % 8 == 0 {
      DescribesOneMore(flat, e, fields);
    }
  }

  predicate Listed(m: PdoMap) { forall pdo :: pdo in m.pdos ==> pdo in m.entries }

  /** Adds one entry; stops exactly when the entry breaks the alignment. */
  method AddEntry(ghost flat: seq<PdoEntry>, e: PdoEntry, fields: map<nat, Field>, bit: nat)
    returns (ok: bool, now: map<nat, Field>)
    requires Describes(flat, fields) && Aligned(flat) && bit == Bits(flat)
    ensures ok <==> Aligned(flat + [e])
    ensures ok ==> Describes(flat + [e], now) && bit + e.bits == Bits(flat + [e])
  {
    TableOneMore(flat, e, fields);
    now := fields;
    ok := true;
    if e.index != 0 {
      if bit % 8 != 0 || e.bits % 8 != 0 {
        return false, now;
      }
      now := fields[Key(e.index, e.subindex) := Field(bit / 8, e.bits)];
    }
  }

  lemma PrefixOneMore(before: seq<PdoEntry>, list: seq<PdoEntry>, k: nat)
    requires k < |list|
    ensures before + list[..k + 1] == before + list[..k] + [list[k]]
  {
  }

  /** Adds one PDO's entry list. */
  method AddList(ghost before: seq<PdoEntry>, list: seq<PdoEntry>, fields: map<nat, Field>, bit: nat)
    returns (ok: bool, now: map<nat, Field>, end: nat)
    requires Describes(before, fields) && Aligned(before) && bit == Bits(before)
    ensures ok <==> Aligned(before + list)
    ensures ok ==> Describes(before + list, now) && end == Bits(before + list)
  {
    now, end := fields, bit;
    ok := true;
    assert before + list[..0] == before;
    for k := 0 to |list|
      invariant Describes(before + list[..k], now) && Aligned(before + list[..k]) && end == Bits(before + list[..k])
    {
      PrefixOneMore(before, list, k);
      ok, now := AddEntry(before + list[..k], list[k], now, end);
      if !ok {
        if Aligned(before + list) {
          AlignedPrefix(before + list[..k + 1], before + list);
        }
        return;
      }
      end := end + list[k].bits;
    }
    assert list[..|list|] == list;
    ok := true;
  }

  /** The table and bit offset after the first n PDOs. */
  ghost predicate TableFor(m: PdoMap, n: nat, fields: map<nat, Field>, bit: nat) {
    n <= |m.pdos| && bit == Bits(Flat(m, n)) && Aligned(Flat(m, n)) && Describes(Flat(m, n), fields)
  }

  /** Adds the n-th PDO. */
  method AddPdo(m: PdoMap, n: nat, fields: map<nat, Field>, bit: nat) returns (ok: bool, now: map<nat, Field>, end: nat)
    requires n < |m.pdos| && m.pdos[n] in m.entries && TableFor(m, n, fields, bit)
    ensures ok ==> TableFor(m, n + 1, now, end)
    ensures !ok ==> !Aligned(Flat(m, |m.pdos|))
  {
    ok, now, end := AddList(Flat(m, n), m.entries[m.pdos[n]], fields, bit);
    if !ok {
      MisalignedFlat(m, n + 1);
    }
  }

  /** Builds the table exactly when every assigned PDO has an entry list and every named entry is
      byte-aligned and whole; the table then describes the flattened map. */
  method BuildFieldTable(m: PdoMap) returns (r: Built)
    ensures r.Table? <==> Listed(m) && Aligned(Flat(m, |m.pdos|))
    ensures r.Table? ==> Describes(Flat(m, |m.pdos|), r.fields)
    ensures r.MissingList? ==> r.pdo in m.pdos && r.pdo !in m.entries
    ensures r == Misaligned ==> !Aligned(Flat(m, |m.pdos|))
  {
    var fields: map<nat, Field> := map[];
    var bit := 0;
    assert TableFor(m, 0, fields, bit);
    for n := 0 to |m.pdos|
      invariant TableFor(m, n, fields, bit)
      invariant forall j :: 0 <= j < n ==> m.pdos[j] in m.entries
    {
      var pdo := m.pdos[n];
      if pdo !in m.entries {
        return MissingList(pdo);
      }
      var ok;
      ok, fields, bit := AddPdo(m, n, fields, bit);
      if !ok {
        return Misaligned;
      }
    }
    r := Table(fields);
  }

  lemma MisalignedFlat(m: PdoMap, n: nat)
    requires n <= |m.pdos| && !Aligned(Flat(m, n))
    ensures !Aligned(Flat(m, |m.pdos|))
  {
    FlatGrows(m, n, |m.pdos|);
    if Aligned(Flat(m, |m.pdos|)) {
      AlignedPrefix(Flat(m, n), Flat(m, |m.pdos|));
    }
  }

  // --- locations ---------------------------------------------------------------------------------

  datatype Resolved = At(offset: nat) | NotMapped | WrongWidth

  /** A lookup with the accessor's width checked against the mapped one. */
  function ResolveField(fields: map<nat, Field>, index: U16, subindex: U8, width: nat): (r: Resolved)
    ensures r.At? <==> Key(index, subindex) in fields && fields[Key(index, subindex)].bits / 8 == width
    ensures r == NotMapped <==> Key(index, subindex) !in fields
  {
    var key := Key(index, subindex);
    if key !in fields then NotMapped
    else if fields[key].bits / 8 != width then WrongWidth
    else At(fields[key].offset)
  }

  lemma {:induction false} BitsSplit(a: seq<PdoEntry>, b: seq<PdoEntry>)
    ensures Bits(a + b) == Bits(a) + Bits(b)
    decreases |b|
  {
    if b == [] {
      assert a + b == a;
    } else {
      BitsSplit(a, b[..|b| - 1]);
      assert (a + b)[..|a + b| - 1] == a + b[..|b| - 1];
    }
  }

  /** An entry ends where the next one may start. */
  lemma EntryEnds(flat: seq<PdoEntry>, j: nat, k: nat)
    requires j < k <= |flat|
    ensures Bits(flat[..j]) + flat[j].bits <= Bits(flat[..k])
  {
    BitsSplit(flat[..j + 1], flat[j + 1..k]);
    assert flat[..j + 1] + flat[j + 1..k] == flat[..k];
    assert flat[..j + 1] == flat[..j] + [flat[j]];
    BitsOneMore(flat[..j], flat[j]);
  }

  /** The byte ranges of two fields do not overlap. */
  predicate Apart(f: Field, g: Field) {
    f.offset + f.bits / 8 <= g.offset || g.offset + g.bits / 8 <= f.offset
  }

  /** The entry a field stands for. */
  lemma Located(flat: seq<PdoEntry>, fields: map<nat, Field>, key: nat) returns (k: nat)
    requires Describes(flat, fields) && key in fields
    ensures LastWith(flat, key, k) && Places(flat, fields[key], k)
  {
    k :| LastWith(flat, key, k) && Places(flat, fields[key], k);
  }

  /** Distinct keys occupy disjoint bytes. */
  lemma DistinctKeysApart(flat: seq<PdoEntry>, fields: map<nat, Field>, a: nat, b: nat)
    requires Describes(flat, fields) && a in fields && b in fields && a != b
    ensures Apart(fields[a], fields[b])
  {
    var j := Located(flat, fields, a);
    var k := Located(flat, fields, b);
    if j < k {
      EntryEnds(flat, j, k);
    } else if k < j {
      EntryEnds(flat, k, j);
    }
  }

  /** The last entry with this key is `bits` wide and starts at bit `start`. */
  ghost predicate MappedAt(flat: seq<PdoEntry>, key: nat, bits: nat, start: nat) {
    exists k: nat :: LastWith(flat, key, k) && flat[k].bits == bits && Bits(flat[..k]) == start
  }

  /** No entry has this key. */
  predicate Unmapped(flat: seq<PdoEntry>, key: nat) {
    forall k :: 0 <= k < |flat| && flat[k].index != 0 ==> Key(flat[k].index, flat[k].subindex) != key
  }

  /** Resolving an object against the map: it has location o exactly when the last entry that maps it has
      the wanted width and starts at byte o, and it is reported missing exactly when no entry maps it
      (so a wrong width is reported exactly when the last one that does has another width). */
  lemma ResolvedAsMapped(flat: seq<PdoEntry>, fields: map<nat, Field>, index: U16, subindex: U8, width: nat, o: nat)
    requires Describes(flat, fields) && Aligned(flat)
    ensures var r, key := ResolveField(fields, index, subindex, width), Key(index, subindex);
            && (r == At(o) <==> MappedAt(flat, key, 8 * width, 8 * o))
            && (r == NotMapped <==> Unmapped(flat, key))
  {
    var key := Key(index, subindex);
    if key in fields {
      var k := Located(flat, fields, key);
      assert flat[k].bits % 8 == 0 && fields[key].bits == flat[k].bits && 8 * fields[key].offset == Bits(flat[..k]);
      if MappedAt(flat, key, 8 * width, 8 * o) {
        var j: nat :| LastWith(flat, key, j) && flat[j].bits == 8 * width && Bits(flat[..j]) == 8 * o;
        assert j == k;
      }
    }
  }

  predicate NoRepeat(pdos: seq<U16>) { forall j, k :: 0 <= j < k < |pdos| ==> pdos[j] != pdos[k] }

  lemma {:induction false} BitsWithout(entries: map<U16, seq<PdoEntry>>, pdo: U16, n: nat)
    requires pdo in entries && n <= 0x1_0000
    ensures BitsBelow(entries, n) == BitsBelow(entries - {pdo}, n) + if pdo < n then Bits(entries[pdo]) else 0
  {
    if n > 0 {
      BitsWithout(entries, pdo, n - 1);
    }
  }

  /** Without repeats, the assigned PDOs hold no more bits than the map's entry lists. */
  lemma {:induction false} FlatFits(m: PdoMap)
    requires NoRepeat(m.pdos) && Listed(m)
    ensures Bits(Flat(m, |m.pdos|)) <= BitsBelow(m.entries, 0x1_0000)
    decreases |m.pdos|
  {
    if m.pdos != [] {
      var last := m.pdos[|m.pdos| - 1];
      var rest := PdoMap(m.assignOverride, m.pdos[..|m.pdos| - 1], m.entries - {last});
      FlatFits(rest);
      FlatSame(m, rest, |rest.pdos|);
      BitsSplit(Flat(m, |rest.pdos|), m.entries[last]);
      BitsWithout(m.entries, last, 0x1_0000);
    }
  }

  lemma {:induction false} FlatSame(m: PdoMap, rest: PdoMap, n: nat)
    requires n <= |rest.pdos| <= |m.pdos|
    requires forall k :: 0 <= k < |rest.pdos| ==>
               rest.pdos[k] == m.pdos[k] && m.pdos[k] in m.entries && m.pdos[k] in rest.entries
               && rest.entries[m.pdos[k]] == m.entries[m.pdos[k]]
    ensures Flat(m, n) == Flat(rest, n)
  {
    if n > 0 {
      FlatSame(m, rest, n - 1);
    }
  }

  /** Every location fits in byte_size(), when the PDO list has no duplicates. */
  lemma LocationFits(m: PdoMap, fields: map<nat, Field>, key: nat)
    requires NoRepeat(m.pdos) && Listed(m) && Describes(Flat(m, |m.pdos|), fields) && key in fields
    requires Aligned(Flat(m, |m.pdos|)) && BitsBelow(m.entries, 0x1_0000) % 8 == 0
    ensures fields[key].offset + fields[key].bits / 8 <= BitsBelow(m.entries, 0x1_0000) / 8
  {
    var flat := Flat(m, |m.pdos|);
    var k := Located(flat, fields, key);
    assert flat[..|flat|] == flat;
    EntryEnds(flat, k, |flat|);
    FlatFits(m);
  }

  /** Where the last named entry ends. */
  function NamedEnd(flat: seq<PdoEntry>): (n: nat)
    ensures n <= |flat| && (n > 0 ==> flat[n - 1].index != 0)
    ensures forall k :: n <= k < |flat| ==> flat[k].index == 0
  {
    if flat == [] then 0
    else if flat[|flat| - 1].index != 0 then |flat| else NamedEnd(flat[..|flat| - 1])
  }

  /** The named entries end within `size` bytes. */
  predicate EndsWithin(flat: seq<PdoEntry>, size: nat) { Bits(flat[..NamedEnd(flat)]) <= 8 * size }

  /** Every location of a described map lies within `size` bytes exactly when its named entries end there. */
  lemma FieldsFitExactly(flat: seq<PdoEntry>, fields: map<nat, Field>, size: nat)
    requires Describes(flat, fields) && Aligned(flat)
    ensures EndsWithin(flat, size) <==>
            forall key :: key in fields ==> fields[key].offset + fields[key].bits / 8 <= size
  {
    var n := NamedEnd(flat);
    if EndsWithin(flat, size) {
      forall key | key in fields ensures fields[key].offset + fields[key].bits / 8 <= size {
        var k := Located(flat, fields, key);
        EntryEnds(flat, k, n);
      }
    }
    if n > 0 {
      LastNamedEnds(flat, fields);
    }
  }

  /** Exactly when every location fits in byte_size(), duplicates or not: the assigned PDOs, up to the end of
      their last named entry, hold no more bits than the map's entry lists together. */
  lemma LocationsFitExactly(m: PdoMap, fields: map<nat, Field>)
    requires Describes(Flat(m, |m.pdos|), fields) && Aligned(Flat(m, |m.pdos|))
    requires BitsBelow(m.entries, 0x1_0000) % 8 == 0
    ensures var flat, total := Flat(m, |m.pdos|), BitsBelow(m.entries, 0x1_0000);
            (forall key :: key in fields ==> fields[key].offset + fields[key].bits / 8 <= total / 8)
            <==> Bits(flat[..NamedEnd(flat)]) <= total
  {
    FieldsFitExactly(Flat(m, |m.pdos|), fields, BitsBelow(m.entries, 0x1_0000) / 8);
  }

  /** The last named entry has a location, and it ends where the named entries do. */
  lemma LastNamedEnds(flat: seq<PdoEntry>, fields: map<nat, Field>)
    requires Describes(flat, fields) && Aligned(flat) && NamedEnd(flat) > 0
    ensures var e := flat[NamedEnd(flat) - 1];
            && Key(e.index, e.subindex) in fields && fields[Key(e.index, e.subindex)].bits % 8 == 0
            && var f := fields[Key(e.index, e.subindex)]; 8 * f.offset + f.bits == Bits(flat[..NamedEnd(flat)])
  {
    var n := NamedEnd(flat);
    var e := flat[n - 1];
    var k := Located(flat, fields, Key(e.index, e.subindex));
    assert k == n - 1;
    BitsOneMore(flat[..n - 1], e);
    assert flat[..n - 1] + [e] == flat[..n];
  }

  const TWICE := PdoMap(0, [0x1600, 0x1600], map[0x1600 := [PdoEntry(0x6040, 0, 16)]])

  lemma TwiceFlat()
    ensures Flat(TWICE, 2) == [PdoEntry(0x6040, 0, 16), PdoEntry(0x6040, 0, 16)]
  {
    assert Flat(TWICE, 2) == Flat(TWICE, 1) + TWICE.entries[0x1600];
    assert Flat(TWICE, 1) == Flat(TWICE, 0) + TWICE.entries[0x1600];
  }

  lemma TwoEntries(e: PdoEntry)
    ensures Bits([e, e][..0]) == 0 && Bits([e, e][..1]) == e.bits
  {
    assert [e, e][..0] == [] && [e, e][..1] == [e] && [e][..0] == [];
  }

  lemma TwiceBits()
    ensures BitsBelow(TWICE.entries, 0x1_0000) == 16
  {
    var e := PdoEntry(0x6040, 0, 16);
    BitsWithout(TWICE.entries, 0x1600, 0x1_0000);
    NothingBelow(TWICE.entries - {0x1600}, 0x1_0000);
    assert TWICE.entries[0x1600] == [] + [e];
    BitsOneMore([], e);
  }

  lemma TwoAligned(e: PdoEntry, fields: map<nat, Field>)
    requires e.index != 0 && e.bits == 16 && Describes([e, e], fields)
    ensures Aligned([e, e])
    ensures Key(e.index, e.subindex) in fields && fields[Key(e.index, e.subindex)] == Field(2, 16)
  {
    TwoEntries(e);
    assert [e, e][1].index != 0;
    var k := Located([e, e], fields, Key(e.index, e.subindex));
  }

  /** With a PDO listed twice the condition can fail: this one-field map of 2 bytes puts its field at bytes 2
      and 3. */
  lemma RepeatedPdoDoesNotFit(fields: map<nat, Field>)
    requires Describes(Flat(TWICE, 2), fields)
    ensures Listed(TWICE) && Aligned(Flat(TWICE, 2)) && BitsBelow(TWICE.entries, 0x1_0000) == 16
    ensures Key(0x6040, 0) in fields && fields[Key(0x6040, 0)] == Field(2, 16)
  {
    TwiceFlat();
    TwiceBits();
    TwoAligned(PdoEntry(0x6040, 0, 16), fields);
  }

  lemma {:induction false} NothingBelow(entries: map<U16, seq<PdoEntry>>, n: nat)
    requires entries == map[] && n <= 0x1_0000
    ensures BitsBelow(entries, n) == 0
  {
    if n > 0 {
      NothingBelow(entries, n - 1);
    }
  }
}
