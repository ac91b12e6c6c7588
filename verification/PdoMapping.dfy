/** Compiling a PDO map into SDO writes, against a drive that guards its mapping objects. */
module PdoMapping {
  import opened Arith
  import opened Cia402

  type U8 = x: int | 0 <= x < 0x100
  type U16 = x: int | 0 <= x < 0x1_0000

  /** One mapped object of `bits` bits; index 0 is padding. */
  datatype PdoEntry = PdoEntry(index: U16, subindex: U8, bits: U8)

  datatype Direction = Rx | Tx

  /** The PDOs assigned to one sync manager, and each PDO's entry list. */
  datatype PdoMap = PdoMap(assignOverride: U16, pdos: seq<U16>, entries: map<U16, seq<PdoEntry>>)

  /** Outputs go through sync manager 2, inputs through 3. */
  function SyncManager(dir: Direction): nat { if dir == Rx then 2 else 3 }

  /** The assignment object of the direction's sync manager, unless the map names another. */
  function AssignIndex(m: PdoMap, dir: Direction): (r: U16)
    ensures r == if m.assignOverride == 0 then 0x1C10 + SyncManager(dir) else m.assignOverride
  {
    if m.assignOverride != 0 then m.assignOverride else if dir == Rx then 0x1C12 else 0x1C13
  }

  // --- packing (CiA 301, section 7.5.2.36) -------------------------------------------------------

  function Pack(e: PdoEntry): nat { e.index * 0x1_0000 + e.subindex * 0x100 + e.bits }

  function Unpack(v: nat): PdoEntry { PdoEntry(v / 0x1_0000 % 0x1_0000, v / 0x100 % 0x100, v % 0x100) }

  lemma UnpackPack(e: PdoEntry)
    ensures Unpack(Pack(e)) == e && Pack(e) < 0x1_0000_0000
  {
    var low := e.subindex * 0x100 + e.bits;
    assert Pack(e) == e.index * 0x1_0000 + low;
    QuotientAndRemainder(e.index, low, 0x1_0000);
    QuotientAndRemainder(0, e.index, 0x1_0000);
    assert Pack(e) == (e.index * 0x100 + e.subindex) * 0x100 + e.bits;
    QuotientAndRemainder(e.index * 0x100 + e.subindex, e.bits, 0x100);
    QuotientAndRemainder(e.index, e.subindex, 0x100);
  }

  function Packed(list: seq<PdoEntry>): seq<nat> { seq(|list|, k requires 0 <= k < |list| => Pack(list[k])) }

  function Unpacked(values: seq<nat>): seq<PdoEntry> {
    seq(|values|, k requires 0 <= k < |values| => Unpack(values[k]))
  }

  // --- the drive's dictionary --------------------------------------------------------------------

  /** A mapping or assignment object: subindex 0 is the count, the others the entries. */
  datatype Object = Object(count: nat, entries: map<nat, nat>)

  type Dictionary = map<nat, Object>

  function At(d: Dictionary, index: nat): Object { if index in d then d[index] else Object(0, map[]) }

  /** Section 7.5.2.36 of CiA 301: entries are writable only while the object's count is 0; a count is
      accepted only over entries that are there; and a PDO's mapping is locked while the sync manager's
      assignment is active. */
  predicate Accepts(d: Dictionary, assign: nat, index: nat, sub: nat, value: nat) {
    && (index == assign || At(d, assign).count == 0)
    && if sub == 0 then forall k :: 1 <= k <= value ==> k in At(d, index).entries
       else At(d, index).count == 0
  }

  function Put(o: Object, sub: nat, value: nat): Object {
    if sub == 0 then o.(count := value) else o.(entries := o.entries[sub := value])
  }

  /** What the object lists: its first `count` entries. */
  function Listed(o: Object): seq<nat> {
    seq(o.count, k requires 0 <= k => if k + 1 in o.entries then o.entries[k + 1] else 0)
  }

  class Drive {
    const assign: nat
    var objects: Dictionary

    constructor (assign: nat, objects: Dictionary)
      ensures this.assign == assign && this.objects == objects
    {
      this.assign, this.objects := assign, objects;
    }

    method SdoWrite(index: nat, sub: nat, value: nat) returns (ok: bool)
      modifies this
      ensures ok == Accepts(old(objects), assign, index, sub, value)
      ensures objects == if ok then old(objects)[index := Put(At(old(objects), index), sub, value)] else old(objects)
    {
      ok := Accepts(objects, assign, index, sub, value);
      if ok {
        objects := objects[index := Put(At(objects, index), sub, value)];
      }
    }
  }

  /** Only the object `index` may differ. */
  ghost predicate OnlyAt(before: Dictionary, after: Dictionary, index: nat) {
    forall i :: i != index ==> At(after, i) == At(before, i)
  }

  /** The object's first n entries are those of `values`. */
  predicate Starts(o: Object, values: seq<nat>, n: nat) {
    n <= |values| && forall s :: 1 <= s <= n ==> s in o.entries && o.entries[s] == values[s - 1]
  }

  lemma StartsIsListed(o: Object, values: seq<nat>)
    requires Starts(o, values, |values|) && o.count == |values|
    ensures Listed(o) == values
  {
  }

  /** The object is open for entries. */
  predicate Open(d: Dictionary, assign: nat, index: nat) {
    At(d, index).count == 0 && (index == assign || At(d, assign).count == 0)
  }

  /** Writes the values to subindices 1.. and then the count. Accepted exactly when the object is open, or
      when only a count of 0 is written and no active assignment locks it. */
  method WriteList(drive: Drive, index: nat, values: seq<nat>) returns (ok: bool)
    modifies drive
    ensures OnlyAt(old(drive.objects), drive.objects, index)
    ensures ok <==> (index == drive.assign || At(old(drive.objects), drive.assign).count == 0)
                    && (values == [] || At(old(drive.objects), index).count == 0)
    ensures ok ==> Listed(At(drive.objects, index)) == values
  {
    var sub := 1;
    ghost var was := drive.objects;
    while sub <= |values|
      invariant 1 <= sub <= |values| + 1
      invariant OnlyAt(was, drive.objects, index)
      invariant At(drive.objects, index).count == At(was, index).count
      invariant Starts(At(drive.objects, index), values, sub - 1)
      invariant sub > 1 ==> Open(was, drive.assign, index)
    {
      ok := drive.SdoWrite(index, sub, values[sub - 1]);
      if !ok {
        return;
      }
      sub := sub + 1;
    }
    ok := drive.SdoWrite(index, 0, |values|);
    if ok {
      StartsIsListed(At(drive.objects, index), values);
    }
  }

  // --- the compilation ---------------------------------------------------------------------------

  /** Why a map is refused before its writes are complete. */
  datatype Problem = NoEntryList(pdo: U16) | TooManyEntries(pdo: U16) | TooManyPdos

  datatype Outcome = Applied | Refused(problem: Problem) | Rejected

  /** The problem of one PDO. */
  function PdoProblem(m: PdoMap, pdo: U16): Option<Problem> {
    if pdo !in m.entries then Some(NoEntryList(pdo))
    else if |m.entries[pdo]| > 0xFF then Some(TooManyEntries(pdo)) else None
  }

  /** The first problem from the k-th PDO on. */
  function FirstProblem(m: PdoMap, k: nat): Option<Problem>
    requires k <= |m.pdos|
    decreases |m.pdos| - k
  {
    if k == |m.pdos| then if |m.pdos| > 0xFF then Some(TooManyPdos) else None
    else if PdoProblem(m, m.pdos[k]).Some? then PdoProblem(m, m.pdos[k]) else FirstProblem(m, k + 1)
  }

  /** Some of the first k PDOs is the assignment object itself, with entries. */
  ghost predicate Clashes(m: PdoMap, assign: nat, k: nat) {
    && k <= |m.pdos|
    && exists j :: 0 <= j < k && m.pdos[j] == assign && m.pdos[j] in m.entries && m.entries[m.pdos[j]] != []
  }

  /** Some of the first n PDOs comes after such a clash, so its writes are locked out. */
  ghost predicate Blocked(m: PdoMap, assign: nat, n: nat) {
    n <= |m.pdos| && exists k :: 0 <= k < n && m.pdos[k] != assign && Clashes(m, assign, k)
  }

  /** The first PDO with a problem of its own, or the end of the list. */
  function FirstBad(m: PdoMap, k: nat): (n: nat)
    requires k <= |m.pdos|
    ensures k <= n <= |m.pdos|
    ensures forall j :: k <= j < n ==> PdoProblem(m, m.pdos[j]).None?
    ensures n < |m.pdos| ==> PdoProblem(m, m.pdos[n]).Some?
    decreases |m.pdos| - k
  {
    if k == |m.pdos| || PdoProblem(m, m.pdos[k]).Some? then k else FirstBad(m, k + 1)
  }

  /** The drive rejects a write: a PDO before the first bad one is blocked, or the assignment itself is. */
  ghost predicate Rejects(m: PdoMap, assign: nat) {
    || Blocked(m, assign, FirstBad(m, 0))
    || (FirstProblem(m, 0).None? && Clashes(m, assign, |m.pdos|))
  }

  /** The k-th PDO's object lists its configured entries. */
  predicate Mapped(m: PdoMap, d: Dictionary, pdo: U16) {
    pdo in m.entries && Listed(At(d, pdo)) == Packed(m.entries[pdo])
  }

  lemma OneMorePdo(m: PdoMap, assign: nat, k: nat)
    requires k < |m.pdos|
    ensures Clashes(m, assign, k + 1) <==>
            Clashes(m, assign, k) || (m.pdos[k] == assign && m.pdos[k] in m.entries && m.entries[m.pdos[k]] != [])
    ensures Blocked(m, assign, k + 1) <==> Blocked(m, assign, k) || (m.pdos[k] != assign && Clashes(m, assign, k))
  {
  }

  lemma BlockedGrows(m: PdoMap, assign: nat, k: nat, n: nat)
    requires k <= n <= |m.pdos| && Blocked(m, assign, k)
    ensures Blocked(m, assign, n)
  {
  }

  /** Nothing but the map's own objects was touched. */
  ghost predicate Untouched(m: PdoMap, assign: nat, before: Dictionary, after: Dictionary) {
    forall i: nat :: i != assign && i !in m.pdos ==> At(after, i) == At(before, i)
  }

  /** Zero the PDO's count, then write its entries and the new count. */
  method WritePdo(drive: Drive, pdo: U16, list: seq<PdoEntry>) returns (ok: bool)
    modifies drive
    ensures OnlyAt(old(drive.objects), drive.objects, pdo)
    ensures ok <==> pdo == drive.assign || At(old(drive.objects), drive.assign).count == 0
    ensures ok ==> Listed(At(drive.objects, pdo)) == Packed(list)
  {
    ok := drive.SdoWrite(pdo, 0, 0);
    if ok {
      ok := WriteList(drive, pdo, Packed(list));
    }
  }

  /** From any starting dictionary: the drive rejects a write exactly when one of the PDOs is the assignment
      object itself, with entries, and something is still to be written after it; otherwise a map with
      a problem is refused for its first one, and a map without is applied, the drive listing exactly it. */
  method ApplyPdoMap(drive: Drive, m: PdoMap, dir: Direction) returns (r: Outcome)
    requires drive.assign == AssignIndex(m, dir)
    modifies drive
    ensures Untouched(m, drive.assign, old(drive.objects), drive.objects)
    ensures r == if Rejects(m, drive.assign) then Rejected
                 else match FirstProblem(m, 0) case None => Applied case Some(p) => Refused(p)
    ensures r == Applied ==> Listed(At(drive.objects, drive.assign)) == m.pdos
    ensures r == Applied ==> forall pdo :: pdo in m.pdos && pdo != drive.assign ==> Mapped(m, drive.objects, pdo)
    ensures r.Refused? ==> At(drive.objects, drive.assign).count == 0 || Clashes(m, drive.assign, |m.pdos|)
  {
    var assign := AssignIndex(m, dir);
    var ok := drive.SdoWrite(assign, 0, 0);
    var k := 0;
    ghost var was := old(drive.objects);
    while k < |m.pdos|
      invariant k <= |m.pdos|
      invariant FirstProblem(m, k) == FirstProblem(m, 0) && k <= FirstBad(m, 0) && !Blocked(m, drive.assign, k)
      invariant Untouched(m, drive.assign, was, drive.objects)
      invariant forall j :: 0 <= j < k && m.pdos[j] != drive.assign ==> Mapped(m, drive.objects, m.pdos[j])
      invariant At(drive.objects, drive.assign).count == 0 <==> !Clashes(m, drive.assign, k)
    {
      var pdo := m.pdos[k];
      if pdo !in m.entries {
        return Refused(NoEntryList(pdo));
      }
      var list := m.entries[pdo];
      if |list| > 0xFF {
        return Refused(TooManyEntries(pdo));
      }
      ok := WritePdo(drive, pdo, list);
      OneMorePdo(m, drive.assign, k);
      if !ok {
        BlockedGrows(m, drive.assign, k + 1, FirstBad(m, 0));
        return Rejected;
      }
      k := k + 1;
    }
    if |m.pdos| > 0xFF {
      return Refused(TooManyPdos);
    }
    ok := WriteList(drive, assign, m.pdos);
    r := if ok then Applied else Rejected;
  }

  /** A map that does not list the assignment object is never rejected, duplicates or not. */
  lemma NeverRejected(m: PdoMap, assign: nat)
    requires forall pdo :: pdo in m.pdos ==> pdo != assign
    ensures !Rejects(m, assign)
  {
    forall k ensures !Clashes(m, assign, k) {
      assert forall j :: 0 <= j < |m.pdos| ==> m.pdos[j] in m.pdos;
    }
  }

  /** Listing the packed entries is listing the map: decoding the drive gives back every entry. */
  lemma MappedDecodes(m: PdoMap, d: Dictionary, pdo: U16)
    requires Mapped(m, d, pdo)
    ensures Unpacked(Listed(At(d, pdo))) == m.entries[pdo]
  {
    var list := m.entries[pdo];
    forall k | 0 <= k < |list| ensures Unpacked(Packed(list))[k] == list[k] {
      UnpackPack(list[k]);
    }
  }
}
