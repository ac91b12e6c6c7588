/** Little-endian scalars in the process image, and the fields of a map as independent lenses on it. */
module PdoBuffer {
  import opened PdoMapping
  import opened ProcessImage

  // --- octets ------------------------------------------------------------------------------------

  /** raw >> 8i */
  function Shifted(raw: nat, i: nat): nat { if i == 0 then raw else Shifted(raw, i - 1) / 256 }

  /** x << 8i */
  function Raised(x: nat, i: nat): nat { if i == 0 then x else 256 * Raised(x, i - 1) }

  /** 256 to the power w: one more than the largest unsigned value of w bytes. */
  function Span(w: nat): nat { Raised(1, w) }

  /** The value of bytes, least significant first. */
  function Little(bytes: seq<U8>): nat {
    if bytes == [] then 0 else Little(bytes[..|bytes| - 1]) + Raised(bytes[|bytes| - 1], |bytes| - 1)
  }

  function Octets(raw: nat, w: nat): (r: seq<U8>)
    ensures |r| == w
  {
    if w == 0 then [] else Octets(raw, w - 1) + [Shifted(raw, w - 1) % 256]
  }

  lemma {:induction false} RaisedAdds(x: nat, y: nat, i: nat)
    ensures Raised(x + y, i) == Raised(x, i) + Raised(y, i)
  {
    if i > 0 {
      RaisedAdds(x, y, i - 1);
    }
  }

  lemma {:induction false} RaisedByteMore(x: nat, i: nat)
    ensures Raised(256 * x, i) == Raised(x, i + 1)
  {
    if i > 0 {
      RaisedByteMore(x, i - 1);
    }
  }

  lemma RaisedAtLeast(x: nat, i: nat)
    requires x >= 1
    ensures Raised(x, i) >= Span(i)
  {
    RaisedAdds(1, x - 1, i);
  }

  /** What the first w octets hold and what is shifted out make up the value. */
  lemma {:induction false} OctetsSplit(raw: nat, w: nat)
    ensures Little(Octets(raw, w)) + Raised(Shifted(raw, w), w) == raw
  {
    if w > 0 {
      OctetsSplit(raw, w - 1);
      var x := Shifted(raw, w - 1);
      assert Octets(raw, w)[..w - 1] == Octets(raw, w - 1);
      assert x == 256 * (x / 256) + x % 256;
      RaisedAdds(256 * (x / 256), x % 256, w - 1);
      RaisedByteMore(x / 256, w - 1);
    }
  }

  lemma LittleOfOctets(raw: nat, w: nat)
    requires raw < Span(w)
    ensures Little(Octets(raw, w)) == raw
  {
    OctetsSplit(raw, w);
    if Shifted(raw, w) >= 1 {
      RaisedAtLeast(Shifted(raw, w), w);
    } else {
      RaisedAdds(0, 0, w);
    }
  }

  lemma {:induction false} LittleIsBounded(bytes: seq<U8>)
    ensures Little(bytes) < Span(|bytes|)
  {
    if bytes != [] {
      var last, n := bytes[|bytes| - 1], |bytes| - 1;
      LittleIsBounded(bytes[..n]);
      RaisedAdds(last, 255 - last, n);
      RaisedAdds(255, 1, n);
      RaisedByteMore(1, n);
    }
  }

  lemma {:induction false} LittleIsInjective(a: seq<U8>, b: seq<U8>)
    requires |a| == |b| && Little(a) == Little(b)
    ensures a == b
  {
    if a != [] {
      var n := |a| - 1;
      LittleIsBounded(a[..n]);
      LittleIsBounded(b[..n]);
      if a[n] < b[n] {
        RaisedAdds(a[n], b[n] - a[n], n);
        RaisedAtLeast(b[n] - a[n], n);
      } else if b[n] < a[n] {
        RaisedAdds(b[n], a[n] - b[n], n);
        RaisedAtLeast(a[n] - b[n], n);
      }
      LittleIsInjective(a[..n], b[..n]);
      assert a == a[..n] + [a[n]] && b == b[..n] + [b[n]];
    }
  }

  lemma OctetsOfLittle(bytes: seq<U8>)
    ensures Octets(Little(bytes), |bytes|) == bytes
  {
    LittleIsBounded(bytes);
    LittleOfOctets(Little(bytes), |bytes|);
    LittleIsInjective(Octets(Little(bytes), |bytes|), bytes);
  }

  // --- in place ----------------------------------------------------------------------------------

  /** The image with the bytes from `offset` on replaced. */
  function Stored(image: seq<U8>, offset: nat, bytes: seq<U8>): (r: seq<U8>)
    requires offset + |bytes| <= |image|
    ensures |r| == |image|
  {
    image[..offset] + bytes + image[offset + |bytes|..]
  }

  lemma StoredOneMore(image: seq<U8>, offset: nat, bytes: seq<U8>, b: U8)
    requires offset + |bytes| < |image|
    ensures Stored(image, offset, bytes + [b]) == Stored(image, offset, bytes)[offset + |bytes| := b]
  {
  }

  method StoreLe(image: array<U8>, offset: nat, width: nat, raw: nat)
    requires offset + width <= image.Length
    modifies image
    ensures image[..] == Stored(old(image[..]), offset, Octets(raw, width))
  {
    for i := 0 to width
      invariant image[..] == Stored(old(image[..]), offset, Octets(raw, i))
    {
      var octet := Shifted(raw, i) % 256;
      StoredOneMore(old(image[..]), offset, Octets(raw, i), octet);
      image[offset + i] := octet;
    }
  }

  method LoadLe(image: array<U8>, offset: nat, width: nat) returns (raw: nat)
    requires offset + width <= image.Length
    ensures raw == Little(image[offset..offset + width])
  {
    raw := 0;
    for i := 0 to width
      invariant raw == Little(image[offset..offset + i])
    {
      assert image[offset..offset + i + 1][..i] == image[offset..offset + i];
      raw := raw + Raised(image[offset + i], i);
    }
  }

  // --- signed and unsigned values ----------------------------------------------------------------

  /** The values a scalar of `width` bytes can hold. */
  predicate InRange(v: int, width: nat, signed: bool) {
    if signed then 0 - Span(width) <= 2 * v < Span(width) else 0 <= v < Span(width)
  }

  /** Two's complement. */
  function ToRaw(v: int, width: nat, signed: bool): (raw: nat)
    requires InRange(v, width, signed)
    ensures raw < Span(width)
  {
    if v < 0 then v + Span(width) else v
  }

  function FromRaw(raw: nat, width: nat, signed: bool): int {
    if signed && 2 * raw >= Span(width) then raw - Span(width) else raw
  }

  function Load(image: seq<U8>, offset: nat, width: nat, signed: bool): int
    requires offset + width <= |image|
  {
    FromRaw(Little(image[offset..offset + width]), width, signed)
  }

  function Store(image: seq<U8>, offset: nat, width: nat, signed: bool, v: int): seq<U8>
    requires offset + width <= |image| && InRange(v, width, signed)
  {
    Stored(image, offset, Octets(ToRaw(v, width, signed), width))
  }

  /** A load after a store at the same location returns the value, for every width and sign. */
  lemma LoadAfterStore(image: seq<U8>, offset: nat, width: nat, signed: bool, v: int)
    requires offset + width <= |image| && InRange(v, width, signed)
    ensures Load(Store(image, offset, width, signed, v), offset, width, signed) == v
  {
    var raw := ToRaw(v, width, signed);
    LittleOfOctets(raw, width);
    assert Store(image, offset, width, signed, v)[offset..offset + width] == Octets(raw, width);
  }

  /** Storing what was loaded changes nothing. */
  lemma StoreAfterLoad(image: seq<U8>, offset: nat, width: nat, signed: bool)
    requires offset + width <= |image|
    ensures InRange(Load(image, offset, width, signed), width, signed)
    ensures Store(image, offset, width, signed, Load(image, offset, width, signed)) == image
  {
    var bytes := image[offset..offset + width];
    LittleIsBounded(bytes);
    OctetsOfLittle(bytes);
    assert ToRaw(Load(image, offset, width, signed), width, signed) == Little(bytes);
  }

  /** A store changes no byte outside its field. */
  lemma StoreKeepsOthers(image: seq<U8>, offset: nat, width: nat, signed: bool, v: int, o: nat, w: nat)
    requires offset + width <= |image| && InRange(v, width, signed) && o + w <= |image|
    requires offset + width <= o || o + w <= offset
    ensures Store(image, offset, width, signed, v)[o..o + w] == image[o..o + w]
  {
  }

  // --- the fields of a map -----------------------------------------------------------------------

  /** Every aligned map whose PDO list has no duplicates keeps its named entries within byte_size(). */
  lemma WithoutRepeatsFits(m: PdoMap)
    requires NoRepeat(m.pdos) && ProcessImage.Listed(m) && BitsBelow(m.entries, 0x1_0000) % 8 == 0
    ensures EndsWithin(Flat(m, |m.pdos|), BitsBelow(m.entries, 0x1_0000) / 8)
  {
    var flat := Flat(m, |m.pdos|);
    var n := NamedEnd(flat);
    FlatFits(m);
    BitsSplit(flat[..n], flat[n..]);
    assert flat[..n] + flat[n..] == flat;
  }

  /** Process-image fields are independent lenses: over any image the named entries of a flattened map end
      within, each resolved location is inside, reads back what was stored, and a store to it changes no
      other field. */
  lemma FieldsAreLenses(flat: seq<PdoEntry>, fields: map<nat, Field>, image: seq<U8>, a: nat, b: nat, signed: bool,
                        v: int)
    requires Describes(flat, fields) && Aligned(flat) && EndsWithin(flat, |image|)
    requires a in fields && b in fields && a != b && InRange(v, fields[a].bits / 8, signed)
    ensures var f, g := fields[a], fields[b];
            && f.offset + f.bits / 8 <= |image| && g.offset + g.bits / 8 <= |image|
            && Load(Store(image, f.offset, f.bits / 8, signed, v), f.offset, f.bits / 8, signed) == v
            && (forall s :: Load(Store(image, f.offset, f.bits / 8, signed, v), g.offset, g.bits / 8, s)
                            == Load(image, g.offset, g.bits / 8, s))
  {
    var f, g := fields[a], fields[b];
    FieldsFitExactly(flat, fields, |image|);
    DistinctKeysApart(flat, fields, a, b);
    ApartAreLenses(image, f.offset, f.bits / 8, g.offset, g.bits / 8, signed, v);
  }

  lemma ApartAreLenses(image: seq<U8>, o: nat, w: nat, o2: nat, w2: nat, signed: bool, v: int)
    requires o + w <= |image| && o2 + w2 <= |image| && InRange(v, w, signed) && (o + w <= o2 || o2 + w2 <= o)
    ensures Load(Store(image, o, w, signed, v), o, w, signed) == v
    ensures forall s :: Load(Store(image, o, w, signed, v), o2, w2, s) == Load(image, o2, w2, s)
  {
    LoadAfterStore(image, o, w, signed, v);
    StoreKeepsOthers(image, o, w, signed, v, o2, w2);
  }
}
