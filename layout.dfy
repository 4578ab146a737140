/** The `repr(C)` placement of the parameter block's fields (`shader.rs`).

    Each field of a `repr(C)` struct goes, in declaration order, at the first
    offset past the previous field that is a multiple of its alignment; the
    struct's alignment is the largest of its fields' and of an `align(n)`
    request, and its size is the end of the last field rounded up to that
    alignment. The functions below compute this for any field list, and the
    lemmas at the end evaluate it for the palette block and for the parameter
    block, both as `shader.rs` declares it and as `main.rs` fills it. */
module Layout {

  type Pos = n: nat | n > 0 witness 1

  /** A field: its name, its size in bytes and its alignment. */
  datatype Field = Field(name: string, size: nat, align: Pos)

  lemma MulAtLeast(t: int, a: nat)
    requires t >= 1
    ensures t * a >= a
  {
  }

  lemma MulNeg(t: int, a: nat)
    ensures (-t) * a == -(t * a)
  {
  }

  /** Adding the divisor does not change the remainder. */
  lemma ModShift(x: nat, a: nat)
    requires a > 0
    ensures (x + a) % a == x % a
  {
    var q, r := x / a, x % a;
    var q2, r2 := (x + a) / a, (x + a) % a;
    var t := q2 - q - 1;
    assert t * a == r - r2 by {
      assert x == q * a + r;
      assert x + a == q2 * a + r2;
      assert q2 * a - q * a - a == (q2 - q - 1) * a;
    }
    MulNeg(t, a);
    if t > 0 {
      MulAtLeast(t, a);
      assert false;
    } else if t < 0 {
      MulAtLeast(-t, a);
      assert false;
    }
  }

  /** `q * a` leaves no remainder when divided by `a`. */
  lemma {:induction false} MulMod(q: nat, a: nat)
    requires a > 0
    ensures (q * a) % a == 0
  {
    if q > 0 {
      MulMod(q - 1, a);
      assert q * a == (q - 1) * a + a;
      ModShift((q - 1) * a, a);
    }
  }

  /** The first multiple of `align` at or after `offset`. */
  function AlignUp(offset: nat, align: Pos): (r: nat)
    ensures r % align == 0
    ensures offset <= r < offset + align
  {
    var m := offset % align;
    if m == 0 then offset
    else
      var q := offset / align;
      MulMod(q + 1, align);
      assert offset + (align - m) == (q + 1) * align;
      offset + (align - m)
  }

  /** The offset of field `k`: the first field at 0, every later one at the
      first offset past its predecessor that its alignment allows. */
  function Offset(fields: seq<Field>, k: nat): (r: nat)
    requires k < |fields|
    ensures r % fields[k].align == 0
    ensures k > 0 ==> r >= fields[k - 1].size
  {
    if k == 0 then 0
    else AlignUp(Offset(fields, k - 1) + fields[k - 1].size, fields[k].align)
  }

  /** The first field starts at 0, and each later one at the first multiple
      of its alignment at or past the end of the field before it. */
  lemma FirstAlignedOffset(fields: seq<Field>, k: nat)
    requires k < |fields|
    ensures k == 0 ==> Offset(fields, k) == 0
    ensures k > 0 ==>
      var prevEnd := Offset(fields, k - 1) + fields[k - 1].size;
      prevEnd <= Offset(fields, k) < prevEnd + fields[k].align
  {
  }

  /** The byte just past the last field. */
  function End(fields: seq<Field>): nat
  {
    if fields == [] then 0
    else Offset(fields, |fields| - 1) + fields[|fields| - 1].size
  }

  /** The largest of `minAlign` and the alignments of the first `n` fields. */
  function MaxAlign(fields: seq<Field>, n: nat, minAlign: Pos): (r: Pos)
    requires n <= |fields|
    ensures minAlign <= r
    ensures forall i :: 0 <= i < n ==> fields[i].align <= r
    ensures r == minAlign || exists i :: 0 <= i < n && fields[i].align == r
  {
    if n == 0 then minAlign
    else
      var rest := MaxAlign(fields, n - 1, minAlign);
      if fields[n - 1].align <= rest then rest else fields[n - 1].align
  }

  /** The alignment of the struct, given its `align(n)` request. */
  function StructAlign(fields: seq<Field>, minAlign: Pos): Pos
  {
    MaxAlign(fields, |fields|, minAlign)
  }

  /** The size of the struct: the end of its last field rounded up to its
      alignment. */
  function Size(fields: seq<Field>, minAlign: Pos): (r: nat)
    ensures r % StructAlign(fields, minAlign) == 0
    ensures End(fields) <= r
  {
    AlignUp(End(fields), StructAlign(fields, minAlign))
  }

  /** No smaller multiple of the alignment covers the last field: the size
      is less than one alignment past the end. */
  lemma SizeIsLeast(fields: seq<Field>, minAlign: Pos)
    ensures Size(fields, minAlign) < End(fields) + StructAlign(fields, minAlign)
  {
  }

  /** No field overlaps a later one. */
  lemma {:induction false} FieldsDisjoint(fields: seq<Field>, i: nat, j: nat)
    requires i < j < |fields|
    ensures Offset(fields, i) + fields[i].size <= Offset(fields, j)
    decreases j - i
  {
    FirstAlignedOffset(fields, j);
    if j > i + 1 {
      FieldsDisjoint(fields, i, j - 1);
    }
  }

  /** Every field lies inside the struct. */
  lemma FieldsFit(fields: seq<Field>, minAlign: Pos, k: nat)
    requires k < |fields|
    ensures Offset(fields, k) + fields[k].size <= Size(fields, minAlign)
  {
    var last := |fields| - 1;
    assert End(fields) == Offset(fields, last) + fields[last].size;
    if k < last {
      FieldsDisjoint(fields, k, last);
    }
  }

  /** `[f32; N]` and `[u8; N]` as fields. */
  function F32s(name: string, n: nat): Field { Field(name, 4 * n, 4) }
  function U8s(name: string, n: nat): Field { Field(name, n, 1) }
  /** `i32` and `u32` are four bytes, four-aligned, like `f32`. */
  function Word(name: string): Field { Field(name, 4, 4) }

  /** The fields of `ColorSchemeCallback`, declared `repr(C, align(16))`. */
  const COLOR_SCHEME_FIELDS: seq<Field> :=
    [F32s("a", 4), F32s("b", 4), F32s("c", 4), F32s("d", 4)]

  /** `ColorSchemeCallback` as a field of `RenderCallback`. */
  const COLOR_SCHEME_FIELD: Field := Field("color_scheme", 64, 16)

  /** The fields of `RenderCallback` as `shader.rs` declares it. */
  const DECLARED_FIELDS: seq<Field> :=
    [F32s("pos", 2), Word("zoom"), U8s("_p0", 4), F32s("resolution", 2),
     F32s("offset", 2), Word("max_iter"), Word("exponent"), Word("fractal_type"),
     Word("shading_type"), COLOR_SCHEME_FIELD]

  /** `RenderCallback` as declared but without `_p0`. */
  const UNPADDED_FIELDS: seq<Field> :=
    [F32s("pos", 2), Word("zoom"), F32s("resolution", 2)]

  /** The fields `main.rs` sets: the declared ones, then `palette_speed`,
      `flags` and `julia_pos`. */
  const BUILT_FIELDS: seq<Field> :=
    DECLARED_FIELDS + [Word("palette_speed"), Word("flags"), F32s("julia_pos", 2)]

  /** Each coefficient takes one 16-byte slot; the struct is 64 bytes with
      alignment 16, the size and alignment `COLOR_SCHEME_FIELD` gives it. */
  lemma ColorSchemeCallbackLayout()
    ensures Offset(COLOR_SCHEME_FIELDS, 0) == 0 && Offset(COLOR_SCHEME_FIELDS, 1) == 16
    ensures Offset(COLOR_SCHEME_FIELDS, 2) == 32 && Offset(COLOR_SCHEME_FIELDS, 3) == 48
    ensures StructAlign(COLOR_SCHEME_FIELDS, 16) == COLOR_SCHEME_FIELD.align
    ensures Size(COLOR_SCHEME_FIELDS, 16) == COLOR_SCHEME_FIELD.size
  {
    assert Offset(COLOR_SCHEME_FIELDS, 1) == 16;
    assert Offset(COLOR_SCHEME_FIELDS, 2) == 32;
    assert Offset(COLOR_SCHEME_FIELDS, 3) == 48;
    assert MaxAlign(COLOR_SCHEME_FIELDS, 1, 16) == 16;
    assert MaxAlign(COLOR_SCHEME_FIELDS, 2, 16) == 16;
    assert MaxAlign(COLOR_SCHEME_FIELDS, 3, 16) == 16;
  }

  /** The offsets of `RenderCallback` as declared: `_p0` moves `resolution`
      to byte 16 and the colour scheme starts at byte 48. */
  lemma DeclaredOffsets()
    ensures Offset(DECLARED_FIELDS, 1) == 8 && Offset(DECLARED_FIELDS, 2) == 12
    ensures Offset(DECLARED_FIELDS, 3) == 16 && Offset(DECLARED_FIELDS, 4) == 24
    ensures Offset(DECLARED_FIELDS, 5) == 32 && Offset(DECLARED_FIELDS, 6) == 36
    ensures Offset(DECLARED_FIELDS, 7) == 40 && Offset(DECLARED_FIELDS, 8) == 44
    ensures Offset(DECLARED_FIELDS, 9) == 48
  {
    assert Offset(DECLARED_FIELDS, 1) == 8;
    assert Offset(DECLARED_FIELDS, 2) == 12;
    assert Offset(DECLARED_FIELDS, 3) == 16;
    assert Offset(DECLARED_FIELDS, 4) == 24;
    assert Offset(DECLARED_FIELDS, 5) == 32;
    assert Offset(DECLARED_FIELDS, 6) == 36;
    assert Offset(DECLARED_FIELDS, 7) == 40;
    assert Offset(DECLARED_FIELDS, 8) == 44;
  }

  /** The declared struct is 112 bytes, a multiple of its alignment 16. */
  lemma DeclaredSize()
    ensures StructAlign(DECLARED_FIELDS, 16) == 16
    ensures Size(DECLARED_FIELDS, 16) == 112
  {
    DeclaredOffsets();
    assert forall i :: 0 <= i < |DECLARED_FIELDS| ==> DECLARED_FIELDS[i].align <= 16;
  }

  /** Without the pad, `resolution` would sit at byte 12, off the 8-byte
      boundary that the evaluator's uniform layout gives a two-float vector. */
  lemma UnpaddedResolution()
    ensures Offset(UNPADDED_FIELDS, 2) == 12
  {
    assert Offset(UNPADDED_FIELDS, 1) == 8;
  }

  /** The block as built: the three extra fields follow the colour scheme
      at bytes 112, 116 and 120, and the size grows to 128. */
  lemma BuiltLayout()
    ensures Offset(BUILT_FIELDS, 10) == 112
    ensures Offset(BUILT_FIELDS, 11) == 116
    ensures Offset(BUILT_FIELDS, 12) == 120
    ensures Size(BUILT_FIELDS, 16) == 128
  {
    assert Offset(BUILT_FIELDS, 1) == 8;
    assert Offset(BUILT_FIELDS, 2) == 12;
    assert Offset(BUILT_FIELDS, 3) == 16;
    assert Offset(BUILT_FIELDS, 4) == 24;
    assert Offset(BUILT_FIELDS, 5) == 32;
    assert Offset(BUILT_FIELDS, 6) == 36;
    assert Offset(BUILT_FIELDS, 7) == 40;
    assert Offset(BUILT_FIELDS, 8) == 44;
    assert Offset(BUILT_FIELDS, 9) == 48;
    assert Offset(BUILT_FIELDS, 10) == 112;
    assert Offset(BUILT_FIELDS, 11) == 116;
    assert forall i :: 0 <= i < |BUILT_FIELDS| ==> BUILT_FIELDS[i].align <= 16;
  }
}
