/**
 * Packed sequential struct layouts (StructLayout Sequential, Pack = 1) as
 * explicit offset/width tables.  A layout lists the byte width of each field
 * in declaration order; a struct value lists the raw (unsigned, two's
 * complement for signed fields) value of each field.  Fields are laid out
 * back to back, each little-endian, with no padding.
 */
module Layout {
  import opened Binary
  import opened Sequences

  /** Marshal.SizeOf of a packed layout: the sum of its field widths. */
  function Size(widths: seq<nat>): nat
  {
    if widths == [] then 0 else Size(widths[..|widths| - 1]) + widths[|widths| - 1]
  }

  /** Byte offset of field k: the total width of the fields declared before it. */
  function Offset(widths: seq<nat>, k: nat): nat
    requires k <= |widths|
  {
    Size(widths[..k])
  }

  /** Every field value fits in its field's width. */
  predicate Fits(widths: seq<nat>, values: seq<nat>)
  {
    |values| == |widths| && forall k :: 0 <= k < |widths| ==> values[k] < Pow256(widths[k])
  }

  /** The bytes of a struct value: each field little-endian, in declaration order. */
  function Encode(widths: seq<nat>, values: seq<nat>): (r: seq<uint8>)
    requires |values| == |widths|
    ensures |r| == Size(widths)
  {
    if widths == [] then []
    else
      var n := |widths| - 1;
      Encode(widths[..n], values[..n]) + LE(values[n], widths[n])
  }

  /** The field values read from the first Size(widths) bytes; later bytes are ignored. */
  function Decode(widths: seq<nat>, bytes: seq<uint8>): (r: seq<nat>)
    requires Size(widths) <= |bytes|
    ensures |r| == |widths|
  {
    if widths == [] then []
    else
      var n := |widths| - 1;
      Decode(widths[..n], bytes) + [FromLE(bytes[Size(widths[..n])..Size(widths)])]
  }

  /** A one-field struct is that field's bytes. */
  lemma EncodeOne(a: nat, x: nat)
    ensures Encode([a], [x]) == LE(x, a)
  {
    assert [a][..0] == [] && [x][..0] == [];
  }

  /** A two-field struct is its fields' bytes, one after the other. */
  lemma EncodeTwo(a: nat, b: nat, x: nat, y: nat)
    ensures Encode([a, b], [x, y]) == LE(x, a) + LE(y, b)
  {
    assert [a, b][..1] == [a] && [x, y][..1] == [x];
    EncodeOne(a, x);
  }

  /** A three-field struct is its fields' bytes, one after the other. */
  lemma EncodeThree(a: nat, b: nat, c: nat, x: nat, y: nat, z: nat)
    ensures Encode([a, b, c], [x, y, z]) == LE(x, a) + LE(y, b) + LE(z, c)
  {
    assert [a, b, c][..2] == [a, b] && [x, y, z][..2] == [x, y];
    EncodeTwo(a, b, x, y);
  }

  lemma {:induction false} SizePrefix(widths: seq<nat>, k: nat)
    requires k <= |widths|
    ensures Size(widths[..k]) <= Size(widths)
    ensures k < |widths| ==> Size(widths[..k + 1]) == Size(widths[..k]) + widths[k]
    decreases |widths|
  {
    if k == |widths| {
      assert widths[..k] == widths;
    } else {
      var n := |widths| - 1;
      assert widths[..k + 1][..k] == widths[..k];
      if k < n {
        SizePrefix(widths[..n], k);
        assert widths[..n][..k] == widths[..k];
      } else {
        assert widths[..k + 1] == widths;
      }
    }
  }

  /** Field k occupies bytes [Offset(k), Offset(k) + width(k)) of the encoding. */
  lemma {:induction false} FieldPlacement(widths: seq<nat>, values: seq<nat>, k: nat)
    requires |values| == |widths| && k < |widths|
    ensures Offset(widths, k) + widths[k] <= Size(widths)
    ensures Encode(widths, values)[Offset(widths, k)..Offset(widths, k) + widths[k]] == LE(values[k], widths[k])
    decreases |widths|
  {
    var n := |widths| - 1;
    var e := Encode(widths, values);
    var front := Encode(widths[..n], values[..n]);
    assert e == front + LE(values[n], widths[n]);
    if k == n {
      assert widths[..k] == widths[..n];
      assert e[|front|..] == LE(values[n], widths[n]);
    } else {
      FieldPlacement(widths[..n], values[..n], k);
      assert widths[..n][..k] == widths[..k];
      assert e[Offset(widths, k)..Offset(widths, k) + widths[k]]
          == front[Offset(widths, k)..Offset(widths, k) + widths[k]];
    }
  }

  /** Encode(prefix of fields) + next field = Encode(one more field). */
  lemma EncodeSnoc(widths: seq<nat>, values: seq<nat>, k: nat)
    requires |values| == |widths| && k < |widths|
    ensures Encode(widths[..k + 1], values[..k + 1]) == Encode(widths[..k], values[..k]) + LE(values[k], widths[k])
  {
    assert widths[..k + 1][..k] == widths[..k];
    assert values[..k + 1][..k] == values[..k];
  }

  /** Decode(prefix of fields) + next field = Decode(one more field). */
  lemma DecodeSnoc(widths: seq<nat>, bytes: seq<uint8>, k: nat)
    requires k < |widths| && Size(widths) <= |bytes|
    ensures Size(widths[..k]) + widths[k] == Size(widths[..k + 1]) <= |bytes|
    ensures Decode(widths[..k + 1], bytes)
         == Decode(widths[..k], bytes) + [FromLE(bytes[Offset(widths, k)..Offset(widths, k) + widths[k]])]
  {
    SizePrefix(widths, k);
    SizePrefix(widths, k + 1);
    assert widths[..k + 1][..k] == widths[..k];
  }

  /** A prefix of the fields of a fitting value fits its prefix of the layout. */
  lemma FitsPrefix(widths: seq<nat>, values: seq<nat>, n: nat)
    requires Fits(widths, values) && n <= |widths|
    ensures Fits(widths[..n], values[..n])
  {
    forall k | 0 <= k < n ensures values[..n][k] < Pow256(widths[..n][k]) {
      assert values[..n][k] == values[k] && widths[..n][k] == widths[k];
    }
  }

  /**
   * Round trip: decoding the bytes of a struct value gives the value back,
   * even when more bytes follow it.
   */
  lemma {:induction false} DecodeEncode(widths: seq<nat>, values: seq<nat>, extra: seq<uint8>)
    requires Fits(widths, values)
    ensures Decode(widths, Encode(widths, values) + extra) == values
    decreases |widths|
  {
    if widths != [] {
      var n := |widths| - 1;
      var front := Encode(widths[..n], values[..n]);
      var last := LE(values[n], widths[n]);
      FitsPrefix(widths, values, n);
      DecodeEncode(widths[..n], values[..n], last + extra);
      MiddleOfAppend(front, last, extra);
      FromLEOfLE(values[n], widths[n]);
      assert values == values[..n] + [values[n]];
    }
  }

  /** A fitting prefix and a fitting last field make a fitting value. */
  lemma FitsSnoc(widths: seq<nat>, values: seq<nat>)
    requires |values| == |widths| > 0
    requires Fits(widths[..|widths| - 1], values[..|widths| - 1])
    requires values[|widths| - 1] < Pow256(widths[|widths| - 1])
    ensures Fits(widths, values)
  {
    var n := |widths| - 1;
    forall k | 0 <= k < n ensures values[k] < Pow256(widths[k]) {
      assert values[..n][k] == values[k] && widths[..n][k] == widths[k];
    }
  }

  /** Round trip the other way: re-encoding decoded fields gives back the bytes that were read. */
  lemma {:induction false} EncodeDecode(widths: seq<nat>, bytes: seq<uint8>)
    requires Size(widths) <= |bytes|
    ensures Fits(widths, Decode(widths, bytes))
    ensures Encode(widths, Decode(widths, bytes)) == bytes[..Size(widths)]
    decreases |widths|
  {
    if widths != [] {
      var n := |widths| - 1;
      var d := Decode(widths, bytes);
      var chunk := bytes[Size(widths[..n])..Size(widths)];
      EncodeDecode(widths[..n], bytes);
      assert d[..n] == Decode(widths[..n], bytes) && d[n] == FromLE(chunk);
      FromLEBound(chunk);
      FitsSnoc(widths, d);
      LEOfFromLE(chunk);
      TakeSplit(bytes, Size(widths[..n]), Size(widths));
    }
  }
}
