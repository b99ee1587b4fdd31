/** commonnet/backends/hadamard_torch.py dequantize_affine2: 2-bit weights packed in 32-bit words. Scales and
  * biases are reals.
  */
module Affine2 {
  import opened Basics

  const GROUP_SIZE := 128

  /** A word's bytes in memory, little endian. */
  function BytesOf(w: bv32): (r: seq<bv8>)
    ensures |r| == 4
  {
    [(w & 0xFF) as bv8, ((w >> 8) & 0xFF) as bv8, ((w >> 16) & 0xFF) as bv8, ((w >> 24) & 0xFF) as bv8]
  }

  /** A byte's four codes: shifts 0, 2, 4, 6. */
  function CodesOf(b: bv8): (r: seq<bv8>)
    ensures |r| == 4
  {
    [b & 3, (b >> 2) & 3, (b >> 4) & 3, (b >> 6) & 3]
  }

  function RowBytes(row: seq<bv32>): (r: seq<bv8>)
    ensures |r| == 4 * |row|
  {
    if row == [] then [] else RowBytes(row[..|row| - 1]) + BytesOf(Last(row))
  }

  function RowCodes(bytes: seq<bv8>): (r: seq<bv8>)
    ensures |r| == 4 * |bytes|
  {
    if bytes == [] then [] else RowCodes(bytes[..|bytes| - 1]) + CodesOf(Last(bytes))
  }

  /** Element j of a word, by its definition. */
  function Element(w: bv32, j: nat): bv32
    requires j < 16
  {
    (w >> (2 * (j as bv6))) & 3
  }

  lemma {:induction false} ByteAt(row: seq<bv32>, i: nat, m: nat)
    requires i < |row| && m < 4
    ensures RowBytes(row)[4 * i + m] == BytesOf(row[i])[m]
  {
    if i < |row| - 1 {
      ByteAt(row[..|row| - 1], i, m);
    }
  }

  lemma {:induction false} CodeAt(bytes: seq<bv8>, i: nat, m: nat)
    requires i < |bytes| && m < 4
    ensures RowCodes(bytes)[4 * i + m] == CodesOf(bytes[i])[m]
  {
    if i < |bytes| - 1 {
      CodeAt(bytes[..|bytes| - 1], i, m);
    }
  }

  lemma LowByte(v: bv32)
    ensures var codes := CodesOf((v & 0xFF) as bv8);
            && codes[0] as bv32 == v & 3 && codes[1] as bv32 == (v >> 2) & 3
            && codes[2] as bv32 == (v >> 4) & 3 && codes[3] as bv32 == (v >> 6) & 3
  {
  }

  lemma Byte0(w: bv32)
    ensures var codes := CodesOf(BytesOf(w)[0]);
            && codes[0] as bv32 == Element(w, 0) && codes[1] as bv32 == Element(w, 1)
            && codes[2] as bv32 == Element(w, 2) && codes[3] as bv32 == Element(w, 3)
  {
    hide CodesOf, Element;
    LowByte(w);
    Elements0(w);
  }

  lemma Elements0(w: bv32)
    ensures Element(w, 0) == w & 3 && Element(w, 1) == (w >> 2) & 3
    ensures Element(w, 2) == (w >> 4) & 3 && Element(w, 3) == (w >> 6) & 3
  {
  }

  lemma Byte1(w: bv32)
    ensures var codes := CodesOf(BytesOf(w)[1]);
            && codes[0] as bv32 == Element(w, 4) && codes[1] as bv32 == Element(w, 5)
            && codes[2] as bv32 == Element(w, 6) && codes[3] as bv32 == Element(w, 7)
  {
    hide CodesOf, Element;
    LowByte(w >> 8);
    Elements1(w);
  }

  lemma Elements1(w: bv32)
    ensures Element(w, 4) == (w >> 8) & 3 && Element(w, 5) == ((w >> 8) >> 2) & 3
    ensures Element(w, 6) == ((w >> 8) >> 4) & 3 && Element(w, 7) == ((w >> 8) >> 6) & 3
  {
  }

  lemma Byte2(w: bv32)
    ensures var codes := CodesOf(BytesOf(w)[2]);
            && codes[0] as bv32 == Element(w, 8) && codes[1] as bv32 == Element(w, 9)
            && codes[2] as bv32 == Element(w, 10) && codes[3] as bv32 == Element(w, 11)
  {
    hide CodesOf, Element;
    LowByte(w >> 16);
    Elements2(w);
  }

  lemma Elements2(w: bv32)
    ensures Element(w, 8) == (w >> 16) & 3 && Element(w, 9) == ((w >> 16) >> 2) & 3
    ensures Element(w, 10) == ((w >> 16) >> 4) & 3 && Element(w, 11) == ((w >> 16) >> 6) & 3
  {
  }

  lemma Byte3(w: bv32)
    ensures var codes := CodesOf(BytesOf(w)[3]);
            && codes[0] as bv32 == Element(w, 12) && codes[1] as bv32 == Element(w, 13)
            && codes[2] as bv32 == Element(w, 14) && codes[3] as bv32 == Element(w, 15)
  {
    hide CodesOf, Element;
    LowByte(w >> 24);
    Elements3(w);
  }

  lemma Elements3(w: bv32)
    ensures Element(w, 12) == (w >> 24) & 3 && Element(w, 13) == ((w >> 24) >> 2) & 3
    ensures Element(w, 14) == ((w >> 24) >> 4) & 3 && Element(w, 15) == ((w >> 24) >> 6) & 3
  {
  }

  lemma WordElement(w: bv32, m: nat, k: nat)
    requires m < 4 && k < 4
    ensures CodesOf(BytesOf(w)[m])[k] as bv32 == Element(w, 4 * m + k)
  {
    hide BytesOf, CodesOf, Element;
    assert k == 0 || k == 1 || k == 2 || k == 3;
    if m == 0 {
      Byte0(w);
      assert 4 * m + k == 0 + k;
    } else if m == 1 {
      Byte1(w);
      assert 4 * m + k == 4 + k;
    } else if m == 2 {
      Byte2(w);
      assert 4 * m + k == 8 + k;
    } else {
      Byte3(w);
      assert 4 * m + k == 12 + k;
    }
  }

  /** Going through bytes and shifts, the codes of a row are the elements of its words, in order. */
  lemma CodesAreElements(row: seq<bv32>, c: nat)
    requires c < 16 * |row|
    ensures |RowCodes(RowBytes(row))| == 16 * |row|
    ensures RowCodes(RowBytes(row))[c] as bv32 == Element(row[c / 16], c % 16)
  {
    hide BytesOf, CodesOf, Element;
    var i, m, k := c / 16, c % 16 / 4, c % 4;
    SplitIndex(c);
    CodeAt(RowBytes(row), 4 * i + m, k);
    ByteAt(row, i, m);
    WordElement(row[i], m, k);
  }

  lemma SplitIndex(c: nat)
    ensures var i, m, k := c / 16, c % 16 / 4, c % 4;
            m < 4 && k < 4 && c == 4 * (4 * i + m) + k && c % 16 == 4 * m + k
  {
  }

  // --- groups, scales and biases ----------------------------------------------------------------

  lemma {:induction false} FlattenAt<T>(groups: seq<seq<T>>, g: nat, t: nat)
    requires forall i | 0 <= i < |groups| :: |groups[i]| == GROUP_SIZE
    requires g < |groups| && t < GROUP_SIZE
    ensures |Flatten(groups)| == GROUP_SIZE * |groups|
    ensures Flatten(groups)[GROUP_SIZE * g + t] == groups[g][t]
    decreases |groups|
  {
    var front := groups[..|groups| - 1];
    if g < |front| {
      FlattenAt(front, g, t);
    } else if front != [] {
      FlattenAt(front, 0, 0);
    }
  }

  /** reshape(groups, 128): None where the row does not divide. */
  function Groups(q: seq<bv8>): (r: Option<seq<seq<bv8>>>)
    ensures r.Some? <==> |q| % GROUP_SIZE == 0
    ensures r.Some? ==> |r.value| == |q| / GROUP_SIZE
    ensures r.Some? ==> forall g | 0 <= g < |r.value| :: |r.value[g]| == GROUP_SIZE
  {
    if |q| % GROUP_SIZE != 0 then None
    else Some(seq(|q| / GROUP_SIZE, g requires 0 <= g < |q| / GROUP_SIZE => q[GROUP_SIZE * g..GROUP_SIZE * (g + 1)]))
  }

  function Value(code: nat, scale: real, bias: real): real {
    code as real * scale + bias
  }

  function Affine(group: seq<bv8>, scale: real, bias: real): (r: seq<real>)
    ensures |r| == |group|
  {
    seq(|group|, t requires 0 <= t < |group| => Value(group[t] as nat, scale, bias))
  }

  function DequantizeRow(words: seq<bv32>, scales: seq<real>, biases: seq<real>): Option<seq<real>>
    requires |scales| == |biases| == 16 * |words| / GROUP_SIZE
  {
    RowWidth(words);
    match Groups(RowCodes(RowBytes(words)))
    case None => None
    case Some(groups) =>
      Some(Flatten(seq(|groups|, g requires 0 <= g < |groups| => Affine(groups[g], scales[g], biases[g]))))
  }

  lemma RowWidth(words: seq<bv32>)
    ensures |RowCodes(RowBytes(words))| == 16 * |words|
  {
  }

  /** Every column of the result is the right element of the right word, at the scale and bias of its own
    * group of 128; rows whose width does not divide into groups are refused. */
  lemma DequantizedColumn(words: seq<bv32>, scales: seq<real>, biases: seq<real>, c: nat)
    requires |scales| == |biases| == 16 * |words| / GROUP_SIZE && c < 16 * |words|
    ensures DequantizeRow(words, scales, biases).Some? <==> 16 * |words| % GROUP_SIZE == 0
    ensures var r := DequantizeRow(words, scales, biases);
            r.Some? ==>
              && |r.value| == 16 * |words| && c / GROUP_SIZE < |scales|
              && r.value[c] == Value(Element(words[c / 16], c % 16) as nat, scales[c / GROUP_SIZE],
                                     biases[c / GROUP_SIZE])
  {
    hide Element, RowCodes, RowBytes, Flatten, Value;
    RowWidth(words);
    var q := RowCodes(RowBytes(words));
    if |q| % GROUP_SIZE == 0 {
      var groups, g, t := Groups(q).value, c / GROUP_SIZE, c % GROUP_SIZE;
      var affine := seq(|groups|, i requires 0 <= i < |groups| => Affine(groups[i], scales[i], biases[i]));
      FlattenAt(affine, g, t);
      CodesAreElements(words, c);
      assert affine[g][t] == Value(groups[g][t] as nat, scales[g], biases[g]);
      assert groups[g][t] == q[c];
      WideIsSame(q[c], Element(words[c / 16], c % 16));
    }
  }

  lemma WideIsSame(b: bv8, w: bv32)
    requires b as bv32 == w
    ensures b as int == w as int
  {
  }

  /** A whole matrix, row by row. */
  function Dequantize(weight: seq<seq<bv32>>, scales: seq<seq<real>>, biases: seq<seq<real>>)
    : (r: Option<seq<seq<real>>>)
    requires |weight| == |scales| == |biases|
    requires forall i | 0 <= i < |weight| :: |scales[i]| == |biases[i]| == 16 * |weight[i]| / GROUP_SIZE
    ensures r.Some? <==> forall i | 0 <= i < |weight| :: DequantizeRow(weight[i], scales[i], biases[i]).Some?
    ensures r.Some? ==>
              |r.value| == |weight|
              && forall i | 0 <= i < |weight| :: DequantizeRow(weight[i], scales[i], biases[i]) == Some(r.value[i])
  {
    hide DequantizeRow;
    if weight == [] then Some([])
    else
      var n := |weight| - 1;
      var above := Dequantize(weight[..n], scales[..n], biases[..n]);
      var row := DequantizeRow(weight[n], scales[n], biases[n]);
      if above.None? || row.None? then None else Some(above.value + [row.value])
  }
}
