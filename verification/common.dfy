/** Small shared vocabulary: optional and fallible results, the integer widths the
    renderer works in, float vectors (as reals), sequence concatenation with offsets,
    and C#'s truncating integer division. */
module Common {

  /** An unsigned byte (atlas pixels). */
  newtype u8 = x: int | 0 <= x < 0x100

  /** An unsigned 16-bit integer (vertex indices, glyph range code points). */
  newtype u16 = x: int | 0 <= x < 0x1_0000

  /** A reference that may be null. */
  datatype Option<+T> = None | Some(value: T)

  /** The outcome of an operation that may throw. */
  datatype Result<+T, +E> = Ok(value: T) | Err(error: E)

  datatype Vec2 = Vec2(x: real, y: real)

  datatype Vec4 = Vec4(x: real, y: real, z: real, w: real)

  /** C#'s integer division, which truncates toward zero (Dafny's `/` is Euclidean). */
  function TruncDiv(a: int, b: int): (q: int)
    requires b > 0
    ensures a >= 0 ==> q * b <= a < q * b + b
    ensures a < 0 ==> q * b - b < a <= q * b
  {
    if a >= 0 then a / b else -((-a) / b)
  }

  /** All the sequences of `xss`, one after the other, in order. */
  function Concat<T>(xss: seq<seq<T>>): seq<T>
    decreases |xss|
  {
    if |xss| == 0 then [] else Concat(xss[..|xss| - 1]) + xss[|xss| - 1]
  }

  /** Where `xss[n]` starts inside `Concat(xss)`: the total length of the sequences before it. */
  function Offset<T>(xss: seq<seq<T>>, n: nat): nat
    requires n <= |xss|
  {
    |Concat(xss[..n])|
  }

  lemma ConcatStep<T>(xss: seq<seq<T>>, n: nat)
    requires n < |xss|
    ensures Concat(xss[..n + 1]) == Concat(xss[..n]) + xss[n]
    ensures Offset(xss, n + 1) == Offset(xss, n) + |xss[n]|
  {
    assert xss[..n + 1][..n] == xss[..n];
  }

  lemma OffsetWhole<T>(xss: seq<seq<T>>)
    ensures Offset(xss, |xss|) == |Concat(xss)|
  {
    assert xss[..|xss|] == xss;
  }

  /** The offsets grow with n and never pass the total length. */
  lemma {:induction false} OffsetMono<T>(xss: seq<seq<T>>, m: nat, n: nat)
    requires m <= n <= |xss|
    ensures Offset(xss, m) <= Offset(xss, n) <= |Concat(xss)|
    decreases |xss| - m
  {
    if m == |xss| {
      OffsetWhole(xss);
    } else {
      ConcatStep(xss, m);
      if m < n {
        OffsetMono(xss, m + 1, n);
      } else {
        OffsetMono(xss, m + 1, |xss|);
      }
    }
  }

  /** Element j of the n-th sequence sits at `Offset(xss, n) + j` of the concatenation. */
  lemma {:induction false} ConcatAt<T>(xss: seq<seq<T>>, n: nat, j: nat)
    requires n < |xss| && j < |xss[n]|
    ensures Offset(xss, n) + j < |Concat(xss)|
    ensures Concat(xss)[Offset(xss, n) + j] == xss[n][j]
    decreases |xss|
  {
    var m := |xss| - 1;
    var init := xss[..m];
    assert Concat(xss) == Concat(init) + xss[m];
    if n == m {
      assert xss[..n] == init;
    } else {
      assert init[n] == xss[n];
      ConcatAt(init, n, j);
      assert init[..n] == xss[..n];
    }
  }

  /** `data` written into `buf` starting at `off`, the rest of `buf` untouched
      (a ranged buffer upload such as `SetData(data, 0, off, |data|)`). */
  function Splice<T>(buf: seq<T>, off: nat, data: seq<T>): (r: seq<T>)
    requires off + |data| <= |buf|
    ensures |r| == |buf|
    ensures forall j :: 0 <= j < |data| ==> r[off + j] == data[j]
    ensures forall k :: 0 <= k < |buf| && !(off <= k < off + |data|) ==> r[k] == buf[k]
  {
    buf[..off] + data + buf[off + |data|..]
  }

  /** Writing right after an already written prefix extends that prefix. */
  lemma SpliceExtends<T>(buf: seq<T>, off: nat, data: seq<T>, prefix: seq<T>)
    requires off + |data| <= |buf| && buf[..off] == prefix
    ensures Splice(buf, off, data)[..off + |data|] == prefix + data
  {
    var r := Splice(buf, off, data);
    assert r[..off + |data|] == buf[..off] + data;
  }
}
