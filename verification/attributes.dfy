/** Vertex attribute descriptions (`VAO::Attribute`).

    `Attribute::floats` describes `size` consecutive floats of an
    interleaved vertex, with the stride and offset given in floats and
    stored in bytes. The two layouts the resource manager builds, for quads
    and for the text cursor, are proved to tile their vertices exactly.
 */
module VertexAttributes {

  /** The `GL_FLOAT` type enumerant. */
  const GL_FLOAT: int := 0x1406

  /** `sizeof(float)`. */
  const FloatBytes: int := 4

  datatype Attribute = Attribute(size: int, glType: int, normalized: bool, stride: int, offset: int)

  /** `Attribute::floats`; the component count must be 1 to 4. */
  function Floats(size: int, stride: int, offset: int): (a: Attribute)
    requires 1 <= size <= 4
    ensures a.size == size && a.glType == GL_FLOAT && !a.normalized
    ensures a.stride == FloatBytes * stride && a.offset == FloatBytes * offset
    ensures End(a) == FloatBytes * (offset + size)
  {
    Attribute(size, GL_FLOAT, false, stride * FloatBytes, offset * FloatBytes)
  }

  /** The byte just past the floats an attribute reads from a vertex. */
  function End(a: Attribute): int {
    a.offset + a.size * FloatBytes
  }

  /** The attributes share one stride, read back to back from byte 0, and
      together cover exactly one vertex. */
  predicate Packed(attrs: seq<Attribute>) {
    && |attrs| > 0
    && attrs[0].offset == 0
    && (forall i :: 0 <= i < |attrs| ==> attrs[i].stride == attrs[0].stride)
    && (forall i :: 0 < i < |attrs| ==> attrs[i].offset == End(attrs[i - 1]))
    && End(attrs[|attrs| - 1]) == attrs[0].stride
  }

  predicate ValidSizes(sizes: seq<int>) {
    forall i :: 0 <= i < |sizes| ==> 1 <= sizes[i] <= 4
  }

  function Sum(sizes: seq<int>): int
    decreases |sizes|
  {
    if |sizes| == 0 then 0 else sizes[0] + Sum(sizes[1..])
  }

  /** Consecutive float attributes of the given component counts, the first
      starting `start` floats into the vertex. */
  function Layout(sizes: seq<int>, stride: int, start: int): (attrs: seq<Attribute>)
    requires ValidSizes(sizes)
    ensures |attrs| == |sizes|
    decreases |sizes|
  {
    if |sizes| == 0 then []
    else [Floats(sizes[0], stride, start)] + Layout(sizes[1..], stride, start + sizes[0])
  }

  /** Offsets of a layout advance by each attribute's width, and the last
      attribute ends `Sum(sizes)` floats after `start`. */
  lemma {:induction false} LayoutContiguous(sizes: seq<int>, stride: int, start: int)
    requires ValidSizes(sizes) && |sizes| > 0
    ensures var attrs := Layout(sizes, stride, start);
      && attrs[0].offset == FloatBytes * start
      && (forall i :: 0 <= i < |attrs| ==> attrs[i].stride == FloatBytes * stride)
      && (forall i :: 0 < i < |attrs| ==> attrs[i].offset == End(attrs[i - 1]))
      && End(attrs[|attrs| - 1]) == FloatBytes * (start + Sum(sizes))
    decreases |sizes|
  {
    var attrs := Layout(sizes, stride, start);
    if |sizes| > 1 {
      var rest := Layout(sizes[1..], stride, start + sizes[0]);
      LayoutContiguous(sizes[1..], stride, start + sizes[0]);
      assert attrs == [Floats(sizes[0], stride, start)] + rest;
      forall i | 0 < i < |attrs|
        ensures attrs[i].offset == End(attrs[i - 1])
      {
        if i > 1 {
          assert attrs[i] == rest[i - 1] && attrs[i - 1] == rest[i - 2];
        }
      }
    }
  }

  /** A layout whose stride is the sum of its component counts is packed. */
  lemma LayoutPacked(sizes: seq<int>, stride: int)
    requires ValidSizes(sizes) && |sizes| > 0 && stride == Sum(sizes)
    ensures Packed(Layout(sizes, stride, 0))
  {
    LayoutContiguous(sizes, stride, 0);
  }

  /** Position then texture coordinate, two floats each (`quadAttributes`). */
  function QuadAttributes(): (attrs: seq<Attribute>)
    ensures |attrs| == 2 && Packed(attrs) && attrs[0].stride == FloatBytes * 4
    ensures forall i :: 0 <= i < |attrs| ==> attrs[i].size == 2 && attrs[i].glType == GL_FLOAT
  {
    [Floats(2, 4, 0), Floats(2, 4, 2)]
  }

  /** Position only, two floats (`cursorAttributes`). */
  function CursorAttributes(): (attrs: seq<Attribute>)
    ensures |attrs| == 1 && Packed(attrs) && attrs[0].stride == FloatBytes * 2
    ensures attrs[0].size == 2 && attrs[0].glType == GL_FLOAT
  {
    [Floats(2, 2, 0)]
  }

  /** Both layouts the resource manager builds cover their vertices exactly,
      with no gap and no overlap. */
  lemma ManagerLayoutsPacked()
    ensures QuadAttributes() == Layout([2, 2], 4, 0) && Packed(QuadAttributes())
    ensures CursorAttributes() == Layout([2], 2, 0) && Packed(CursorAttributes())
  {
    assert [2, 2][1..] == [2];
    assert Sum([2, 2]) == 4;
    LayoutPacked([2, 2], 4);
    assert Sum([2]) == 2;
    LayoutPacked([2], 2);
  }
}
