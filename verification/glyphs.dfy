/** The glyph cache of `Font`.

    A font keeps a FreeType face and a map from (pixel size, code point) to
    rendered glyphs. `glyph(c)` looks up the key built from the `size`
    member and renders on a miss; nothing is ever evicted. `setSize(size)`
    assigns its parameter to itself, so it changes the face's pixel size
    but never the `size` member the cache is keyed by; neither constructor
    initialises that member, so it keeps whatever value the object started
    with. Single calls are modelled as written, and the stale glyph this
    causes is exhibited; sequences of calls use a corrected `setSize` that
    also stores the size the cache is keyed by.

    Glyph rendering is a parameter: a function from the face's current
    pixel size (`None` before any is set) and a code point to a glyph.
 */
module Glyphs {

  import opened Char32
  import opened Wrappers

  datatype Key = Key(size: U32, c: CodePoint)

  /** `size` is the member used in cache keys; `facePixels` is the pixel
      size last given to the FreeType face. */
  datatype Font<G> = Font(size: U32, facePixels: Option<U32>, cache: map<Key, G>)

  type Rasterizer<G> = (Option<U32>, CodePoint) -> G

  /** A freshly loaded font. `initial` stands for the indeterminate value
      the uninitialised `size` member starts with. */
  function NewFont<G>(initial: U32): (f: Font<G>)
    ensures f.size == initial && f.facePixels == None && f.cache == map[]
  {
    Font(initial, None, map[])
  }

  /** `setSize` as written: the face is resized, the key size is not. */
  function SetSize<G>(f: Font<G>, size: U32): (r: Font<G>)
    ensures r.size == f.size && r.cache == f.cache
    ensures r.facePixels == Some(size)
  {
    f.(facePixels := Some(size))
  }

  /** `glyph(c)`: the cached glyph for the current key, rendering and
      inserting it on a miss. */
  function GlyphOf<G>(f: Font<G>, c: CodePoint, render: Rasterizer<G>): (r: (Font<G>, G))
    ensures r.0.size == f.size && r.0.facePixels == f.facePixels
    ensures Key(f.size, c) in f.cache ==> r.0 == f && r.1 == f.cache[Key(f.size, c)]
    ensures Key(f.size, c) !in f.cache ==>
              r.1 == render(f.facePixels, c) && r.0.cache == f.cache[Key(f.size, c) := r.1]
    ensures r.0.cache.Keys == f.cache.Keys + {Key(f.size, c)}
    ensures forall k :: k in f.cache ==> r.0.cache[k] == f.cache[k]
    ensures r.0.cache[Key(f.size, c)] == r.1
  {
    var key := Key(f.size, c);
    if key in f.cache then
      (f, f.cache[key])
    else
      var g := render(f.facePixels, c);
      (f.(cache := f.cache[key := g]), g)
  }

  /** A second lookup of the same code point returns the same glyph and
      leaves the font unchanged. */
  lemma GlyphTwice<G>(f: Font<G>, c: CodePoint, render: Rasterizer<G>)
    ensures var first := GlyphOf(f, c, render);
            GlyphOf(first.0, c, render) == first
  {
  }

  /** As written, a glyph first rendered at pixel size `a` is served again
      after `setSize(b)`, whatever `b` is. */
  lemma ResizeServesStaleGlyph<G>(f: Font<G>, c: CodePoint, a: U32, b: U32, render: Rasterizer<G>)
    requires Key(f.size, c) !in f.cache
    ensures var first := GlyphOf(SetSize(f, a), c, render);
            var second := GlyphOf(SetSize(first.0, b), c, render);
            first.1 == render(Some(a), c) && second.1 == render(Some(a), c)
  {
  }

  /** A concrete instance: a code point looked up at 16 pixels and then at
      32 pixels comes back at 16 pixels when the renderer tells the sizes
      apart. */
  lemma StaleGlyphExample()
    ensures var render: Rasterizer<Option<U32>> := (s, ch) => s;
            var f := NewFont<Option<U32>>(0);
            var first := GlyphOf(SetSize(f, 16), 'A' as int, render);
            var second := GlyphOf(SetSize(first.0, 32), 'A' as int, render);
            second.1 == Some(16) && second.1 != render(Some(32), 'A' as int)
  {
  }

  // ---------------------------------------------------------------------
  // The evidently intended `setSize`
  // ---------------------------------------------------------------------

  /** `setSize` storing its argument in the member as well as the face. */
  function SetSizeIntended<G>(f: Font<G>, size: U32): (r: Font<G>)
    ensures r.size == size && r.facePixels == Some(size) && r.cache == f.cache
  {
    f.(size := size, facePixels := Some(size))
  }

  /** Every cached glyph was rendered at the size in its key. */
  ghost predicate Coherent<G>(f: Font<G>, render: Rasterizer<G>) {
    forall k :: k in f.cache ==> f.cache[k] == render(Some(k.size), k.c)
  }

  /** With the corrected `setSize`, a lookup after resizing to `s` always
      yields the glyph rendered at `s`, and the cache stays coherent. */
  lemma IntendedResizeServesRequestedSize<G>(f: Font<G>, s: U32, c: CodePoint, render: Rasterizer<G>)
    requires Coherent(f, render)
    ensures var r := GlyphOf(SetSizeIntended(f, s), c, render);
            r.1 == render(Some(s), c) && Coherent(r.0, render)
  {
  }

  /** The face renders at the size the cache keys use. */
  predicate Synced<G>(f: Font<G>) {
    f.facePixels == Some(f.size)
  }

  /** Once face and key agree, a lookup keeps the cache coherent. */
  lemma LookupKeepsCoherent<G>(f: Font<G>, c: CodePoint, render: Rasterizer<G>)
    requires Coherent(f, render) && Synced(f)
    ensures Coherent(GlyphOf(f, c, render).0, render) && Synced(GlyphOf(f, c, render).0)
  {
  }

  /** A new font starts coherent and, once its size is set, in sync; this
      is where the coherence inductions below begin. */
  lemma NewFontCoherent<G>(initial: U32, s: U32, render: Rasterizer<G>)
    ensures Coherent(NewFont<G>(initial), render)
    ensures Coherent(SetSizeIntended(NewFont<G>(initial), s), render)
    ensures Synced(SetSizeIntended(NewFont<G>(initial), s))
  {
  }

  /** A call on a font: `setSize` or `glyph`. */
  datatype FontOp = Resize(size: U32) | Lookup(c: CodePoint)

  /** Applies the calls in order, with the corrected `setSize`. */
  function RunFont<G>(f: Font<G>, ops: seq<FontOp>, render: Rasterizer<G>): Font<G>
    decreases |ops|
  {
    if |ops| == 0 then f
    else
      var next := match ops[0]
        case Resize(s) => SetSizeIntended(f, s)
        case Lookup(c) => GlyphOf(f, c, render).0;
      RunFont(next, ops[1..], render)
  }

  /** With the corrected `setSize` too, lookups only ever add entries: over
      any sequence of size changes and lookups, every entry present at the
      start is still there, unchanged. */
  lemma {:induction false} CacheNeverEvicts<G>(f: Font<G>, ops: seq<FontOp>, render: Rasterizer<G>)
    ensures var r := RunFont(f, ops, render);
      forall k :: k in f.cache ==> k in r.cache && r.cache[k] == f.cache[k]
    decreases |ops|
  {
    if |ops| > 0 {
      var next := match ops[0]
        case Resize(s) => SetSizeIntended(f, s)
        case Lookup(c) => GlyphOf(f, c, render).0;
      CacheNeverEvicts(next, ops[1..], render);
    }
  }

  /** Applies the calls in order, with `setSize` as written. */
  function RunFontAsWritten<G>(f: Font<G>, ops: seq<FontOp>, render: Rasterizer<G>): Font<G>
    decreases |ops|
  {
    if |ops| == 0 then f
    else
      var next := match ops[0]
        case Resize(s) => SetSize(f, s)
        case Lookup(c) => GlyphOf(f, c, render).0;
      RunFontAsWritten(next, ops[1..], render)
  }

  /** As written, no sequence of calls evicts or replaces a cached glyph, and
      none changes the size the cache is keyed by. */
  lemma {:induction false} CacheNeverEvictsAsWritten<G>(f: Font<G>, ops: seq<FontOp>, render: Rasterizer<G>)
    ensures var r := RunFontAsWritten(f, ops, render);
      && r.size == f.size
      && forall k :: k in f.cache ==> k in r.cache && r.cache[k] == f.cache[k]
    decreases |ops|
  {
    if |ops| > 0 {
      var next := match ops[0]
        case Resize(s) => SetSize(f, s)
        case Lookup(c) => GlyphOf(f, c, render).0;
      CacheNeverEvictsAsWritten(next, ops[1..], render);
    }
  }

  /** Over any sequence of calls that starts with a `setSize` (as every
      drawing path does), the cache stays coherent: every glyph in it matches
      the size in its key. */
  lemma {:induction false} RunFontCoherent<G>(f: Font<G>, ops: seq<FontOp>, render: Rasterizer<G>)
    requires Coherent(f, render)
    requires Synced(f) || (|ops| > 0 && ops[0].Resize?)
    ensures Coherent(RunFont(f, ops, render), render)
    decreases |ops|
  {
    if |ops| > 0 {
      var next := match ops[0]
        case Resize(s) => SetSizeIntended(f, s)
        case Lookup(c) => GlyphOf(f, c, render).0;
      if ops[0].Lookup? {
        LookupKeepsCoherent(f, ops[0].c, render);
      }
      assert Coherent(next, render) && Synced(next);
      RunFontCoherent(next, ops[1..], render);
    }
  }
}
