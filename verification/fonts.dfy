/** Font atlas bookkeeping of the texture manager: zero-terminated glyph range buffers
    in native memory whose ownership is tracked in a set and released in bulk, and the
    control flow of building the atlas (default font, skipped missing files, fallback
    rasterizer). The GUI library's own font loading and packing are opaque: a font is
    recorded as added, and the atlas as built with some rasterizer. */
module Fonts {
  import opened Common

  /** A native pointer; 0 is null. */
  type Ptr = nat

  /** A native memory block: live with its contents, or already released. */
  datatype Block = Live(data: seq<u16>) | Freed

  /** The native blocks this manager ever allocated, the set of those it still owns
      (allocatedGlyphRangeArrays), and the next address the allocator hands out. */
  datatype GlyphArena = GlyphArena(tracked: set<Ptr>, heap: map<Ptr, Block>, next: Ptr)

  /** Ownership is exact: a block is live precisely when it is tracked, so nothing leaks
      and nothing tracked dangles; addresses are non-null and below `next`. */
  ghost predicate Valid(a: GlyphArena)
  {
    && a.next >= 1
    && a.tracked <= a.heap.Keys
    && (forall p :: p in a.heap ==> 1 <= p < a.next)
    && (forall p :: p in a.heap ==> (a.heap[p].Live? <==> p in a.tracked))
  }

  /** `data` is `values` followed by a terminating zero. */
  predicate ZeroTerminated(data: seq<u16>, values: seq<u16>)
  {
    && |data| == |values| + 1
    && (forall i :: 0 <= i < |values| ==> data[i] == values[i])
    && data[|values|] == 0
  }

  /** Pointer `p` is what a font config with these ranges receives: null for no ranges,
      otherwise an owned block holding the zero-terminated ranges. */
  ghost predicate HoldsRanges(a: GlyphArena, p: Ptr, values: seq<u16>)
  {
    if |values| == 0 then p == 0
    else p != 0 && p in a.heap && p in a.tracked && a.heap[p].Live? && ZeroTerminated(a.heap[p].data, values)
  }

  /** Native blocks that existed keep their state. */
  ghost predicate HeapGrows(a: GlyphArena, b: GlyphArena)
  {
    && a.tracked <= b.tracked
    && forall p :: p in a.heap ==> p in b.heap && b.heap[p] == a.heap[p]
  }

  /** Copies the ranges into a new zero-terminated native buffer and tracks it; an empty
      range list gets null and allocates nothing. */
  function AllocateGlyphRangeArray(a: GlyphArena, values: seq<u16>): (r: (GlyphArena, Ptr))
    requires Valid(a)
    ensures Valid(r.0) && HeapGrows(a, r.0)
    ensures r.1 == 0 <==> |values| == 0
    ensures r.1 == 0 ==> r.0 == a
    ensures r.1 != 0 ==> r.1 !in a.heap && r.0.tracked == a.tracked + {r.1}
    ensures HoldsRanges(r.0, r.1, values)
  {
    if |values| == 0 then (a, 0)
    else
      var p := a.next;
      (GlyphArena(a.tracked + {p}, a.heap[p := Live(values + [0])], p + 1), p)
  }

  /** Releases every tracked buffer and forgets them all. */
  function FreeGlyphRangeArrays(a: GlyphArena): (r: GlyphArena)
    requires Valid(a)
    ensures Valid(r) && r.tracked == {}
    ensures r.heap.Keys == a.heap.Keys && forall p :: p in r.heap ==> r.heap[p] == Freed
  {
    GlyphArena({}, map p | p in a.heap :: if p in a.tracked then Freed else a.heap[p], a.next)
  }

  datatype Rasterizer = StbTrueType | FreeType

  /** A font's configuration; `glyphRanges` is what it builds as its range list. */
  datatype FontConfig = FontConfig(sizeInPixels: real, glyphRanges: seq<u16>)

  datatype FontDefinition = FontDefinition(fontPath: string, config: FontConfig)

  /** The font atlas configuration asset. */
  datatype FontAtlasConfig = FontAtlasConfig(fonts: seq<FontDefinition>, rasterizer: Rasterizer)

  /** A font the atlas was asked to add. */
  datatype Font = DefaultFont | FileFont(path: string, sizeInPixels: real, glyphRanges: Ptr)

  /** The GUI library's font atlas, with the IO's default-font reference: the fonts added,
      the rasterizer it was built with (None when not built) and the no-mouse-cursors flag. */
  datatype Atlas = Atlas(fonts: seq<Font>, built: Option<Rasterizer>, noMouseCursors: bool, fontDefault: Option<nat>)

  datatype LogEntry = FontFileNotFound(path: string) | RasterizerUnavailable(requested: Rasterizer)

  /** Releases the glyph buffers, clears the atlas and drops the default-font reference
      (its index would no longer be valid). */
  function DestroyFontAtlas(a: GlyphArena, at: Atlas): (r: (GlyphArena, Atlas))
    requires Valid(a)
    ensures Valid(r.0) && r.0.tracked == {}
    ensures forall p :: p in a.tracked ==> p in r.0.heap && r.0.heap[p] == Freed
    ensures r.1.fonts == [] && r.1.built.None? && r.1.fontDefault.None?
    ensures r.1.noMouseCursors == at.noMouseCursors
  {
    (FreeGlyphRangeArrays(a), Atlas([], None, at.noMouseCursors, None))
  }

  /** The definitions whose font file exists, in order. */
  function Found(defs: seq<FontDefinition>, existing: set<string>): (r: seq<FontDefinition>)
    ensures |r| <= |defs|
  {
    if |defs| == 0 then []
    else (if defs[0].fontPath in existing then [defs[0]] else []) + Found(defs[1..], existing)
  }

  /** One not-found message per definition whose file is missing, in order. */
  function Missing(defs: seq<FontDefinition>, existing: set<string>): seq<LogEntry>
  {
    if |defs| == 0 then []
    else (if defs[0].fontPath in existing then [] else [FontFileNotFound(defs[0].fontPath)]) + Missing(defs[1..], existing)
  }

  /** No two fonts share a glyph range buffer (null, for fonts without ranges, aside). */
  predicate DistinctBuffers(fonts: seq<Font>)
  {
    forall j, k :: 0 <= j < k < |fonts| && fonts[j].FileFont? && fonts[k].FileFont? && fonts[j].glyphRanges != 0 ==>
      fonts[j].glyphRanges != fonts[k].glyphRanges
  }

  /** Every font's glyph range buffer is null or was allocated after arena `a`. */
  predicate FreshBuffers(a: GlyphArena, fonts: seq<Font>)
  {
    forall k :: 0 <= k < |fonts| && fonts[k].FileFont? && fonts[k].glyphRanges != 0 ==> fonts[k].glyphRanges !in a.heap
  }

  /** Adds a font per definition whose file exists, each with its own freshly allocated
      glyph range buffer (or null without ranges); missing files are logged and skipped. */
  function AddFonts(a: GlyphArena, defs: seq<FontDefinition>, existing: set<string>): (r: (GlyphArena, seq<Font>, seq<LogEntry>))
    requires Valid(a)
    ensures Valid(r.0) && HeapGrows(a, r.0)
    ensures |r.1| == |Found(defs, existing)|
    ensures r.2 == Missing(defs, existing)
    ensures DistinctBuffers(r.1) && FreshBuffers(a, r.1)
    decreases |defs|
  {
    if |defs| == 0 then (a, [], [])
    else
      var d := defs[0];
      if d.fontPath !in existing then
        var (a1, fonts, log) := AddFonts(a, defs[1..], existing);
        (a1, fonts, [FontFileNotFound(d.fontPath)] + log)
      else
        var (a1, p) := AllocateGlyphRangeArray(a, d.config.glyphRanges);
        var (a2, fonts, log) := AddFonts(a1, defs[1..], existing);
        (a2, [FileFont(d.fontPath, d.config.sizeInPixels, p)] + fonts, log)
  }

  /** Each added font is the next definition whose file exists, pointing at null when it
      has no glyph ranges and else at a live, tracked, zero-terminated copy of them
      (AddFonts adds that the copies are distinct). */
  lemma {:induction false} AddFontsFaithful(a: GlyphArena, defs: seq<FontDefinition>, existing: set<string>)
    requires Valid(a)
    ensures var (a', fonts, _) := AddFonts(a, defs, existing);
      forall k :: 0 <= k < |fonts| ==> FaithfulFont(a', fonts[k], Found(defs, existing)[k])
    decreases |defs|
  {
    if |defs| > 0 {
      var d := defs[0];
      var rest := defs[1..];
      if d.fontPath !in existing {
        AddFontsFaithful(a, rest, existing);
        assert Found(defs, existing) == Found(rest, existing);
      } else {
        var (a1, p) := AllocateGlyphRangeArray(a, d.config.glyphRanges);
        AddFontsFaithful(a1, rest, existing);
        var (a2, fonts, log) := AddFonts(a1, rest, existing);
        var found := Found(defs, existing);
        assert found == [d] + Found(rest, existing);
        var all := [FileFont(d.fontPath, d.config.sizeInPixels, p)] + fonts;
        assert AddFonts(a, defs, existing).1 == all;
        HoldsRangesKept(a1, a2, p, d.config.glyphRanges);
        assert FaithfulFont(a2, all[0], found[0]);
        forall k | 0 <= k < |all|
          ensures FaithfulFont(a2, all[k], found[k])
        {
          if k > 0 {
            assert all[k] == fonts[k - 1] && found[k] == Found(rest, existing)[k - 1];
          }
        }
      }
    }
  }

  /** A block the arena holds stays held while the heap only grows. */
  lemma HoldsRangesKept(a: GlyphArena, b: GlyphArena, p: Ptr, values: seq<u16>)
    requires HoldsRanges(a, p, values) && HeapGrows(a, b)
    ensures HoldsRanges(b, p, values)
  {
  }

  /** The font added for definition `d`, with its glyph ranges owned by the arena. */
  ghost predicate FaithfulFont(a: GlyphArena, f: Font, d: FontDefinition)
  {
    && f.FileFont? && f.path == d.fontPath && f.sizeInPixels == d.config.sizeInPixels
    && HoldsRanges(a, f.glyphRanges, d.config.glyphRanges)
  }

  /** The rasterizer that actually builds the atlas: FreeType only when requested and
      compiled in, the default one otherwise. */
  function Effective(requested: Rasterizer, freeTypeAvailable: bool): (r: Rasterizer)
    ensures r == FreeType <==> requested == FreeType && freeTypeAvailable
  {
    match requested
    case StbTrueType => StbTrueType
    case FreeType => if freeTypeAvailable then FreeType else StbTrueType
  }

  /** Builds the font atlas from the configuration asset (None: no asset). An already built
      atlas is destroyed first. `existing` is the set of font files present on disk;
      `freeTypeAvailable` says whether the FreeType rasterizer was compiled in. */
  function BuildFontAtlas(a: GlyphArena, at: Atlas, mouseDrawCursor: bool, settings: Option<FontAtlasConfig>,
                          existing: set<string>, freeTypeAvailable: bool): (r: (GlyphArena, Atlas, seq<LogEntry>))
    requires Valid(a)
    ensures Valid(r.0)
    ensures r.1.built.Some? && |r.1.fonts| >= 1
    ensures r.1.noMouseCursors == (at.noMouseCursors || !mouseDrawCursor)
    ensures at.built.Some? ==> forall p :: p in a.tracked ==> p !in r.0.tracked && p in r.0.heap && r.0.heap[p] == Freed
    ensures settings.None? ==> r.1.built == Some(StbTrueType) && r.2 == []
    ensures settings.Some? ==> r.1.built == Some(Effective(settings.value.rasterizer, freeTypeAvailable))
    ensures (exists e :: e in r.2 && e.RasterizerUnavailable?)
        <==> settings.Some? && settings.value.rasterizer == FreeType && !freeTypeAvailable
  {
    var (a1, at1) := if at.built.Some? then DestroyFontAtlas(a, at) else (a, at);
    var at2 := at1.(noMouseCursors := at1.noMouseCursors || !mouseDrawCursor);
    if settings.None? then
      (a1, at2.(fonts := at2.fonts + [DefaultFont], built := Some(StbTrueType)), [])
    else
      var cfg := settings.value;
      var (a3, added, log) := AddFonts(a1, cfg.fonts, existing);
      var fonts := if |at2.fonts + added| == 0 then [DefaultFont] else at2.fonts + added;
      var warn := if Effective(cfg.rasterizer, freeTypeAvailable) != cfg.rasterizer then [RasterizerUnavailable(cfg.rasterizer)] else [];
      MissingHasNoRasterizerEntry(cfg.fonts, existing);
      assert warn != [] ==> warn[0] in log + warn;
      (a3, at2.(fonts := fonts, built := Some(Effective(cfg.rasterizer, freeTypeAvailable))), log + warn)
  }

  lemma {:induction false} MissingHasNoRasterizerEntry(defs: seq<FontDefinition>, existing: set<string>)
    ensures forall e :: e in Missing(defs, existing) ==> e.FontFileNotFound?
    decreases |defs|
  {
    if |defs| > 0 {
      MissingHasNoRasterizerEntry(defs[1..], existing);
    }
  }

  /** Without a configuration asset, a fresh or rebuilt atlas holds exactly the default font. */
  lemma NoSettingsGivesDefaultFont(a: GlyphArena, at: Atlas, mouseDrawCursor: bool, existing: set<string>, freeTypeAvailable: bool)
    requires Valid(a)
    requires at.built.Some? || at.fonts == []
    ensures BuildFontAtlas(a, at, mouseDrawCursor, None, existing, freeTypeAvailable).1.fonts == [DefaultFont]
  {
  }

  /** With a configuration asset, a fresh or rebuilt atlas holds one font per definition
      whose file exists, in order, each pointing at null when it has no ranges and else at
      its own zero-terminated copy of them (no two fonts share a buffer);
      only when no file exists does it fall back to the default font. One message is
      logged per missing file. */
  lemma BuildAddsFoundFonts(a: GlyphArena, at: Atlas, mouseDrawCursor: bool, cfg: FontAtlasConfig,
                            existing: set<string>, freeTypeAvailable: bool)
    requires Valid(a)
    requires at.built.Some? || at.fonts == []
    ensures var (a', at', log) := BuildFontAtlas(a, at, mouseDrawCursor, Some(cfg), existing, freeTypeAvailable);
      var found := Found(cfg.fonts, existing);
      && (|found| == 0 ==> at'.fonts == [DefaultFont])
      && (|found| > 0 ==> |at'.fonts| == |found| && forall k :: 0 <= k < |found| ==> FaithfulFont(a', at'.fonts[k], found[k]))
      && DistinctBuffers(at'.fonts)
      && log[..|Missing(cfg.fonts, existing)|] == Missing(cfg.fonts, existing)
  {
    var (a1, at1) := if at.built.Some? then DestroyFontAtlas(a, at) else (a, at);
    assert at1.fonts == [];
    AddFontsFaithful(a1, cfg.fonts, existing);
    var (a3, added, log) := AddFonts(a1, cfg.fonts, existing);
    var r := BuildFontAtlas(a, at, mouseDrawCursor, Some(cfg), existing, freeTypeAvailable);
    assert r.0 == a3;
    assert r.1.fonts == if |added| == 0 then [DefaultFont] else added;
    assert r.2[..|log|] == log;
  }
}
