# Dear ImGui for Unity: draw data to GPU, in Dafny

This project models the per-frame path that takes Dear ImGui's draw data to Unity's GPU
submission in the DearImGui-Unity bindings. It has three parts.

- **Texture manager** (`TextureManager`), in modules `Textures`, `Fonts` and `AtlasUpload`:
  - integer texture handles that are reset every frame, with the font atlas re-registered
    first so that it always gets handle 1;
  - a sprite-UV cache that lives until shutdown;
  - zero-terminated glyph-range buffers in native memory, owned through a tracked set and
    released in bulk;
  - the control flow of building the font atlas: the default font, skipped missing font
    files, and the fallback rasterizer;
  - the copy of the atlas pixels with its rows reversed.
- **Mesh renderer** (`ImGuiRendererMesh`), in module `MeshRenderer`:
  - one dynamic mesh per frame, holding every draw list's vertices and indices at running
    offsets;
  - one submesh per draw command;
  - the mesh is cleared when the submesh count changes;
  - a culled, ordered walk of the commands, drawing submesh k for command k.
- **Procedural renderer** (`ImGuiRendererProcedural`), in module `ProceduralRenderer`:
  - grow-only vertex, index and argument buffers, sized in blocks of 256 elements;
  - one five-int indirect argument record per command;
  - a walk that advances 20 bytes per command and passes the base vertex as a shader
    parameter.

Shared definitions live in three modules:

- `ImDraw` defines the draw data and the running offsets once. A command's *placement* is
  the command together with its list's running vertex and index offsets.
- `Passes` defines the culled walk both renderers share: culling, texture-rebind
  deduplication and the Y-inverted scissor rectangle.
- `Common` holds `Option`/`Result`, bytes, concatenation with prefix offsets, and C#'s
  truncating division.

Everything is modelled as immutable values:

- An operation takes the old state and returns the new one.
- The renderers' loops and the atlas row copy are methods, and their loop invariants tie
  each running offset to a prefix sum. The texture manager's other loops (adding fonts,
  freeing the glyph buffers, copying the ranges) are recursive functions, a map
  comprehension and a sequence concatenation.
- Floats are `real`.
- GPU buffers and the mesh are sequences.
- Native memory is a map from addresses to blocks.
- Commands recorded into Unity's command buffer are a `Command` sequence.
- Which font files exist is a set of paths given as a parameter.
- Whether FreeType was compiled in is a boolean parameter.
- The shader level is an integer parameter.

In three places the model follows the code closely:

- **Argument slot 3.** The code writes only the list's running vertex offset into slot 3 of
  each argument record (`ImGuiRendererProcedural.cs:152`). The command's own `VtxOffset`
  reaches the GPU only through the `baseVertex` shader parameter (`:196`). `LinesUp` states
  exactly this gap.
- **Texture rebinding.** The texture is rebound when it differs from the last *bound* one,
  not from the previous command's. Culled commands leave the bound texture alone.
- **Frame totals.** ImGui's `TotalVtxCount`/`TotalIdxCount` are taken to be the sums over the
  lists, which ImGui maintains.

## Model

| member | source | states |
|---|---|---|
| `Common.TruncDiv` | Assets/ImGuiUnity/ImGuiNET.Unity/Renderer/ImGuiRendererProcedural.cs:97 | C# integer division: the quotient is truncated toward zero, so b * q <= a < b * q + b for a >= 0 and b * q - b < a <= b * q for a < 0 (it differs from the floor exactly when a is negative and b does not divide it) |
| `Textures.GetTexture` | Assets/ImGuiUnity/ImGuiNET.Unity/Platform/TextureManager.cs:30-33 | a handle resolves exactly when it was issued this frame (1..current); the texture it resolves to maps back to that handle; any other handle gives null |
| `Textures.RegisterTexture` | Assets/ImGuiUnity/ImGuiNET.Unity/Platform/TextureManager.cs:52-56 | issues the pre-incremented id current+1; both maps stay mutually inverse; no other handle, no other texture's registration, the atlas or the sprite cache changes |
| `Textures.Initialize` | Assets/ImGuiUnity/ImGuiNET.Unity/Platform/TextureManager.cs:143-146 | once the atlas texture is stored, every frame can start and handle 1 resolves to it |
| `Textures.PrepareFrame` | Assets/ImGuiUnity/ImGuiNET.Unity/Platform/TextureManager.cs:22-28 | fails exactly when there is no atlas (null dictionary key); otherwise the atlas gets id 1 (the id handed to the font atlas), every other id resolves to null, and the sprite cache survives |
| `Textures.GetTextureId` | Assets/ImGuiUnity/ImGuiNET.Unity/Platform/TextureManager.cs:35-37 | the returned id resolves to the texture; a known texture leaves the manager unchanged; a new one gets current+1; earlier handles keep resolving as before |
| `Textures.GetTextureIdIdempotent` | Assets/ImGuiUnity/ImGuiNET.Unity/Platform/TextureManager.cs:35-37 | asking again within a frame returns the same id and changes nothing |
| `Textures.ConsecutiveIds` | Assets/ImGuiUnity/ImGuiNET.Unity/Platform/TextureManager.cs:52-56 | distinct new textures receive consecutive ids current+1, current+2, ... and the counter advances by their number |
| `Textures.FrameIdsStartAfterAtlas` | Assets/ImGuiUnity/ImGuiNET.Unity/Platform/TextureManager.cs:22-37 | after a frame starts, distinct non-atlas textures get ids 2, 3, ... in the order first asked for |
| `Textures.GetSpriteInfo` | Assets/ImGuiUnity/ImGuiNET.Unity/Platform/TextureManager.cs:39-50 | the cache is keyed on the sprite object: a sprite already seen is served its first answer, unchanged, without reading its UVs again; a new one stores exactly one entry with uv0 = (u0, 1 - v0), uv1 = (u1, 1 - v1), its texture and size; other entries and the rest of the manager are untouched |
| `Textures.SpriteInfoMemoised` | Assets/ImGuiUnity/ImGuiNET.Unity/Platform/TextureManager.cs:39-50 | every later request for the same sprite object, even with changed UVs and after the next frame starts, returns the first answer and changes nothing |
| `Textures.Shutdown` | Assets/ImGuiUnity/ImGuiNET.Unity/Platform/TextureManager.cs:148-157 | no handle resolves, the sprite cache is empty, the atlas is gone (so a frame cannot start until re-initialised) |
| `Fonts.AllocateGlyphRangeArray` | Assets/ImGuiUnity/ImGuiNET.Unity/Platform/TextureManager.cs:58-74 | empty ranges give null and allocate nothing; otherwise a fresh, tracked block holding the ranges followed by a 0; existing blocks are untouched |
| `Fonts.FreeGlyphRangeArrays` | Assets/ImGuiUnity/ImGuiNET.Unity/Platform/TextureManager.cs:76-82 | every block is released and the tracked set is empty, and ownership stays exact |
| `Fonts.DestroyFontAtlas` | Assets/ImGuiUnity/ImGuiNET.Unity/Platform/TextureManager.cs:136-141 | frees every tracked buffer, empties the tracked set, clears the fonts and resets the default-font reference |
| `Fonts.AddFonts` | Assets/ImGuiUnity/ImGuiNET.Unity/Platform/TextureManager.cs:101-114 | adds one font per definition whose file exists, logs one not-found message per missing file in order, and only grows the heap; no two fonts share a glyph buffer and every buffer is newly allocated |
| `Fonts.AddFontsFaithful` | Assets/ImGuiUnity/ImGuiNET.Unity/Platform/TextureManager.cs:101-114 | the k-th added font is the k-th existing definition, with its size and a glyph pointer that is null when the definition has no ranges, else a live, tracked, zero-terminated copy of its ranges |
| `Fonts.MissingHasNoRasterizerEntry` | Assets/ImGuiUnity/ImGuiNET.Unity/Platform/TextureManager.cs:101-107 | every message logged while adding fonts is a font-file-not-found message, never a rasterizer warning |
| `Fonts.Effective` | Assets/ImGuiUnity/ImGuiNET.Unity/Platform/TextureManager.cs:120-133 | FreeType is used exactly when requested and compiled in; otherwise the default rasterizer |
| `Fonts.BuildFontAtlas` | Assets/ImGuiUnity/ImGuiNET.Unity/Platform/TextureManager.cs:84-134 | the atlas is built with at least one font; a built atlas's buffers are freed first; the no-mouse-cursors flag is set when cursors are not drawn; no settings builds with the default rasterizer and logs nothing; a warning is logged exactly when FreeType is requested but unavailable |
| `Fonts.NoSettingsGivesDefaultFont` | Assets/ImGuiUnity/ImGuiNET.Unity/Platform/TextureManager.cs:94-99 | without a configuration asset a fresh or rebuilt atlas holds exactly the default font |
| `Fonts.BuildAddsFoundFonts` | Assets/ImGuiUnity/ImGuiNET.Unity/Platform/TextureManager.cs:101-118 | with a configuration asset the fonts are exactly the existing definitions in order, each with a null glyph pointer when it has no ranges, else its own zero-terminated copy (no two fonts share a buffer), or only the default font when no file exists; the log starts with the not-found messages |
| `AtlasUpload.FlipAt` | Assets/ImGuiUnity/ImGuiNET.Unity/Platform/TextureManager.cs:170-174 | byte x of source row y lands at byte x of destination row height - 1 - y |
| `AtlasUpload.EachByteWrittenOnce` | Assets/ImGuiUnity/ImGuiNET.Unity/Platform/TextureManager.cs:172-174 | every destination byte is the target of exactly one (row, column) of the source |
| `AtlasUpload.FlipTwice` | Assets/ImGuiUnity/ImGuiNET.Unity/Platform/TextureManager.cs:169-174 | reversing the rows twice gives back the original image |
| `AtlasUpload.CopyRowStep` | Assets/ImGuiUnity/ImGuiNET.Unity/Platform/TextureManager.cs:173 | copying one row extends the correctly flipped tail of the destination by one row |
| `AtlasUpload.CreateAtlasTexture` | Assets/ImGuiUnity/ImGuiNET.Unity/Platform/TextureManager.cs:159-179 | the row-by-row copy produces the source with its rows reversed, stride width * bytesPerPixel |
| `ImDraw.PlacedAt` | Assets/ImGuiUnity/ImGuiNET.Unity/Renderer/ImGuiRendererMesh.cs:144-148 | command i of list n is the global command CmdOffset(n) + i, carrying list n's running vertex and index offsets |
| `ImDraw.Scissor` | Assets/ImGuiUnity/ImGuiNET.Unity/Renderer/ImGuiRendererMesh.cs:159 | the scissor spans clip.x to clip.z horizontally and, with y inverted, fbH - clip.w to fbH - clip.y vertically |
| `ImDraw.CountCommands` | Assets/ImGuiUnity/ImGuiNET.Unity/Renderer/ImGuiRendererMesh.cs:79-81 | the count is the total number of commands across all lists |
| `ImDraw.UploadGeometry` | Assets/ImGuiUnity/ImGuiNET.Unity/Renderer/ImGuiRendererMesh.cs:89-128 | writing each list at its running offsets into buffers of the frame totals yields exactly all lists' vertices (and indices) in list order |
| `ImDraw.GeometryAt` | Assets/ImGuiUnity/ImGuiNET.Unity/Renderer/ImGuiRendererMesh.cs:110-111 | vertex (index) j of list n sits at the list's running offset + j: the ranges are contiguous, disjoint and in list order |
| `Passes.Rebind` | Assets/ImGuiUnity/ImGuiNET.Unity/Renderer/ImGuiRendererMesh.cs:156-157 | a texture is rebound exactly when it differs from the bound one, and then to itself |
| `Passes.Visits` | Assets/ImGuiUnity/ImGuiNET.Unity/Renderer/ImGuiRendererMesh.cs:146-161 | walking k commands yields at most k draws, each for one of those commands |
| `Passes.VisitsSound` | Assets/ImGuiUnity/ImGuiNET.Unity/Renderer/ImGuiRendererMesh.cs:153-159 | every draw is for a command that is not culled and carries that command's scissor |
| `Passes.VisitsComplete` | Assets/ImGuiUnity/ImGuiNET.Unity/Renderer/ImGuiRendererMesh.cs:153-154 | every command that is not culled is drawn (with VisitsSound: drawn iff not culled) |
| `Passes.VisitsOrdered` | Assets/ImGuiUnity/ImGuiNET.Unity/Renderer/ImGuiRendererMesh.cs:146-148 | draws come out in list-then-command order, each command at most once |
| `Passes.BoundIsLastVisited` | Assets/ImGuiUnity/ImGuiNET.Unity/Renderer/ImGuiRendererMesh.cs:135-157 | the bound texture is that of the last drawn command, or 0 before any draw: culled commands do not change it |
| `Passes.VisitsBindOnChange` | Assets/ImGuiUnity/ImGuiNET.Unity/Renderer/ImGuiRendererMesh.cs:135-157 | a draw rebinds exactly when its texture differs from the previous draw's (0 for the first) |
| `MeshRenderer.Initial` | Assets/ImGuiUnity/ImGuiNET.Unity/Renderer/ImGuiRendererMesh.cs:32 | a new renderer remembers one submesh, matching a new mesh |
| `MeshRenderer.BuildSubMeshes` | Assets/ImGuiUnity/ImGuiNET.Unity/Renderer/ImGuiRendererMesh.cs:96-124 | one descriptor per command, the k-th built from the k-th command and its list's running offsets |
| `MeshRenderer.DescriptorAt` | Assets/ImGuiUnity/ImGuiNET.Unity/Renderer/ImGuiRendererMesh.cs:114-127 | command i of list n gets Triangles, indexStart = index offset of list n + IdxOffset, indexCount = ElemCount, baseVertex = vertex offset of list n + VtxOffset |
| `MeshRenderer.UpdateMesh` | Assets/ImGuiUnity/ImGuiNET.Unity/Renderer/ImGuiRendererMesh.cs:78-132 | the mesh is cleared exactly when the command count differs from the remembered one, which afterwards equals it; the mesh holds all vertices and indices and one descriptor per command |
| `MeshRenderer.DrawCommand` | Assets/ImGuiUnity/ImGuiNET.Unity/Renderer/ImGuiRendererMesh.cs:149-160 | handling command k extends the draws and the bound texture exactly as the reference walk does |
| `MeshRenderer.CreateDrawCommands` | Assets/ImGuiUnity/ImGuiNET.Unity/Renderer/ImGuiRendererMesh.cs:134-165 | the viewport is the framebuffer; the draws are the reference walk's, the draw for command k using submesh k |
| `MeshRenderer.RenderDrawLists` | Assets/ImGuiUnity/ImGuiNET.Unity/Renderer/ImGuiRendererMesh.cs:62-76 | nothing happens (state unchanged, no pass) exactly when the framebuffer is empty or there are no vertices; otherwise the mesh holds all vertices and indices and one submesh per command, the viewport is the framebuffer, the draws are the reference walk (every unculled command, in order), and each draw's submesh is the descriptor built for that very command |
| `MeshRenderer.Commands` | Assets/ImGuiUnity/ImGuiNET.Unity/Renderer/ImGuiRendererMesh.cs:139-164 | the recorded stream starts by setting the viewport and ends by disabling the scissor; its draw instructions are exactly one DrawMesh per draw, in order, each naming that draw's submesh |
| `ProceduralRenderer.Create` | Assets/ImGuiUnity/ImGuiNET.Unity/Renderer/ImGuiRendererProcedural.cs:34-49 | construction fails exactly when the shader level is below 45; a new renderer has no buffers and the staging record [0, 1, 0, 0, 0] |
| `ProceduralRenderer.Shutdown` | Assets/ImGuiUnity/ImGuiNET.Unity/Renderer/ImGuiRendererProcedural.cs:62-77 | all three buffers are released |
| `ProceduralRenderer.BufferCount` | Assets/ImGuiUnity/ImGuiNET.Unity/Renderer/ImGuiRendererProcedural.cs:96-110 | the size is a multiple of 256, at least 256 and at least the count, less than count + 256 for count >= 1, and 256 for count 0 |
| `ProceduralRenderer.BufferCountIsLeast` | Assets/ImGuiUnity/ImGuiNET.Unity/Renderer/ImGuiRendererProcedural.cs:97 | the size is the smallest positive multiple of 256 holding the count |
| `ProceduralRenderer.Grow` | Assets/ImGuiUnity/ImGuiNET.Unity/Renderer/ImGuiRendererProcedural.cs:119-129 | a buffer that is big enough is kept as it is; otherwise a new one of BufferCount(need) elements is made; the result always holds the need |
| `ProceduralRenderer.GrowKeeps` | Assets/ImGuiUnity/ImGuiNET.Unity/Renderer/ImGuiRendererProcedural.cs:119-129 | buffers never shrink: a later request the buffer already meets changes nothing |
| `ProceduralRenderer.GrowScenario` | Assets/ImGuiUnity/ImGuiNET.Unity/Renderer/ImGuiRendererProcedural.cs:119-121 | a 200-element buffer asked for 300 becomes 512 elements and is then kept for every request up to 512 |
| `ProceduralRenderer.ArgRecord` | Assets/ImGuiUnity/ImGuiNET.Unity/Renderer/ImGuiRendererProcedural.cs:34 | an argument record has five slots with instance count 1 and start instance 0 |
| `ProceduralRenderer.SlotWrite` | Assets/ImGuiUnity/ImGuiNET.Unity/Renderer/ImGuiRendererProcedural.cs:157 | writing slot k sets its five ints and leaves earlier slots and later ints alone |
| `ProceduralRenderer.WriteRecord` | Assets/ImGuiUnity/ImGuiNET.Unity/Renderer/ImGuiRendererProcedural.cs:154-159 | after staging command k, slots 0..k hold their commands' records, later ints are untouched, and slots 1, 3 and 4 of the staging record keep their values |
| `ProceduralRenderer.WriteArgs` | Assets/ImGuiUnity/ImGuiNET.Unity/Renderer/ImGuiRendererProcedural.cs:132-164 | the ints at 5k are [ElemCount, 1, running index offset + IdxOffset, running vertex offset, 0] for every command k; the rest of the buffer is untouched; slots 1 and 4 of the staging record never change |
| `ProceduralRenderer.UpdateBuffers` | Assets/ImGuiUnity/ImGuiNET.Unity/Renderer/ImGuiRendererProcedural.cs:112-165 | each buffer is grown only when missing or too small (vertex total, index total, 5 per command); the vertex and index buffers start with all lists' data in order; the argument buffer holds every command's record |
| `ProceduralRenderer.DrawCommand` | Assets/ImGuiUnity/ImGuiNET.Unity/Renderer/ImGuiRendererProcedural.cs:184-198 | handling command k extends the draws and the bound texture exactly as the reference walk does |
| `ProceduralRenderer.CreateDrawCommands` | Assets/ImGuiUnity/ImGuiNET.Unity/Renderer/ImGuiRendererProcedural.cs:167-205 | the viewport is the framebuffer; the draws are the reference walk's, the draw for command k reading bytes from 20k with base vertex = running vertex offset + VtxOffset |
| `ProceduralRenderer.RenderDrawLists` | Assets/ImGuiUnity/ImGuiNET.Unity/Renderer/ImGuiRendererProcedural.cs:79-94 | nothing happens (state unchanged, no pass) exactly when the framebuffer is empty or there are no vertices; otherwise the vertex and index buffers start with all lists' data, the viewport is the framebuffer, the draws are the reference walk (every unculled command, in order), and every draw reads the record written for its own command at byte 4 * 5k, its base vertex exceeding the record's slot 3 by exactly that command's VtxOffset |
| `ProceduralRenderer.Commands` | Assets/ImGuiUnity/ImGuiNET.Unity/Renderer/ImGuiRendererProcedural.cs:174-204 | the recorded stream starts by setting the viewport and ends by disabling the scissor; its draw instructions are exactly one DrawProceduralIndirect per draw, in order, each reading that draw's argument byte offset |

## Left out

- Unity and GPU objects (`Mesh`, `ComputeBuffer`, `GraphicsBuffer`, `Material`, `MaterialPropertyBlock`, `Texture2D.Apply`, `Object.Destroy`) and profiler markers and samples: buffers and the mesh are plain sequences, and recorded commands are values.
- The renderers' `Initialize` and the mesh renderer's `Shutdown`: they only create or destroy the material and mesh objects and set a backend flag.
- View and projection matrices and the half-pixel translate: floating-point matrix math with no contract to state.
- Floating-point rounding: clip, scissor and UV arithmetic use exact reals.
- C# 32-bit overflow of handle ids, offsets and the uint-to-int casts of `ElemCount`/`IdxOffset`/`VtxOffset`: integers are unbounded, since real frames stay far from 2^31.
- `Textures.PrepareFrame`: on a missing atlas it returns an error. It does not model the half-updated maps the C# exception leaves behind.
- `Textures.GetSpriteInfo`: for a sprite not yet cached it requires at least two UVs, as the source indexes `uv[0]` and `uv[1]` unchecked. A null sprite, for which the dictionary lookup throws, is not modelled, because `Sprite` values are never null. A sprite's rectangle size is taken as a given field.
- `Textures.GetTextureId`: a null texture, for which the dictionary lookup throws, is not modelled, because `Texture` values are never null.
- `Fonts.BuildFontAtlas`: the file system is a set of existing paths. The `streamingAssetsPath` prefix is not part of this model. ImGui's `AddFontFromFileTTF`/`AddFontDefault`/`Build`, `FontConfig.ApplyTo`, `BuildRanges` and FreeType flags are opaque. A font records only its path, size and glyph-range pointer, and the font config's built range list is its `glyphRanges` field. The log is `Debug.Log` output.
- `AtlasUpload.CreateAtlasTexture`: `GetTexDataAsRGBA32` is opaque, so the pixels and sizes are parameters. The destination is sized like the source, width * height * bytesPerPixel bytes. The engine texture is RGBA32, width * height * 4 bytes, and the two agree only because that call always reports 4 bytes per pixel; the model does not fix bytesPerPixel to 4.
- Native memory and `NativeArray` wrapping: glyph buffers live in an address-to-block map with a bump allocator, and vertex and index arrays are sequences.
- Draw-command user callbacks: the source leaves them as a TODO and never calls them.
