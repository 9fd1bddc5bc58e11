/** The texture manager's registry: frame-scoped integer texture handles and the sprite
    UV cache. The handle tables are cleared and the font atlas re-registered at the start
    of every frame; the sprite cache lives until shutdown. */
module Textures {
  import opened Common

  /** An engine texture, identified by its instance id (dictionaries key on identity). */
  datatype Texture = Texture(instanceId: int)

  /** An engine sprite: its instance id (the cache keys on identity), its texture, pixel
      size and per-vertex texture coordinates. */
  datatype Sprite = Sprite(instanceId: int, texture: Texture, size: Vec2, uv: seq<Vec2>)

  /** What the GUI needs to draw a sprite: texture, size and the corner coordinates with v
      flipped to the GUI's top-left origin. */
  datatype SpriteInfo = SpriteInfo(texture: Texture, size: Vec2, uv0: Vec2, uv1: Vec2)

  /** Registering the atlas before it was created: the dictionary refuses a null key. */
  datatype Error = NullTextureKey

  datatype Manager = Manager(
    atlasTex: Option<Texture>,
    currentTextureId: int,
    textures: map<int, Texture>,
    textureIds: map<Texture, int>,
    spriteData: map<int, SpriteInfo>)

  /** A freshly constructed (or shut down) manager. */
  function Empty(): Manager
  {
    Manager(None, 0, map[], map[], map[])
  }

  /** The frame's handle table: exactly the ids 1..currentTextureId are issued, and the
      id-to-texture and texture-to-id maps are inverse to each other. */
  ghost predicate Valid(m: Manager)
  {
    && m.currentTextureId >= 0
    && (forall id :: id in m.textures <==> 1 <= id <= m.currentTextureId)
    && (forall id :: id in m.textures ==> m.textures[id] in m.textureIds && m.textureIds[m.textures[id]] == id)
    && (forall t :: t in m.textureIds ==> m.textureIds[t] in m.textures && m.textures[m.textureIds[t]] == t)
  }

  /** Resolves a handle; handles not issued this frame resolve to null. */
  function GetTexture(m: Manager, id: int): (r: Option<Texture>)
    ensures Valid(m) ==> (r.Some? <==> 1 <= id <= m.currentTextureId)
    ensures Valid(m) && r.Some? ==> r.value in m.textureIds && m.textureIds[r.value] == id
  {
    if id in m.textures then Some(m.textures[id]) else None
  }

  /** Issues the next handle for a texture not yet registered this frame. */
  function RegisterTexture(m: Manager, t: Texture): (r: (Manager, int))
    requires Valid(m) && t !in m.textureIds
    ensures Valid(r.0)
    ensures r.1 == m.currentTextureId + 1 == r.0.currentTextureId
    ensures GetTexture(r.0, r.1) == Some(t) && r.0.textureIds[t] == r.1
    ensures forall id :: id != r.1 ==> GetTexture(r.0, id) == GetTexture(m, id)
    ensures forall u :: u != t ==> (u in r.0.textureIds <==> u in m.textureIds)
    ensures r.0.atlasTex == m.atlasTex && r.0.spriteData == m.spriteData
  {
    var id := m.currentTextureId + 1;
    (m.(currentTextureId := id, textures := m.textures[id := t], textureIds := m.textureIds[t := id]), id)
  }

  /** Stores the atlas texture created at initialisation: from then on every frame can
      start, and the atlas is what handle 1 resolves to. */
  function Initialize(m: Manager, atlas: Texture): (r: Manager)
    ensures PrepareFrame(r).Ok? && GetTexture(PrepareFrame(r).value.0, 1) == Some(atlas)
    ensures r.spriteData == m.spriteData
  {
    m.(atlasTex := Some(atlas))
  }

  /** Starts a frame: forgets every handle, then registers the atlas first, so it gets
      handle 1 (the id handed to the font atlas). Fails when the atlas was never created. */
  function PrepareFrame(m: Manager): (r: Result<(Manager, int), Error>)
    ensures r.Err? <==> m.atlasTex.None?
    ensures r.Ok? ==> Valid(r.value.0) && r.value.1 == 1
    ensures r.Ok? ==> forall id :: GetTexture(r.value.0, id) == (if id == 1 then m.atlasTex else None)
    ensures r.Ok? ==> r.value.0.atlasTex == m.atlasTex && r.value.0.spriteData == m.spriteData
  {
    if m.atlasTex.None? then Err(NullTextureKey)
    else
      var cleared := m.(currentTextureId := 0, textures := map[], textureIds := map[]);
      Ok(RegisterTexture(cleared, m.atlasTex.value))
  }

  /** The texture's handle for this frame, registering it under the next id if needed. */
  function GetTextureId(m: Manager, t: Texture): (r: (Manager, int))
    requires Valid(m)
    ensures Valid(r.0)
    ensures GetTexture(r.0, r.1) == Some(t)
    ensures t in m.textureIds ==> r.0 == m
    ensures t !in m.textureIds ==> r.1 == m.currentTextureId + 1 == r.0.currentTextureId
    ensures forall id :: 1 <= id <= m.currentTextureId ==> GetTexture(r.0, id) == GetTexture(m, id)
    ensures r.0.atlasTex == m.atlasTex && r.0.spriteData == m.spriteData
  {
    if t in m.textureIds then (m, m.textureIds[t]) else RegisterTexture(m, t)
  }

  /** Asking twice within a frame gives the same handle and changes nothing the second time. */
  lemma GetTextureIdIdempotent(m: Manager, t: Texture)
    requires Valid(m)
    ensures GetTextureId(GetTextureId(m, t).0, t) == GetTextureId(m, t)
  {
    var (m1, id1) := GetTextureId(m, t);
    assert t in m1.textureIds;
    assert m1.textureIds[t] == id1;
  }

  /** The handles given to a sequence of textures, in order. */
  function GetTextureIds(m: Manager, ts: seq<Texture>): (r: (Manager, seq<int>))
    requires Valid(m)
    ensures Valid(r.0) && |r.1| == |ts|
    decreases |ts|
  {
    if |ts| == 0 then (m, [])
    else
      var (m1, id) := GetTextureId(m, ts[0]);
      var (m2, ids) := GetTextureIds(m1, ts[1..]);
      (m2, [id] + ids)
  }

  /** Distinct textures not yet registered receive consecutive handles following the last one. */
  lemma {:induction false} ConsecutiveIds(m: Manager, ts: seq<Texture>)
    requires Valid(m)
    requires forall j :: 0 <= j < |ts| ==> ts[j] !in m.textureIds
    requires forall j1, j2 :: 0 <= j1 < j2 < |ts| ==> ts[j1] != ts[j2]
    ensures forall j :: 0 <= j < |ts| ==> GetTextureIds(m, ts).1[j] == m.currentTextureId + 1 + j
    ensures GetTextureIds(m, ts).0.currentTextureId == m.currentTextureId + |ts|
    decreases |ts|
  {
    if |ts| > 0 {
      var (m1, id) := GetTextureId(m, ts[0]);
      assert forall j :: 0 <= j < |ts[1..]| ==> ts[1..][j] == ts[j + 1];
      ConsecutiveIds(m1, ts[1..]);
    }
  }

  /** After a frame starts, the atlas is handle 1 and any further distinct textures get
      handles 2, 3, ... in the order they are first asked for. */
  lemma FrameIdsStartAfterAtlas(m: Manager, ts: seq<Texture>)
    requires m.atlasTex.Some?
    requires forall j :: 0 <= j < |ts| ==> ts[j] != m.atlasTex.value
    requires forall j1, j2 :: 0 <= j1 < j2 < |ts| ==> ts[j1] != ts[j2]
    ensures PrepareFrame(m).Ok?
    ensures forall j :: 0 <= j < |ts| ==> GetTextureIds(PrepareFrame(m).value.0, ts).1[j] == j + 2
  {
    var m1 := PrepareFrame(m).value.0;
    assert forall t :: t in m1.textureIds ==> GetTexture(m1, m1.textureIds[t]) == Some(t);
    ConsecutiveIds(m1, ts);
  }

  /** The sprite's info, computed on first request and then served from the cache. The
      cache is keyed on the sprite object, so a cached sprite is served as it was first seen
      and its coordinates are not read again. */
  function GetSpriteInfo(m: Manager, s: Sprite): (r: (Manager, SpriteInfo))
    requires s.instanceId in m.spriteData || |s.uv| >= 2
    ensures s.instanceId in m.spriteData ==> r == (m, m.spriteData[s.instanceId])
    ensures s.instanceId !in m.spriteData ==>
      && r.1.texture == s.texture && r.1.size == s.size
      && r.1.uv0 == Vec2(s.uv[0].x, 1.0 - s.uv[0].y)
      && r.1.uv1 == Vec2(s.uv[1].x, 1.0 - s.uv[1].y)
    ensures r.0.spriteData.Keys == m.spriteData.Keys + {s.instanceId} && r.0.spriteData[s.instanceId] == r.1
    ensures forall o :: o in m.spriteData ==> r.0.spriteData[o] == m.spriteData[o]
    ensures r.0.(spriteData := m.spriteData) == m
  {
    if s.instanceId in m.spriteData then (m, m.spriteData[s.instanceId])
    else
      var info := SpriteInfo(s.texture, s.size, Vec2(s.uv[0].x, 1.0 - s.uv[0].y), Vec2(s.uv[1].x, 1.0 - s.uv[1].y));
      (m.(spriteData := m.spriteData[s.instanceId := info]), info)
  }

  /** Sprite info is memoised per sprite object: every later request for the same sprite,
      even after its coordinates changed and across frames (starting a frame keeps the
      cache), returns the first answer and changes nothing. */
  lemma SpriteInfoMemoised(m: Manager, s: Sprite, later: Sprite)
    requires |s.uv| >= 2 && later.instanceId == s.instanceId
    ensures var (m1, info) := GetSpriteInfo(m, s);
      && GetSpriteInfo(m1, later) == (m1, info)
      && (PrepareFrame(m1).Ok? ==> GetSpriteInfo(PrepareFrame(m1).value.0, later) == (PrepareFrame(m1).value.0, info))
  {
  }

  /** Forgets every handle, the sprite cache and the atlas texture. */
  function Shutdown(m: Manager): (r: Manager)
    ensures forall id :: GetTexture(r, id).None?
    ensures forall id :: id !in r.spriteData
    ensures r.atlasTex.None? && PrepareFrame(r).Err?
    ensures Valid(r)
  {
    Empty()
  }
}
