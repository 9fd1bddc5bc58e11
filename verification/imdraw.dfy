/** The GUI library's per-frame draw data as the renderers read it: an ordered list of
    draw lists, each with its own vertex and index buffer and an ordered list of draw
    commands, plus the display rectangle and framebuffer scale. Both renderers walk it
    with running vertex and index offsets; this module defines those offsets once. */
module ImDraw {
  import opened Common

  /** ImDrawVert: position, texture coordinate and packed colour. */
  datatype Vertex = Vertex(pos: Vec2, uv: Vec2, col: int)

  /** ImDrawCmd: a range of the list's index buffer with its clip rectangle (display
      coordinates, (x1, y1, x2, y2)) and texture handle. */
  datatype DrawCmd = DrawCmd(clipRect: Vec4, textureId: int, vtxOffset: nat, idxOffset: nat, elemCount: nat)

  /** ImDrawList: one contiguous batch of geometry. */
  datatype DrawList = DrawList(vtx: seq<Vertex>, idx: seq<u16>, cmds: seq<DrawCmd>)

  /** ImDrawData: everything one frame draws. */
  datatype DrawData = DrawData(lists: seq<DrawList>, displayPos: Vec2, displaySize: Vec2, framebufferScale: Vec2)

  /** A command together with the running offsets of its list: where the list's vertices
      and indices start in the frame's combined buffers. */
  datatype Placed = Placed(cmd: DrawCmd, vtxBase: nat, idxBase: nat)

  datatype Rect = Rect(x: real, y: real, width: real, height: real)

  /** The geometry a draw pass projects clip rectangles with. */
  datatype View = View(pos: Vec2, scale: Vec2, fb: Vec2)

  function VertexSeqs(lists: seq<DrawList>): (r: seq<seq<Vertex>>)
    ensures |r| == |lists|
  {
    seq(|lists|, n requires 0 <= n < |lists| => lists[n].vtx)
  }

  function IndexSeqs(lists: seq<DrawList>): (r: seq<seq<u16>>)
    ensures |r| == |lists|
  {
    seq(|lists|, n requires 0 <= n < |lists| => lists[n].idx)
  }

  /** The frame's vertices, list after list (what the combined vertex buffer must hold). */
  function AllVertices(lists: seq<DrawList>): seq<Vertex>
  {
    Concat(VertexSeqs(lists))
  }

  function AllIndices(lists: seq<DrawList>): seq<u16>
  {
    Concat(IndexSeqs(lists))
  }

  /** ImDrawData.TotalVtxCount, which the library keeps equal to the sum over the lists. */
  function TotalVtxCount(d: DrawData): nat
  {
    |AllVertices(d.lists)|
  }

  /** ImDrawData.TotalIdxCount. */
  function TotalIdxCount(d: DrawData): nat
  {
    |AllIndices(d.lists)|
  }

  /** Running vertex offset of list n: the vertex counts of the lists before it. */
  function VtxOffset(lists: seq<DrawList>, n: nat): nat
    requires n <= |lists|
  {
    Offset(VertexSeqs(lists), n)
  }

  /** Running index offset of list n. */
  function IdxOffset(lists: seq<DrawList>, n: nat): nat
    requires n <= |lists|
  {
    Offset(IndexSeqs(lists), n)
  }

  function PlacedSeqs(lists: seq<DrawList>): (r: seq<seq<Placed>>)
    ensures |r| == |lists|
    ensures forall n :: 0 <= n < |lists| ==> |r[n]| == |lists[n].cmds|
  {
    seq(|lists|, n requires 0 <= n < |lists| =>
      seq(|lists[n].cmds|, i requires 0 <= i < |lists[n].cmds| =>
        Placed(lists[n].cmds[i], VtxOffset(lists, n), IdxOffset(lists, n))))
  }

  /** Every command of the frame in list-then-command order, with its list's offsets. */
  function Placements(lists: seq<DrawList>): seq<Placed>
  {
    Concat(PlacedSeqs(lists))
  }

  /** Number of commands before list n. */
  function CmdOffset(lists: seq<DrawList>, n: nat): nat
    requires n <= |lists|
  {
    Offset(PlacedSeqs(lists), n)
  }

  /** Global index of command i of list n. */
  function CmdIndex(lists: seq<DrawList>, n: nat, i: nat): nat
    requires n < |lists|
  {
    CmdOffset(lists, n) + i
  }

  /** Total number of commands in the frame. */
  function CmdCount(lists: seq<DrawList>): nat
  {
    |Placements(lists)|
  }

  /** Command i of list n is the CmdIndex(n, i)-th placement, carrying the running offsets
      of list n. */
  lemma PlacedAt(lists: seq<DrawList>, n: nat, i: nat)
    requires n < |lists| && i < |lists[n].cmds|
    ensures CmdIndex(lists, n, i) < CmdCount(lists)
    ensures Placements(lists)[CmdIndex(lists, n, i)]
         == Placed(lists[n].cmds[i], VtxOffset(lists, n), IdxOffset(lists, n))
  {
    ConcatAt(PlacedSeqs(lists), n, i);
  }

  /** Advancing over list n moves each running offset by that list's size. */
  lemma OffsetsStep(lists: seq<DrawList>, n: nat)
    requires n < |lists|
    ensures VtxOffset(lists, n + 1) == VtxOffset(lists, n) + |lists[n].vtx|
    ensures IdxOffset(lists, n + 1) == IdxOffset(lists, n) + |lists[n].idx|
    ensures CmdOffset(lists, n + 1) == CmdOffset(lists, n) + |lists[n].cmds|
    ensures Concat(VertexSeqs(lists)[..n + 1]) == Concat(VertexSeqs(lists)[..n]) + lists[n].vtx
    ensures Concat(IndexSeqs(lists)[..n + 1]) == Concat(IndexSeqs(lists)[..n]) + lists[n].idx
  {
    ConcatStep(VertexSeqs(lists), n);
    ConcatStep(IndexSeqs(lists), n);
    ConcatStep(PlacedSeqs(lists), n);
  }

  /** The running offsets never pass the frame totals. */
  lemma OffsetsBounded(lists: seq<DrawList>, n: nat)
    requires n < |lists|
    ensures VtxOffset(lists, n) + |lists[n].vtx| <= |AllVertices(lists)|
    ensures IdxOffset(lists, n) + |lists[n].idx| <= |AllIndices(lists)|
    ensures CmdOffset(lists, n) + |lists[n].cmds| <= CmdCount(lists)
  {
    OffsetsStep(lists, n);
    OffsetMono(VertexSeqs(lists), n + 1, |lists|);
    OffsetMono(IndexSeqs(lists), n + 1, |lists|);
    OffsetMono(PlacedSeqs(lists), n + 1, |lists|);
  }

  /** After the last list the running offsets are the frame totals. */
  lemma OffsetsAtEnd(lists: seq<DrawList>)
    ensures CmdOffset(lists, |lists|) == CmdCount(lists)
    ensures VertexSeqs(lists)[..|lists|] == VertexSeqs(lists)
    ensures IndexSeqs(lists)[..|lists|] == IndexSeqs(lists)
  {
    OffsetWhole(PlacedSeqs(lists));
  }

  /** DisplaySize * FramebufferScale. */
  function FramebufferSize(d: DrawData): Vec2
  {
    Vec2(d.displaySize.x * d.framebufferScale.x, d.displaySize.y * d.framebufferScale.y)
  }

  function ViewOf(d: DrawData): View
  {
    View(d.displayPos, d.framebufferScale, FramebufferSize(d))
  }

  /** A frame the renderers skip: nothing to show (minimised window) or nothing to draw. */
  predicate SkipsFrame(d: DrawData)
  {
    var fb := FramebufferSize(d);
    fb.x <= 0.0 || fb.y <= 0.0 || TotalVtxCount(d) == 0
  }

  /** The clip rectangle moved by -DisplayPos and scaled into framebuffer pixels. */
  function Clip(v: View, c: DrawCmd): Vec4
  {
    Vec4((c.clipRect.x - v.pos.x) * v.scale.x, (c.clipRect.y - v.pos.y) * v.scale.y,
         (c.clipRect.z - v.pos.x) * v.scale.x, (c.clipRect.w - v.pos.y) * v.scale.y)
  }

  /** A command whose projected clip rectangle lies wholly outside the framebuffer. */
  predicate Culled(v: View, c: DrawCmd)
  {
    var clip := Clip(v, c);
    clip.x >= v.fb.x || clip.y >= v.fb.y || clip.z < 0.0 || clip.w < 0.0
  }

  /** The scissor rectangle for a command, with y measured from the bottom of the framebuffer. */
  function Scissor(v: View, c: DrawCmd): (r: Rect)
    ensures r.x == Clip(v, c).x
    ensures r.x + r.width == Clip(v, c).z
    ensures r.y + r.height == v.fb.y - Clip(v, c).y
    ensures r.y == v.fb.y - Clip(v, c).w
  {
    var clip := Clip(v, c);
    Rect(clip.x, v.fb.y - clip.w, clip.z - clip.x, clip.w - clip.y)
  }

  /** Counts the frame's commands list by list (the submesh or argument-record count). */
  method CountCommands(lists: seq<DrawList>) returns (count: nat)
    ensures count == CmdCount(lists)
    ensures count == |Concat(seq(|lists|, n requires 0 <= n < |lists| => lists[n].cmds))|
  {
    ghost var cmdSeqs := seq(|lists|, n requires 0 <= n < |lists| => lists[n].cmds);
    count := 0;
    var n := 0;
    while n < |lists|
      invariant 0 <= n <= |lists|
      invariant count == CmdOffset(lists, n) == Offset(cmdSeqs, n)
    {
      OffsetsStep(lists, n);
      ConcatStep(cmdSeqs, n);
      count := count + |lists[n].cmds|;
      n := n + 1;
    }
    OffsetsAtEnd(lists);
    OffsetWhole(cmdSeqs);
  }

  /** Sizes the vertex and index buffers to the frame totals and writes each list's data at
      its running offsets, list after list. */
  method UploadGeometry(d: DrawData) returns (vertices: seq<Vertex>, indices: seq<u16>)
    ensures vertices == AllVertices(d.lists) && indices == AllIndices(d.lists)
  {
    var lists := d.lists;
    vertices := seq(TotalVtxCount(d), _ => Vertex(Vec2(0.0, 0.0), Vec2(0.0, 0.0), 0));
    indices := seq(TotalIdxCount(d), _ => 0);
    var vtxOf := 0;
    var idxOf := 0;
    var n := 0;
    while n < |lists|
      invariant 0 <= n <= |lists|
      invariant vtxOf == VtxOffset(lists, n) && idxOf == IdxOffset(lists, n)
      invariant |vertices| == TotalVtxCount(d) && |indices| == TotalIdxCount(d)
      invariant vtxOf <= |vertices| && idxOf <= |indices|
      invariant vertices[..vtxOf] == Concat(VertexSeqs(lists)[..n])
      invariant indices[..idxOf] == Concat(IndexSeqs(lists)[..n])
    {
      var list := lists[n];
      OffsetsStep(lists, n);
      OffsetsBounded(lists, n);
      SpliceExtends(vertices, vtxOf, list.vtx, Concat(VertexSeqs(lists)[..n]));
      SpliceExtends(indices, idxOf, list.idx, Concat(IndexSeqs(lists)[..n]));
      vertices := Splice(vertices, vtxOf, list.vtx);
      indices := Splice(indices, idxOf, list.idx);
      vtxOf := vtxOf + |list.vtx|;
      idxOf := idxOf + |list.idx|;
      n := n + 1;
    }
    OffsetsAtEnd(lists);
    assert vertices[..vtxOf] == vertices;
    assert indices[..idxOf] == indices;
  }

  /** In the combined buffers, vertex j of list n sits at the list's running vertex offset
      plus j, and index j at its running index offset plus j: the lists' ranges are
      disjoint, in list order, and nothing is lost. */
  lemma GeometryAt(lists: seq<DrawList>, n: nat, j: nat)
    requires n < |lists|
    ensures j < |lists[n].vtx| ==>
      VtxOffset(lists, n) + j < |AllVertices(lists)| && AllVertices(lists)[VtxOffset(lists, n) + j] == lists[n].vtx[j]
    ensures j < |lists[n].idx| ==>
      IdxOffset(lists, n) + j < |AllIndices(lists)| && AllIndices(lists)[IdxOffset(lists, n) + j] == lists[n].idx[j]
  {
    if j < |lists[n].vtx| {
      ConcatAt(VertexSeqs(lists), n, j);
    }
    if j < |lists[n].idx| {
      ConcatAt(IndexSeqs(lists), n, j);
    }
  }
}
