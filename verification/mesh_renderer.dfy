/** The mesh-path renderer: every frame it rebuilds one dynamic mesh holding all draw
    lists' vertices and indices, with one submesh per draw command, and then issues one
    mesh draw per visible command. */
module MeshRenderer {
  import opened Common
  import opened ImDraw
  import opened Passes

  datatype Topology = Triangles

  datatype SubMeshDescriptor = SubMeshDescriptor(topology: Topology, indexStart: int, indexCount: int, baseVertex: int)

  /** The engine mesh as this renderer uses it. */
  datatype Mesh = Mesh(subMeshCount: nat, vertices: seq<Vertex>, indices: seq<u16>, subMeshes: seq<SubMeshDescriptor>)

  /** Renderer state kept between frames: the submesh count of the previous frame and the mesh. */
  datatype Renderer = Renderer(prevSubMeshCount: nat, mesh: Mesh)

  /** One mesh draw: the submesh drawn, the texture bound first (if it changes) and the
      scissor rectangle. */
  datatype MeshDraw = MeshDraw(submesh: nat, bind: Option<int>, scissor: Rect)

  /** A frame's draw pass: the viewport, then the draws. */
  datatype Pass = Pass(viewport: Rect, draws: seq<MeshDraw>)

  /** A new renderer: an engine mesh starts with one (empty) submesh. */
  function Initial(): (r: Renderer)
    ensures r.prevSubMeshCount == 1
    ensures Valid(r)
  {
    Renderer(1, Mesh(1, [], [], []))
  }

  /** The remembered count is the mesh's actual submesh count. */
  predicate Valid(r: Renderer)
  {
    r.mesh.subMeshCount == r.prevSubMeshCount
  }

  /** The submesh a placed command needs: its own index range shifted to where its list's
      indices start in the mesh, and its base vertex shifted likewise. */
  function DescriptorOf(p: Placed): SubMeshDescriptor
  {
    SubMeshDescriptor(Triangles, p.idxBase + p.cmd.idxOffset, p.cmd.elemCount, p.vtxBase + p.cmd.vtxOffset)
  }

  /** The mesh draws for a walk's visits: visit of command k draws submesh k. */
  function MeshDraws(vs: seq<Visit>): (r: seq<MeshDraw>)
    ensures |r| == |vs|
  {
    seq(|vs|, j requires 0 <= j < |vs| => MeshDraw(vs[j].cmd, vs[j].bind, vs[j].scissor))
  }

  lemma MeshDrawsAppend(vs: seq<Visit>, v: Visit)
    ensures MeshDraws(vs + [v]) == MeshDraws(vs) + [MeshDraw(v.cmd, v.bind, v.scissor)]
  {
    assert (vs + [v])[|vs|] == v;
  }

  /** One submesh per command, in list-then-command order, from the running offsets. */
  method BuildSubMeshes(lists: seq<DrawList>) returns (descriptors: seq<SubMeshDescriptor>)
    ensures |descriptors| == CmdCount(lists)
    ensures forall k :: 0 <= k < |descriptors| ==> descriptors[k] == DescriptorOf(Placements(lists)[k])
  {
    ghost var ps := Placements(lists);
    descriptors := [];
    var vtxOf := 0;
    var idxOf := 0;
    var n := 0;
    while n < |lists|
      invariant 0 <= n <= |lists|
      invariant vtxOf == VtxOffset(lists, n) && idxOf == IdxOffset(lists, n)
      invariant |descriptors| == CmdOffset(lists, n) <= |ps|
      invariant forall k :: 0 <= k < |descriptors| ==> descriptors[k] == DescriptorOf(ps[k])
    {
      var list := lists[n];
      OffsetsStep(lists, n);
      OffsetsBounded(lists, n);
      var i := 0;
      while i < |list.cmds|
        invariant 0 <= i <= |list.cmds|
        invariant |descriptors| == CmdOffset(lists, n) + i
        invariant forall k :: 0 <= k < |descriptors| ==> descriptors[k] == DescriptorOf(ps[k])
      {
        var cmd := list.cmds[i];
        PlacedAt(lists, n, i);
        descriptors := descriptors + [SubMeshDescriptor(Triangles, idxOf + cmd.idxOffset, cmd.elemCount, vtxOf + cmd.vtxOffset)];
        i := i + 1;
      }
      vtxOf := vtxOf + |list.vtx|;
      idxOf := idxOf + |list.idx|;
      n := n + 1;
    }
    OffsetsAtEnd(lists);
  }

  /** The submesh of command i of list n starts at that list's running index offset plus the
      command's IdxOffset, spans its ElemCount indices, and has base vertex the list's
      running vertex offset plus the command's VtxOffset. */
  lemma DescriptorAt(lists: seq<DrawList>, n: nat, i: nat)
    requires n < |lists| && i < |lists[n].cmds|
    ensures CmdIndex(lists, n, i) < CmdCount(lists)
    ensures DescriptorOf(Placements(lists)[CmdIndex(lists, n, i)])
      == SubMeshDescriptor(Triangles, IdxOffset(lists, n) + lists[n].cmds[i].idxOffset, lists[n].cmds[i].elemCount,
                           VtxOffset(lists, n) + lists[n].cmds[i].vtxOffset)
  {
    PlacedAt(lists, n, i);
  }

  /** Rebuilds the mesh for this frame: the submesh count (the mesh is cleared first when
      it changed), the combined vertex and index buffers, and one submesh per command.
      Returns whether the mesh was cleared. */
  method UpdateMesh(r: Renderer, d: DrawData) returns (r': Renderer, cleared: bool)
    requires Valid(r)
    ensures Valid(r')
    ensures cleared <==> r.prevSubMeshCount != CmdCount(d.lists)
    ensures r'.prevSubMeshCount == CmdCount(d.lists)
    ensures r'.mesh.vertices == AllVertices(d.lists) && r'.mesh.indices == AllIndices(d.lists)
    ensures |r'.mesh.subMeshes| == CmdCount(d.lists)
    ensures forall k :: 0 <= k < |r'.mesh.subMeshes| ==> r'.mesh.subMeshes[k] == DescriptorOf(Placements(d.lists)[k])
  {
    var subMeshCount := CountCommands(d.lists);
    var mesh := r.mesh;
    var prev := r.prevSubMeshCount;
    cleared := prev != subMeshCount;
    if cleared {
      mesh := Mesh(subMeshCount, [], [], []);
      prev := subMeshCount;
    }
    var vertices, indices := UploadGeometry(d);
    var descriptors := BuildSubMeshes(d.lists);
    r' := Renderer(prev, mesh.(vertices := vertices, indices := indices, subMeshes := descriptors));
  }

  /** Handles command k of the frame: nothing when it is culled; otherwise the texture is
      rebound if it differs from the last one bound and submesh k is drawn under the
      command's scissor. */
  method DrawCommand(view: View, cmd: DrawCmd, subOf: nat, prevTextureId: int, draws: seq<MeshDraw>, ghost ps: seq<Placed>)
    returns (prevTextureId': int, draws': seq<MeshDraw>)
    requires subOf < |ps| && ps[subOf].cmd == cmd
    requires prevTextureId == BoundAfter(view, ps, subOf) && draws == MeshDraws(Visits(view, ps, subOf))
    ensures prevTextureId' == BoundAfter(view, ps, subOf + 1)
    ensures draws' == MeshDraws(Visits(view, ps, subOf + 1))
  {
    VisitsStep(view, ps, subOf);
    prevTextureId', draws' := prevTextureId, draws;
    if !Culled(view, cmd) {
      var bind := Rebind(cmd.textureId, prevTextureId);
      if prevTextureId != cmd.textureId {
        prevTextureId' := cmd.textureId;
      }
      MeshDrawsAppend(Visits(view, ps, subOf), Visit(subOf, bind, Scissor(view, cmd)));
      draws' := draws + [MeshDraw(subOf, bind, Scissor(view, cmd))];
    }
  }

  /** Walks every command in order: culled ones are skipped, the texture is rebound only
      when it changes, and each visible command draws its own submesh under its scissor. */
  method CreateDrawCommands(d: DrawData) returns (pass: Pass)
    ensures pass.viewport == Rect(0.0, 0.0, FramebufferSize(d).x, FramebufferSize(d).y)
    ensures pass.draws == MeshDraws(Visits(ViewOf(d), Placements(d.lists), CmdCount(d.lists)))
  {
    var lists := d.lists;
    var view := ViewOf(d);
    ghost var ps := Placements(lists);
    var prevTextureId := 0;
    var draws: seq<MeshDraw> := [];
    var subOf := 0;
    var n := 0;
    while n < |lists|
      invariant 0 <= n <= |lists|
      invariant subOf == CmdOffset(lists, n) <= |ps|
      invariant prevTextureId == BoundAfter(view, ps, subOf)
      invariant draws == MeshDraws(Visits(view, ps, subOf))
    {
      var list := lists[n];
      OffsetsStep(lists, n);
      OffsetsBounded(lists, n);
      var i := 0;
      while i < |list.cmds|
        invariant 0 <= i <= |list.cmds|
        invariant subOf == CmdOffset(lists, n) + i <= |ps|
        invariant prevTextureId == BoundAfter(view, ps, subOf)
        invariant draws == MeshDraws(Visits(view, ps, subOf))
      {
        PlacedAt(lists, n, i);
        prevTextureId, draws := DrawCommand(view, list.cmds[i], subOf, prevTextureId, draws, ps);
        i := i + 1;
        subOf := subOf + 1;
      }
      n := n + 1;
    }
    OffsetsAtEnd(lists);
    pass := Pass(Rect(0.0, 0.0, view.fb.x, view.fb.y), draws);
  }

  /** Renders one frame, or does nothing at all when the framebuffer is empty or there are
      no vertices. Every draw uses the submesh built for the very command it was issued for. */
  method RenderDrawLists(r: Renderer, d: DrawData) returns (r': Renderer, pass: Option<Pass>)
    requires Valid(r)
    ensures Valid(r')
    ensures pass.None? <==> SkipsFrame(d)
    ensures pass.None? ==> r' == r
    ensures pass.Some? ==> r'.prevSubMeshCount == CmdCount(d.lists)
    ensures pass.Some? ==> r'.mesh.vertices == AllVertices(d.lists) && r'.mesh.indices == AllIndices(d.lists)
    ensures pass.Some? ==> |r'.mesh.subMeshes| == CmdCount(d.lists)
    ensures pass.Some? ==> pass.value.viewport == Rect(0.0, 0.0, FramebufferSize(d).x, FramebufferSize(d).y)
    ensures pass.Some? ==> pass.value.draws == MeshDraws(Visits(ViewOf(d), Placements(d.lists), CmdCount(d.lists)))
    ensures pass.Some? ==> forall j :: 0 <= j < |pass.value.draws| ==>
      var k := pass.value.draws[j].submesh;
      && k < |r'.mesh.subMeshes| && k < CmdCount(d.lists)
      && r'.mesh.subMeshes[k] == DescriptorOf(Placements(d.lists)[k])
      && !Culled(ViewOf(d), Placements(d.lists)[k].cmd)
  {
    if SkipsFrame(d) {
      r' := r;
      pass := None;
      return;
    }
    var cleared;
    r', cleared := UpdateMesh(r, d);
    var p := CreateDrawCommands(d);
    VisitsSound(ViewOf(d), Placements(d.lists), CmdCount(d.lists));
    pass := Some(p);
  }

  /** The command stream of a pass: the viewport, then per draw an optional texture bind,
      the scissor and the draw, and finally the scissor is switched off. */
  function Commands(p: Pass): (cs: seq<Command>)
    ensures |cs| >= 2 && cs[0] == SetViewport(p.viewport) && cs[|cs| - 1] == DisableScissorRect
    ensures |DrawsOf(cs)| == |p.draws|
    ensures forall j :: 0 <= j < |p.draws| ==> DrawsOf(cs)[j] == DrawMesh(p.draws[j].submesh)
  {
    DrawCommandsDraws(p.draws);
    FramedDraws(p.viewport, DrawCommands(p.draws));
    [SetViewport(p.viewport)] + DrawCommands(p.draws) + [DisableScissorRect]
  }

  function DrawCommands(ds: seq<MeshDraw>): seq<Command>
  {
    if |ds| == 0 then []
    else
      var x := ds[|ds| - 1];
      DrawCommands(ds[..|ds| - 1]) + BindCommands(x.bind) + [EnableScissorRect(x.scissor), DrawMesh(x.submesh)]
  }

  /** Each draw of the pass records exactly one draw instruction, in order. */
  lemma {:induction false} DrawCommandsDraws(ds: seq<MeshDraw>)
    ensures |DrawsOf(DrawCommands(ds))| == |ds|
    ensures forall j :: 0 <= j < |ds| ==> DrawsOf(DrawCommands(ds))[j] == DrawMesh(ds[j].submesh)
  {
    if |ds| > 0 {
      var init := ds[..|ds| - 1];
      var x := ds[|ds| - 1];
      DrawCommandsDraws(init);
      var tail := BindCommands(x.bind) + [EnableScissorRect(x.scissor), DrawMesh(x.submesh)];
      assert DrawCommands(ds) == DrawCommands(init) + tail;
      DrawsOfAppend(DrawCommands(init), tail);
      DrawsOfTail(x);
    }
  }

  /** The instructions recorded for one draw contain exactly one draw instruction. */
  lemma DrawsOfTail(x: MeshDraw)
    ensures DrawsOf(BindCommands(x.bind) + [EnableScissorRect(x.scissor), DrawMesh(x.submesh)]) == [DrawMesh(x.submesh)]
  {
    var bind := BindCommands(x.bind);
    assert DrawsOf(bind) == [] by {
      if x.bind.Some? {
        DrawsOfSingle(bind[0]);
        assert bind == [bind[0]];
      }
    }
    DrawsOfSingle(EnableScissorRect(x.scissor));
    DrawsOfAppend(bind, [EnableScissorRect(x.scissor)]);
    DrawsOfSingle(DrawMesh(x.submesh));
    DrawsOfAppend(bind + [EnableScissorRect(x.scissor)], [DrawMesh(x.submesh)]);
    assert bind + [EnableScissorRect(x.scissor), DrawMesh(x.submesh)] == bind + [EnableScissorRect(x.scissor)] + [DrawMesh(x.submesh)];
  }
}
