/** The procedural-path renderer: it keeps three grow-only GPU buffers (vertices, indices
    and indirect draw arguments), writes one five-int argument record per draw command, and
    issues one indirect procedural draw per visible command. It needs shader model 4.5. */
module ProceduralRenderer {
  import opened Common
  import opened ImDraw
  import opened Passes

  /** Shader level the renderer requires (shader model 4.5). */
  const MinShaderLevel := 45
  /** Buffers are allocated in whole blocks of this many elements. */
  const BlockSize := 256
  /** Ints per indirect argument record: index count, instance count, start index, base
      vertex, start instance. */
  const ArgsPerCommand := 5
  const BytesPerInt := 4

  /** The constructor's refusal on hardware below shader model 4.5. */
  datatype Error = DeviceNotSupported

  /** Renderer state: the three buffers (None until first needed) and the reusable
      argument record the uploads are staged through. */
  datatype Renderer = Renderer(
    vtxBuf: Option<seq<Vertex>>,
    idxBuf: Option<seq<u16>>,
    argBuf: Option<seq<int>>,
    drawArgs: seq<int>)

  /** One indirect draw: where its argument record starts (in bytes), the base vertex passed
      to the shader, the texture bound first (if it changes) and the scissor rectangle. */
  datatype IndirectDraw = IndirectDraw(argsByteOffset: nat, baseVertex: int, bind: Option<int>, scissor: Rect)

  datatype Pass = Pass(viewport: Rect, draws: seq<IndirectDraw>)

  /** The staging record always has five slots; the instance count and start instance are
      never written after construction. */
  predicate ValidArgs(drawArgs: seq<int>)
  {
    |drawArgs| == ArgsPerCommand && drawArgs[1] == 1 && drawArgs[4] == 0
  }

  predicate Valid(r: Renderer)
  {
    ValidArgs(r.drawArgs)
  }

  /** Constructs the renderer, or refuses when the device's shader level is below 45. */
  function Create(shaderLevel: int): (r: Result<Renderer, Error>)
    ensures r.Err? <==> shaderLevel < MinShaderLevel
    ensures r.Ok? ==> Valid(r.value) && r.value.drawArgs == [0, 1, 0, 0, 0]
    ensures r.Ok? ==> r.value.vtxBuf.None? && r.value.idxBuf.None? && r.value.argBuf.None?
  {
    if shaderLevel < MinShaderLevel then Err(DeviceNotSupported)
    else Ok(Renderer(None, None, None, [0, 1, 0, 0, 0]))
  }

  /** Releases the three buffers. */
  function Shutdown(r: Renderer): (r': Renderer)
    ensures r'.vtxBuf.None? && r'.idxBuf.None? && r'.argBuf.None?
    ensures r'.drawArgs == r.drawArgs
  {
    r.(vtxBuf := None, idxBuf := None, argBuf := None)
  }

  /** Element count of a buffer created for `count` elements: count - 1 divided by 256 with
      C#'s truncating division, plus one, times 256. For count 0 the quotient of -1 truncates
      to 0, so one block is still allocated. */
  function BufferCount(count: nat): (num: nat)
    ensures num % BlockSize == 0 && num >= BlockSize
    ensures count <= num
    ensures count >= 1 ==> num < count + BlockSize
    ensures count == 0 ==> num == BlockSize
  {
    (TruncDiv(count - 1, BlockSize) + 1) * BlockSize
  }

  /** The allocated size is the smallest whole number of blocks, at least one, that holds
      `count` elements. */
  lemma BufferCountIsLeast(count: nat, m: nat)
    requires m % BlockSize == 0 && m >= count && m >= 1
    ensures BufferCount(count) <= m
  {
  }

  /** A buffer big enough for `need` elements: the existing one when it already is (buffers
      never shrink), otherwise a fresh one of BufferCount(need) elements. */
  function Grow<T>(buf: Option<seq<T>>, need: nat, fill: T): (r: seq<T>)
    ensures |r| >= need
    ensures buf.Some? && |buf.value| >= need ==> r == buf.value
    ensures !(buf.Some? && |buf.value| >= need) ==> |r| == BufferCount(need)
  {
    if buf.None? || |buf.value| < need then seq(BufferCount(need), _ => fill)
    else buf.value
  }

  /** Growing for a need the buffer already meets changes nothing. */
  lemma GrowKeeps<T>(buf: seq<T>, need1: nat, need2: nat, fill: T)
    requires need2 <= |Grow(Some(buf), need1, fill)|
    ensures Grow(Some(Grow(Some(buf), need1, fill)), need2, fill) == Grow(Some(buf), need1, fill)
  {
  }

  /** A 200-element buffer asked to hold 300 is recreated with 512 elements, which then
      serve every later request up to 512 without being recreated. */
  lemma GrowScenario(buf: seq<int>, later: nat)
    requires |buf| == 200 && later <= 512
    ensures |Grow(Some(buf), 300, 0)| == 512
    ensures Grow(Some(Grow(Some(buf), 300, 0)), later, 0) == Grow(Some(buf), 300, 0)
  {
    assert TruncDiv(299, BlockSize) == 1;
  }

  /** The argument record command k is drawn with: its index count, one instance, its first
      index in the combined index buffer, its list's running vertex offset, start instance 0. */
  function ArgRecord(p: Placed): (rec: seq<int>)
    ensures ValidArgs(rec)
  {
    [p.cmd.elemCount, 1, p.idxBase + p.cmd.idxOffset, p.vtxBase, 0]
  }

  /** The five ints of the argument buffer that belong to command k. */
  function ArgSlots(args: seq<int>, k: nat): seq<int>
    requires ArgsPerCommand * k + ArgsPerCommand <= |args|
  {
    args[ArgsPerCommand * k .. ArgsPerCommand * k + ArgsPerCommand]
  }

  /** Writing a record at slot k sets that slot and leaves the earlier slots and everything
      after it alone. */
  lemma SlotWrite(args: seq<int>, k: nat, rec: seq<int>)
    requires |rec| == ArgsPerCommand && ArgsPerCommand * k + ArgsPerCommand <= |args|
    ensures |Splice(args, ArgsPerCommand * k, rec)| == |args|
    ensures ArgSlots(Splice(args, ArgsPerCommand * k, rec), k) == rec
    ensures forall j :: 0 <= j < k ==> ArgSlots(Splice(args, ArgsPerCommand * k, rec), j) == ArgSlots(args, j)
    ensures forall s :: ArgsPerCommand * k + ArgsPerCommand <= s < |args| ==> Splice(args, ArgsPerCommand * k, rec)[s] == args[s]
  {
    var args' := Splice(args, ArgsPerCommand * k, rec);
    assert ArgSlots(args', k) == rec;
    forall j | 0 <= j < k
      ensures ArgSlots(args', j) == ArgSlots(args, j)
    {
      assert forall s :: ArgsPerCommand * j <= s < ArgsPerCommand * j + ArgsPerCommand ==> args'[s] == args[s];
    }
  }

  /** Stages command k's index count and start index and copies the staging record to
      slot k of the argument buffer. */
  method WriteRecord(args: seq<int>, drawArgs: seq<int>, cmd: DrawCmd, idxOf: nat, argOf: nat,
                     ghost args0: seq<int>, ghost ps: seq<Placed>, ghost subOf: nat)
    returns (args': seq<int>, drawArgs': seq<int>)
    requires ValidArgs(drawArgs) && subOf < |ps| && ps[subOf].cmd == cmd
    requires ps[subOf].idxBase == idxOf && ps[subOf].vtxBase == drawArgs[3]
    requires argOf == ArgsPerCommand * subOf && argOf + ArgsPerCommand <= |args| == |args0|
    requires forall k :: 0 <= k < subOf ==> ArgSlots(args, k) == ArgRecord(ps[k])
    requires forall s :: argOf <= s < |args| ==> args[s] == args0[s]
    ensures ValidArgs(drawArgs') && drawArgs'[3] == drawArgs[3] && |args'| == |args|
    ensures forall k :: 0 <= k < subOf + 1 ==> ArgSlots(args', k) == ArgRecord(ps[k])
    ensures forall s :: argOf + ArgsPerCommand <= s < |args'| ==> args'[s] == args0[s]
  {
    drawArgs' := drawArgs[0 := cmd.elemCount][2 := idxOf + cmd.idxOffset];
    assert drawArgs' == ArgRecord(ps[subOf]);
    SlotWrite(args, subOf, drawArgs');
    args' := Splice(args, argOf, drawArgs');
  }

  /** Writes one argument record per command through the staging record: the base vertex
      slot is set once per list, the index count and start index once per command. */
  method WriteArgs(lists: seq<DrawList>, args0: seq<int>, drawArgs0: seq<int>) returns (args: seq<int>, drawArgs: seq<int>)
    requires ArgsPerCommand * CmdCount(lists) <= |args0|
    requires ValidArgs(drawArgs0)
    ensures ValidArgs(drawArgs)
    ensures |args| == |args0|
    ensures forall k :: 0 <= k < CmdCount(lists) ==> ArgSlots(args, k) == ArgRecord(Placements(lists)[k])
    ensures forall s :: ArgsPerCommand * CmdCount(lists) <= s < |args| ==> args[s] == args0[s]
  {
    ghost var ps := Placements(lists);
    args := args0;
    drawArgs := drawArgs0;
    var vtxOf := 0;
    var idxOf := 0;
    var argOf := 0;
    ghost var subOf := 0;
    var n := 0;
    while n < |lists|
      invariant 0 <= n <= |lists|
      invariant vtxOf == VtxOffset(lists, n) && idxOf == IdxOffset(lists, n)
      invariant subOf == CmdOffset(lists, n) <= |ps| && argOf == ArgsPerCommand * subOf
      invariant ValidArgs(drawArgs) && |args| == |args0|
      invariant forall k :: 0 <= k < subOf ==> ArgSlots(args, k) == ArgRecord(ps[k])
      invariant forall s :: argOf <= s < |args| ==> args[s] == args0[s]
    {
      var list := lists[n];
      OffsetsStep(lists, n);
      OffsetsBounded(lists, n);
      drawArgs := drawArgs[3 := vtxOf];
      var i := 0;
      while i < |list.cmds|
        invariant 0 <= i <= |list.cmds|
        invariant subOf == CmdOffset(lists, n) + i <= |ps| && argOf == ArgsPerCommand * subOf
        invariant ValidArgs(drawArgs) && drawArgs[3] == vtxOf && |args| == |args0|
        invariant forall k :: 0 <= k < subOf ==> ArgSlots(args, k) == ArgRecord(ps[k])
        invariant forall s :: argOf <= s < |args| ==> args[s] == args0[s]
      {
        PlacedAt(lists, n, i);
        args, drawArgs := WriteRecord(args, drawArgs, list.cmds[i], idxOf, argOf, args0, ps, subOf);
        argOf := argOf + ArgsPerCommand;
        subOf := subOf + 1;
        i := i + 1;
      }
      vtxOf := vtxOf + |list.vtx|;
      idxOf := idxOf + |list.idx|;
      n := n + 1;
    }
    OffsetsAtEnd(lists);
  }

  /** Makes the buffers big enough for this frame (recreating only those that are missing or
      too small) and uploads the vertices, the indices and one argument record per command. */
  method UpdateBuffers(r: Renderer, d: DrawData) returns (r': Renderer)
    requires Valid(r)
    ensures Valid(r')
    ensures r'.vtxBuf.Some? && r'.idxBuf.Some? && r'.argBuf.Some?
    ensures |r'.vtxBuf.value| == |Grow(r.vtxBuf, TotalVtxCount(d), NoVertex())|
    ensures |r'.idxBuf.value| == |Grow(r.idxBuf, TotalIdxCount(d), 0)|
    ensures |r'.argBuf.value| == |Grow(r.argBuf, ArgsPerCommand * CmdCount(d.lists), 0)|
    ensures r'.vtxBuf.value[..TotalVtxCount(d)] == AllVertices(d.lists)
    ensures r'.idxBuf.value[..TotalIdxCount(d)] == AllIndices(d.lists)
    ensures ArgsPerCommand * CmdCount(d.lists) <= |r'.argBuf.value|
    ensures forall k :: 0 <= k < CmdCount(d.lists) ==> ArgSlots(r'.argBuf.value, k) == ArgRecord(Placements(d.lists)[k])
  {
    var drawArgCount := CountCommands(d.lists);
    var vtxBuf := Grow(r.vtxBuf, TotalVtxCount(d), NoVertex());
    var idxBuf := Grow(r.idxBuf, TotalIdxCount(d), 0);
    var argBuf := Grow(r.argBuf, drawArgCount * ArgsPerCommand, 0);
    var vertices, indices := UploadGeometry(d);
    vtxBuf := Splice(vtxBuf, 0, vertices);
    idxBuf := Splice(idxBuf, 0, indices);
    var drawArgs;
    argBuf, drawArgs := WriteArgs(d.lists, argBuf, r.drawArgs);
    assert vtxBuf[..TotalVtxCount(d)] == vertices;
    assert idxBuf[..TotalIdxCount(d)] == indices;
    r' := Renderer(Some(vtxBuf), Some(idxBuf), Some(argBuf), drawArgs);
  }

  /** Contents of a freshly created vertex buffer. */
  function NoVertex(): Vertex
  {
    Vertex(Vec2(0.0, 0.0), Vec2(0.0, 0.0), 0)
  }

  /** The indirect draws for a walk's visits: command k reads the argument record at byte
      20 k, and its base vertex is its list's running vertex offset plus its own VtxOffset. */
  function IndirectDraws(ps: seq<Placed>, vs: seq<Visit>): (r: seq<IndirectDraw>)
    requires forall j :: 0 <= j < |vs| ==> vs[j].cmd < |ps|
    ensures |r| == |vs|
  {
    seq(|vs|, j requires 0 <= j < |vs| =>
      IndirectDraw(BytesPerInt * ArgsPerCommand * vs[j].cmd,
                   ps[vs[j].cmd].vtxBase + ps[vs[j].cmd].cmd.vtxOffset,
                   vs[j].bind, vs[j].scissor))
  }

  lemma IndirectDrawsAppend(ps: seq<Placed>, vs: seq<Visit>, v: Visit)
    requires forall j :: 0 <= j < |vs| ==> vs[j].cmd < |ps|
    requires v.cmd < |ps|
    ensures forall j :: 0 <= j < |vs + [v]| ==> (vs + [v])[j].cmd < |ps|
    ensures IndirectDraws(ps, vs + [v]) == IndirectDraws(ps, vs)
      + [IndirectDraw(BytesPerInt * ArgsPerCommand * v.cmd, ps[v.cmd].vtxBase + ps[v.cmd].cmd.vtxOffset, v.bind, v.scissor)]
  {
    assert (vs + [v])[|vs|] == v;
  }

  /** Handles command k of the frame: nothing when it is culled; otherwise the texture is
      rebound if it differs from the last one bound, and the command is drawn from the
      argument record at byte argOf with base vertex vtxOf + VtxOffset under its scissor. */
  method DrawCommand(view: View, cmd: DrawCmd, vtxOf: nat, argOf: nat, prevTextureId: int, draws: seq<IndirectDraw>,
                     ghost ps: seq<Placed>, ghost subOf: nat)
    returns (prevTextureId': int, draws': seq<IndirectDraw>)
    requires subOf < |ps| && ps[subOf].cmd == cmd && ps[subOf].vtxBase == vtxOf
    requires argOf == BytesPerInt * ArgsPerCommand * subOf
    requires prevTextureId == BoundAfter(view, ps, subOf) && draws == IndirectDraws(ps, Visits(view, ps, subOf))
    ensures prevTextureId' == BoundAfter(view, ps, subOf + 1)
    ensures draws' == IndirectDraws(ps, Visits(view, ps, subOf + 1))
  {
    VisitsStep(view, ps, subOf);
    prevTextureId', draws' := prevTextureId, draws;
    if !Culled(view, cmd) {
      var bind := Rebind(cmd.textureId, prevTextureId);
      if prevTextureId != cmd.textureId {
        prevTextureId' := cmd.textureId;
      }
      IndirectDrawsAppend(ps, Visits(view, ps, subOf), Visit(subOf, bind, Scissor(view, cmd)));
      draws' := draws + [IndirectDraw(argOf, vtxOf + cmd.vtxOffset, bind, Scissor(view, cmd))];
    }
  }

  /** Walks every command in order, advancing the argument byte offset by 20 for each one,
      culled or not; visible commands rebind the texture only when it changes, set the base
      vertex, the scissor and draw. */
  method CreateDrawCommands(d: DrawData) returns (pass: Pass)
    ensures pass.viewport == Rect(0.0, 0.0, FramebufferSize(d).x, FramebufferSize(d).y)
    ensures pass.draws == IndirectDraws(Placements(d.lists), Visits(ViewOf(d), Placements(d.lists), CmdCount(d.lists)))
  {
    var lists := d.lists;
    var view := ViewOf(d);
    ghost var ps := Placements(lists);
    var prevTextureId := 0;
    var draws: seq<IndirectDraw> := [];
    var vtxOf := 0;
    var argOf := 0;
    ghost var subOf := 0;
    var n := 0;
    while n < |lists|
      invariant 0 <= n <= |lists|
      invariant vtxOf == VtxOffset(lists, n)
      invariant subOf == CmdOffset(lists, n) <= |ps| && argOf == BytesPerInt * ArgsPerCommand * subOf
      invariant prevTextureId == BoundAfter(view, ps, subOf)
      invariant draws == IndirectDraws(ps, Visits(view, ps, subOf))
    {
      var list := lists[n];
      OffsetsStep(lists, n);
      OffsetsBounded(lists, n);
      var i := 0;
      while i < |list.cmds|
        invariant 0 <= i <= |list.cmds|
        invariant subOf == CmdOffset(lists, n) + i <= |ps| && argOf == BytesPerInt * ArgsPerCommand * subOf
        invariant prevTextureId == BoundAfter(view, ps, subOf)
        invariant draws == IndirectDraws(ps, Visits(view, ps, subOf))
      {
        PlacedAt(lists, n, i);
        prevTextureId, draws := DrawCommand(view, list.cmds[i], vtxOf, argOf, prevTextureId, draws, ps, subOf);
        i := i + 1;
        subOf := subOf + 1;
        argOf := argOf + BytesPerInt * ArgsPerCommand;
      }
      vtxOf := vtxOf + |list.vtx|;
      n := n + 1;
    }
    OffsetsAtEnd(lists);
    pass := Pass(Rect(0.0, 0.0, view.fb.x, view.fb.y), draws);
  }

  /** A draw reads the record written for the command it was issued for: its byte offset is
      four times that record's first int slot, and its base vertex exceeds the record's base
      vertex slot by exactly the command's own VtxOffset. */
  predicate LinesUp(args: seq<int>, ps: seq<Placed>, v: View, dr: IndirectDraw)
  {
    exists k: nat :: k < |ps| && ArgsPerCommand * k + ArgsPerCommand <= |args|
      && dr.argsByteOffset == BytesPerInt * (ArgsPerCommand * k)
      && ArgSlots(args, k) == ArgRecord(ps[k])
      && dr.baseVertex - args[ArgsPerCommand * k + 3] == ps[k].cmd.vtxOffset
      && !Culled(v, ps[k].cmd)
  }

  /** Renders one frame, or does nothing at all when the framebuffer is empty or there are
      no vertices. */
  method RenderDrawLists(r: Renderer, d: DrawData) returns (r': Renderer, pass: Option<Pass>)
    requires Valid(r)
    ensures Valid(r')
    ensures pass.None? <==> SkipsFrame(d)
    ensures pass.None? ==> r' == r
    ensures pass.Some? ==> r'.argBuf.Some? && forall j :: 0 <= j < |pass.value.draws| ==>
      LinesUp(r'.argBuf.value, Placements(d.lists), ViewOf(d), pass.value.draws[j])
    ensures pass.Some? ==> r'.vtxBuf.Some? && TotalVtxCount(d) <= |r'.vtxBuf.value|
    ensures pass.Some? ==> r'.vtxBuf.value[..TotalVtxCount(d)] == AllVertices(d.lists)
    ensures pass.Some? ==> r'.idxBuf.Some? && TotalIdxCount(d) <= |r'.idxBuf.value|
    ensures pass.Some? ==> r'.idxBuf.value[..TotalIdxCount(d)] == AllIndices(d.lists)
    ensures pass.Some? ==> pass.value.viewport == Rect(0.0, 0.0, FramebufferSize(d).x, FramebufferSize(d).y)
    ensures pass.Some? ==> pass.value.draws == IndirectDraws(Placements(d.lists), Visits(ViewOf(d), Placements(d.lists), CmdCount(d.lists)))
  {
    if SkipsFrame(d) {
      r' := r;
      pass := None;
      return;
    }
    r' := UpdateBuffers(r, d);
    var p := CreateDrawCommands(d);
    ghost var ps := Placements(d.lists);
    ghost var vs := Visits(ViewOf(d), ps, CmdCount(d.lists));
    VisitsSound(ViewOf(d), ps, CmdCount(d.lists));
    forall j | 0 <= j < |p.draws|
      ensures LinesUp(r'.argBuf.value, ps, ViewOf(d), p.draws[j])
    {
      var k := vs[j].cmd;
      assert ArgSlots(r'.argBuf.value, k)[3] == ps[k].vtxBase;
    }
    pass := Some(p);
  }

  /** The command stream of a pass: the viewport, then per draw an optional texture bind,
      the base vertex, the scissor and the indirect draw, and finally the scissor is
      switched off. */
  function Commands(p: Pass): (cs: seq<Command>)
    ensures |cs| >= 2 && cs[0] == SetViewport(p.viewport) && cs[|cs| - 1] == DisableScissorRect
    ensures |DrawsOf(cs)| == |p.draws|
    ensures forall j :: 0 <= j < |p.draws| ==> DrawsOf(cs)[j] == DrawProceduralIndirect(p.draws[j].argsByteOffset)
  {
    DrawCommandsDraws(p.draws);
    FramedDraws(p.viewport, DrawCommands(p.draws));
    [SetViewport(p.viewport)] + DrawCommands(p.draws) + [DisableScissorRect]
  }

  function DrawCommands(ds: seq<IndirectDraw>): seq<Command>
  {
    if |ds| == 0 then []
    else
      var x := ds[|ds| - 1];
      DrawCommands(ds[..|ds| - 1]) + BindCommands(x.bind)
        + [SetBaseVertex(x.baseVertex), EnableScissorRect(x.scissor), DrawProceduralIndirect(x.argsByteOffset)]
  }

  /** Each draw of the pass records exactly one draw instruction, in order. */
  lemma {:induction false} DrawCommandsDraws(ds: seq<IndirectDraw>)
    ensures |DrawsOf(DrawCommands(ds))| == |ds|
    ensures forall j :: 0 <= j < |ds| ==> DrawsOf(DrawCommands(ds))[j] == DrawProceduralIndirect(ds[j].argsByteOffset)
  {
    if |ds| > 0 {
      var init := ds[..|ds| - 1];
      var x := ds[|ds| - 1];
      DrawCommandsDraws(init);
      var tail := BindCommands(x.bind) + [SetBaseVertex(x.baseVertex), EnableScissorRect(x.scissor), DrawProceduralIndirect(x.argsByteOffset)];
      assert DrawCommands(ds) == DrawCommands(init) + tail;
      DrawsOfAppend(DrawCommands(init), tail);
      DrawsOfTail(x);
    }
  }

  /** The instructions recorded for one draw contain exactly one draw instruction. */
  lemma DrawsOfTail(x: IndirectDraw)
    ensures DrawsOf(BindCommands(x.bind) + [SetBaseVertex(x.baseVertex), EnableScissorRect(x.scissor), DrawProceduralIndirect(x.argsByteOffset)]) == [DrawProceduralIndirect(x.argsByteOffset)]
  {
    var bind := BindCommands(x.bind);
    assert DrawsOf(bind) == [] by {
      if x.bind.Some? {
        DrawsOfSingle(bind[0]);
        assert bind == [bind[0]];
      }
    }
    DrawsOfSingle(SetBaseVertex(x.baseVertex));
    DrawsOfAppend(bind, [SetBaseVertex(x.baseVertex)]);
    DrawsOfSingle(EnableScissorRect(x.scissor));
    DrawsOfAppend(bind + [SetBaseVertex(x.baseVertex)], [EnableScissorRect(x.scissor)]);
    DrawsOfSingle(DrawProceduralIndirect(x.argsByteOffset));
    DrawsOfAppend(bind + [SetBaseVertex(x.baseVertex)] + [EnableScissorRect(x.scissor)], [DrawProceduralIndirect(x.argsByteOffset)]);
    assert bind + [SetBaseVertex(x.baseVertex), EnableScissorRect(x.scissor), DrawProceduralIndirect(x.argsByteOffset)] == bind + [SetBaseVertex(x.baseVertex)] + [EnableScissorRect(x.scissor)] + [DrawProceduralIndirect(x.argsByteOffset)];
  }
}
