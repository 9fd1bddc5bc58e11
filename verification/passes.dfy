/** The draw walk both renderers share: commands are visited in global order, culled
    ones are skipped, the texture is rebound only when it differs from the last bound
    one (initially 0), and every surviving command gets a Y-inverted scissor rectangle. */
module Passes {
  import opened Common
  import opened ImDraw

  /** The decision taken for one surviving command: its global index, the texture to
      bind before drawing it (None when the bound one already matches), and its scissor. */
  datatype Visit = Visit(cmd: nat, bind: Option<int>, scissor: Rect)

  /** A recorded command-buffer instruction (texture binds go through the material
      property block; the viewport is set before the first draw). */
  datatype Command =
    | SetViewport(rect: Rect)
    | SetTexture(textureId: int)
    | SetBaseVertex(baseVertex: int)
    | EnableScissorRect(rect: Rect)
    | DrawMesh(submesh: nat)
    | DrawProceduralIndirect(argsByteOffset: nat)
    | DisableScissorRect

  /** The bind instruction a visit needs, if any. */
  function BindCommands(bind: Option<int>): seq<Command>
  {
    if bind.Some? then [SetTexture(bind.value)] else []
  }

  /** Whether an instruction draws something. */
  predicate IsDraw(c: Command)
  {
    c.DrawMesh? || c.DrawProceduralIndirect?
  }

  /** The draw instructions of a command stream, in recorded order. */
  function DrawsOf(cs: seq<Command>): (r: seq<Command>)
    ensures |r| <= |cs|
  {
    if |cs| == 0 then []
    else DrawsOf(cs[..|cs| - 1]) + (if IsDraw(cs[|cs| - 1]) then [cs[|cs| - 1]] else [])
  }

  /** A single instruction contributes itself exactly when it draws. */
  lemma DrawsOfSingle(c: Command)
    ensures DrawsOf([c]) == (if IsDraw(c) then [c] else [])
  {
    assert [c][..0] == [];
  }

  /** Draw instructions of a concatenated stream are those of each part, in order. */
  lemma {:induction false} DrawsOfAppend(a: seq<Command>, b: seq<Command>)
    ensures DrawsOf(a + b) == DrawsOf(a) + DrawsOf(b)
    decreases |b|
  {
    if |b| == 0 {
      assert a + b == a;
    } else {
      var b' := b[..|b| - 1];
      assert (a + b)[..|a + b| - 1] == a + b';
      assert (a + b)[|a + b| - 1] == b[|b| - 1];
      DrawsOfAppend(a, b');
    }
  }

  /** Texture to bind when `next` follows `bound`: only a different one is rebound. */
  function Rebind(next: int, bound: int): (r: Option<int>)
    ensures r.Some? <==> next != bound
    ensures r.Some? ==> r.value == next
  {
    if next != bound then Some(next) else None
  }

  /** Texture id bound after the first k commands were walked (0 before any draw). */
  function BoundAfter(v: View, ps: seq<Placed>, k: nat): int
    requires k <= |ps|
  {
    if k == 0 then 0
    else if Culled(v, ps[k - 1].cmd) then BoundAfter(v, ps, k - 1)
    else ps[k - 1].cmd.textureId
  }

  /** The visits produced by walking the first k commands. */
  function Visits(v: View, ps: seq<Placed>, k: nat): (r: seq<Visit>)
    requires k <= |ps|
    ensures |r| <= k
    ensures forall j :: 0 <= j < |r| ==> r[j].cmd < k
  {
    if k == 0 then []
    else
      var c := ps[k - 1].cmd;
      if Culled(v, c) then Visits(v, ps, k - 1)
      else Visits(v, ps, k - 1) + [Visit(k - 1, Rebind(c.textureId, BoundAfter(v, ps, k - 1)), Scissor(v, c))]
  }

  /** One more command extends the walk by at most one visit, exactly when it is not culled. */
  lemma VisitsStep(v: View, ps: seq<Placed>, k: nat)
    requires k < |ps|
    ensures Culled(v, ps[k].cmd) ==> Visits(v, ps, k + 1) == Visits(v, ps, k)
    ensures Culled(v, ps[k].cmd) ==> BoundAfter(v, ps, k + 1) == BoundAfter(v, ps, k)
    ensures !Culled(v, ps[k].cmd) ==>
      Visits(v, ps, k + 1)
      == Visits(v, ps, k) + [Visit(k, Rebind(ps[k].cmd.textureId, BoundAfter(v, ps, k)), Scissor(v, ps[k].cmd))]
    ensures !Culled(v, ps[k].cmd) ==> BoundAfter(v, ps, k + 1) == ps[k].cmd.textureId
  {
  }

  /** Every visit is for an earlier, unculled command and carries that command's scissor. */
  lemma {:induction false} VisitsSound(v: View, ps: seq<Placed>, k: nat)
    requires k <= |ps|
    ensures forall j :: 0 <= j < |Visits(v, ps, k)| ==>
      var x := Visits(v, ps, k)[j];
      x.cmd < k && !Culled(v, ps[x.cmd].cmd) && x.scissor == Scissor(v, ps[x.cmd].cmd)
  {
    if k > 0 {
      VisitsSound(v, ps, k - 1);
    }
  }

  /** Visits come out in command order, each command at most once. */
  lemma {:induction false} VisitsOrdered(v: View, ps: seq<Placed>, k: nat)
    requires k <= |ps|
    ensures forall j1, j2 :: 0 <= j1 < j2 < |Visits(v, ps, k)| ==>
      Visits(v, ps, k)[j1].cmd < Visits(v, ps, k)[j2].cmd
  {
    if k > 0 {
      VisitsOrdered(v, ps, k - 1);
      VisitsSound(v, ps, k - 1);
    }
  }

  /** Every unculled command is visited. */
  lemma {:induction false} VisitsComplete(v: View, ps: seq<Placed>, k: nat)
    requires k <= |ps|
    ensures forall c :: 0 <= c < k && !Culled(v, ps[c].cmd) ==>
      exists j :: 0 <= j < |Visits(v, ps, k)| && Visits(v, ps, k)[j].cmd == c
  {
    if k > 0 {
      VisitsComplete(v, ps, k - 1);
      var vs := Visits(v, ps, k - 1);
      var ws := Visits(v, ps, k);
      assert ws[..|vs|] == vs;
      forall c | 0 <= c < k && !Culled(v, ps[c].cmd)
        ensures exists j :: 0 <= j < |ws| && ws[j].cmd == c
      {
        if c < k - 1 {
          var j :| 0 <= j < |vs| && vs[j].cmd == c;
          assert ws[j] == vs[j];
          assert 0 <= j < |ws| && ws[j].cmd == c;
        } else {
          VisitsStep(v, ps, k - 1);
          assert 0 <= |ws| - 1 < |ws| && ws[|ws| - 1].cmd == c;
        }
      }
      assert ws == Visits(v, ps, k);
    }
  }

  /** The bound texture is the one of the last visit, or 0 when nothing was drawn yet:
      culled commands leave it alone. */
  lemma {:induction false} BoundIsLastVisited(v: View, ps: seq<Placed>, k: nat)
    requires k <= |ps|
    ensures var vs := Visits(v, ps, k);
      BoundAfter(v, ps, k) == (if |vs| == 0 then 0 else ps[vs[|vs| - 1].cmd].cmd.textureId)
  {
    if k > 0 {
      BoundIsLastVisited(v, ps, k - 1);
    }
  }

  /** A visit rebinds exactly when its texture differs from the previous visit's (or from 0
      for the first visit), and then binds its own texture. */
  lemma {:induction false} VisitsBindOnChange(v: View, ps: seq<Placed>, k: nat)
    requires k <= |ps|
    ensures forall j :: 0 <= j < |Visits(v, ps, k)| ==>
      Visits(v, ps, k)[j].bind == Rebind(ps[Visits(v, ps, k)[j].cmd].cmd.textureId,
        if j == 0 then 0 else ps[Visits(v, ps, k)[j - 1].cmd].cmd.textureId)
  {
    VisitsSound(v, ps, k);
    if k > 0 {
      VisitsBindOnChange(v, ps, k - 1);
      BoundIsLastVisited(v, ps, k - 1);
    }
  }

  /** Framing a pass's instructions with the viewport and the final scissor switch-off
      adds no draw instruction. */
  lemma FramedDraws(viewport: Rect, body: seq<Command>)
    ensures DrawsOf([SetViewport(viewport)] + body + [DisableScissorRect]) == DrawsOf(body)
  {
    DrawsOfAppend([SetViewport(viewport)], body);
    DrawsOfAppend([SetViewport(viewport)] + body, [DisableScissorRect]);
    DrawsOfSingle(SetViewport(viewport));
    DrawsOfSingle(DisableScissorRect);
  }
}
