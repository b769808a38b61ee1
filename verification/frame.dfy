/** One frame of the renderer: the commands it emits, the texture flag
    resolution of each instance, the draw loop over the instances and the
    packing of the lights into parallel uniform arrays. */
module Frame {
  import opened Scene
  import opened Gpu
  import opened MeshTable
  import opened TextureTable

  /** The shader uniforms the renderer sets, by their role. */
  datatype Uniform =
    | CameraPosition | ProjectionViewModel | ModelXform
    | LightPosition | LightIntensity | LightRange
    | DiffuseColour | AmbientColour | SpecularColour | Shininess
    | DiffuseSampler | SpecularSampler | UseDiffTexture | UseSpecTexture
    | ToggleNormal

  /** The device commands a frame emits, in order. `count` is the number of
      array elements an array upload covers. */
  datatype Command =
    | SetVec3(u: Uniform, count: nat, vec3s: seq<Vec3>)
    | SetFloat(u: Uniform, count: nat, floats: seq<real>)
    | SetMat4(u: Uniform, m: Mat4)
    | SetInt(u: Uniform, value: int)
    | UseProgram
    | ActiveTexture(unit: nat)
    | BindTexture(tex: Handle)
    | BindVertexArray(vao: Handle)
    | DrawElements(count: nat)

  /** Texture units of the two samplers. */
  const DiffuseUnit: nat := 0
  const SpecularUnit: nat := 1

  /** A GLboolean passed to glUniform1i. */
  function FlagValue(b: bool): int {
    if b then 1 else 0
  }

  /** The flag lookup for one texture slot of an instance: an empty file
      name, or one the table does not hold, switches the flag off; otherwise
      the slot's vector is indexed with the table's value and that name is
      bound. */
  function ResolveTexture(file: string, names: map<string, nat>, handles: seq<Handle>): (b: Binding)
    requires file in names ==> names[file] < |handles|
    ensures b.Bound? <==> file != "" && file in names
    ensures b.Bound? ==> b.tex == handles[names[file]]
  {
    if file == "" then NoTexture
    else if file !in names then NoTexture
    else Bound(handles[names[file]])
  }

  /** The bind commands of a resolved slot on texture unit `unit`. */
  function BindCommands(b: Binding, unit: nat, sampler: Uniform): seq<Command> {
    match b
    case NoTexture => []
    case Bound(h) => [ActiveTexture(unit), BindTexture(h), SetInt(sampler, unit)]
  }

  /** No command of `cmds` is a draw. */
  predicate NoDraws(cmds: seq<Command>) {
    forall k :: 0 <= k < |cmds| ==> !cmds[k].DrawElements?
  }

  /** The uniforms an instance sets before its texture binds: its model
      matrix, then the diffuse and ambient colours. */
  function ColourCommands(inst: Instance, mat: Material): seq<Command> {
    [SetMat4(ModelXform, inst.xform),
     SetVec3(DiffuseColour, 1, [mat.diffuse]),
     SetVec3(AmbientColour, 1, [mat.ambient])]
  }

  /** The uniforms an instance sets after its texture binds: the two flags,
      the specular colour and the shininess. */
  function FlagCommands(mat: Material, diff: Binding, spec: Binding): seq<Command> {
    [SetInt(UseDiffTexture, FlagValue(diff.Bound?)),
     SetInt(UseSpecTexture, FlagValue(spec.Bound?)),
     SetVec3(SpecularColour, 1, [mat.specular]),
     SetFloat(Shininess, 1, [mat.shininess])]
  }

  /** The mesh's vertex array, then one indexed draw over its count. */
  function DrawTail(entry: MeshGL): seq<Command> {
    [BindVertexArray(entry.vao), DrawElements(entry.elementCount)]
  }

  /** The commands for one instance, in the render loop's order: its model
      matrix, diffuse and ambient colours, the two texture bindings, the two
      flags, specular colour and shininess, then the mesh's vertex array and
      one indexed draw over the record's element count. */
  function InstanceCommands(inst: Instance, mat: Material, diff: Binding, spec: Binding, entry: MeshGL)
    : (cmds: seq<Command>)
    ensures |cmds| >= 2
    ensures NoDraws(cmds[..|cmds| - 2])
    ensures cmds[|cmds| - 2] == BindVertexArray(entry.vao)
    ensures cmds[|cmds| - 1] == DrawElements(entry.elementCount)
    ensures SetInt(UseDiffTexture, FlagValue(diff.Bound?)) in cmds
    ensures SetInt(UseSpecTexture, FlagValue(spec.Bound?)) in cmds
    ensures diff.Bound? ==> BindTexture(diff.tex) in cmds
    ensures spec.Bound? ==> BindTexture(spec.tex) in cmds
  {
    var head := ColourCommands(inst, mat);
    var flags := FlagCommands(mat, diff, spec);
    var dbind := BindCommands(diff, DiffuseUnit, DiffuseSampler);
    var sbind := BindCommands(spec, SpecularUnit, SpecularSampler);
    var prefix := head + dbind + sbind + flags;
    var cmds := prefix + DrawTail(entry);
    assert cmds[..|cmds| - 2] == prefix;
    assert flags[0] == cmds[|head + dbind + sbind|];
    assert flags[1] == cmds[|head + dbind + sbind| + 1];
    assert diff.Bound? ==> cmds[|head| + 1] == BindTexture(diff.tex);
    assert spec.Bound? ==> cmds[|head + dbind| + 1] == BindTexture(spec.tex);
    cmds
  }

  /** Where an instance's texture binds go: a resolved diffuse texture is
      bound on the diffuse unit right after the colours, with the diffuse
      sampler set to that unit, and a resolved specular texture follows on
      the specular unit with the specular sampler. */
  lemma InstanceBindsPlaced(inst: Instance, mat: Material, diff: Binding, spec: Binding, entry: MeshGL)
    ensures var cmds := InstanceCommands(inst, mat, diff, spec, entry);
      && (diff.Bound? ==>
            cmds[3..6] == [ActiveTexture(DiffuseUnit), BindTexture(diff.tex), SetInt(DiffuseSampler, DiffuseUnit)])
      && (var at := 3 + |BindCommands(diff, DiffuseUnit, DiffuseSampler)|;
          spec.Bound? ==>
            cmds[at..at + 3] == [ActiveTexture(SpecularUnit), BindTexture(spec.tex), SetInt(SpecularSampler, SpecularUnit)])
  {
    DiffuseBindPlaced(inst, mat, diff, spec, entry);
    SpecularBindPlaced(inst, mat, diff, spec, entry);
  }

  lemma DiffuseBindPlaced(inst: Instance, mat: Material, diff: Binding, spec: Binding, entry: MeshGL)
    ensures var cmds := InstanceCommands(inst, mat, diff, spec, entry);
      cmds[3..3 + |BindCommands(diff, DiffuseUnit, DiffuseSampler)|] == BindCommands(diff, DiffuseUnit, DiffuseSampler)
  {
    var rest := BindCommands(spec, SpecularUnit, SpecularSampler) + (FlagCommands(mat, diff, spec) + DrawTail(entry));
    InstanceShape(inst, mat, diff, spec, entry);
    SegmentAt(ColourCommands(inst, mat), BindCommands(diff, DiffuseUnit, DiffuseSampler), rest);
  }

  lemma SpecularBindPlaced(inst: Instance, mat: Material, diff: Binding, spec: Binding, entry: MeshGL)
    ensures var cmds := InstanceCommands(inst, mat, diff, spec, entry);
      var at := 3 + |BindCommands(diff, DiffuseUnit, DiffuseSampler)|;
      cmds[at..at + |BindCommands(spec, SpecularUnit, SpecularSampler)|] == BindCommands(spec, SpecularUnit, SpecularSampler)
  {
    var head := ColourCommands(inst, mat);
    var dbind := BindCommands(diff, DiffuseUnit, DiffuseSampler);
    var sbind := BindCommands(spec, SpecularUnit, SpecularSampler);
    var rest := FlagCommands(mat, diff, spec) + DrawTail(entry);
    InstanceShape(inst, mat, diff, spec, entry);
    assert head + dbind + (sbind + rest) == (head + dbind) + sbind + rest;
    SegmentAt(head + dbind, sbind, rest);
  }

  /** An instance's block is its colours, the two binds, then the flags and
      the draw. */
  lemma InstanceShape(inst: Instance, mat: Material, diff: Binding, spec: Binding, entry: MeshGL)
    ensures |ColourCommands(inst, mat)| == 3
    ensures InstanceCommands(inst, mat, diff, spec, entry)
         == ColourCommands(inst, mat) + BindCommands(diff, DiffuseUnit, DiffuseSampler)
          + (BindCommands(spec, SpecularUnit, SpecularSampler) + (FlagCommands(mat, diff, spec) + DrawTail(entry)))
  {
  }

  /** The middle part of a three-way concatenation sits at the first
      part's length. */
  lemma SegmentAt<T>(a: seq<T>, b: seq<T>, c: seq<T>)
    ensures (a + b + c)[|a|..|a| + |b|] == b
  {
  }

  /** Every texture unit `cmds` activates, and every texture it binds,
      belongs to a slot that resolved to a texture. */
  predicate BindsResolved(cmds: seq<Command>, diff: Binding, spec: Binding) {
    && (forall c :: c in cmds && c.ActiveTexture? ==>
          (c.unit == DiffuseUnit && diff.Bound?) || (c.unit == SpecularUnit && spec.Bound?))
    && (forall c :: c in cmds && c.BindTexture? ==>
          (diff.Bound? && c.tex == diff.tex) || (spec.Bound? && c.tex == spec.tex))
  }

  /** A slot whose flag is off emits no bind: every texture unit an
      instance activates, and every texture it binds, belongs to a slot
      that resolved to a texture. */
  lemma InstanceBindsOnly(inst: Instance, mat: Material, diff: Binding, spec: Binding, entry: MeshGL)
    ensures var cmds := InstanceCommands(inst, mat, diff, spec, entry);
      && (forall c :: c in cmds && c.ActiveTexture? ==>
            (c.unit == DiffuseUnit && diff.Bound?) || (c.unit == SpecularUnit && spec.Bound?))
      && (forall c :: c in cmds && c.BindTexture? ==>
            (diff.Bound? && c.tex == diff.tex) || (spec.Bound? && c.tex == spec.tex))
  {
    InstanceShape(inst, mat, diff, spec, entry);
    PartsBindResolved(inst, mat, diff, spec, entry);
    assert BindsResolved(InstanceCommands(inst, mat, diff, spec, entry), diff, spec);
  }

  /** The parts of an instance's block only bind resolved slots. */
  lemma PartsBindResolved(inst: Instance, mat: Material, diff: Binding, spec: Binding, entry: MeshGL)
    ensures BindsResolved(ColourCommands(inst, mat) + BindCommands(diff, DiffuseUnit, DiffuseSampler)
      + (BindCommands(spec, SpecularUnit, SpecularSampler) + (FlagCommands(mat, diff, spec) + DrawTail(entry))), diff, spec)
  {
    var head := ColourCommands(inst, mat);
    var dbind := BindCommands(diff, DiffuseUnit, DiffuseSampler);
    var sbind := BindCommands(spec, SpecularUnit, SpecularSampler);
    var rest := FlagCommands(mat, diff, spec) + DrawTail(entry);
    assert BindsResolved(head, diff, spec);
    assert BindsResolved(dbind, diff, spec);
    assert BindsResolved(sbind, diff, spec);
    assert BindsResolved(rest, diff, spec);
    BindsResolvedAppend(sbind, rest, diff, spec);
    BindsResolvedAppend(head, dbind, diff, spec);
    BindsResolvedAppend(head + dbind, sbind + rest, diff, spec);
  }

  lemma BindsResolvedAppend(a: seq<Command>, b: seq<Command>, diff: Binding, spec: Binding)
    requires BindsResolved(a, diff, spec) && BindsResolved(b, diff, spec)
    ensures BindsResolved(a + b, diff, spec)
  {
  }

  /** The block of commands the render loop emits for `inst` when the mesh
      table reads `entry` at its id. */
  function InstanceBlock(inst: Instance, ctx: Context, tb: Tables, entry: MeshGL): seq<Command>
    requires HasMaterial(ctx, inst.materialId)
    requires Indexed(tb)
  {
    var mat := MaterialById(ctx, inst.materialId);
    InstanceCommands(inst, mat,
      ResolveTexture(mat.diffuseTexture, tb.names, tb.diff),
      ResolveTexture(mat.specularTexture, tb.names, tb.spec),
      entry)
  }

  /** The renderer state the draw loop mutates: the mesh table (through the
      subscript) and the two texture flags. */
  datatype DrawState = DrawState(meshes: Table, useDiff: bool, useSpec: bool)
  datatype Drawn = Drawn(state: DrawState, commands: seq<Command>)

  /** The render loop over the instances, in the scene's order. */
  function DrawLoop(insts: seq<Instance>, ctx: Context, tb: Tables, s: DrawState): (r: Drawn)
    requires InstancesResolve(ctx, insts)
    requires Indexed(tb)
    ensures s.meshes.Keys <= r.state.meshes.Keys
    ensures forall k :: k in s.meshes ==> r.state.meshes[k] == s.meshes[k]
    decreases |insts|
  {
    if |insts| == 0 then Drawn(s, [])
    else
      var inst := insts[0];
      var mat := MaterialById(ctx, inst.materialId);
      var diff := ResolveTexture(mat.diffuseTexture, tb.names, tb.diff);
      var spec := ResolveTexture(mat.specularTexture, tb.names, tb.spec);
      var sub := Subscript(s.meshes, inst.meshId);
      var rest := DrawLoop(insts[1..], ctx, tb, DrawState(sub.table, diff.Bound?, spec.Bound?));
      Drawn(rest.state, InstanceBlock(inst, ctx, tb, sub.entry) + rest.commands)
  }

  /** The concatenation of a sequence of command blocks. */
  function Flatten(blocks: seq<seq<Command>>): seq<Command> {
    if |blocks| == 0 then [] else blocks[0] + Flatten(blocks[1..])
  }

  /** The per-instance blocks of a frame, each computed from the mesh table
      as it was before the frame. */
  function Blocks(insts: seq<Instance>, ctx: Context, tb: Tables, t: Table): (bs: seq<seq<Command>>)
    requires InstancesResolve(ctx, insts)
    requires Indexed(tb)
    ensures |bs| == |insts|
    decreases |insts|
  {
    if |insts| == 0 then []
    else [InstanceBlock(insts[0], ctx, tb, EntryFor(t, insts[0].meshId))] + Blocks(insts[1..], ctx, tb, t)
  }

  /** Two tables that read the same records at the instances' ids give the
      same blocks. */
  lemma {:induction false} BlocksAgree(insts: seq<Instance>, ctx: Context, tb: Tables, t: Table, u: Table)
    requires InstancesResolve(ctx, insts)
    requires Indexed(tb)
    requires forall k :: 0 <= k < |insts| ==> EntryFor(t, insts[k].meshId) == EntryFor(u, insts[k].meshId)
    ensures Blocks(insts, ctx, tb, t) == Blocks(insts, ctx, tb, u)
    decreases |insts|
  {
    if |insts| > 0 {
      assert EntryFor(t, insts[0].meshId) == EntryFor(u, insts[0].meshId);
      forall k | 0 <= k < |insts| - 1
        ensures EntryFor(t, insts[1..][k].meshId) == EntryFor(u, insts[1..][k].meshId)
      {
        assert insts[1..][k] == insts[k + 1];
      }
      BlocksAgree(insts[1..], ctx, tb, t, u);
    }
  }

  /** The ids the instances name. */
  function InstanceMeshIds(insts: seq<Instance>): set<MeshId> {
    set k | 0 <= k < |insts| :: insts[k].meshId
  }

  lemma InstanceMeshIdsCons(insts: seq<Instance>)
    requires |insts| > 0
    ensures InstanceMeshIds(insts) == {insts[0].meshId} + InstanceMeshIds(insts[1..])
  {
    var a, b := InstanceMeshIds(insts), {insts[0].meshId} + InstanceMeshIds(insts[1..]);
    forall x | x in a ensures x in b {
      var k :| 0 <= k < |insts| && insts[k].meshId == x;
      if k > 0 { assert insts[1..][k - 1].meshId == x; }
    }
    forall x | x in b ensures x in a {
      if x != insts[0].meshId {
        var k :| 0 <= k < |insts[1..]| && insts[1..][k].meshId == x;
        assert insts[k + 1].meshId == x;
      }
    }
  }

  /** The state the draw loop carries past the first instance. */
  function NextState(inst: Instance, ctx: Context, tb: Tables, s: DrawState): DrawState
    requires HasMaterial(ctx, inst.materialId)
    requires Indexed(tb)
  {
    var mat := MaterialById(ctx, inst.materialId);
    DrawState(Subscript(s.meshes, inst.meshId).table,
      ResolveTexture(mat.diffuseTexture, tb.names, tb.diff).Bound?,
      ResolveTexture(mat.specularTexture, tb.names, tb.spec).Bound?)
  }

  /** One step of the draw loop: the first instance's block, drawn with the
      record the table held, then the rest of the loop. */
  lemma DrawLoopCons(insts: seq<Instance>, ctx: Context, tb: Tables, s: DrawState)
    requires |insts| > 0 && InstancesResolve(ctx, insts)
    requires Indexed(tb)
    ensures DrawLoop(insts, ctx, tb, s).commands
         == InstanceBlock(insts[0], ctx, tb, EntryFor(s.meshes, insts[0].meshId))
          + DrawLoop(insts[1..], ctx, tb, NextState(insts[0], ctx, tb, s)).commands
  {
  }

  /** One step of the flattened blocks. */
  lemma BlocksCons(insts: seq<Instance>, ctx: Context, tb: Tables, t: Table)
    requires |insts| > 0 && InstancesResolve(ctx, insts)
    requires Indexed(tb)
    ensures Flatten(Blocks(insts, ctx, tb, t))
         == InstanceBlock(insts[0], ctx, tb, EntryFor(t, insts[0].meshId)) + Flatten(Blocks(insts[1..], ctx, tb, t))
  {
    var bs := Blocks(insts, ctx, tb, t);
    assert bs[0] == InstanceBlock(insts[0], ctx, tb, EntryFor(t, insts[0].meshId));
    assert bs[1..] == Blocks(insts[1..], ctx, tb, t);
  }

  /** The loop's commands are the instances' blocks in order, each drawn
      with the record the table held before the frame: a missing id reads as
      the default record both when the subscript inserts it and afterwards. */
  lemma {:induction false} DrawLoopCommands(insts: seq<Instance>, ctx: Context, tb: Tables, s: DrawState)
    requires InstancesResolve(ctx, insts)
    requires Indexed(tb)
    ensures DrawLoop(insts, ctx, tb, s).commands == Flatten(Blocks(insts, ctx, tb, s.meshes))
    decreases |insts|
  {
    if |insts| > 0 {
      var s' := NextState(insts[0], ctx, tb, s);
      DrawLoopCommands(insts[1..], ctx, tb, s');
      forall k | 0 <= k < |insts[1..]|
        ensures EntryFor(s'.meshes, insts[1..][k].meshId) == EntryFor(s.meshes, insts[1..][k].meshId)
      {
      }
      BlocksAgree(insts[1..], ctx, tb, s'.meshes, s.meshes);
      DrawLoopCons(insts, ctx, tb, s);
      BlocksCons(insts, ctx, tb, s.meshes);
    }
  }

  /** The table after subscripting each instance's id in turn. */
  function Touched(insts: seq<Instance>, t: Table): Table
    decreases |insts|
  {
    if |insts| == 0 then t else Touched(insts[1..], Subscript(t, insts[0].meshId).table)
  }

  /** Subscripting the instances' ids adds exactly the missing ones, each as
      the default record, and changes no other record. */
  lemma {:induction false} TouchedSpec(insts: seq<Instance>, t: Table)
    ensures Touched(insts, t).Keys == t.Keys + InstanceMeshIds(insts)
    ensures forall k :: k in Touched(insts, t) ==> Touched(insts, t)[k] == EntryFor(t, k)
    decreases |insts|
  {
    if |insts| > 0 {
      var t' := Subscript(t, insts[0].meshId).table;
      TouchedSpec(insts[1..], t');
      InstanceMeshIdsCons(insts);
      forall k | k in Touched(insts, t) ensures Touched(insts, t)[k] == EntryFor(t, k) {
        assert Touched(insts, t)[k] == EntryFor(t', k);
      }
    }
  }

  /** The mesh table the render loop leaves is the subscripted one. */
  lemma {:induction false} DrawLoopMeshes(insts: seq<Instance>, ctx: Context, tb: Tables, s: DrawState)
    requires InstancesResolve(ctx, insts)
    requires Indexed(tb)
    ensures DrawLoop(insts, ctx, tb, s).state.meshes == Touched(insts, s.meshes)
    decreases |insts|
  {
    if |insts| > 0 {
      var inst := insts[0];
      var mat := MaterialById(ctx, inst.materialId);
      var sub := Subscript(s.meshes, inst.meshId);
      var s' := DrawState(sub.table,
        ResolveTexture(mat.diffuseTexture, tb.names, tb.diff).Bound?,
        ResolveTexture(mat.specularTexture, tb.names, tb.spec).Bound?);
      DrawLoopMeshes(insts[1..], ctx, tb, s');
    }
  }

  /** The flags the loop leaves behind are those of the last instance, or
      the previous ones when there is no instance. */
  lemma {:induction false} DrawLoopFlags(insts: seq<Instance>, ctx: Context, tb: Tables, s: DrawState)
    requires InstancesResolve(ctx, insts)
    requires Indexed(tb)
    ensures |insts| == 0 ==> DrawLoop(insts, ctx, tb, s).state == s
    ensures |insts| > 0 ==>
      var mat := MaterialById(ctx, insts[|insts| - 1].materialId);
      && DrawLoop(insts, ctx, tb, s).state.useDiff
         == ResolveTexture(mat.diffuseTexture, tb.names, tb.diff).Bound?
      && DrawLoop(insts, ctx, tb, s).state.useSpec
         == ResolveTexture(mat.specularTexture, tb.names, tb.spec).Bound?
    decreases |insts|
  {
    if |insts| > 0 {
      var inst := insts[0];
      var mat := MaterialById(ctx, inst.materialId);
      var sub := Subscript(s.meshes, inst.meshId);
      var s' := DrawState(sub.table,
        ResolveTexture(mat.diffuseTexture, tb.names, tb.diff).Bound?,
        ResolveTexture(mat.specularTexture, tb.names, tb.spec).Bound?);
      DrawLoopFlags(insts[1..], ctx, tb, s');
      if |insts| > 1 {
        assert insts[1..][|insts[1..]| - 1] == insts[|insts| - 1];
      }
    }
  }

  /** The element counts of the draws among `cmds`, in order. */
  function DrawCounts(cmds: seq<Command>): seq<nat> {
    if |cmds| == 0 then []
    else (if cmds[0].DrawElements? then [cmds[0].count] else []) + DrawCounts(cmds[1..])
  }

  lemma {:induction false} DrawCountsAppend(a: seq<Command>, b: seq<Command>)
    ensures DrawCounts(a + b) == DrawCounts(a) + DrawCounts(b)
    decreases |a|
  {
    if |a| == 0 {
      assert a + b == b;
    } else {
      var h := if a[0].DrawElements? then [a[0].count] else [];
      assert (a + b)[0] == a[0] && (a + b)[1..] == a[1..] + b;
      assert DrawCounts(a + b) == h + DrawCounts(a[1..] + b);
      DrawCountsAppend(a[1..], b);
      assert DrawCounts(a) == h + DrawCounts(a[1..]);
    }
  }

  lemma {:induction false} NoDrawsCount(cmds: seq<Command>)
    requires NoDraws(cmds)
    ensures DrawCounts(cmds) == []
    decreases |cmds|
  {
    if |cmds| > 0 {
      NoDrawsCount(cmds[1..]);
    }
  }

  /** Each instance block holds exactly one draw, of its record's count. */
  lemma InstanceDrawCount(inst: Instance, mat: Material, diff: Binding, spec: Binding, entry: MeshGL)
    ensures DrawCounts(InstanceCommands(inst, mat, diff, spec, entry)) == [entry.elementCount]
  {
    var cmds := InstanceCommands(inst, mat, diff, spec, entry);
    var n := |cmds|;
    var tail := [cmds[n - 2], cmds[n - 1]];
    assert cmds == cmds[..n - 2] + tail;
    NoDrawsCount(cmds[..n - 2]);
    DrawCountsAppend(cmds[..n - 2], tail);
    assert tail[1..] == [DrawElements(entry.elementCount)];
    assert DrawCounts(tail[1..]) == [entry.elementCount] + DrawCounts([]);
  }

  /** The draw count a frame uses for an id: the record's count, or 0 for
      an id the table does not hold. */
  function CountFor(t: Table, id: MeshId): nat {
    EntryFor(t, id).elementCount
  }

  /** An instance's block holds exactly one draw, of the record's count. */
  lemma BlockDrawCount(inst: Instance, ctx: Context, tb: Tables, entry: MeshGL)
    requires HasMaterial(ctx, inst.materialId)
    requires Indexed(tb)
    ensures DrawCounts(InstanceBlock(inst, ctx, tb, entry)) == [entry.elementCount]
  {
    var mat := MaterialById(ctx, inst.materialId);
    InstanceDrawCount(inst, mat,
      ResolveTexture(mat.diffuseTexture, tb.names, tb.diff),
      ResolveTexture(mat.specularTexture, tb.names, tb.spec),
      entry);
  }

  /** One draw per instance, in instance order, each of the element count of
      the instance's mesh record, and 0 for a mesh id the table lacks. */
  lemma {:induction false} BlocksDrawCounts(insts: seq<Instance>, ctx: Context, tb: Tables, t: Table)
    requires InstancesResolve(ctx, insts)
    requires Indexed(tb)
    ensures |DrawCounts(Flatten(Blocks(insts, ctx, tb, t)))| == |insts|
    ensures forall k :: 0 <= k < |insts| ==>
              DrawCounts(Flatten(Blocks(insts, ctx, tb, t)))[k] == CountFor(t, insts[k].meshId)
    decreases |insts|
  {
    if |insts| > 0 {
      var bs := Blocks(insts, ctx, tb, t);
      var rest := Blocks(insts[1..], ctx, tb, t);
      assert bs == [bs[0]] + rest;
      assert Flatten(bs) == bs[0] + Flatten(rest);
      BlockDrawCount(insts[0], ctx, tb, EntryFor(t, insts[0].meshId));
      DrawCountsAppend(bs[0], Flatten(rest));
      BlocksDrawCounts(insts[1..], ctx, tb, t);
      var dc := DrawCounts(Flatten(bs));
      assert dc == [CountFor(t, insts[0].meshId)] + DrawCounts(Flatten(rest));
      forall k | 1 <= k < |insts| ensures dc[k] == CountFor(t, insts[k].meshId) {
        assert insts[1..][k - 1] == insts[k];
      }
    }
  }

  /** The three light arrays uploaded to the shader. */
  datatype LightArrays = LightArrays(positions: seq<Vec3>, intensities: seq<Vec3>, ranges: seq<real>)

  /** The lights split into three parallel arrays. */
  function Unzip(lights: seq<Light>): LightArrays {
    LightArrays(
      seq(|lights|, i requires 0 <= i < |lights| => lights[i].position),
      seq(|lights|, i requires 0 <= i < |lights| => lights[i].intensity),
      seq(|lights|, i requires 0 <= i < |lights| => lights[i].range))
  }

  /** The light-packing loop: three parallel arrays, element i from light i. */
  method PackLights(lights: seq<Light>) returns (r: LightArrays)
    ensures |r.positions| == |lights| && |r.intensities| == |lights| && |r.ranges| == |lights|
    ensures forall i :: 0 <= i < |lights| ==>
              Light(r.positions[i], r.intensities[i], r.ranges[i]) == lights[i]
    ensures r == Unzip(lights)
  {
    var positions: seq<Vec3> := [];
    var intensities: seq<Vec3> := [];
    var ranges: seq<real> := [];
    var i := 0;
    while i < |lights|
      invariant 0 <= i <= |lights|
      invariant |positions| == i && |intensities| == i && |ranges| == i
      invariant forall j :: 0 <= j < i ==>
                  positions[j] == lights[j].position && intensities[j] == lights[j].intensity
                  && ranges[j] == lights[j].range
    {
      positions := positions + [lights[i].position];
      intensities := intensities + [lights[i].intensity];
      ranges := ranges + [lights[i].range];
      i := i + 1;
    }
    r := LightArrays(positions, intensities, ranges);
  }

  /** The three array uploads, each covering all the lights. */
  function LightCommands(a: LightArrays): seq<Command> {
    [SetVec3(LightPosition, |a.positions|, a.positions),
     SetVec3(LightIntensity, |a.positions|, a.intensities),
     SetFloat(LightRange, |a.positions|, a.ranges)]
  }

  /** The frame's light uploads: position, intensity and range arrays in
      that order, each covering every light, element i from light i. */
  lemma LightUploads(lights: seq<Light>)
    ensures var cmds := LightCommands(Unzip(lights));
      && |cmds| == 3
      && cmds[0].SetVec3? && cmds[0].u == LightPosition && cmds[0].count == |lights|
      && cmds[1].SetVec3? && cmds[1].u == LightIntensity && cmds[1].count == |lights|
      && cmds[2].SetFloat? && cmds[2].u == LightRange && cmds[2].count == |lights|
      && |cmds[0].vec3s| == |cmds[1].vec3s| == |cmds[2].floats| == |lights|
      && forall i :: 0 <= i < |lights| ==>
           Light(cmds[0].vec3s[i], cmds[1].vec3s[i], cmds[2].floats[i]) == lights[i]
  {
  }
}
