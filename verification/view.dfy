/** The renderer view: its state between callbacks and the four callbacks
    that change it (start, render, stop, and the normal-shading toggle).
    Shader compilation, the projection and look-at matrices and image
    decoding are outside the model: the matrices are parameters and decoding
    is the predicate `decodes`. */
module MyView {
  import opened Scene
  import opened Gpu
  import opened MeshTable
  import opened TextureTable
  import opened Frame
  import opened Teardown

  /** The view's fields: the three shading flags, the texture tables and
      the mesh table. */
  datatype View = View(
    surfaceNormal: bool,
    useDiffTexture: bool,
    useSpecTexture: bool,
    textures: Tables,
    meshes: Table)

  /** A freshly constructed view: every flag off, every table empty. */
  const NewView: View := View(false, false, false, EmptyTables, map[])

  /** A fresh view reads the toggle as off, draws with both texture flags
      off, and holds no texture name, slot or mesh record, so every id reads
      as the default record. */
  lemma NewViewDefaults()
    ensures !GetToggleNormal(NewView)
    ensures !NewView.useDiffTexture && !NewView.useSpecTexture
    ensures NewView.textures.names == map[] && Slots(NewView.textures) == {}
    ensures forall id :: EntryFor(NewView.meshes, id) == DefaultMeshGL
  {
  }

  datatype Toggled = Toggled(view: View, commands: seq<Command>)

  /** The normal-shading toggle: records the value and uploads it as the
      shader's toggle flag. */
  function SetNormalToggle(v: View, value: bool): (r: Toggled)
    ensures GetToggleNormal(r.view) == value
    ensures r.view.(surfaceNormal := v.surfaceNormal) == v
    ensures r.commands == [SetInt(ToggleNormal, FlagValue(value))]
  {
    Toggled(v.(surfaceNormal := value), [SetInt(ToggleNormal, FlagValue(value))])
  }

  function GetToggleNormal(v: View): bool {
    v.surfaceNormal
  }

  /** Setting the toggle twice is the same as setting it once to the second
      value, and setting it to the value it reads changes nothing. */
  lemma ToggleLastWins(v: View, a: bool, b: bool)
    ensures SetNormalToggle(SetNormalToggle(v, a).view, b).view == SetNormalToggle(v, b).view
    ensures SetNormalToggle(v, GetToggleNormal(v)).view == v
  {
  }

  /** The start callback: upload every mesh of the geometry builder, then
      scan the context's materials for textures. */
  method WillStart(v: View, meshes: seq<Mesh>, ctx: Context, decodes: string -> bool, d: Device)
    returns (v': View, d': Device)
    requires Valid(d)
    ensures Valid(d') && Extends(d, d')
    ensures v'.surfaceNormal == v.surfaceNormal
    ensures v'.useDiffTexture == v.useDiffTexture && v'.useSpecTexture == v.useSpecTexture
    ensures v'.meshes.Keys == v.meshes.Keys + MeshIds(meshes)
    ensures forall k :: k in v.meshes && k !in MeshIds(meshes) ==> v'.meshes[k] == v.meshes[k]
    ensures forall i :: 0 <= i < |meshes| && LastWithId(meshes, i) ==>
              meshes[i].id in v'.meshes && Realizes(d', v'.meshes[meshes[i].id], meshes[i])
    ensures v.textures == EmptyTables ==> Scanned(ctx.materials, decodes, |ctx.materials|, v'.textures, d')
    ensures forall id :: id in MeshIds(meshes) ==> id in v'.meshes && AllocatedSince(d, v'.meshes[id])
    ensures DistinctIds(meshes) ==> RecordsOrTextures(d, d', v'.meshes)
    ensures DistinctIds(meshes) && v.textures == EmptyTables ==> RecordsOrSlots(d, d', v'.meshes, v'.textures)
    ensures v.textures == EmptyTables ==> Slots(v'.textures) !! d.objects.Keys
  {
    var t, d1 := BuildMeshes(meshes, v.meshes, d);
    var tb, d2 := ScanMaterials(ctx.materials, decodes, v.textures, d1);
    if DistinctIds(meshes) {
      StartObjects(d, d1, d2, t, MeshIds(meshes));
      if v.textures == EmptyTables {
        StartSlots(d, d1, d2, t, MeshIds(meshes), tb);
      }
    }
    forall i | 0 <= i < |meshes| && LastWithId(meshes, i)
      ensures Realizes(d2, t[meshes[i].id], meshes[i])
    {
      RealizesStable(d1, d2, t[meshes[i].id], meshes[i]);
    }
    ExtendsTransitive(d, d1, d2);
    v' := v.(textures := tb, meshes := t);
    d' := d2;
  }

  /** Every object `e` holds beyond those of `d` is a texture or is named
      by a record of `t`. */
  ghost predicate RecordsOrTextures(d: Device, e: Device, t: Table) {
    forall h :: h in e.objects && h !in d.objects ==>
      e.objects[h].TextureObject? || exists id :: id in t && h in Handles(t[id])
  }

  lemma StartObjects(d: Device, d1: Device, d2: Device, t: Table, ids: set<MeshId>)
    requires OnlyRecords(d, d1, t, ids) && Extends(d1, d2) && OnlyTextures(d1, d2)
    ensures RecordsOrTextures(d, d2, t)
  {
    forall h | h in d2.objects && h !in d.objects && !d2.objects[h].TextureObject?
      ensures exists id :: id in t && h in Handles(t[id])
    {
      assert h in d1.objects;
    }
  }

  /** Every object `e` holds beyond those of `d` is a name some slot of
      `tb` holds or is named by a record of `t`. */
  ghost predicate RecordsOrSlots(d: Device, e: Device, t: Table, tb: Tables) {
    forall h :: h in e.objects && h !in d.objects ==>
      h in Slots(tb) || exists id :: id in t && h in Handles(t[id])
  }

  lemma StartSlots(d: Device, d1: Device, d2: Device, t: Table, ids: set<MeshId>, tb: Tables)
    requires OnlyRecords(d, d1, t, ids) && ScanAdded(d1, d2, tb)
    ensures RecordsOrSlots(d, d2, t, tb)
  {
    forall h | h in d2.objects && h !in d.objects && h !in Slots(tb)
      ensures exists id :: id in t && h in Handles(t[id])
    {
      assert h in d1.objects;
    }
  }

  /** The commands a frame emits before the lights. */
  function FrameHeader(cameraPosition: Vec3, projectionView: Mat4): seq<Command> {
    [SetVec3(CameraPosition, 1, [cameraPosition]), UseProgram, SetMat4(ProjectionViewModel, projectionView)]
  }

  /** The draw loop of the render callback, from the view's table and
      flags. */
  method DrawInstances(v: View, ctx: Context) returns (r: Drawn)
    requires InstancesResolve(ctx, ctx.instances)
    requires Indexed(v.textures)
    ensures r.commands == Flatten(Blocks(ctx.instances, ctx, v.textures, v.meshes))
    ensures |DrawCounts(r.commands)| == |ctx.instances|
    ensures forall k :: 0 <= k < |ctx.instances| ==>
              DrawCounts(r.commands)[k] == CountFor(v.meshes, ctx.instances[k].meshId)
    ensures r.state.meshes == Touched(ctx.instances, v.meshes)
    ensures LastFlags(v, ctx, r.state)
  {
    var s := DrawState(v.meshes, v.useDiffTexture, v.useSpecTexture);
    r := DrawLoop(ctx.instances, ctx, v.textures, s);
    DrawLoopCommands(ctx.instances, ctx, v.textures, s);
    DrawLoopMeshes(ctx.instances, ctx, v.textures, s);
    DrawLoopFlags(ctx.instances, ctx, v.textures, s);
    BlocksDrawCounts(ctx.instances, ctx, v.textures, v.meshes);
  }

  /** The texture flags a frame leaves behind: those the last instance's
      material resolves to, or the view's own when there is no instance. */
  ghost predicate LastFlags(v: View, ctx: Context, s: DrawState)
    requires InstancesResolve(ctx, ctx.instances)
    requires Indexed(v.textures)
  {
    if |ctx.instances| == 0 then s.useDiff == v.useDiffTexture && s.useSpec == v.useSpecTexture
    else
      var mat := MaterialById(ctx, ctx.instances[|ctx.instances| - 1].materialId);
      && s.useDiff == ResolveTexture(mat.diffuseTexture, v.textures.names, v.textures.diff).Bound?
      && s.useSpec == ResolveTexture(mat.specularTexture, v.textures.names, v.textures.spec).Bound?
  }

  /** The render callback: camera and projection uniforms, the lights, then
      one block per instance, in the context's instance order. */
  method Render(v: View, ctx: Context, cameraPosition: Vec3, projectionView: Mat4)
    returns (v': View, cmds: seq<Command>)
    requires InstancesResolve(ctx, ctx.instances)
    requires Indexed(v.textures)
    ensures cmds == FrameHeader(cameraPosition, projectionView) + LightCommands(Unzip(ctx.lights))
                    + Flatten(Blocks(ctx.instances, ctx, v.textures, v.meshes))
    ensures |DrawCounts(cmds)| == |ctx.instances|
    ensures forall k :: 0 <= k < |ctx.instances| ==>
              DrawCounts(cmds)[k] == CountFor(v.meshes, ctx.instances[k].meshId)
    ensures v'.meshes == Touched(ctx.instances, v.meshes)
    ensures v'.textures == v.textures && v'.surfaceNormal == v.surfaceNormal
    ensures LastFlags(v, ctx, DrawState(v'.meshes, v'.useDiffTexture, v'.useSpecTexture))
  {
    var lights := PackLights(ctx.lights);
    var r := DrawInstances(v, ctx);
    var prefix := FrameHeader(cameraPosition, projectionView) + LightCommands(lights);
    cmds := prefix + r.commands;
    v' := v.(useDiffTexture := r.state.useDiff, useSpecTexture := r.state.useSpec, meshes := r.state.meshes);
    PrefixDrawsNothing(cameraPosition, projectionView, lights, r.commands);
  }

  /** Nothing before the instance blocks is a draw, so a frame's draws are
      those of its blocks. */
  lemma PrefixDrawsNothing(cameraPosition: Vec3, projectionView: Mat4, lights: LightArrays, body: seq<Command>)
    ensures DrawCounts(FrameHeader(cameraPosition, projectionView) + LightCommands(lights) + body)
            == DrawCounts(body)
  {
    var h: seq<Command> := FrameHeader(cameraPosition, projectionView);
    var l: seq<Command> := LightCommands(lights);
    forall k | 0 <= k < |h + l| ensures !(h + l)[k].DrawElements? {
      if k < |h| {
        assert (h + l)[k] == h[k];
      } else {
        assert (h + l)[k] == l[k - |h|];
      }
    }
    NoDrawsCount(h + l);
    DrawCountsAppend(h + l, body);
  }

  /** The stop callback: the mesh table's release loop; textures stay. */
  method DidStop(v: View, d: Device) returns (v': View, d': Device)
    requires Valid(d)
    ensures Filled(v.meshes, v'.meshes)
    ensures ReleasedAll(v.meshes, d, d')
    ensures v'.textures == v.textures && v'.surfaceNormal == v.surfaceNormal
    ensures v'.useDiffTexture == v.useDiffTexture && v'.useSpecTexture == v.useSpecTexture
  {
    var t, d1 := ReleaseMeshes(v.meshes, d);
    v' := v.(meshes := t);
    d' := d1;
  }
}
