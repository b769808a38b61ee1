/** Whole-lifetime properties of the view: a start followed by a stop, and
    the one-quad frame. */
module Lifecycle {
  import opened Scene
  import opened Gpu
  import opened MeshTable
  import opened TextureTable
  import opened Frame
  import opened Teardown
  import opened TextureLookup
  import opened MyView

  /** The stop callback leaves a valid device. */
  lemma ReleasedValid(t: Table, d: Device, e: Device)
    requires Valid(d) && ReleasedAll(t, d, e)
    ensures Valid(e)
  {
  }

  /** The stop callback frees no texture, so the scan's account of the
      texture slots still holds afterwards. */
  lemma ScannedSurvivesStop(mats: seq<Material>, decodes: string -> bool, tb: Tables, t: Table,
                            d: Device, e: Device)
    requires Scanned(mats, decodes, |mats|, tb, d)
    requires ReleasedAll(t, d, e)
    ensures Scanned(mats, decodes, |mats|, tb, e)
  {
    forall j | 0 <= j < |mats|
      ensures SlotLoaded(tb.diff[j], mats[j].diffuseTexture, decodes, e)
      ensures SlotLoaded(tb.spec[j], mats[j].specularTexture, decodes, e)
    {
      assert SlotLoaded(tb.diff[j], mats[j].diffuseTexture, decodes, d);
      assert SlotLoaded(tb.spec[j], mats[j].specularTexture, decodes, d);
    }
  }

  /** Start a new view, then stop it. With distinct mesh ids, as the
      geometry builder provides them, every buffer and vertex array the
      start created is released, nothing that existed before is touched, and
      only the textures outlive the view, still as the scan left them. */
  method StartThenStop(meshes: seq<Mesh>, ctx: Context, decodes: string -> bool, d: Device)
    returns (v: View, d': Device)
    requires Valid(d) && DistinctIds(meshes)
    ensures forall h :: h in d.objects ==> h in d'.objects && d'.objects[h] == d.objects[h]
    ensures forall h :: h in d'.objects && h !in d.objects ==> d'.objects[h].TextureObject?
    ensures Scanned(ctx.materials, decodes, |ctx.materials|, v.textures, d')
    ensures forall h :: h in d'.objects && h !in d.objects <==> h in Slots(v.textures)
  {
    var v1, d1 := WillStart(NewView, meshes, ctx, decodes, d);
    v, d' := DidStop(v1, d1);
    ReleasedValid(v1.meshes, d1, d');
    ScannedSurvivesStop(ctx.materials, decodes, v.textures, v1.meshes, d1, d');
    OldObjectsSurvive(d, d1, d', v1.meshes, MeshIds(meshes));
    StartRecordsFreeable(meshes, v1.meshes, d1);
    OnlyTexturesSurvive(d, d1, d', v1.meshes);
    OnlySlotsSurvive(ctx.materials, decodes, d, d1, d', v1.meshes, v.textures);
  }

  /** After start then stop, the objects beyond the old ones are exactly the
      textures the slots hold: the stop frees every record's names, and no
      slot name is a record's. */
  lemma OnlySlotsSurvive(mats: seq<Material>, decodes: string -> bool,
                         d: Device, d1: Device, e: Device, t: Table, tb: Tables)
    requires FreesAllNames(t, d1)
    requires RecordsOrSlots(d, d1, t, tb) && Slots(tb) !! d.objects.Keys
    requires ReleasedAll(t, d1, e)
    requires Scanned(mats, decodes, |mats|, tb, e)
    ensures forall h :: h in e.objects && h !in d.objects <==> h in Slots(tb)
  {
    forall h | h in Slots(tb) ensures h in e.objects {
      if h in SlotHandles(tb.diff) {
        var j :| 0 <= j < |tb.diff| && tb.diff[j] != 0 && tb.diff[j] == h;
        assert SlotLoaded(tb.diff[j], mats[j].diffuseTexture, decodes, e);
      } else {
        var j :| 0 <= j < |tb.spec| && tb.spec[j] != 0 && tb.spec[j] == h;
        assert SlotLoaded(tb.spec[j], mats[j].specularTexture, decodes, e);
      }
    }
  }

  /** Objects that existed before the start are not named by any record, so
      the stop leaves them alone. */
  lemma OldObjectsSurvive(d: Device, d1: Device, e: Device, t: Table, ids: set<MeshId>)
    requires Valid(d) && Extends(d, d1) && ReleasedAll(t, d1, e)
    requires t.Keys == ids
    requires forall id :: id in ids ==> id in t && AllocatedSince(d, t[id])
    ensures forall h :: h in d.objects ==> h in e.objects && e.objects[h] == d.objects[h]
  {
    forall h | h in d.objects
      ensures h in e.objects && e.objects[h] == d.objects[h]
    {
      forall id | id in t ensures !Frees(d1, t[id], h) {
        assert AllocatedSince(d, t[id]);
      }
    }
  }

  /** Every non-texture object the start created is named by a record, and
      every record frees all its names, so the stop frees it. */
  lemma OnlyTexturesSurvive(d: Device, d1: Device, e: Device, t: Table)
    requires FreesAllNames(t, d1)
    requires RecordsOrTextures(d, d1, t)
    requires ReleasedAll(t, d1, e)
    ensures forall h :: h in e.objects && h !in d.objects ==> e.objects[h].TextureObject?
  {
  }

  /** Releasing any record of `t` frees every name it holds. */
  ghost predicate FreesAllNames(t: Table, d: Device) {
    forall id, h :: id in t && h in Handles(t[id]) ==> Frees(d, t[id], h)
  }

  /** With distinct ids every record realizes its mesh, so it frees all its
      names. */
  lemma StartRecordsFreeable(meshes: seq<Mesh>, t: Table, d: Device)
    requires DistinctIds(meshes)
    requires t.Keys == MeshIds(meshes)
    requires forall i :: 0 <= i < |meshes| && LastWithId(meshes, i) ==>
               meshes[i].id in t && Realizes(d, t[meshes[i].id], meshes[i])
    ensures FreesAllNames(t, d)
  {
    forall id, h | id in t && h in Handles(t[id]) ensures Frees(d, t[id], h) {
      var i :| 0 <= i < |meshes| && meshes[i].id == id;
      assert LastWithId(meshes, i);
      RealizedFrees(d, t[id], meshes[i], h);
    }
  }

  /** Releasing a record that realizes a mesh frees every name it holds. */
  lemma RealizedFrees(d: Device, gl: MeshGL, m: Mesh, h: Handle)
    requires Realizes(d, gl, m) && h in Handles(gl)
    ensures Frees(d, gl, h)
  {
  }

  /** A unit quad: four corners, two triangles over six indices. */
  function Quad(id: MeshId): Mesh {
    var up := Vec3(0.0, 0.0, 1.0);
    Mesh(id,
      [Vec3(0.0, 0.0, 0.0), Vec3(1.0, 0.0, 0.0), Vec3(1.0, 1.0, 0.0), Vec3(0.0, 1.0, 0.0)],
      [up, up, up, up],
      [Vec2(0.0, 0.0), Vec2(1.0, 0.0), Vec2(1.0, 1.0), Vec2(0.0, 1.0)],
      [0, 1, 2, 2, 3, 0])
  }

  /** A scene of one light, one untextured material and one instance of the
      quad. */
  function QuadScene(): Context {
    var grey := Vec3(0.5, 0.5, 0.5);
    Context(
      [Light(Vec3(0.0, 2.0, 0.0), Vec3(1.0, 1.0, 1.0), 10.0)],
      [Material(4, grey, grey, grey, 8.0, "", "")],
      [Instance(7, 4, [1.0, 0.0, 0.0, 0.0, 0.0, 1.0, 0.0, 0.0, 0.0, 0.0, 1.0, 0.0, 0.0, 0.0, 0.0, 1.0])])
  }

  /** Start a new view on the quad scene: the quad's record draws six
      indices and the texture tables can be indexed by every name they hold. */
  method QuadStart(decodes: string -> bool) returns (v: View, d: Device)
    ensures 7 in v.meshes && v.meshes[7].elementCount == 6
    ensures Indexed(v.textures)
  {
    var quad := Quad(7);
    v, d := WillStart(NewView, [quad], QuadScene(), decodes, EmptyDevice);
    assert LastWithId([quad], 0);
    ScannedIndexed(QuadScene().materials, decodes, v.textures, d);
  }

  /** Start a new view on the quad scene, then render one frame: exactly one
      draw, of six indices, with both texture flags off, and the light
      position array covers the one light. */
  method QuadFrame(decodes: string -> bool, cameraPosition: Vec3, projectionView: Mat4)
    returns (v: View, cmds: seq<Command>)
    ensures DrawCounts(cmds) == [6]
    ensures !v.useDiffTexture && !v.useSpecTexture
    ensures |cmds| >= 6 && cmds[3] == SetVec3(LightPosition, 1, [Vec3(0.0, 2.0, 0.0)])
  {
    var ctx := QuadScene();
    var v0, d := QuadStart(decodes);
    assert ctx.materials[0].id == 4;
    assert InstancesResolve(ctx, ctx.instances);
    v, cmds := Render(v0, ctx, cameraPosition, projectionView);
    assert MaterialById(ctx, 4) == ctx.materials[0];
    var dc := DrawCounts(cmds);
    assert dc == [dc[0]];
    var pre := FrameHeader(cameraPosition, projectionView) + LightCommands(Unzip(ctx.lights));
    assert cmds[3] == pre[3];
  }
}
