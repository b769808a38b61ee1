/** The mesh table built at start-up: one record of device names per mesh
    id, holding the four buffers, the vertex-array object and the number
    of indices to draw. */
module MeshTable {
  import opened Scene
  import opened Gpu

  /** Device names of one uploaded mesh; all zero when default-constructed. */
  datatype MeshGL = MeshGL(
    positionsVbo: Handle,
    normalsVbo: Handle,
    texcoordsVbo: Handle,
    elementVbo: Handle,
    vao: Handle,
    elementCount: nat)

  /** What `MeshGL()` constructs, and so what a lookup of a missing id
      inserts and returns. */
  const DefaultMeshGL: MeshGL := MeshGL(0, 0, 0, 0, 0, 0)

  /** An ordered map from mesh id to its device record. */
  type Table = map<MeshId, MeshGL>

  datatype Subscripted = Subscripted(table: Table, entry: MeshGL)

  /** `h` names a live buffer holding exactly `data`, sized at its byte
      length. */
  ghost predicate Holds(d: Device, h: Handle, target: BufferTarget, data: BufferData) {
    h != 0 && h in d.objects && d.objects[h] == BufferObject(Buffer(target, data, ByteSize(data)))
  }

  /** `vao` names a live vertex array that binds `gl`'s index buffer and
      reads slot 0 = position (3 floats, stride 12), slot 1 = normal
      (3 floats, stride 12) and slot 2 = texcoord (2 floats, stride 8). */
  ghost predicate LayoutOk(d: Device, gl: MeshGL) {
    && gl.vao != 0 && gl.vao in d.objects
    && d.objects[gl.vao] == ArrayObject(VertexArray(gl.elementVbo, [
         AttribPointer(gl.positionsVbo, 3, 12),
         AttribPointer(gl.normalsVbo, 3, 12),
         AttribPointer(gl.texcoordsVbo, 2, 8)]))
  }

  /** `gl` is a faithful upload of `m` on `d`: four distinct buffers each
      holding exactly one of the mesh's arrays, a vertex array with the
      shader's layout, and a draw count equal to the number of indices. */
  ghost predicate Realizes(d: Device, gl: MeshGL, m: Mesh) {
    && gl.elementCount == |m.indices|
    && Holds(d, gl.positionsVbo, ArrayBuffer, Vec3Data(m.positions))
    && Holds(d, gl.normalsVbo, ArrayBuffer, Vec3Data(m.normals))
    && Holds(d, gl.texcoordsVbo, ArrayBuffer, Vec2Data(m.texcoords))
    && Holds(d, gl.elementVbo, ElementArrayBuffer, IndexData(m.indices))
    && gl.positionsVbo < gl.normalsVbo < gl.texcoordsVbo < gl.elementVbo
    && LayoutOk(d, gl)
  }

  /** The five device names a record holds. */
  function Handles(gl: MeshGL): set<Handle> {
    {gl.positionsVbo, gl.normalsVbo, gl.texcoordsVbo, gl.elementVbo, gl.vao}
  }

  /** Every name in `gl` was handed out at or after the mark of `d`. */
  ghost predicate AllocatedSince(d: Device, gl: MeshGL) {
    && d.next <= gl.positionsVbo && d.next <= gl.normalsVbo && d.next <= gl.texcoordsVbo
    && d.next <= gl.elementVbo && d.next <= gl.vao
  }

  lemma RealizesStable(d: Device, e: Device, gl: MeshGL, m: Mesh)
    requires Realizes(d, gl, m) && Extends(d, e)
    ensures Realizes(e, gl, m)
  {
    assert gl.positionsVbo in d.objects && gl.normalsVbo in d.objects;
    assert gl.texcoordsVbo in d.objects && gl.elementVbo in d.objects;
    assert gl.vao in d.objects;
  }

  /** The ids of a sequence of meshes. */
  function MeshIds(meshes: seq<Mesh>): set<MeshId> {
    set i | 0 <= i < |meshes| :: meshes[i].id
  }

  /** The body of the start-up loop for one mesh: upload positions, normals,
      texture coordinates and indices, then record the layout. */
  method BuildMesh(m: Mesh, d: Device) returns (gl: MeshGL, d': Device)
    requires Valid(d)
    ensures Valid(d') && Extends(d, d')
    ensures Realizes(d', gl, m)
    ensures AllocatedSince(d, gl)
    ensures d'.objects.Keys == d.objects.Keys + Handles(gl)
  {
    var p := Create(d, BufferObject(Buffer(ArrayBuffer, Vec3Data(m.positions), 12 * |m.positions|)));
    var n := Create(p.device, BufferObject(Buffer(ArrayBuffer, Vec3Data(m.normals), 12 * |m.normals|)));
    var t := Create(n.device, BufferObject(Buffer(ArrayBuffer, Vec2Data(m.texcoords), 8 * |m.texcoords|)));
    var e := Create(t.device, BufferObject(Buffer(ElementArrayBuffer, IndexData(m.indices), 4 * |m.indices|)));
    var layout := VertexArray(e.handle, [
      AttribPointer(p.handle, 3, 12),   // slot 0: position
      AttribPointer(n.handle, 3, 12),   // slot 1: normal
      AttribPointer(t.handle, 2, 8)]);  // slot 2: texcoord
    var a := Create(e.device, ArrayObject(layout));
    gl := MeshGL(p.handle, n.handle, t.handle, e.handle, a.handle, |m.indices|);
    d' := a.device;
    ExtendsTransitive(d, p.device, n.device);
    ExtendsTransitive(d, n.device, t.device);
    ExtendsTransitive(d, t.device, e.device);
    ExtendsTransitive(d, e.device, d');
  }

  /** The start-up loop over the geometry builder's meshes, in order,
      writing into `t`. Each mesh writes the record at its id through the
      map's subscript, so a repeated id overwrites the earlier record (whose
      buffers stay allocated). The record left at an id is an upload of the
      last mesh with that id. */
  method BuildMeshes(meshes: seq<Mesh>, t: Table, d: Device) returns (t': Table, d': Device)
    requires Valid(d)
    ensures Valid(d') && Extends(d, d')
    ensures t'.Keys == t.Keys + MeshIds(meshes)
    ensures forall k :: k in t && k !in MeshIds(meshes) ==> t'[k] == t[k]
    ensures forall i :: 0 <= i < |meshes| && LastWithId(meshes, i) ==>
              meshes[i].id in t' && Realizes(d', t'[meshes[i].id], meshes[i])
    ensures forall id :: id in MeshIds(meshes) ==> id in t' && AllocatedSince(d, t'[id])
    ensures DistinctIds(meshes) ==> OnlyRecords(d, d', t', MeshIds(meshes))
  {
    t', d' := t, d;
    var k := 0;
    BuildStart(meshes, t, d);
    while k < |meshes|
      invariant Building(meshes, k, t, d, t', d')
    {
      t', d' := BuildOne(meshes, k, t, d, t', d');
      k := k + 1;
    }
    BuildDone(meshes, k, t, d, t', d');
  }

  /** The loop invariant after `k` meshes. */
  ghost predicate Building(meshes: seq<Mesh>, k: nat, t: Table, d: Device, t': Table, d': Device) {
    k <= |meshes| && Valid(d) && Valid(d') && Extends(d, d') && Built(meshes, k, t, d, t', d')
  }

  /** One pass of the loop body: upload mesh `k` and store its record at its
      id. */
  method BuildOne(meshes: seq<Mesh>, k: nat, t: Table, d: Device, t': Table, d': Device)
    returns (t2: Table, d2: Device)
    requires Building(meshes, k, t, d, t', d') && k < |meshes|
    ensures Building(meshes, k + 1, t, d, t2, d2)
  {
    var gl;
    gl, d2 := BuildMesh(meshes[k], d');
    BuildStep(meshes, k, t, d, t', d', gl, d2);
    ExtendsTransitive(d, d', d2);
    t2 := t'[meshes[k].id := gl];
  }

  lemma BuildStart(meshes: seq<Mesh>, t: Table, d: Device)
    requires Valid(d)
    ensures Building(meshes, 0, t, d, t, d)
  {
    assert MeshIds(meshes[..0]) == {};
  }

  lemma BuildDone(meshes: seq<Mesh>, k: nat, t: Table, d: Device, t': Table, d': Device)
    requires Building(meshes, k, t, d, t', d') && k >= |meshes|
    ensures Valid(d') && Extends(d, d')
    ensures t'.Keys == t.Keys + MeshIds(meshes)
    ensures forall key :: key in t && key !in MeshIds(meshes) ==> t'[key] == t[key]
    ensures forall i :: 0 <= i < |meshes| && LastWithId(meshes, i) ==>
              meshes[i].id in t' && Realizes(d', t'[meshes[i].id], meshes[i])
    ensures forall id :: id in MeshIds(meshes) ==> id in t' && AllocatedSince(d, t'[id])
    ensures DistinctIds(meshes) ==> OnlyRecords(d, d', t', MeshIds(meshes))
  {
    assert meshes[..k] == meshes;
  }

  /** The start-up loop's invariant after `k` meshes, from table `t` and
      device `d` to table `t'` and device `d'`. */
  ghost predicate Built(meshes: seq<Mesh>, k: nat, t: Table, d: Device, t': Table, d': Device)
    requires k <= |meshes|
  {
    && t'.Keys == t.Keys + MeshIds(meshes[..k])
    && (forall key :: key in t && key !in MeshIds(meshes[..k]) ==> t'[key] == t[key])
    && LastRealized(meshes, k, t', d')
    && (forall id :: id in MeshIds(meshes[..k]) ==> id in t' && AllocatedSince(d, t'[id]))
    && (DistinctIds(meshes) ==> OnlyRecords(d, d', t', MeshIds(meshes[..k])))
  }

  lemma BuildStep(meshes: seq<Mesh>, k: nat, t: Table, d: Device, t': Table, d': Device,
                  gl: MeshGL, d2: Device)
    requires k < |meshes|
    requires Built(meshes, k, t, d, t', d') && Extends(d, d')
    requires Realizes(d2, gl, meshes[k]) && Extends(d', d2)
    requires AllocatedSince(d', gl) && d2.objects.Keys == d'.objects.Keys + Handles(gl)
    ensures Built(meshes, k + 1, t, d, t'[meshes[k].id := gl], d2)
  {
    var t2 := t'[meshes[k].id := gl];
    MeshIdsSnoc(meshes, k);
    LastStep(meshes, k, t', d', gl, d2);
    AllocatedStep(meshes, k, d, t', d', gl, t2);
    if DistinctIds(meshes) {
      OnlyRecordsStep(meshes, k, d, t', d', gl, d2);
    }
  }

  /** Every record the loop has written so far holds names handed out since
      it began. */
  lemma AllocatedStep(meshes: seq<Mesh>, k: nat, d: Device, t: Table, d': Device, gl: MeshGL, t2: Table)
    requires k < |meshes| && d.next <= d'.next && t2 == t[meshes[k].id := gl]
    requires forall id :: id in MeshIds(meshes[..k]) ==> id in t && AllocatedSince(d, t[id])
    requires AllocatedSince(d', gl)
    requires MeshIds(meshes[..k + 1]) == MeshIds(meshes[..k]) + {meshes[k].id}
    ensures forall id :: id in MeshIds(meshes[..k + 1]) ==> id in t2 && AllocatedSince(d, t2[id])
  {
  }

  /** After `k` meshes, the record at the id of each mesh that is the last
      with its id among them is an upload of that mesh. */
  ghost predicate LastRealized(meshes: seq<Mesh>, k: nat, t: Table, d: Device)
    requires k <= |meshes|
  {
    forall i :: 0 <= i < k && LastWithId(meshes[..k], i) ==>
      meshes[i].id in t && Realizes(d, t[meshes[i].id], meshes[i])
  }

  lemma LastStep(meshes: seq<Mesh>, k: nat, t: Table, d: Device, gl: MeshGL, d2: Device)
    requires k < |meshes|
    requires LastRealized(meshes, k, t, d)
    requires Realizes(d2, gl, meshes[k]) && Extends(d, d2)
    ensures LastRealized(meshes, k + 1, t[meshes[k].id := gl], d2)
  {
    var t2 := t[meshes[k].id := gl];
    forall i | 0 <= i < k + 1 && LastWithId(meshes[..k + 1], i)
      ensures meshes[i].id in t2 && Realizes(d2, t2[meshes[i].id], meshes[i])
    {
      if i < k {
        assert meshes[..k + 1][k].id == meshes[k].id;
        assert meshes[i].id != meshes[k].id;
        assert LastWithId(meshes[..k], i) by {
          forall j | i < j < k ensures meshes[..k][j].id != meshes[..k][i].id {
            assert meshes[..k + 1][j].id != meshes[..k + 1][i].id;
          }
        }
        RealizesStable(d, d2, t[meshes[i].id], meshes[i]);
      }
    }
  }

  /** Every object `e` holds beyond those of `d` is named by the record of
      one of `ids`. */
  ghost predicate OnlyRecords(d: Device, e: Device, t: Table, ids: set<MeshId>) {
    forall h :: h in e.objects && h !in d.objects ==>
      exists id :: id in ids && id in t && h in Handles(t[id])
  }

  lemma OnlyRecordsStep(meshes: seq<Mesh>, k: nat, d: Device, t: Table, e: Device, gl: MeshGL, e2: Device)
    requires k < |meshes| && DistinctIds(meshes)
    requires OnlyRecords(d, e, t, MeshIds(meshes[..k]))
    requires e2.objects.Keys == e.objects.Keys + Handles(gl)
    requires MeshIds(meshes[..k + 1]) == MeshIds(meshes[..k]) + {meshes[k].id}
    ensures OnlyRecords(d, e2, t[meshes[k].id := gl], MeshIds(meshes[..k + 1]))
  {
    var t2 := t[meshes[k].id := gl];
    assert meshes[k].id !in MeshIds(meshes[..k]);
    forall h | h in e2.objects && h !in d.objects
      ensures exists id :: id in MeshIds(meshes[..k + 1]) && id in t2 && h in Handles(t2[id])
    {
      if h in Handles(gl) {
        assert h in Handles(t2[meshes[k].id]);
      } else {
        var id :| id in MeshIds(meshes[..k]) && id in t && h in Handles(t[id]);
        assert t2[id] == t[id];
      }
    }
  }

  /** No later mesh has the id of `meshes[i]`. */
  ghost predicate LastWithId(meshes: seq<Mesh>, i: nat)
    requires i < |meshes|
  {
    forall j :: i < j < |meshes| ==> meshes[j].id != meshes[i].id
  }

  lemma MeshIdsSnoc(meshes: seq<Mesh>, k: nat)
    requires k < |meshes|
    ensures MeshIds(meshes[..k + 1]) == MeshIds(meshes[..k]) + {meshes[k].id}
  {
    var a, b := MeshIds(meshes[..k + 1]), MeshIds(meshes[..k]) + {meshes[k].id};
    forall x | x in a ensures x in b {
      var j :| 0 <= j < k + 1 && meshes[..k + 1][j].id == x;
      if j < k { assert meshes[..k][j].id == x; }
    }
    forall x | x in b ensures x in a {
      if x != meshes[k].id {
        var j :| 0 <= j < k && meshes[..k][j].id == x;
        assert meshes[..k + 1][j].id == x;
      } else {
        assert meshes[..k + 1][k].id == x;
      }
    }
  }

  predicate DistinctIds(meshes: seq<Mesh>) {
    forall i, j :: 0 <= i < j < |meshes| ==> meshes[i].id != meshes[j].id
  }

  /** With distinct ids, as the geometry builder provides them, every mesh is
      the last with its id, so every mesh's record is an upload of it. */
  lemma DistinctIdsAreLast(meshes: seq<Mesh>)
    requires DistinctIds(meshes)
    ensures forall i :: 0 <= i < |meshes| ==> LastWithId(meshes, i)
  {
  }

  /** `table[id]` on a std::map: a missing id is inserted with the default
      record, and the (possibly new) record is returned. */
  function Subscript(t: Table, id: MeshId): (r: Subscripted)
    ensures r.table.Keys == t.Keys + {id}
    ensures id in r.table && r.entry == r.table[id]
    ensures forall k :: k in t ==> r.table[k] == t[k]
    ensures id !in t ==> r.entry == DefaultMeshGL
  {
    if id in t then Subscripted(t, t[id])
    else Subscripted(t[id := DefaultMeshGL], DefaultMeshGL)
  }

  /** The record a subscript of `id` reads from `t`. */
  function EntryFor(t: Table, id: MeshId): MeshGL {
    if id in t then t[id] else DefaultMeshGL
  }
}
