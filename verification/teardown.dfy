/** The stop handler's release of the mesh table. Its loop runs an index
    from 0 while the index is below the table's size and reads each index
    through the map's subscript, so every id missing below the largest id is
    inserted with the default (all-zero) record on the way: the loop ends at
    the largest id plus one, and releases every record's names whether or
    not the ids are contiguous. Deleting name 0 is ignored by the device.
    Textures are not released. */
module Teardown {
  import opened Scene
  import opened Gpu
  import opened MeshTable

  /** The four buffer names of a record. */
  function BufferHandles(gl: MeshGL): set<Handle> {
    {gl.positionsVbo, gl.normalsVbo, gl.texcoordsVbo, gl.elementVbo}
  }

  /** Releasing `gl` frees `h`: it is a live buffer in one of the buffer
      slots, or the live vertex array in the array slot. */
  ghost predicate Frees(d: Device, gl: MeshGL, h: Handle) {
    && h in d.objects
    && ((d.objects[h].BufferObject? && h in BufferHandles(gl))
        || (d.objects[h].ArrayObject? && h == gl.vao))
  }

  /** The five deletions for one record: its four buffers, then its vertex
      array. */
  function ReleaseMesh(d: Device, gl: MeshGL): (e: Device)
    ensures e.next == d.next
    ensures forall h :: h in e.objects <==> h in d.objects && !Frees(d, gl, h)
    ensures forall h :: h in e.objects ==> e.objects[h] == d.objects[h]
  {
    var d1 := DeleteBuffer(d, gl.positionsVbo);
    var d2 := DeleteBuffer(d1, gl.normalsVbo);
    var d3 := DeleteBuffer(d2, gl.texcoordsVbo);
    var d4 := DeleteBuffer(d3, gl.elementVbo);
    DeleteVertexArray(d4, gl.vao)
  }

  /** The set `{0, ..., n - 1}`. */
  function Below(n: nat): set<nat> {
    if n == 0 then {} else Below(n - 1) + {n - 1}
  }

  lemma {:induction false} BelowMembers(n: nat)
    ensures forall k :: k in Below(n) <==> 0 <= k < n
    decreases n
  {
    if n > 0 {
      BelowMembers(n - 1);
    }
  }

  lemma {:induction false} BelowCard(n: nat)
    ensures |Below(n)| == n
    decreases n
  {
    if n > 0 {
      BelowMembers(n - 1);
      BelowCard(n - 1);
    }
  }

  lemma {:induction false} SubsetCard(a: set<nat>, b: set<nat>)
    requires a <= b
    ensures |a| <= |b|
    decreases |b|
  {
    if a != {} {
      var x :| x in a;
      SubsetCard(a - {x}, b - {x});
    }
  }

  /** One more than the largest element, or 0 for the empty set. */
  ghost function Span(s: set<nat>): (n: nat)
    ensures forall k :: k in s ==> k < n
    ensures n > 0 ==> n - 1 in s
    decreases s
  {
    if s == {} then 0
    else
      var x :| x in s;
      var r := Span(s - {x});
      assert forall k :: k in s ==> k == x || k in s - {x};
      if r <= x then x + 1 else r
  }

  /** Keys above the scan: `|s + Below(i)|` exceeds `i` exactly when some
      element of `s` is at least `i`. */
  lemma SizeAbove(s: set<nat>, i: nat)
    ensures (exists k :: k in s && k >= i) <==> |s + Below(i)| > i
  {
    BelowCard(i);
    BelowMembers(i);
    if k :| k in s && k >= i {
      assert k !in Below(i);
      assert |Below(i) + {k}| == i + 1;
      SubsetCard(Below(i) + {k}, s + Below(i));
    } else {
      assert s + Below(i) == Below(i);
    }
  }

  /** Some record with an id below `i` frees `h`. */
  ghost predicate FreedBelow(d: Device, t: Table, i: nat, h: Handle) {
    exists k :: k in t && k < i && Frees(d, t[k], h)
  }

  /** The stop handler's loop invariant on the table after the ids below
      `i`: those ids are now present, the old records unchanged and the
      inserted ones default. */
  ghost predicate SweptTable(t: Table, i: nat, t': Table) {
    && t'.Keys == t.Keys + Below(i)
    && (forall k :: k in t ==> t'[k] == t[k])
    && (forall k :: k in t' && k !in t ==> t'[k] == DefaultMeshGL)
  }

  /** The stop handler's loop invariant on the device after the ids below
      `i`: exactly what their records free is gone. */
  ghost predicate SweptDevice(t: Table, d: Device, i: nat, d': Device) {
    && d'.next == d.next
    && (forall h :: h in d'.objects <==> h in d.objects && !FreedBelow(d, t, i, h))
    && (forall h :: h in d'.objects ==> d'.objects[h] == d.objects[h])
  }

  /** The table the stop handler leaves: every old record kept, the ids
      `0 .. n - 1` present and no other, `n` being the largest old id plus
      one, and every inserted record the default one. */
  ghost predicate Filled(t: Table, t': Table) {
    && (forall k :: k in t ==> k in t' && t'[k] == t[k])
    && (forall k :: k in t' && k !in t ==> t'[k] == DefaultMeshGL)
    && (forall k: nat :: k in t' <==> k < |t'|)
    && |t'| == Span(t.Keys)
  }

  /** The device the stop handler leaves: exactly the objects some record of
      `t` frees are gone, and the rest are unchanged. */
  ghost predicate ReleasedAll(t: Table, d: Device, d': Device) {
    && d'.next == d.next
    && (forall h :: h in d'.objects <==> h in d.objects && !(exists k :: k in t && Frees(d, t[k], h)))
    && (forall h :: h in d'.objects ==> d'.objects[h] == d.objects[h])
  }

  /** The stop handler's loop over the mesh table. */
  method ReleaseMeshes(t: Table, d: Device) returns (t': Table, d': Device)
    requires Valid(d)
    ensures Filled(t, t')
    ensures ReleasedAll(t, d, d')
  {
    t', d' := t, d;
    var i: nat := 0;
    SweepStart(t, d);
    while i < |t'|
      invariant Swept(t, d, i, t', d')
      decreases Span(t.Keys) - i
    {
      t', d' := SweepOne(t, d, i, t', d');
      i := i + 1;
    }
    SweepDone(t, d, i, t', d');
  }

  /** The loop invariant after the ids below `i`. */
  ghost predicate Swept(t: Table, d: Device, i: nat, t': Table, d': Device) {
    Valid(d) && i <= Span(t.Keys) && SweptTable(t, i, t') && SweptDevice(t, d, i, d')
  }

  /** One pass of the loop body: subscript id `i`, then release the record
      it reads. */
  method SweepOne(t: Table, d: Device, i: nat, t': Table, d': Device) returns (t2: Table, d2: Device)
    requires Swept(t, d, i, t', d') && i < |t'|
    ensures Swept(t, d, i + 1, t2, d2)
  {
    SizeAbove(t.Keys, i);
    var sub := Subscript(t', i);
    d2 := ReleaseMesh(d', sub.entry);
    t2 := sub.table;
    SweepTableStep(t, i, t', sub);
    SweepDeviceStep(t, d, i, t', d', sub.entry, d2);
  }

  lemma SweepTableStep(t: Table, i: nat, t': Table, sub: Subscripted)
    requires SweptTable(t, i, t')
    requires sub == Subscript(t', i)
    ensures SweptTable(t, i + 1, sub.table)
    ensures sub.entry == if i in t then t[i] else DefaultMeshGL
  {
    assert Below(i + 1) == Below(i) + {i};
  }

  lemma SweepDeviceStep(t: Table, d: Device, i: nat, t': Table, d': Device, gl: MeshGL, d2: Device)
    requires Valid(d) && SweptDevice(t, d, i, d')
    requires gl == if i in t then t[i] else DefaultMeshGL
    requires d2 == ReleaseMesh(d', gl)
    ensures SweptDevice(t, d, i + 1, d2)
  {
    ReleaseStep(d, t, i, d', gl, d2);
  }

  lemma SweepStart(t: Table, d: Device)
    requires Valid(d)
    ensures Swept(t, d, 0, t, d)
  {
    assert Below(0) == {};
  }

  lemma SweepDone(t: Table, d: Device, i: nat, t': Table, d': Device)
    requires Swept(t, d, i, t', d') && |t'| <= i
    ensures Filled(t, t') && ReleasedAll(t, d, d')
  {
    SweepTableDone(t, i, t');
    SweepDeviceDone(t, d, i, d');
  }

  lemma SweepTableDone(t: Table, i: nat, t': Table)
    requires SweptTable(t, i, t') && |t'| <= i && i <= Span(t.Keys)
    ensures Filled(t, t')
    ensures forall k :: k in t ==> k < i
  {
    SizeAbove(t.Keys, i);
    BelowMembers(i);
    assert t'.Keys == Below(i);
    BelowCard(i);
  }

  lemma SweepDeviceDone(t: Table, d: Device, i: nat, d': Device)
    requires SweptDevice(t, d, i, d') && forall k :: k in t ==> k < i
    ensures ReleasedAll(t, d, d')
  {
    forall h | h in d.objects
      ensures FreedBelow(d, t, i, h) <==> exists k :: k in t && Frees(d, t[k], h)
    {
    }
  }

  lemma ReleaseStep(d: Device, t: Table, i: nat, e: Device, gl: MeshGL, e2: Device)
    requires Valid(d)
    requires gl == (if i in t then t[i] else DefaultMeshGL)
    requires forall h :: h in e.objects <==> h in d.objects && !FreedBelow(d, t, i, h)
    requires forall h :: h in e.objects ==> e.objects[h] == d.objects[h]
    requires forall h :: h in e2.objects <==> h in e.objects && !Frees(e, gl, h)
    requires forall h :: h in e2.objects ==> e2.objects[h] == e.objects[h]
    ensures forall h :: h in e2.objects <==> h in d.objects && !FreedBelow(d, t, i + 1, h)
  {
    forall h ensures h in e2.objects <==> h in d.objects && !FreedBelow(d, t, i + 1, h) {
      if h in d.objects && FreedBelow(d, t, i + 1, h) && !FreedBelow(d, t, i, h) {
        var k :| k in t && k < i + 1 && Frees(d, t[k], h);
        assert k == i;
      }
      if h in e.objects && Frees(e, gl, h) {
        assert i in t;
        assert Frees(d, t[i], h);
      }
    }
  }
}
