/** The texture bookkeeping built at start-up and read every frame: one
    shared table from file name to material position, and two vectors of
    texture names (diffuse and specular) indexed by material position. */
module TextureTable {
  import opened Scene
  import opened Gpu

  /** `names` maps a file name to the position of the material that first
      inserted it; `diff[i]` and `spec[i]` are material i's texture names,
      0 when none was created. */
  datatype Tables = Tables(names: map<string, nat>, diff: seq<Handle>, spec: seq<Handle>)

  const EmptyTables: Tables := Tables(map[], [], [])

  /** The outcome of resolving one texture slot of an instance: either the
      flag is off, or it is on and `tex` is bound to the slot's unit. */
  datatype Binding = NoTexture | Bound(tex: Handle)

  /** std::vector::resize with value-initialised (zero) new elements. */
  function Resize(v: seq<Handle>, n: nat): (r: seq<Handle>)
    ensures |r| == n
    ensures forall j :: 0 <= j < n ==> r[j] == (if j < |v| then v[j] else 0)
  {
    if |v| >= n then v[..n] else v + seq(n - |v|, _ => 0)
  }

  /** std::unordered_map::insert: adds the pair only if the key is absent,
      so the first value inserted for a key is the one kept. */
  function InsertFirst(m: map<string, nat>, key: string, value: nat): (r: map<string, nat>)
    ensures r.Keys == m.Keys + {key}
    ensures forall k :: k in m ==> r[k] == m[k]
    ensures key !in m ==> r[key] == value
  {
    if key in m then m else m[key := value]
  }

  /** Material `m` names `f` as its diffuse or specular texture. */
  predicate Uses(m: Material, f: string) {
    f != "" && (m.diffuseTexture == f || m.specularTexture == f)
  }

  /** Some material before position `i` names `f`. */
  ghost predicate UsedBefore(mats: seq<Material>, i: nat, f: string)
    requires i <= |mats|
  {
    exists j :: 0 <= j < i && Uses(mats[j], f)
  }

  /** `j` is the position of the first material that names `f`. */
  ghost predicate FirstUse(mats: seq<Material>, f: string, j: nat) {
    j < |mats| && Uses(mats[j], f) && forall k :: 0 <= k < j ==> !Uses(mats[k], f)
  }

  /** A texture slot after the scan: non-zero exactly when the file name is
      non-empty and decodes, and then it names a texture of that image. */
  ghost predicate SlotLoaded(h: Handle, file: string, decodes: string -> bool, d: Device) {
    && (h != 0 <==> file != "" && decodes(file))
    && (h != 0 ==> h in d.objects && d.objects[h] == TextureObject(Texture(file)))
  }

  /** The texture names a slot vector holds. */
  function SlotHandles(hs: seq<Handle>): set<Handle> {
    set j | 0 <= j < |hs| && hs[j] != 0 :: hs[j]
  }

  /** The texture names both vectors hold. */
  function Slots(tb: Tables): set<Handle> {
    SlotHandles(tb.diff) + SlotHandles(tb.spec)
  }

  /** `e`'s objects are `d`'s plus exactly the names the slots hold, none of
      which `d` had. */
  ghost predicate ScanAdded(d: Device, e: Device, tb: Tables) {
    e.objects.Keys == d.objects.Keys + Slots(tb) && Slots(tb) !! d.objects.Keys
  }

  /** Every non-zero slot of either vector names a different texture. */
  ghost predicate DistinctSlots(diff: seq<Handle>, spec: seq<Handle>) {
    && (forall a, b :: 0 <= a < b < |diff| && diff[a] != 0 ==> diff[a] != diff[b])
    && (forall a, b :: 0 <= a < b < |spec| && spec[a] != 0 ==> spec[a] != spec[b])
    && (forall a, b :: 0 <= a < |diff| && 0 <= b < |spec| && diff[a] != 0 ==> diff[a] != spec[b])
  }

  /** Every slot the render loop can index through the table is in range. */
  ghost predicate Indexed(tb: Tables) {
    forall f :: f in tb.names ==> tb.names[f] < |tb.diff| && tb.names[f] < |tb.spec|
  }

  /** One texture slot of material `i` at start-up: a non-empty file name is
      inserted into the table before decoding is tried, and a texture is
      created in slot `i` only if the file decodes. */
  method LoadSlot(file: string, i: nat, names: map<string, nat>, handles: seq<Handle>,
                  decodes: string -> bool, d: Device)
    returns (names': map<string, nat>, handles': seq<Handle>, d': Device)
    requires Valid(d) && i < |handles|
    ensures Valid(d') && Extends(d, d')
    ensures names' == if file == "" then names else InsertFirst(names, file, i)
    ensures |handles'| == |handles|
    ensures forall j :: 0 <= j < |handles| && j != i ==> handles'[j] == handles[j]
    ensures file != "" && decodes(file) ==>
      && handles'[i] != 0 && handles'[i] !in d.objects
      && handles'[i] in d'.objects && d'.objects[handles'[i]] == TextureObject(Texture(file))
    ensures !(file != "" && decodes(file)) ==> handles'[i] == handles[i] && d' == d
    ensures d'.objects.Keys == d.objects.Keys + (if file != "" && decodes(file) then {handles'[i]} else {})
    ensures OnlyTextures(d, d')
  {
    names', handles', d' := names, handles, d;
    if file != "" {
      names' := InsertFirst(names, file, i);
      if decodes(file) {
        var c := Create(d, TextureObject(Texture(file)));
        handles' := handles[i := c.handle];
        d' := c.device;
      }
    }
  }

  /** What loading slot `i` from `file` did: only slot `i` may change, and
      it names a new texture of `file` exactly when the name is non-empty
      and decodes; otherwise nothing changes. */
  ghost predicate LoadedAt(file: string, i: nat, decodes: string -> bool,
                           handles: seq<Handle>, handles': seq<Handle>, d: Device, d': Device) {
    && i < |handles|
    && |handles'| == |handles|
    && (forall j :: 0 <= j < |handles| && j != i ==> handles'[j] == handles[j])
    && (file != "" && decodes(file) ==>
          && handles'[i] != 0 && handles'[i] !in d.objects
          && handles'[i] in d'.objects && d'.objects[handles'[i]] == TextureObject(Texture(file))
          && d'.objects.Keys == d.objects.Keys + {handles'[i]})
    && (!(file != "" && decodes(file)) ==> handles'[i] == handles[i] && d' == d)
  }

  /** Every object `e` holds beyond those of `d` is a texture. */
  ghost predicate OnlyTextures(d: Device, e: Device) {
    forall h :: h in e.objects && h !in d.objects ==> e.objects[h].TextureObject?
  }

  lemma OnlyTexturesTransitive(a: Device, b: Device, c: Device)
    requires Extends(a, b) && Extends(b, c) && OnlyTextures(a, b) && OnlyTextures(b, c)
    ensures OnlyTextures(a, c)
  {
  }

  /** The invariant of the material scan after `i` materials. */
  ghost predicate Scanned(mats: seq<Material>, decodes: string -> bool, i: nat, tb: Tables, d: Device) {
    && i <= |mats|
    && Valid(d)
    && (i == 0 ==> tb == EmptyTables)
    && (i > 0 ==> |tb.diff| == |mats| && |tb.spec| == |mats|)
    && (forall f :: f in tb.names <==> UsedBefore(mats, i, f))
    && (forall f :: f in tb.names ==> FirstUse(mats, f, tb.names[f]))
    && (forall j :: 0 <= j < i ==> SlotLoaded(tb.diff[j], mats[j].diffuseTexture, decodes, d))
    && (forall j :: 0 <= j < i ==> SlotLoaded(tb.spec[j], mats[j].specularTexture, decodes, d))
    && (forall j :: i <= j < |tb.diff| ==> tb.diff[j] == 0)
    && (forall j :: i <= j < |tb.spec| ==> tb.spec[j] == 0)
    && DistinctSlots(tb.diff, tb.spec)
  }

  /** The start-up loop over the materials, diffuse slot before specular
      slot, continuing from tables `tb`. */
  method ScanMaterials(mats: seq<Material>, decodes: string -> bool, tb: Tables, d: Device)
    returns (tb': Tables, d': Device)
    requires Valid(d)
    ensures Grown(d, d')
    ensures tb == EmptyTables ==> Scanned(mats, decodes, |mats|, tb', d')
    ensures tb == EmptyTables ==> ScanAdded(d, d', tb')
  {
    tb', d' := tb, d;
    var i := 0;
    while i < |mats|
      invariant 0 <= i <= |mats|
      invariant Grown(d, d')
      invariant i == 0 ==> tb' == tb && d' == d
      invariant tb == EmptyTables ==> Scanned(mats, decodes, i, tb', d')
      invariant tb == EmptyTables ==> ScanAdded(d, d', tb')
    {
      var tb2, d2 := ScanOne(mats, decodes, i, tb', d');
      if tb == EmptyTables {
        ScanAddedStep(d, d', d2, tb', tb2);
      }
      GrownTransitive(d, d', d2);
      tb', d' := tb2, d2;
      i := i + 1;
    }
  }

  /** `e` is a valid device that only added textures to `d`. */
  ghost predicate Grown(d: Device, e: Device) {
    Valid(e) && Extends(d, e) && OnlyTextures(d, e)
  }

  lemma GrownTransitive(a: Device, b: Device, c: Device)
    requires Grown(a, b) && Grown(b, c)
    ensures Grown(a, c)
  {
    ExtendsTransitive(a, b, c);
    OnlyTexturesTransitive(a, b, c);
  }

  /** The body of the material scan for material `i`: both vectors are
      resized to the number of materials, then the diffuse slot is loaded,
      then the specular slot. */
  method ScanOne(mats: seq<Material>, decodes: string -> bool, i: nat, tb: Tables, d: Device)
    returns (tb': Tables, d': Device)
    requires i < |mats| && Valid(d)
    ensures Grown(d, d')
    ensures Scanned(mats, decodes, i, tb, d) ==> Scanned(mats, decodes, i + 1, tb', d')
    ensures Scanned(mats, decodes, i, tb, d) ==> Slots(tb') == Slots(tb) + (d'.objects.Keys - d.objects.Keys)
  {
    var diff := Resize(tb.diff, |mats|);
    var names1, diff1, d1 := LoadSlot(mats[i].diffuseTexture, i, tb.names, diff, decodes, d);
    var spec := Resize(tb.spec, |mats|);
    var names2, spec1, d2 := LoadSlot(mats[i].specularTexture, i, names1, spec, decodes, d1);
    if Scanned(mats, decodes, i, tb, d) {
      ScanStep(mats, decodes, i, tb, d, diff, names1, diff1, d1, spec, names2, spec1, d2);
      ScanSlotsAdded(mats, decodes, i, tb, d, diff, diff1, d1, spec, spec1, d2);
    }
    GrownTransitive(d, d1, d2);
    tb', d' := Tables(names2, diff1, spec1), d2;
  }

  lemma ScanStep(mats: seq<Material>, decodes: string -> bool, i: nat, tb: Tables, d: Device,
                 diff: seq<Handle>, names1: map<string, nat>, diff1: seq<Handle>, d1: Device,
                 spec: seq<Handle>, names2: map<string, nat>, spec1: seq<Handle>, d2: Device)
    requires i < |mats|
    requires Scanned(mats, decodes, i, tb, d)
    requires diff == Resize(tb.diff, |mats|) && spec == Resize(tb.spec, |mats|)
    requires Valid(d1) && Extends(d, d1) && Valid(d2) && Extends(d1, d2)
    requires names1 == if mats[i].diffuseTexture == "" then tb.names
                       else InsertFirst(tb.names, mats[i].diffuseTexture, i)
    requires names2 == if mats[i].specularTexture == "" then names1
                       else InsertFirst(names1, mats[i].specularTexture, i)
    requires LoadedAt(mats[i].diffuseTexture, i, decodes, diff, diff1, d, d1)
    requires LoadedAt(mats[i].specularTexture, i, decodes, spec, spec1, d1, d2)
    ensures Scanned(mats, decodes, i + 1, Tables(names2, diff1, spec1), d2)
  {
    ScanNames(mats, i, tb.names, names1, names2);
    ScanSlots(mats, decodes, i, tb, d, diff, diff1, d1, spec, spec1, d2);
  }

  lemma ScanNames(mats: seq<Material>, i: nat, names: map<string, nat>,
                  names1: map<string, nat>, names2: map<string, nat>)
    requires i < |mats|
    requires forall f :: f in names <==> UsedBefore(mats, i, f)
    requires forall f :: f in names ==> FirstUse(mats, f, names[f])
    requires names1 == if mats[i].diffuseTexture == "" then names
                       else InsertFirst(names, mats[i].diffuseTexture, i)
    requires names2 == if mats[i].specularTexture == "" then names1
                       else InsertFirst(names1, mats[i].specularTexture, i)
    ensures forall f :: f in names2 <==> UsedBefore(mats, i + 1, f)
    ensures forall f :: f in names2 ==> FirstUse(mats, f, names2[f])
  {
    forall f
      ensures f in names2 <==> UsedBefore(mats, i + 1, f)
    {
      if UsedBefore(mats, i + 1, f) && !Uses(mats[i], f) {
        var j :| 0 <= j < i + 1 && Uses(mats[j], f);
        assert UsedBefore(mats, i, f);
      }
    }
    forall f | f in names2
      ensures FirstUse(mats, f, names2[f])
    {
      if f !in names {
        assert !UsedBefore(mats, i, f);
      }
    }
  }

  lemma ScanSlots(mats: seq<Material>, decodes: string -> bool, i: nat, tb: Tables, d: Device,
                  diff: seq<Handle>, diff1: seq<Handle>, d1: Device,
                  spec: seq<Handle>, spec1: seq<Handle>, d2: Device)
    requires i < |mats|
    requires Scanned(mats, decodes, i, tb, d)
    requires diff == Resize(tb.diff, |mats|) && spec == Resize(tb.spec, |mats|)
    requires Valid(d1) && Extends(d, d1) && Valid(d2) && Extends(d1, d2)
    requires LoadedAt(mats[i].diffuseTexture, i, decodes, diff, diff1, d, d1)
    requires LoadedAt(mats[i].specularTexture, i, decodes, spec, spec1, d1, d2)
    ensures forall j :: 0 <= j < i + 1 ==> SlotLoaded(diff1[j], mats[j].diffuseTexture, decodes, d2)
    ensures forall j :: 0 <= j < i + 1 ==> SlotLoaded(spec1[j], mats[j].specularTexture, decodes, d2)
    ensures forall j :: i + 1 <= j < |diff1| ==> diff1[j] == 0
    ensures forall j :: i + 1 <= j < |spec1| ==> spec1[j] == 0
    ensures DistinctSlots(diff1, spec1)
  {
    // Slot i of either vector was 0 before this step.
    assert diff[i] == 0 && spec[i] == 0;
    ExtendsTransitive(d, d1, d2);
    forall j | 0 <= j < i + 1
      ensures SlotLoaded(diff1[j], mats[j].diffuseTexture, decodes, d2)
      ensures SlotLoaded(spec1[j], mats[j].specularTexture, decodes, d2)
    {
      if j < i {
        assert diff1[j] == tb.diff[j] && spec1[j] == tb.spec[j];
      }
    }
    ScanDistinct(mats, decodes, i, tb, d, diff, diff1, d1, spec, spec1, d2);
  }

  /** The names this step put into the slots are exactly the objects it
      created. */
  lemma ScanSlotsAdded(mats: seq<Material>, decodes: string -> bool, i: nat, tb: Tables, d: Device,
                       diff: seq<Handle>, diff1: seq<Handle>, d1: Device,
                       spec: seq<Handle>, spec1: seq<Handle>, d2: Device)
    requires i < |mats|
    requires Scanned(mats, decodes, i, tb, d)
    requires diff == Resize(tb.diff, |mats|) && spec == Resize(tb.spec, |mats|)
    requires LoadedAt(mats[i].diffuseTexture, i, decodes, diff, diff1, d, d1)
    requires LoadedAt(mats[i].specularTexture, i, decodes, spec, spec1, d1, d2)
    ensures Slots(Tables(tb.names, diff1, spec1)) == Slots(tb) + (d2.objects.Keys - d.objects.Keys)
  {
    assert diff[i] == 0 && spec[i] == 0;
    ResizeSlots(tb.diff, |mats|);
    ResizeSlots(tb.spec, |mats|);
    SlotHandlesUpdate(diff, diff1, i);
    SlotHandlesUpdate(spec, spec1, i);
  }

  /** Padding with zeros, or cutting off only zeros, keeps the names. */
  lemma ResizeSlots(v: seq<Handle>, n: nat)
    requires forall j :: n <= j < |v| ==> v[j] == 0
    ensures SlotHandles(Resize(v, n)) == SlotHandles(v)
  {
    var r := Resize(v, n);
    forall h | h in SlotHandles(v) ensures h in SlotHandles(r) {
      var j :| 0 <= j < |v| && v[j] != 0 && v[j] == h;
      assert r[j] == h;
    }
    forall h | h in SlotHandles(r) ensures h in SlotHandles(v) {
      var j :| 0 <= j < |r| && r[j] != 0 && r[j] == h;
      assert v[j] == h;
    }
  }

  /** Filling an empty slot adds at most its new name. */
  lemma SlotHandlesUpdate(hs: seq<Handle>, hs': seq<Handle>, i: nat)
    requires i < |hs| && |hs'| == |hs| && hs[i] == 0
    requires forall j :: 0 <= j < |hs| && j != i ==> hs'[j] == hs[j]
    ensures SlotHandles(hs') == SlotHandles(hs) + (if hs'[i] != 0 then {hs'[i]} else {})
  {
    forall h | h in SlotHandles(hs') ensures h in SlotHandles(hs) + (if hs'[i] != 0 then {hs'[i]} else {}) {
      var j :| 0 <= j < |hs'| && hs'[j] != 0 && hs'[j] == h;
      if j != i { assert hs[j] == h; }
    }
    forall h | h in SlotHandles(hs) ensures h in SlotHandles(hs') {
      var j :| 0 <= j < |hs| && hs[j] != 0 && hs[j] == h;
      assert hs'[j] == h;
    }
  }

  /** One scan step keeps the account of what the scan created. */
  lemma ScanAddedStep(d: Device, d1: Device, d2: Device, tb1: Tables, tb2: Tables)
    requires ScanAdded(d, d1, tb1) && Extends(d1, d2)
    requires Slots(tb2) == Slots(tb1) + (d2.objects.Keys - d1.objects.Keys)
    ensures ScanAdded(d, d2, tb2)
  {
    assert d1.objects.Keys <= d2.objects.Keys;
  }

  /** The slots filled in this step name textures created in this step, so
      they differ from every earlier slot and from each other. */
  lemma ScanDistinct(mats: seq<Material>, decodes: string -> bool, i: nat, tb: Tables, d: Device,
                     diff: seq<Handle>, diff1: seq<Handle>, d1: Device,
                     spec: seq<Handle>, spec1: seq<Handle>, d2: Device)
    requires i < |mats|
    requires Scanned(mats, decodes, i, tb, d)
    requires diff == Resize(tb.diff, |mats|) && spec == Resize(tb.spec, |mats|)
    requires Valid(d1) && Extends(d, d1) && Valid(d2) && Extends(d1, d2)
    requires LoadedAt(mats[i].diffuseTexture, i, decodes, diff, diff1, d, d1)
    requires LoadedAt(mats[i].specularTexture, i, decodes, spec, spec1, d1, d2)
    ensures DistinctSlots(diff1, spec1)
  {
    assert diff[i] == 0 && spec[i] == 0;
    // Every earlier non-zero slot names a texture that existed before this step.
    assert forall j :: 0 <= j < |diff| && j != i && diff[j] != 0 ==> diff[j] in d.objects;
    assert forall j :: 0 <= j < |spec| && j != i && spec[j] != 0 ==> spec[j] in d.objects;
  }
}
