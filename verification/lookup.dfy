/** What an instance samples once the material scan is complete. The table
    maps a file name to the position of the first material that names it in
    either slot, and the render loop indexes the vector of the slot it is
    resolving with that position. So a name resolves to the slot's texture
    of the FIRST material using the name, which is the right image only when
    that material uses the name in the same slot and the file decodes. */
module TextureLookup {
  import opened Scene
  import opened Gpu
  import opened TextureTable
  import opened Frame

  lemma ScannedIndexed(mats: seq<Material>, decodes: string -> bool, tb: Tables, d: Device)
    requires Scanned(mats, decodes, |mats|, tb, d)
    ensures Indexed(tb)
  {
    forall f | f in tb.names ensures tb.names[f] < |tb.diff| && tb.names[f] < |tb.spec| {
      assert FirstUse(mats, f, tb.names[f]);
    }
  }

  /** A scanned material's diffuse name: the flag is on exactly when the
      name is non-empty, and then the bound name is the diffuse texture of
      the first material that uses the file in either slot. */
  lemma DiffuseLookup(mats: seq<Material>, decodes: string -> bool, tb: Tables, d: Device, p: nat)
    requires Scanned(mats, decodes, |mats|, tb, d)
    requires p < |mats|
    ensures Indexed(tb)
    ensures ResolveTexture(mats[p].diffuseTexture, tb.names, tb.diff).Bound? <==> mats[p].diffuseTexture != ""
    ensures mats[p].diffuseTexture != "" ==>
      var j := tb.names[mats[p].diffuseTexture];
      && FirstUse(mats, mats[p].diffuseTexture, j)
      && ResolveTexture(mats[p].diffuseTexture, tb.names, tb.diff).tex == tb.diff[j]
      && SlotLoaded(tb.diff[j], mats[j].diffuseTexture, decodes, d)
  {
    ScannedIndexed(mats, decodes, tb, d);
    var f := mats[p].diffuseTexture;
    if f != "" {
      assert Uses(mats[p], f);
      assert UsedBefore(mats, |mats|, f);
      var j := tb.names[f];
      assert FirstUse(mats, f, j);
    }
  }

  /** The same for the specular name, with the specular vector. */
  lemma SpecularLookup(mats: seq<Material>, decodes: string -> bool, tb: Tables, d: Device, p: nat)
    requires Scanned(mats, decodes, |mats|, tb, d)
    requires p < |mats|
    ensures Indexed(tb)
    ensures ResolveTexture(mats[p].specularTexture, tb.names, tb.spec).Bound? <==> mats[p].specularTexture != ""
    ensures mats[p].specularTexture != "" ==>
      var j := tb.names[mats[p].specularTexture];
      && FirstUse(mats, mats[p].specularTexture, j)
      && ResolveTexture(mats[p].specularTexture, tb.names, tb.spec).tex == tb.spec[j]
      && SlotLoaded(tb.spec[j], mats[j].specularTexture, decodes, d)
  {
    ScannedIndexed(mats, decodes, tb, d);
    var f := mats[p].specularTexture;
    if f != "" {
      assert Uses(mats[p], f);
      assert UsedBefore(mats, |mats|, f);
      var j := tb.names[f];
      assert FirstUse(mats, f, j);
    }
  }

  /** When the first material naming a file names it as its diffuse
      texture and the file decodes, every material with that diffuse name
      samples a texture of that file. */
  lemma DiffuseImageWhenFirstInSlot(mats: seq<Material>, decodes: string -> bool, tb: Tables, d: Device,
                                    p: nat, j: nat)
    requires Scanned(mats, decodes, |mats|, tb, d)
    requires p < |mats| && mats[p].diffuseTexture != ""
    requires FirstUse(mats, mats[p].diffuseTexture, j) && mats[j].diffuseTexture == mats[p].diffuseTexture
    requires decodes(mats[p].diffuseTexture)
    ensures Indexed(tb)
    ensures ResolveTexture(mats[p].diffuseTexture, tb.names, tb.diff).Bound?
    ensures var h := ResolveTexture(mats[p].diffuseTexture, tb.names, tb.diff).tex;
            h != 0 && h in d.objects && d.objects[h] == TextureObject(Texture(mats[p].diffuseTexture))
  {
    DiffuseLookup(mats, decodes, tb, d, p);
    FirstUseUnique(mats, mats[p].diffuseTexture, j, tb.names[mats[p].diffuseTexture]);
  }

  /** A file whose first use is a diffuse slot and that does not decode
      still switches the diffuse flag on, with name 0 bound: no texture was
      created, but the name went into the table before decoding. */
  lemma UndecodableDiffuseStillFlagged(mats: seq<Material>, decodes: string -> bool, tb: Tables, d: Device,
                                       p: nat, j: nat)
    requires Scanned(mats, decodes, |mats|, tb, d)
    requires p < |mats| && mats[p].diffuseTexture != ""
    requires FirstUse(mats, mats[p].diffuseTexture, j) && mats[j].diffuseTexture == mats[p].diffuseTexture
    requires !decodes(mats[p].diffuseTexture)
    ensures Indexed(tb)
    ensures ResolveTexture(mats[p].diffuseTexture, tb.names, tb.diff) == Bound(0)
  {
    DiffuseLookup(mats, decodes, tb, d, p);
    FirstUseUnique(mats, mats[p].diffuseTexture, j, tb.names[mats[p].diffuseTexture]);
  }

  lemma FirstUseUnique(mats: seq<Material>, f: string, j: nat, k: nat)
    requires FirstUse(mats, f, j) && FirstUse(mats, f, k)
    ensures j == k
  {
  }

  const Grey := Vec3(0.5, 0.5, 0.5)

  /** Two materials: the first has diffuse "a.png" and specular "b.png", the
      second has diffuse "b.png". The table maps "b.png" to position 0 (its
      first use, as a specular name), so the second material's diffuse
      lookup binds the first material's diffuse texture, an image of
      "a.png": it never samples "b.png". */
  lemma CrossSlotSamplesOtherFile(tb: Tables, d: Device)
    requires Scanned(CrossSlotMaterials(), _ => true, 2, tb, d)
    ensures Indexed(tb)
    ensures var b := ResolveTexture("b.png", tb.names, tb.diff);
            && b.Bound? && b.tex in d.objects
            && d.objects[b.tex] == TextureObject(Texture("a.png"))
  {
    var mats := CrossSlotMaterials();
    DiffuseLookup(mats, _ => true, tb, d, 1);
    assert mats[1].diffuseTexture == "b.png";
    assert FirstUse(mats, "b.png", 0);
    FirstUseUnique(mats, "b.png", 0, tb.names["b.png"]);
  }

  /** A scanned material's diffuse name binds name 0, with the flag on,
      exactly when the first material using the file, in either slot, holds
      no texture in its diffuse slot: its diffuse file is empty or does not
      decode. */
  lemma DiffuseBindsZero(mats: seq<Material>, decodes: string -> bool, tb: Tables, d: Device, p: nat)
    requires Scanned(mats, decodes, |mats|, tb, d)
    requires p < |mats| && mats[p].diffuseTexture != ""
    ensures mats[p].diffuseTexture in tb.names
    ensures var j := tb.names[mats[p].diffuseTexture];
      && FirstUse(mats, mats[p].diffuseTexture, j)
      && (ResolveTexture(mats[p].diffuseTexture, tb.names, tb.diff) == Bound(0) <==>
            !(mats[j].diffuseTexture != "" && decodes(mats[j].diffuseTexture)))
  {
    DiffuseLookup(mats, decodes, tb, d, p);
  }

  /** Two materials: the first has no diffuse texture and specular "x.png",
      the second has diffuse "x.png". The table maps "x.png" to position 0,
      whose diffuse slot is empty, so the second material's diffuse flag is
      on with name 0 bound, whether or not "x.png" decodes. */
  lemma CrossSlotBindsNothing(decodes: string -> bool, tb: Tables, d: Device)
    requires Scanned(SpecularFirstMaterials(), decodes, 2, tb, d)
    ensures Indexed(tb)
    ensures ResolveTexture("x.png", tb.names, tb.diff) == Bound(0)
  {
    var mats := SpecularFirstMaterials();
    DiffuseBindsZero(mats, decodes, tb, d, 1);
    assert mats[1].diffuseTexture == "x.png";
    assert FirstUse(mats, "x.png", 0);
    FirstUseUnique(mats, "x.png", 0, tb.names["x.png"]);
    ScannedIndexed(mats, decodes, tb, d);
  }

  function SpecularFirstMaterials(): seq<Material> {
    [Material(0, Grey, Grey, Grey, 1.0, "", "x.png"),
     Material(1, Grey, Grey, Grey, 1.0, "x.png", "")]
  }

  function CrossSlotMaterials(): seq<Material> {
    [Material(0, Grey, Grey, Grey, 1.0, "a.png", "b.png"),
     Material(1, Grey, Grey, Grey, 1.0, "b.png", "")]
  }
}
