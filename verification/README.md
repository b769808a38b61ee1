# MyView bookkeeping, modelled in Dafny

`MyView` is the renderer of the Sponza viewer. It takes a scene (meshes from
the geometry builder; lights, materials and instances from the scene
context) and drives an OpenGL device through four callbacks:

- the start callback uploads every mesh into buffers and a vertex array and
  keeps them in a mesh table keyed by mesh id, then scans the materials
  for texture files;
- the render callback sets the camera and projection uniforms, packs the
  lights into three parallel arrays, and then for each instance resolves
  its material's texture flags and issues one indexed draw;
- the stop callback releases the mesh table's buffers and vertex arrays;
- the normal-shading toggle records a flag and uploads it.

This project models the CPU-side bookkeeping of those callbacks. The device
is an allocator that hands out fresh non-zero names, plus a map from live
names to the objects they denote (`Gpu.Device`). A frame is the sequence of
commands it emits (`Frame.Command`).

Modules:

- `Scene` (scene.dfy): the inputs.
- `Gpu` (gpu.dfy): the device. Creation hands out the allocator's mark and
  bumps it. Deleting name 0, an unknown name or an object of the wrong kind
  is ignored.
- `MeshTable` (meshes.dfy): the mesh record, its all-zero default, the map
  subscript that default-inserts, and the start-up upload loop.
- `TextureTable` (textures.dfy): the shared file-name table with
  first-insert-wins, the diffuse and specular name vectors, and the start-up
  material scan.
- `Frame` (frame.dfy): texture-flag resolution, the per-instance command
  block, the draw loop, the draw counts and light packing.
- `Teardown` (teardown.dfy): the stop handler's release loop.
- `MyView` (view.dfy): the view's fields and the four callbacks.
- `TextureLookup` (lookup.dfy): what a frame samples after the scan,
  including the cross-slot case.
- `Lifecycle` (lifecycle.dfy): start then stop, and a one-quad scene.

The model follows the code as written:

- **Duplicate mesh ids.** The upload loop writes through the map subscript,
  so a repeated mesh id overwrites the earlier record. The record left at an
  id is an upload of the LAST mesh with that id, and the earlier buffers stay
  allocated.
- **Failed decodes.** A non-empty texture file name is inserted into the
  name table before decoding is tried (MyView.cpp:212-217), and the render
  loop consults only the table (MyView.cpp:431-440). A file that does not
  decode therefore still switches its flag on at render time
  (`TextureLookup.UndecodableDiffuseStillFlagged`).
- **Shared name table.** The name table holds the position of the first
  material that names the file in EITHER slot. The render loop indexes the
  vector of the slot it is resolving with that position. A name first used as
  a specular texture and later used as a diffuse texture therefore binds the
  first material's diffuse texture. That can be an image of a different file
  (`TextureLookup.CrossSlotSamplesOtherFile`), or no texture at all, with the
  flag on (`TextureLookup.CrossSlotBindsNothing`). Name 0 is bound whenever
  the first material naming the file holds no texture in the slot being
  resolved, because its file there is empty or does not decode
  (`TextureLookup.DiffuseBindsZero`).
- **Default insertion at draw time.** A draw reads the mesh table through
  the subscript. A mesh id the table lacks is inserted with the default
  record and draws 0 indices.
- **Teardown.** The stop loop runs an index from 0 while the index is below
  the table's size and reads each index through the subscript. Each missing
  id below the largest one is inserted on the way, so the loop ends at the
  largest id plus one. It releases every record's names whether or not the
  ids are contiguous. It releases no texture.

## Model

| member | source | states |
|---|---|---|
| Scene.MaterialById | SceneModel/include/SceneModel/Context.hpp:38 | a lookup of an id the context holds returns a material with that id, namely the first one in the material list that has it |
| Gpu.Create | SpiceMySponza/MyView.cpp:114-119 | a creation hands out a non-zero name that was not live, binds it to the new object, keeps every other object and leaves a valid device |
| Gpu.DeleteBuffer | SpiceMySponza/MyView.cpp:298-301 | deleting a buffer name frees exactly that buffer; name 0, unknown names and non-buffers are ignored and no other object changes |
| Gpu.DeleteVertexArray | SpiceMySponza/MyView.cpp:302 | deleting a vertex-array name frees exactly that array; anything else is ignored and no other object changes |
| MeshTable.Subscript | SpiceMySponza/MyView.hpp:65-73 | reading an id through the map subscript adds the id if it was missing, as the all-zero default record, and returns it; existing records are unchanged |
| MeshTable.BuildMesh | SpiceMySponza/MyView.cpp:105-178 | one mesh's upload creates exactly five new names: four buffers each holding one of the mesh's arrays at its byte size, and a vertex array binding the index buffer with slots 0 = position (3 floats), 1 = normal (3 floats), 2 = texcoord (2 floats); the draw count is the number of indices |
| MeshTable.BuildMeshes | SpiceMySponza/MyView.cpp:104-179 | after the upload loop the table's ids are the old ones plus every mesh id; records of other ids are untouched; the record at an id is an upload of the last mesh with that id; every record holds names created by the loop; with distinct ids every new object belongs to some record |
| MeshTable.BuildOne | SpiceMySponza/MyView.cpp:104-105 | one pass of the upload loop keeps the loop's account of the ids, records and objects so far |
| MeshTable.LastStep | SpiceMySponza/MyView.cpp:105 | writing mesh k's record at its id keeps every earlier mesh that is still the last with its id realized, because a later write of the same id is the only thing that replaces a record |
| MeshTable.MeshIdsSnoc | SpiceMySponza/MyView.cpp:104 | the ids of the first k+1 meshes are the ids of the first k plus mesh k's id |
| MeshTable.OnlyRecordsStep | SpiceMySponza/MyView.cpp:105-178 | with distinct ids, every object the loop created so far belongs to the record of an id it has visited |
| MeshTable.DistinctIdsAreLast | SpiceMySponza/MyView.cpp:104-105 | with distinct ids every mesh is the last with its id, so every mesh's record is an upload of it |
| TextureTable.Resize | SpiceMySponza/MyView.cpp:201 | resizing keeps the existing prefix and fills new positions with 0 |
| TextureTable.InsertFirst | SpiceMySponza/MyView.cpp:212 | an insert adds the key if it is absent and never overwrites an existing value |
| TextureTable.LoadSlot | SpiceMySponza/MyView.cpp:209-241 | a non-empty file name is inserted into the name table whether or not it decodes; a texture of that file is created in slot i exactly when it decodes, and the device then gains exactly that one name; otherwise the slot and the device are unchanged |
| TextureTable.ScanMaterials | SpiceMySponza/MyView.cpp:196-281 | from empty tables, the names in the table are exactly the non-empty file names of the materials; each maps to the position of the first material naming it in either slot; both vectors have one slot per material; slot i is non-zero exactly when material i's file for that slot is non-empty and decodes, and then it names a texture of that file; the non-zero slots are distinct textures; the device gains exactly the names the slots hold, none of which it had before |
| TextureTable.ScanSlotsAdded | SpiceMySponza/MyView.cpp:196-281 | the names one loop pass puts into slot i of the two vectors are exactly the objects that pass created |
| TextureTable.ScanOne | SpiceMySponza/MyView.cpp:199-279 | one pass of the material loop (diffuse slot, then specular slot) extends the scan's account from i materials to i+1 |
| TextureTable.ScanNames | SpiceMySponza/MyView.cpp:209-250 | after material i's two inserts, the table's names are exactly those some material up to i uses, each mapped to its first user |
| TextureTable.ScanSlots | SpiceMySponza/MyView.cpp:201-279 | after material i's two slot loads, slots 0..i of both vectors are loaded from their materials' files and the later slots are still 0 |
| TextureTable.ScanDistinct | SpiceMySponza/MyView.cpp:218-256 | the textures created for material i differ from every earlier slot and from each other |
| TextureTable.GrownTransitive | SpiceMySponza/MyView.cpp:199-281 | two steps that each only add textures together only add textures |
| Frame.ResolveTexture | SpiceMySponza/MyView.cpp:426-460 | the flag is on exactly when the file name is non-empty and in the table, and then the bound name is the slot vector's entry at the table's value |
| Frame.InstanceCommands | SpiceMySponza/MyView.cpp:383-496 | an instance's block uploads both flags as resolved and binds each resolved texture; its only draw is its last command, of the record's count, after binding the record's vertex array |
| Frame.Blocks | SpiceMySponza/MyView.cpp:380 | a frame has one block per instance |
| Frame.BlocksAgree | SpiceMySponza/MyView.cpp:493 | two mesh tables that read the same records at the instances' ids give the same blocks |
| Frame.InstanceMeshIdsCons | SpiceMySponza/MyView.cpp:490-493 | the mesh ids of the instances are the first instance's id plus those of the rest |
| Frame.DrawLoop | SpiceMySponza/MyView.cpp:380-498 | the stateful render loop only adds mesh records through the subscript: every id the table had is still there with the same record |
| Frame.DrawLoopCommands | SpiceMySponza/MyView.cpp:380-498 | the loop's commands are the instances' blocks in instance order, each drawn with the record the table held before the frame; a default record inserted by an earlier instance reads the same as the missing id |
| Frame.TouchedSpec | SpiceMySponza/MyView.cpp:493 | the frame's subscripts add exactly the instances' missing mesh ids, each as the default record, and change no other record |
| Frame.DrawLoopMeshes | SpiceMySponza/MyView.cpp:493 | the mesh table the loop leaves is the table after subscripting every instance's id in turn |
| Frame.DrawLoopFlags | SpiceMySponza/MyView.cpp:426-460 | the texture flags left after the loop are those resolved for the last instance, or the previous flags when there is no instance |
| Frame.DrawCountsAppend | SpiceMySponza/MyView.cpp:496 | the draws of two command sequences in a row are the draws of the first followed by those of the second |
| Frame.NoDrawsCount | SpiceMySponza/MyView.cpp:333-377 | commands that include no draw contribute no draw count |
| Frame.InstanceDrawCount | SpiceMySponza/MyView.cpp:495-496 | an instance block holds exactly one draw, of the record's element count |
| Frame.BlockDrawCount | SpiceMySponza/MyView.cpp:490-496 | the block for an instance holds exactly one draw, of its mesh record's count |
| Frame.BlocksDrawCounts | SpiceMySponza/MyView.cpp:380-498 | a frame's blocks issue exactly one draw per instance, in instance order, each of the element count of the instance's mesh record, and 0 for an id the table lacks |
| Frame.InstanceBindsPlaced | SpiceMySponza/MyView.cpp:426-460 | a resolved diffuse texture is bound right after the colours on texture unit 0 with the diffuse sampler set to 0, and a resolved specular texture follows on unit 1 with the specular sampler set to 1 |
| Frame.InstanceBindsOnly | SpiceMySponza/MyView.cpp:426-460 | a slot whose flag is off emits no bind: every unit activated and every texture bound belongs to a slot that resolved, diffuse on unit 0 and specular on unit 1 |
| Frame.PackLights | SpiceMySponza/MyView.cpp:357-367 | the three arrays have one element per light, element i taken from light i |
| Frame.LightUploads | SpiceMySponza/MyView.cpp:361-377 | the light uploads are the position, intensity and range arrays in that order, each covering every light |
| MyView.SetNormalToggle | SpiceMySponza/MyView.cpp:25-32 | after the toggle the getter reads the value set, no other field changes, and the value is uploaded as 1 or 0 |
| MyView.ToggleLastWins | SpiceMySponza/MyView.hpp:22-23 | setting the toggle twice equals setting it once to the second value, and setting it to the value it reads changes nothing |
| MyView.WillStart | SpiceMySponza/MyView.cpp:34-284 | the start callback gives every mesh id a record realizing its last mesh, leaves other records and all flags alone, and from empty tables completes the material scan; with distinct ids every new object is a record's name or a texture, and from empty tables a record's name or a slot's texture, no slot naming an old object |
| MyView.StartSlots | SpiceMySponza/MyView.cpp:104-281 | objects created by the mesh upload belong to records and those created by the scan are the slots' names, so every new object is one or the other |
| MyView.NewViewDefaults | SpiceMySponza/MyView.hpp:45-73 | a constructed view reads the toggle as off, has both texture flags off, holds no texture name or slot, and reads every mesh id as the default record |
| MyView.GetToggleNormal | SpiceMySponza/MyView.hpp:23 | the getter reads the normal-shading flag: off on a fresh view and the last value set after a toggle, as the contracts of `MyView.NewViewDefaults` and `MyView.SetNormalToggle` state |
| MyView.StartObjects | SpiceMySponza/MyView.cpp:104-281 | objects created by the mesh upload belong to records and those created by the scan are textures, so every new object is one or the other |
| MyView.DrawInstances | SpiceMySponza/MyView.cpp:380-498 | the draw loop emits the instances' blocks with one draw per instance of its record's count, default-inserts the missing ids, and leaves the last instance's flags |
| MyView.Render | SpiceMySponza/MyView.cpp:307-500 | a frame is the camera position, program and projection uploads, then the three light arrays, then one block per instance; it draws once per instance with the record's count; the textures and the normal toggle are unchanged |
| MyView.PrefixDrawsNothing | SpiceMySponza/MyView.cpp:333-377 | nothing before the first instance block is a draw, so a frame's draws are those of its blocks |
| MyView.DidStop | SpiceMySponza/MyView.cpp:293-305 | the stop callback fills the mesh table up to its largest id with default records and frees exactly the buffers and vertex arrays some record names; textures and flags are unchanged |
| Teardown.ReleaseMesh | SpiceMySponza/MyView.cpp:298-302 | releasing a record frees exactly the live buffers among its four buffer names and the live vertex array at its array name; every other object stays as it was |
| Teardown.ReleaseMeshes | SpiceMySponza/MyView.cpp:297-303 | the release loop leaves the table with ids exactly 0 up to the largest old id, old records kept and gaps default, and frees exactly the buffers and vertex arrays some record of the old table names, whatever the ids |
| Teardown.SweepOne | SpiceMySponza/MyView.cpp:298-302 | one pass of the release loop subscripts id i and releases the record read, extending the loop's account from ids below i to ids below i+1 |
| Teardown.SweepTableStep | SpiceMySponza/MyView.cpp:298 | subscripting id i adds i to the swept ids and reads the old record, or the default one if i was missing |
| Teardown.SweepDeviceStep | SpiceMySponza/MyView.cpp:298-302 | releasing the record read at id i frees what that record frees, on top of what the records below i freed |
| Teardown.SizeAbove | SpiceMySponza/MyView.cpp:297 | while some old id is at least i, the filled table is larger than i, so the loop continues; once none is, it stops |
| Teardown.SweepTableDone | SpiceMySponza/MyView.cpp:297 | when the loop stops, the table's ids are exactly 0 up to the largest old id |
| TextureLookup.DiffuseLookup | SpiceMySponza/MyView.cpp:426-442 | after the scan, a material's diffuse flag is on exactly when its diffuse name is non-empty, and the bound name is the diffuse slot of the first material naming that file in either slot |
| TextureLookup.SpecularLookup | SpiceMySponza/MyView.cpp:444-460 | the same for the specular name, with the specular slot |
| TextureLookup.DiffuseImageWhenFirstInSlot | SpiceMySponza/MyView.cpp:209-438 | when the first material naming a file names it as its diffuse texture and the file decodes, the diffuse lookup binds a texture of that file |
| TextureLookup.UndecodableDiffuseStillFlagged | SpiceMySponza/MyView.cpp:212-440 | a file that does not decode and whose first use is a diffuse slot still switches the diffuse flag on, with name 0 bound |
| TextureLookup.CrossSlotSamplesOtherFile | SpiceMySponza/MyView.cpp:250-438 | with materials (a.png, b.png) and (b.png, none), the second material's diffuse lookup binds a texture of a.png |
| TextureLookup.DiffuseBindsZero | SpiceMySponza/MyView.cpp:209-440 | a scanned material's non-empty diffuse name binds name 0 with the flag on exactly when the first material using the file, in either slot, has an empty or undecodable diffuse file |
| TextureLookup.CrossSlotBindsNothing | SpiceMySponza/MyView.cpp:250-438 | with materials (none, x.png) and (x.png, none), the second material's diffuse lookup is on with name 0 bound, whether or not x.png decodes |
| TextureLookup.ScannedIndexed | SpiceMySponza/MyView.cpp:431-456 | after the scan every table value indexes both vectors |
| Lifecycle.StartThenStop | SpiceMySponza/MyView.cpp:104-303 | start then stop with distinct mesh ids: objects that existed before are untouched, every buffer and vertex array the start created is freed, and the objects that survive beyond the old ones are exactly the textures the slots hold, still as the scan left them |
| Lifecycle.OnlySlotsSurvive | SpiceMySponza/MyView.cpp:104-303 | after start then stop the objects beyond the old ones are exactly the slot textures: every record name is freed and every slot texture is kept |
| Lifecycle.OldObjectsSurvive | SpiceMySponza/MyView.cpp:297-303 | the stop frees nothing that existed before the start, because every record names only objects the start created |
| Lifecycle.StartRecordsFreeable | SpiceMySponza/MyView.cpp:104-302 | with distinct ids, releasing any record frees every name it holds |
| Lifecycle.ScannedSurvivesStop | SpiceMySponza/MyView.cpp:293-303 | the stop releases no texture, so the scan's account of the slots still holds |
| Lifecycle.QuadStart | SpiceMySponza/MyView.cpp:104-179 | starting on a one-quad scene gives the quad's id a record drawing six indices |
| Lifecycle.QuadFrame | SpiceMySponza/MyView.cpp:375-496 | a frame of the one-quad, untextured scene issues exactly one draw of six indices, leaves both texture flags off, and uploads the one light's position |

## Left out

- Shader loading, compiling and linking (MyView.cpp:38-88), and `glDeleteProgram` at stop: this is file I/O and driver diagnostics. The model does not reflect that line 77 deletes the vertex shader twice and never deletes the fragment shader.
- PNG decoding and the choice of pixel format and component type (MyView.cpp:215, 225-236): this is a foreign library. Decoding is the predicate parameter `decodes`, and a texture records only its file name. Filtering, mipmaps and wrapping are named in a doc comment and not modelled.
- The projection, look-at and aspect-ratio computation (MyView.cpp:319-341): this is floating point. The camera position and the product matrix are parameters of `MyView.Render`.
- The viewport callback `windowViewDidReset`, `glEnable`/`glClear`, the unbinds after each upload, and the lookup of uniform locations by name: these are driver plumbing. Uniforms are named by role (`Frame.Uniform`).
- Material colours, shininess, light values and transforms: these are opaque payloads passed through unchanged.
- `setScene`: the scene is a parameter of each callback. The scene context is not part of this model beyond the list accessors and `getMaterialById`. `getMaterialById` is modelled as the first material with the id, and it requires the id to exist.
- The geometry builder is not part of this model. Its meshes are a parameter of `MyView.WillStart`.
- MeshTable.BuildMeshes: the `int` narrowing of `element_count` from the index array's size is not modelled; counts are unbounded naturals.
- MeshTable.BuildMeshes: the buffers leaked by a repeated mesh id are allowed by the contract, not stated as a leak.
- Gpu.Create: one allocator serves buffers, vertex arrays and textures, so names are unique across kinds. OpenGL only promises uniqueness within a kind, so the contract is stronger than the driver's promise. The renderer relies on neither. The allocator also hands out strictly increasing names and never reuses a deleted one, and `MeshTable.Realizes` records that the four buffers of one mesh get increasing names in creation order; OpenGL may hand a deleted name out again and promises no order, so these facts hold of the model's allocator only.
- Teardown.ReleaseMeshes: the source's loop index is an `unsigned int` (MyView.cpp:297) and mesh ids are 32-bit, so with a mesh id of 2^32-1 the index wraps before it passes the table's size and the loop never ends; the model uses unbounded naturals and does not model that wrap-around.
- Gpu.Create: OpenGL names are 32-bit `GLuint`s; the model's handles are unbounded naturals, so running out of names is not modelled.
- Frame.PackLights: the light count is held in a `const int` (MyView.cpp:361); the model's count is an unbounded natural, so a count past the `int` range is not modelled.
- TextureTable.ScanMaterials: the name table's values are `int` positions (MyView.hpp:53, MyView.cpp:212); the model's positions are unbounded naturals, so more materials than the `int` range holds is not modelled.
