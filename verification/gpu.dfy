/** The graphics device, reduced to what the renderer's bookkeeping relies
    on: an allocator that hands out fresh non-zero object names, and the
    objects those names denote. Name 0 never denotes an object; deleting
    name 0 or an unknown name is silently ignored, as in OpenGL. */
module Gpu {
  import opened Scene

  /** A device object name; 0 means "no object". */
  type Handle = nat

  datatype BufferTarget = ArrayBuffer | ElementArrayBuffer

  datatype BufferData =
    | Vec3Data(vec3s: seq<Vec3>)
    | Vec2Data(vec2s: seq<Vec2>)
    | IndexData(indices: seq<nat>)

  /** A buffer object filled once with static data of `bytes` bytes. */
  datatype Buffer = Buffer(target: BufferTarget, data: BufferData, bytes: nat)

  /** One enabled vertex attribute: the buffer it reads, the number of float
      components per vertex and the byte stride. */
  datatype AttribPointer = AttribPointer(buffer: Handle, components: nat, strideBytes: nat)

  /** A vertex-array object: the bound index buffer and the enabled
      attribute slots, slot `i` being `attribs[i]`. */
  datatype VertexArray = VertexArray(elementBuffer: Handle, attribs: seq<AttribPointer>)

  /** A 2D texture created from the decoded pixels of one image file, with
      linear mip-mapped filtering and repeat wrapping on both axes. */
  datatype Texture = Texture(image: string)

  /** What a live object name denotes. */
  datatype Object =
    | BufferObject(buffer: Buffer)
    | ArrayObject(array: VertexArray)
    | TextureObject(texture: Texture)

  /** The device: the allocator's mark and the live objects by name. */
  datatype Device = Device(next: Handle, objects: map<Handle, Object>)

  datatype Created = Created(handle: Handle, device: Device)

  const EmptyDevice: Device := Device(1, map[])

  /** Size in bytes of a tightly packed upload: a vec3 of floats is 12
      bytes, a vec2 is 8, an unsigned index is 4. */
  function ByteSize(data: BufferData): nat {
    match data
    case Vec3Data(v) => 12 * |v|
    case Vec2Data(v) => 8 * |v|
    case IndexData(v) => 4 * |v|
  }

  /** Every live object has a non-zero name below the allocator's mark. */
  ghost predicate Valid(d: Device) {
    d.next >= 1 && forall h :: h in d.objects ==> 0 < h < d.next
  }

  /** `e` only added objects to `d`: every object of `d` is still there,
      unchanged. */
  ghost predicate Extends(d: Device, e: Device) {
    d.next <= e.next && forall h :: h in d.objects ==> h in e.objects && e.objects[h] == d.objects[h]
  }

  lemma ExtendsTransitive(a: Device, b: Device, c: Device)
    requires Extends(a, b) && Extends(b, c)
    ensures Extends(a, c)
  {
  }

  /** Generate a fresh name and bind `o` to it: glGenBuffers + glBufferData,
      glGenVertexArrays + attribute setup, or glGenTextures + glTexImage2D. */
  function Create(d: Device, o: Object): (c: Created)
    requires Valid(d)
    ensures Valid(c.device) && Extends(d, c.device)
    ensures c.handle != 0 && c.handle !in d.objects && d.next <= c.handle < c.device.next
    ensures c.handle in c.device.objects && c.device.objects[c.handle] == o
    ensures c.device.objects.Keys == d.objects.Keys + {c.handle}
  {
    Created(d.next, Device(d.next + 1, d.objects[d.next := o]))
  }

  /** glDeleteBuffers: frees the name if it denotes a buffer; 0, unknown
      names and names of other kinds of object are ignored. */
  function DeleteBuffer(d: Device, h: Handle): (e: Device)
    ensures h !in e.objects || !e.objects[h].BufferObject?
    ensures e.next == d.next
    ensures forall g :: g in e.objects ==> g in d.objects && e.objects[g] == d.objects[g]
    ensures forall g :: g in d.objects && (g != h || !d.objects[g].BufferObject?) ==> g in e.objects
  {
    if h in d.objects && d.objects[h].BufferObject? then d.(objects := d.objects - {h}) else d
  }

  /** glDeleteVertexArrays: frees the name if it denotes a vertex array. */
  function DeleteVertexArray(d: Device, h: Handle): (e: Device)
    ensures h !in e.objects || !e.objects[h].ArrayObject?
    ensures e.next == d.next
    ensures forall g :: g in e.objects ==> g in d.objects && e.objects[g] == d.objects[g]
    ensures forall g :: g in d.objects && (g != h || !d.objects[g].ArrayObject?) ==> g in e.objects
  {
    if h in d.objects && d.objects[h].ArrayObject? then d.(objects := d.objects - {h}) else d
  }
}
