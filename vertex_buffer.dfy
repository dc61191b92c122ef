/** The vertex layout and the vertex buffer (src/app/vertex_buffer.rs):
    the binding and attribute descriptions the pipeline reads the vertices
    with, the choice of a memory type, and the creation, binding and
    filling of the buffer.

    Vertex positions and colours are floating point and are not modelled:
    only their sizes and the number of vertices matter here. */
module VertexBuffer {
  import opened Vk
  import opened AppData

  /** `size_of::<glm::Vec2>()` and `size_of::<glm::Vec3>()`: two and three
      4-byte floats. */
  const VEC2_SIZE: nat := 2 * 4
  const VEC3_SIZE: nat := 3 * 4

  /** `size_of::<Vertex>()`: `#[repr(C)]` lays out `pos` then `color`,
      both 4-byte aligned, with no padding. */
  const VERTEX_SIZE: nat := VEC2_SIZE + VEC3_SIZE

  /** `vk::Format::R32G32_SFLOAT` and `R32G32B32_SFLOAT`. */
  const R32G32_SFLOAT: nat := 103
  const R32G32B32_SFLOAT: nat := 106

  /** `vk::VertexInputRate::VERTEX` */
  const INPUT_RATE_VERTEX: nat := 0

  /** Bytes one element of a vertex format occupies. */
  function FormatSize(format: nat): nat
  {
    if format == R32G32_SFLOAT then 8 else if format == R32G32B32_SFLOAT then 12 else 0
  }

  datatype VertexInputBindingDescription = VertexInputBindingDescription(binding: nat, stride: nat, inputRate: nat)

  datatype VertexInputAttributeDescription =
    VertexInputAttributeDescription(binding: nat, location: nat, format: nat, offset: nat)

  /** `Vertex::binding_description` */
  function BindingDescription(): VertexInputBindingDescription
  {
    VertexInputBindingDescription(0, VERTEX_SIZE, INPUT_RATE_VERTEX)
  }

  /** `Vertex::attribute_descriptions`: `pos`, then `color`. */
  function AttributeDescriptions(): seq<VertexInputAttributeDescription>
  {
    [VertexInputAttributeDescription(0, 0, R32G32_SFLOAT, 0),
     VertexInputAttributeDescription(0, 1, R32G32B32_SFLOAT, VEC2_SIZE)]
  }

  /** One binding, advanced per vertex by the vertex's size; two
      attributes read from it at distinct locations, each read with a format
      the size of its field, side by side without overlap and inside the
      vertex. */
  lemma VertexLayout()
    ensures var b := BindingDescription();
      && b.binding == 0 && b.stride == VERTEX_SIZE && b.inputRate == INPUT_RATE_VERTEX
    ensures var a := AttributeDescriptions();
      && |a| == 2
      && a[0].binding == a[1].binding == BindingDescription().binding
      && a[0].location == 0 && a[1].location == 1
      && FormatSize(a[0].format) == VEC2_SIZE && FormatSize(a[1].format) == VEC3_SIZE
      && a[0].offset + FormatSize(a[0].format) <= a[1].offset
      && a[1].offset + FormatSize(a[1].format) <= BindingDescription().stride
  {
  }

  /** `vk::MAX_MEMORY_TYPES` */
  const MAX_MEMORY_TYPES: nat := 32

  datatype MemoryType = MemoryType(propertyFlags: bv32, heapIndex: nat)

  /** `vk::PhysicalDeviceMemoryProperties`: the first `memoryTypeCount` of
      the 32 entries are meaningful. */
  datatype MemoryProperties = MemoryProperties(memoryTypeCount: nat, memoryTypes: seq<MemoryType>)

  datatype MemoryRequirements = MemoryRequirements(size: nat, alignment: nat, memoryTypeBits: bv32)

  /** What the driver reports: a fixed array of 32 types, at most all used. */
  predicate WellFormed(memory: MemoryProperties)
  {
    memory.memoryTypeCount <= MAX_MEMORY_TYPES && |memory.memoryTypes| == MAX_MEMORY_TYPES
  }

  /** Memory type `i` is allowed for the resource (bit `i` of
      `memory_type_bits`) and has every requested property. */
  predicate Suitable(memory: MemoryProperties, properties: bv32, requirements: MemoryRequirements, i: nat)
    requires WellFormed(memory) && i < MAX_MEMORY_TYPES
  {
    && requirements.memoryTypeBits & (1 << i) != 0
    && memory.memoryTypes[i].propertyFlags & properties == properties
  }

  /** The `find` over `from..memory_type_count`. */
  function FindFrom(memory: MemoryProperties, properties: bv32, requirements: MemoryRequirements, from: nat): (r: Option<nat>)
    requires WellFormed(memory)
    ensures r.Some? ==> from <= r.value < memory.memoryTypeCount && Suitable(memory, properties, requirements, r.value)
    ensures r.Some? ==> forall j :: from <= j < r.value ==> !Suitable(memory, properties, requirements, j)
    ensures r.None? ==> forall j :: from <= j < memory.memoryTypeCount ==> !Suitable(memory, properties, requirements, j)
    decreases memory.memoryTypeCount - from
  {
    if from >= memory.memoryTypeCount then None
    else if Suitable(memory, properties, requirements, from) then Some(from)
    else FindFrom(memory, properties, requirements, from + 1)
  }

  /** `get_memory_type_index` */
  function MemoryTypeIndex(memory: MemoryProperties, properties: bv32, requirements: MemoryRequirements): (r: Result<nat>)
    requires WellFormed(memory)
    ensures r.Ok? ==> r.value < memory.memoryTypeCount && Suitable(memory, properties, requirements, r.value)
    ensures r.Err? ==> r.error == NoSuitableMemoryType
  {
    match FindFrom(memory, properties, requirements, 0)
    case Some(i) => Ok(i)
    case None => Err(NoSuitableMemoryType)
  }

  /** The index returned is the smallest suitable one, and there is an
      error exactly when no index below the count is suitable. */
  lemma MemoryTypeIndexIsFirst(memory: MemoryProperties, properties: bv32, requirements: MemoryRequirements, i: nat)
    requires WellFormed(memory) && i < memory.memoryTypeCount
    ensures MemoryTypeIndex(memory, properties, requirements) == Ok(i) <==>
      && Suitable(memory, properties, requirements, i)
      && forall j :: 0 <= j < i ==> !Suitable(memory, properties, requirements, j)
  {
    var r := FindFrom(memory, properties, requirements, 0);
    if r.Some? && r.value != i {
      assert r.value < i ==> Suitable(memory, properties, requirements, r.value);
    }
  }

  /** The properties the vertex buffer's memory must have. */
  const VERTEX_MEMORY_PROPERTIES: bv32 := HOST_COHERENT | HOST_VISIBLE

  /** The driver's answers to `create_buffer`,
      `get_buffer_memory_requirements`, `allocate_memory`,
      `bind_buffer_memory` and `map_memory`. */
  datatype BufferDriver = BufferDriver(
    buffer: Result<Handle>,
    requirements: MemoryRequirements,
    memory: Result<Handle>,
    bind: Result<()>,
    mapping: Result<()>)

  /** `vertex_buffer::create` for `vertexCount` vertices on a device whose
      memory types are `memory`.  It returns the handle store with the
      fields it assigned and the driver calls it made. */
  method Create(data: Data, memory: MemoryProperties, vertexCount: nat, driver: BufferDriver)
    returns (data': Data, calls: seq<Call>, r: Result<()>)
    requires WellFormed(memory)
    ensures data' == data.(vertexBuffer := data'.vertexBuffer, vertexBufferMemory := data'.vertexBufferMemory)
    ensures |calls| >= 1 && calls[0] == CreateBuffer(VERTEX_SIZE * vertexCount, VERTEX_BUFFER_USAGE, SHARING_EXCLUSIVE)
    ensures var index := MemoryTypeIndex(memory, VERTEX_MEMORY_PROPERTIES, driver.requirements);
      r.Ok? <==> driver.buffer.Ok? && index.Ok? && driver.memory.Ok? && driver.bind.Ok? && driver.mapping.Ok?
    ensures driver.buffer.Err? ==> r == Err(driver.buffer.error) && data' == data && calls == [calls[0]]
    ensures driver.buffer.Ok? ==> data'.vertexBuffer == driver.buffer.value
    ensures var index := MemoryTypeIndex(memory, VERTEX_MEMORY_PROPERTIES, driver.requirements);
      driver.buffer.Ok? && index.Err? ==>
        r == Err(NoSuitableMemoryType) && data'.vertexBufferMemory == data.vertexBufferMemory && calls == [calls[0]]
    ensures var index := MemoryTypeIndex(memory, VERTEX_MEMORY_PROPERTIES, driver.requirements);
      driver.buffer.Ok? && index.Ok? ==>
        && |calls| >= 2 && calls[1] == AllocateMemory(driver.requirements.size, index.value)
        && data'.vertexBufferMemory == (if driver.memory.Ok? then driver.memory.value else data.vertexBufferMemory)
        && (driver.memory.Err? ==> r == Err(driver.memory.error) && |calls| == 2)
    ensures var index := MemoryTypeIndex(memory, VERTEX_MEMORY_PROPERTIES, driver.requirements);
      driver.buffer.Ok? && index.Ok? && driver.memory.Ok? ==>
        && |calls| >= 2
        && Filled(calls[2..], data'.vertexBuffer, data'.vertexBufferMemory, calls[0].size, vertexCount,
                  driver.bind, driver.mapping, r)
  {
    var size := VERTEX_SIZE * vertexCount;
    calls := [CreateBuffer(size, VERTEX_BUFFER_USAGE, SHARING_EXCLUSIVE)];
    data' := data;
    if driver.buffer.Err? {
      return data', calls, Err(driver.buffer.error);
    }
    data' := data'.(vertexBuffer := driver.buffer.value);

    var requirements := driver.requirements;
    var index := MemoryTypeIndex(memory, VERTEX_MEMORY_PROPERTIES, requirements);
    if index.Err? {
      return data', calls, Err(index.error);
    }
    calls := calls + [AllocateMemory(requirements.size, index.value)];
    if driver.memory.Err? {
      return data', calls, Err(driver.memory.error);
    }
    data' := data'.(vertexBufferMemory := driver.memory.value);

    var filled;
    filled, r := BindAndFill(data'.vertexBuffer, data'.vertexBufferMemory, size, vertexCount, driver.bind, driver.mapping);
    calls := calls + filled;
    assert calls[2..] == filled;
  }

  /** The calls and the result of lines 72 to 85 of `vertex_buffer::create`:
      bind the memory to the buffer at offset 0, map the buffer's whole
      size, copy the vertices and unmap; stop at the first failure. */
  predicate Filled(calls: seq<Call>, buffer: Handle, memory: Handle, size: nat, vertexCount: nat,
                   bind: Result<()>, mapping: Result<()>, r: Result<()>)
  {
    && (r.Ok? <==> bind.Ok? && mapping.Ok?)
    && |calls| >= 1 && calls[0] == BindBufferMemory(buffer, memory, 0)
    && (bind.Err? ==> r == Err(bind.error) && |calls| == 1)
    && (bind.Ok? ==> |calls| >= 2 && calls[1] == MapMemory(memory, 0, size))
    && (bind.Ok? && mapping.Err? ==> r == Err(mapping.error) && |calls| == 2)
    && (r.Ok? ==> |calls| == 4 && calls[2] == CopyVertices(vertexCount) && calls[3] == UnmapMemory(memory))
  }

  /** Lines 72 to 85 of `vertex_buffer::create`. */
  method BindAndFill(buffer: Handle, memory: Handle, size: nat, vertexCount: nat, bind: Result<()>, mapping: Result<()>)
    returns (calls: seq<Call>, r: Result<()>)
    ensures Filled(calls, buffer, memory, size, vertexCount, bind, mapping, r)
  {
    calls := [BindBufferMemory(buffer, memory, 0)];
    if bind.Err? {
      return calls, Err(bind.error);
    }
    calls := calls + [MapMemory(memory, 0, size)];
    if mapping.Err? {
      return calls, Err(mapping.error);
    }
    calls := calls + [CopyVertices(vertexCount)];
    calls := calls + [UnmapMemory(memory)];
    r := Ok(());
  }
}
