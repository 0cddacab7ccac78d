/**
 * The uniform buffer of graphics/uniformbuffer.cpp: a host-visible upload buffer and a
 * device-local buffer of the same size, carved out of two process-wide memory blocks that
 * are created on first use, and an upload flag that makes the copy between them happen once
 * unless it is forced.
 */
module UniformBuffer {
  import opened Wrappers


  /** Memory properties of a memory block. */
  datatype MemoryProperty = HostVisible | HostCoherent | DeviceLocal

  /** A 32 MiB memory block, identified by the order in which it was created. */
  datatype MemoryBlock = MemoryBlock(id: nat, blockSize: nat, properties: set<MemoryProperty>)

  const BlockSize32MB: nat := 32 * 1024 * 1024

  /** Buffer usages. */
  datatype BufferUsage = TransferSrc | TransferDst | Uniform

  /** A buffer of `size` bytes placed in `block`. */
  datatype Buffer = Buffer(size: nat, usage: set<BufferUsage>, block: MemoryBlock)

  /** A uniform view over `size` bytes of a buffer, from `offset`, with `stride`. */
  datatype BufferView = BufferView(buffer: Buffer, offset: nat, size: nat, stride: nat)

  /** One region of a buffer-to-buffer copy. */
  datatype CopyRegion = CopyRegion(srcOffset: nat, dstOffset: nat, size: nat)

  /** A command recorded into a command buffer by `Upload`. */
  datatype CopyCommand = CopyBuffer(cmdBufferIndex: nat, src: Buffer, dst: Buffer, regions: seq<CopyRegion>)

  /** A host write into a memory block. */
  datatype HostWrite = HostWrite(block: MemoryBlock, buffer: Buffer, size: nat)

  /** Whether `Upload` records a copy, given the upload flag and the `force` argument. */
  predicate RecordsCopy(uploaded: bool, force: bool)
  {
    !uploaded || force
  }

  /**
   * The two process-wide memory blocks (the statics s_MB_CPU_Upload and s_MB_GPU_Usage) and
   * the host writes made into them.
   */
  class MemoryBlocks {
    var cpuUpload: Option<MemoryBlock>
    var gpuUsage: Option<MemoryBlock>
    /** Number of blocks created so far; the next block gets this id. */
    var created: nat
    /** Host writes into the CPU upload block, oldest first. */
    var cpuWrites: seq<HostWrite>
    /** Host writes into the GPU usage block (SubmitData never adds one). */
    var gpuWrites: seq<HostWrite>

    /** Both statics start as null. */
    constructor ()
      ensures cpuUpload == None && gpuUsage == None && created == 0
      ensures cpuWrites == [] && gpuWrites == []
    {
      cpuUpload, gpuUsage, created := None, None, 0;
      cpuWrites, gpuWrites := [], [];
    }

    ghost predicate Valid()
      reads this
    {
      && (cpuUpload.Some? ==> cpuUpload.value.properties == {HostVisible, HostCoherent})
      && (gpuUsage.Some? ==> gpuUsage.value.properties == {DeviceLocal})
    }

    /**
     * InitialiseMemory: each block is created only when it is still null, so an existing block
     * is never replaced; afterwards both exist.
     */
    method InitialiseMemory()
      requires Valid()
      modifies this
      ensures Valid()
      ensures cpuUpload.Some? && gpuUsage.Some?
      ensures old(cpuUpload).Some? ==> cpuUpload == old(cpuUpload)
      ensures old(gpuUsage).Some? ==> gpuUsage == old(gpuUsage)
      ensures old(cpuUpload).None? ==> cpuUpload.value == MemoryBlock(old(created), BlockSize32MB, {HostVisible, HostCoherent})
      ensures old(gpuUsage).None? ==>
                gpuUsage.value == MemoryBlock(if old(cpuUpload).None? then old(created) + 1 else old(created),
                                              BlockSize32MB, {DeviceLocal})
      ensures created == old(created) + (if old(cpuUpload).None? then 1 else 0) + (if old(gpuUsage).None? then 1 else 0)
      ensures cpuWrites == old(cpuWrites) && gpuWrites == old(gpuWrites)
    {
      if cpuUpload.None? {
        cpuUpload := Some(MemoryBlock(created, BlockSize32MB, {HostVisible, HostCoherent}));
        created := created + 1;
      }
      if gpuUsage.None? {
        gpuUsage := Some(MemoryBlock(created, BlockSize32MB, {DeviceLocal}));
        created := created + 1;
      }
    }
  }

  /** A uniform buffer of `size` bytes. */
  class Buffers {
    const size: nat
    const upload: Buffer
    const device: Buffer
    const view: BufferView
    /** The m_Upload flag: set once a copy has been recorded. */
    var uploaded: bool

    ghost predicate Valid()
      reads this
    {
      && upload.size == size && device.size == size && view.size == size
      && view.buffer == device && view.offset == 0
      && HostVisible in upload.block.properties
      && DeviceLocal in device.block.properties
    }

    /**
     * The constructor: initialises the shared memory, then creates the upload buffer in the CPU
     * block, the GPU buffer in the device-local block and a view over the whole GPU buffer, all
     * of `size` bytes.
     */
    constructor (size: nat, blocks: MemoryBlocks)
      requires blocks.Valid()
      modifies blocks
      ensures Valid() && this.size == size && !uploaded
      ensures blocks.Valid() && blocks.cpuUpload.Some? && blocks.gpuUsage.Some?
      ensures upload == Buffer(size, {TransferSrc}, blocks.cpuUpload.value)
      ensures device == Buffer(size, {TransferDst, Uniform}, blocks.gpuUsage.value)
      ensures view == BufferView(device, 0, size, 0)
      ensures old(blocks.cpuUpload).Some? ==> blocks.cpuUpload == old(blocks.cpuUpload)
      ensures old(blocks.gpuUsage).Some? ==> blocks.gpuUsage == old(blocks.gpuUsage)
    {
      blocks.InitialiseMemory();
      this.size := size;
      upload := Buffer(size, {TransferSrc}, blocks.cpuUpload.value);
      device := Buffer(size, {TransferDst, Uniform}, blocks.gpuUsage.value);
      view := BufferView(Buffer(size, {TransferDst, Uniform}, blocks.gpuUsage.value), 0, size, 0);
      uploaded := false;
    }

    /** SubmitData: a host write of `dataSize` bytes into the upload buffer's CPU block only. */
    method SubmitData(dataSize: nat, blocks: MemoryBlocks)
      requires blocks.cpuUpload == Some(upload.block)
      modifies blocks
      ensures blocks.cpuWrites == old(blocks.cpuWrites) + [HostWrite(upload.block, upload, dataSize)]
      ensures blocks.gpuWrites == old(blocks.gpuWrites)
      ensures blocks.cpuUpload == old(blocks.cpuUpload) && blocks.gpuUsage == old(blocks.gpuUsage)
      ensures blocks.created == old(blocks.created)
    {
      blocks.cpuWrites := blocks.cpuWrites + [HostWrite(blocks.cpuUpload.value, upload, dataSize)];
    }

    /**
     * Upload: records a copy of the whole buffer, region {0, 0, size}, exactly when no copy was
     * recorded before or the caller forces it; afterwards the flag is set.
     */
    method Upload(cmds: seq<CopyCommand>, cmdBufferIndex: nat, force: bool) returns (cmds': seq<CopyCommand>)
      requires Valid()
      modifies this`uploaded
      ensures Valid()
      ensures RecordsCopy(old(uploaded), force) ==>
        cmds' == cmds + [CopyBuffer(cmdBufferIndex, upload, device, [CopyRegion(0, 0, size)])] && uploaded
      ensures !RecordsCopy(old(uploaded), force) ==> cmds' == cmds && uploaded == old(uploaded)
    {
      cmds' := cmds;
      if !uploaded || force {
        cmds' := cmds' + [CopyBuffer(cmdBufferIndex, upload, device, [CopyRegion(0, 0, size)])];
        uploaded := true;
      }
    }
  }
}
