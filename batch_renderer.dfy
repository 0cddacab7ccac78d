/**
 * The 2D quad batcher of Graphics/Renderer/BatchRenderer2D.cpp: a pre-generated quad index
 * buffer, a table of texture IDs whose slot numbers are position + 1, a mapped vertex buffer
 * that Submit fills four vertices at a time, and an index counter that Flush draws and resets.
 * The GL calls become a log of draws; the buffer size and the slot limit are parameters.
 */
module BatchRenderer2D {
  import opened Wrappers

  /** The six indices of quad `q`: two triangles over its four vertices 4q .. 4q + 3. */
  function QuadGroup(q: nat): (group: seq<nat>)
    ensures |group| == 6
    ensures forall k :: 0 <= k < 6 ==> 4 * q <= group[k] < 4 * q + 4
  {
    [4 * q, 4 * q + 1, 4 * q + 2, 4 * q + 2, 4 * q + 3, 4 * q]
  }

  /** Init's index buffer for `quads` quads: their groups one after another. */
  function QuadIndices(quads: nat): (indices: seq<nat>)
    ensures |indices| == 6 * quads
  {
    if quads == 0 then [] else QuadIndices(quads - 1) + QuadGroup(quads - 1)
  }

  /**
   * Init's index loop. The stack array holds `size` entries and the loop writes six at a
   * time, so `size` must be a multiple of 6 (otherwise the last group writes past the end).
   */
  method GenerateQuadIndices(size: nat) returns (indices: seq<nat>)
    requires size % 6 == 0
    ensures |indices| == size
    ensures indices == QuadIndices(size / 6)
  {
    var a := new nat[size];
    var offset := 0;
    var i := 0;
    ghost var quads: nat := 0;
    while i < size
      invariant i == 6 * quads && i <= size
      invariant offset == 4 * quads
      invariant a[..i] == QuadIndices(quads)
    {
      WriteQuadGroup(a, i, offset, quads);
      offset := offset + 4;
      i := i + 6;
      quads := quads + 1;
    }
    assert quads == size / 6;
    indices := a[..];
    assert a[..] == a[..i];
  }

  /** One pass of Init's index loop: the six entries of quad q written at position i = 6q. */
  method WriteQuadGroup(a: array<nat>, i: nat, offset: nat, ghost q: nat)
    requires i + 6 <= a.Length && offset == 4 * q
    modifies a
    ensures a[..i + 6] == old(a[..i]) + QuadGroup(q)
  {
    a[i + 0] := offset + 0;
    a[i + 1] := offset + 1;
    a[i + 2] := offset + 2;
    a[i + 3] := offset + 2;
    a[i + 4] := offset + 3;
    a[i + 5] := offset + 0;
    assert a[..i + 6] == old(a[..i]) + QuadGroup(q) by {
      forall p | 0 <= p < i + 6
        ensures a[..i + 6][p] == (old(a[..i]) + QuadGroup(q))[p]
      {
      }
    }
  }

  /** The first `quads` groups of a longer buffer are the buffer for `quads` quads. */
  lemma {:induction false} QuadIndicesPrefix(quads: nat, more: nat)
    requires quads <= more
    ensures QuadIndices(more)[..6 * quads] == QuadIndices(quads)
    decreases more
  {
    if quads < more {
      QuadIndicesPrefix(quads, more - 1);
      assert QuadIndices(more)[..6 * (more - 1)] == QuadIndices(more - 1);
    }
  }

  /** Quad q's six entries are 4q + {0, 1, 2, 2, 3, 0}. */
  lemma QuadIndexGroup(quads: nat, q: nat)
    requires q < quads
    ensures QuadIndices(quads)[6 * q..6 * q + 6] == [4 * q, 4 * q + 1, 4 * q + 2, 4 * q + 2, 4 * q + 3, 4 * q]
  {
    QuadIndicesPrefix(q + 1, quads);
    assert QuadIndices(quads)[6 * q..6 * q + 6] == QuadIndices(quads)[..6 * (q + 1)][6 * q..];
  }

  /** Entry p of the buffer belongs to quad p / 6 and is 4 * (p / 6) plus its corner. */
  lemma QuadIndexAt(quads: nat, p: nat)
    requires p < 6 * quads
    ensures QuadIndices(quads)[p] == 4 * (p / 6) + [0, 1, 2, 2, 3, 0][p % 6]
  {
    var q, k := p / 6, p % 6;
    assert p == 6 * q + k && k < 6;
    QuadIndexGroup(quads, q);
    assert QuadIndices(quads)[p] == QuadIndices(quads)[6 * q..6 * q + 6][k];
  }

  /** Every index addresses one of the 4 * quads vertices of the batch. */
  lemma {:induction false} QuadIndicesInRange(quads: nat)
    ensures forall p :: 0 <= p < |QuadIndices(quads)| ==> QuadIndices(quads)[p] < 4 * quads
  {
    if quads > 0 {
      QuadIndicesInRange(quads - 1);
      var prev := QuadIndices(quads - 1);
      var all := QuadIndices(quads);
      forall p | 0 <= p < |all|
        ensures all[p] < 4 * quads
      {
        if p >= |prev| {
          assert all[p] == QuadGroup(quads - 1)[p - |prev|];
        } else {
          assert all[p] == prev[p];
        }
      }
    }
  }

  /** No texture ID occurs twice in the slot table. */
  predicate NoDuplicates(slots: seq<nat>)
  {
    forall i, j :: 0 <= i < j < |slots| ==> slots[i] != slots[j]
  }

  /** The first position of `id` in `slots`, if any (Submit's search loop). */
  function FirstIndex(slots: seq<nat>, id: nat): (r: Option<nat>)
    ensures r.Some? ==> r.value < |slots| && slots[r.value] == id
    ensures r.Some? ==> forall k :: 0 <= k < r.value ==> slots[k] != id
    ensures r.None? <==> id !in slots
  {
    if |slots| == 0 then None
    else if slots[0] == id then Some(0)
    else match FirstIndex(slots[1..], id)
      case None => None
      case Some(k) => Some(k + 1)
  }

  /**
   * Flush's erase: with more than `maxSlots` entries, the first `maxSlots - 1` are erased;
   * otherwise the table is unchanged.
   */
  function FlushedTable(slots: seq<nat>, maxSlots: nat): (r: seq<nat>)
    requires maxSlots >= 1
  {
    if |slots| > maxSlots then slots[maxSlots - 1..] else slots
  }

  /** The textures Flush binds to units 0, 1, ...: the loop stops after binding unit maxSlots. */
  function BoundTextures(slots: seq<nat>, maxSlots: nat): (r: seq<nat>)
  {
    if |slots| <= maxSlots + 1 then slots else slots[..maxSlots + 1]
  }

  /** The slot table after an accepted Submit, the slot it hands out and whether it flushed. */
  datatype SlotChoice = SlotChoice(table: seq<nat>, slot: nat, flushed: bool)

  /**
   * Submit's slot selection: a known ID keeps the table and gets its position + 1; a new ID
   * is appended, the batch is flushed when the table reaches `maxSlots`, and the ID gets the
   * table's (possibly shrunk) size.
   */
  function ChooseSlot(slots: seq<nat>, id: nat, maxSlots: nat): (r: SlotChoice)
    requires maxSlots >= 1
  {
    match FirstIndex(slots, id)
    case Some(i) => SlotChoice(slots, i + 1, false)
    case None =>
      var grown := slots + [id];
      if |grown| >= maxSlots then
        var t := FlushedTable(grown, maxSlots);
        SlotChoice(t, |t|, true)
      else SlotChoice(grown, |grown|, false)
  }

  /** A known ID: the table is unchanged and the slot is its position + 1. */
  lemma ChooseSlotKnown(slots: seq<nat>, id: nat, maxSlots: nat, i: nat)
    requires maxSlots >= 1 && NoDuplicates(slots)
    requires i < |slots| && slots[i] == id
    ensures ChooseSlot(slots, id, maxSlots) == SlotChoice(slots, i + 1, false)
  {
    var f := FirstIndex(slots, id);
    assert f.value <= i;
  }

  /** A new ID ends up last in the table, so its slot is still its position + 1. */
  lemma {:induction false} ChooseSlotNew(slots: seq<nat>, id: nat, maxSlots: nat)
    requires maxSlots >= 1 && id !in slots
    ensures var r := ChooseSlot(slots, id, maxSlots);
      && |r.table| >= 1 && r.slot == |r.table| && r.table[|r.table| - 1] == id
      && r.flushed == (|slots| + 1 >= maxSlots)
      && (!r.flushed ==> r.table == slots + [id])
  {
    assert FirstIndex(slots, id).None?;
    var grown := slots + [id];
    if |grown| > maxSlots {
      assert grown[maxSlots - 1..][|grown| - maxSlots] == grown[|grown| - 1];
    }
  }

  /** Whatever the ID, the slot handed out names it: table[slot - 1] == id. */
  lemma SlotNamesTexture(slots: seq<nat>, id: nat, maxSlots: nat)
    requires maxSlots >= 1
    ensures var r := ChooseSlot(slots, id, maxSlots);
      1 <= r.slot <= |r.table| && r.table[r.slot - 1] == id
  {
    if id !in slots {
      ChooseSlotNew(slots, id, maxSlots);
    }
  }

  /** The slot table never holds a texture ID twice. */
  lemma {:induction false} ChooseSlotKeepsNoDuplicates(slots: seq<nat>, id: nat, maxSlots: nat)
    requires maxSlots >= 1 && NoDuplicates(slots)
    ensures NoDuplicates(ChooseSlot(slots, id, maxSlots).table)
  {
    if id !in slots {
      var grown := slots + [id];
      assert NoDuplicates(grown) by {
        forall i, j | 0 <= i < j < |grown| ensures grown[i] != grown[j] {
          if j < |slots| { assert grown[i] == slots[i] && grown[j] == slots[j]; }
        }
      }
      if |grown| > maxSlots {
        var t := grown[maxSlots - 1..];
        forall i, j | 0 <= i < j < |t| ensures t[i] != t[j] {
          assert t[i] == grown[i + maxSlots - 1] && t[j] == grown[j + maxSlots - 1];
        }
      }
    }
  }

  /** With at least two slots, a table within the limit stays within it. */
  lemma ChooseSlotBounded(slots: seq<nat>, id: nat, maxSlots: nat)
    requires maxSlots >= 2 && |slots| <= maxSlots
    ensures |ChooseSlot(slots, id, maxSlots).table| <= maxSlots
  {
  }

  /** One vertex of the batch buffer (Object::VertexData). */
  datatype VertexData = VertexData(
    position: (real, real, real),
    texCoord: (real, real),
    texId: real,
    normal: (real, real, real),
    colour: (real, real, real, real))

  /** The parts of a submitted object that Submit reads. */
  datatype QuadObject = QuadObject(
    forBatchRenderer: bool,
    /** Result of the pointer comparison of the object's file name with "res/obj/quad.obj". */
    isQuadFile: bool,
    textureId: nat,
    vertices: seq<real>,
    texCoords: seq<real>,
    normals: seq<real>,
    colours: seq<real>)

  /** Submit accepts an object built for the batcher whose file is the quad. */
  predicate Accepts(obj: QuadObject)
  {
    obj.forBatchRenderer && obj.isQuadFile
  }

  /** The object holds the attribute data of four vertices. */
  predicate QuadShaped(obj: QuadObject)
  {
    |obj.vertices| >= 12 && |obj.texCoords| >= 8 && |obj.normals| >= 12 && |obj.colours| >= 16
  }

  /** Vertex `i` of the quad, tagged with texture slot `slot`. */
  function QuadVertex(obj: QuadObject, i: nat, slot: nat): (v: VertexData)
    requires QuadShaped(obj) && i < 4
    ensures v.texId == slot as real
  {
    var j, k, l := 3 * i, 2 * i, 4 * i;
    VertexData(
      (obj.vertices[j], obj.vertices[j + 1], obj.vertices[j + 2]),
      (obj.texCoords[k], obj.texCoords[k + 1]),
      slot as real,
      (obj.normals[j], obj.normals[j + 1], obj.normals[j + 2]),
      (obj.colours[l], obj.colours[l + 1], obj.colours[l + 2], obj.colours[l + 3]))
  }

  /** One glDrawElements issued by Flush: the textures bound to units 0.. and the index count. */
  datatype Draw = Draw(bound: seq<nat>, indexCount: nat)

  class Renderer {
    /** GEAR_BATCH_RENDERER_2D_MAX_TEXTURE_SLOTS. */
    const maxSlots: nat
    /** The index buffer uploaded by Init. */
    const indices: seq<nat>
    /** The mapped vertex buffer (m_BatchBuffer points at batchBuffer[batchPos]). */
    const batchBuffer: array<VertexData>
    var batchPos: nat
    var textureSlots: seq<nat>
    var indexCount: nat
    var lastObject: Option<QuadObject>
    /** The draws issued so far. */
    var draws: seq<Draw>

    ghost predicate Valid()
      reads this
    {
      maxSlots >= 1 && batchPos <= batchBuffer.Length
    }

    /** The constructor runs Init: the index buffer is generated; the slot table is empty. */
    constructor (maxSlots: nat, indexBufferSize: nat, vertexCapacity: nat)
      requires maxSlots >= 1 && indexBufferSize % 6 == 0
      ensures Valid() && fresh(batchBuffer)
      ensures this.maxSlots == maxSlots && batchBuffer.Length == vertexCapacity
      ensures indices == QuadIndices(indexBufferSize / 6)
      ensures textureSlots == [] && indexCount == 0 && batchPos == 0 && lastObject == None && draws == []
    {
      var generated := GenerateQuadIndices(indexBufferSize);
      this.maxSlots := maxSlots;
      indices := generated;
      batchBuffer := new VertexData[vertexCapacity];
      batchPos := 0;
      textureSlots := [];
      indexCount := 0;
      lastObject := None;
      draws := [];
    }

    /**
     * Flush: binds the slot table's textures to units 0.., erasing the first maxSlots - 1
     * entries when the table holds more than maxSlots; draws indexCount indices and resets the
     * counter. It draws with the last submitted object's shader, so one must exist.
     */
    method Flush()
      requires Valid() && lastObject.Some?
      modifies this`textureSlots, this`indexCount, this`draws
      ensures Valid()
      ensures textureSlots == FlushedTable(old(textureSlots), maxSlots)
      ensures draws == old(draws) + [Draw(BoundTextures(old(textureSlots), maxSlots), old(indexCount))]
      ensures indexCount == 0
    {
      var bound: seq<nat> := [];
      var i := 0;
      var slots := textureSlots;
      while i < |textureSlots|
        invariant i <= |slots| && textureSlots == slots
        invariant i <= maxSlots
        invariant bound == slots[..i]
        decreases |textureSlots| - i
      {
        bound := bound + [textureSlots[i]];
        if i > maxSlots - 1 {
          textureSlots := textureSlots[maxSlots - 1..];
          break;
        }
        i := i + 1;
      }
      assert bound == BoundTextures(slots, maxSlots);
      assert textureSlots == FlushedTable(slots, maxSlots);
      draws := draws + [Draw(bound, indexCount)];
      indexCount := 0;
    }

    /**
     * Submit's slot search: the slot of a known texture ID, or the slot of a newly appended
     * one, after flushing (and remapping the vertex buffer at its start) when the table fills.
     */
    method AcquireSlot(id: nat) returns (slot: nat)
      requires Valid() && lastObject.Some?
      modifies this`textureSlots, this`indexCount, this`draws, this`batchPos
      ensures Valid()
      ensures var c := ChooseSlot(old(textureSlots), id, maxSlots);
        && textureSlots == c.table && slot == c.slot
        && batchPos == (if c.flushed then 0 else old(batchPos))
        && indexCount == (if c.flushed then 0 else old(indexCount))
        && draws == (if c.flushed
                     then old(draws) + [Draw(BoundTextures(old(textureSlots) + [id], maxSlots), old(indexCount))]
                     else old(draws))
    {
      slot := 0;
      var found := false;
      var i := 0;
      while i < |textureSlots|
        invariant i <= |textureSlots| && !found
        invariant forall k :: 0 <= k < i ==> textureSlots[k] != id
      {
        if textureSlots[i] == id {
          slot := i + 1;
          found := true;
          break;
        }
        i := i + 1;
      }
      assert found ==> FirstIndex(textureSlots, id) == Some(slot - 1);
      if !found {
        ChooseSlotNew(textureSlots, id, maxSlots);
        textureSlots := textureSlots + [id];
        if |textureSlots| >= maxSlots {
          // CloseMapBuffer; Flush; OpenMapBuffer maps the buffer again at its start.
          Flush();
          batchPos := 0;
        }
        slot := |textureSlots|;
      }
    }

    /** Writes the quad's four vertices, tagged with `slot`, at the batch pointer and advances it by 4. */
    method WriteQuad(obj: QuadObject, slot: nat)
      requires Valid() && QuadShaped(obj) && batchPos + 4 <= batchBuffer.Length
      modifies this`batchPos, batchBuffer
      ensures Valid() && batchPos == old(batchPos) + 4
      ensures forall i :: 0 <= i < 4 ==> batchBuffer[old(batchPos) + i] == QuadVertex(obj, i, slot)
      ensures forall p :: 0 <= p < batchBuffer.Length && !(old(batchPos) <= p < old(batchPos) + 4) ==>
        batchBuffer[p] == old(batchBuffer[p])
    {
      var j := 0;
      while j < 4
        invariant 0 <= j <= 4 && batchPos == old(batchPos) + j
        invariant forall m :: 0 <= m < j ==> batchBuffer[old(batchPos) + m] == QuadVertex(obj, m, slot)
        invariant forall p :: 0 <= p < batchBuffer.Length && !(old(batchPos) <= p < batchPos) ==>
          batchBuffer[p] == old(batchBuffer[p])
      {
        batchBuffer[batchPos] := QuadVertex(obj, j, slot);
        batchPos := batchPos + 1;
        j := j + 1;
      }
    }

    /**
     * Submit: an accepted quad gets a texture slot, writes its four vertices tagged with that
     * slot and adds 6 to the index count. A rejected object only becomes the last object.
     */
    method Submit(obj: QuadObject)
      requires Valid()
      requires Accepts(obj) ==> QuadShaped(obj)
      requires Accepts(obj) ==>
        (if ChooseSlot(textureSlots, obj.textureId, maxSlots).flushed then 4 else batchPos + 4) <= batchBuffer.Length
      modifies this, batchBuffer
      ensures Valid() && lastObject == Some(obj)
      ensures !Accepts(obj) ==>
        && textureSlots == old(textureSlots) && indexCount == old(indexCount)
        && batchPos == old(batchPos) && draws == old(draws) && batchBuffer[..] == old(batchBuffer[..])
      ensures Accepts(obj) ==>
        var c := ChooseSlot(old(textureSlots), obj.textureId, maxSlots);
        var start := if c.flushed then 0 else old(batchPos);
        && textureSlots == c.table
        && batchPos == start + 4
        && indexCount == (if c.flushed then 0 else old(indexCount)) + 6
        && draws == (if c.flushed
                     then old(draws) + [Draw(BoundTextures(old(textureSlots) + [obj.textureId], maxSlots), old(indexCount))]
                     else old(draws))
        && (forall i :: 0 <= i < 4 ==> batchBuffer[start + i] == QuadVertex(obj, i, c.slot))
        && (forall p :: 0 <= p < batchBuffer.Length && !(start <= p < start + 4) ==> batchBuffer[p] == old(batchBuffer[p]))
    {
      lastObject := Some(obj);
      if obj.forBatchRenderer && obj.isQuadFile {
        var textureSlot := AcquireSlot(obj.textureId);
        WriteQuad(obj, textureSlot);
        indexCount := indexCount + 6;
      }
    }
  }
}
