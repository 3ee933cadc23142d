/**
 * The bookkeeping of the splat renderer (src/Components/Scene/OutputHandlers/SplatCloud/SplatMesh.tsx)
 * around its sort worker: the 32-byte splat record, the record count posted with a new buffer,
 * the per-frame camera message, the instanced buffers a worker reply replaces, and the number of
 * instances drawn. The worker's sorting and the shaders are not part of this model; a worker
 * reply is an input.
 */
module SplatMesh {
  import opened CommonApiCalls

  /** Bytes of one field element: a 32-bit float and an 8-bit unsigned integer. */
  const Float32Bytes := 4
  const Uint8Bytes := 1

  /** rowLength: position (3 floats), scale (3 floats), color (4 bytes), rotation (4 bytes). */
  const RowLength := 3 * Float32Bytes + 3 * Float32Bytes + 4 * Uint8Bytes + 4 * Uint8Bytes

  lemma RowLengthIs32()
    ensures RowLength == 32
  {
  }

  /** `Math.floor(data.length / rowLength)`: the whole records in a buffer; trailing bytes are ignored. */
  function RecordCount(dataLength: nat): (n: nat)
    ensures n * RowLength <= dataLength < (n + 1) * RowLength
  {
    dataLength / RowLength
  }

  /** A 33-byte buffer holds one record, a 64-byte buffer two, an empty buffer none. */
  lemma RecordCountExamples()
    ensures RecordCount(33) == 1 && RecordCount(64) == 2 && RecordCount(0) == 0 && RecordCount(31) == 0
  {
  }

  /** Appending whole records adds exactly that many to the count, whatever partial record trails. */
  lemma RecordCountAppend(dataLength: nat, k: nat)
    ensures RecordCount(dataLength + k * RowLength) == RecordCount(dataLength) + k
  {
    var n := RecordCount(dataLength);
    CommonApiCalls.DivBetween(dataLength + k * RowLength, RowLength, n + k);
  }

  /** The instanced geometry's buffers; a float array is a sequence of reals. */
  datatype Buffers = Buffers(
    index: seq<int>,
    position: seq<real>,
    color: seq<real>,
    quat: seq<real>,
    scale: seq<real>,
    center: seq<real>)

  /** The buffers before the worker's first reply: one quad and two sample splats. */
  const InitialBuffers := Buffers(
    [0, 1, 2, 2, 3, 0],
    [1.0, -1.0, 0.0, 1.0, 1.0, 0.0, -1.0, -1.0, 0.0, -1.0, 1.0, 0.0],
    [1.0, 0.0, 1.0, 1.0, 1.0, 1.0, 0.0, 1.0],
    [0.0, 0.0, 0.0, 1.0, 0.0, 0.0, 0.0, 1.0],
    [1.0, 1.0, 1.0, 2.0, 0.5, 0.5],
    [0.0, 0.0, 0.0, 2.0, 0.0, 0.0])

  /** The quad is 6 indices into 4 vertices of 3 coordinates. */
  predicate QuadConsistent(b: Buffers) {
    && |b.index| == 6 && |b.position| == 4 * 3
    && forall i :: 0 <= i < |b.index| ==> 0 <= b.index[i] < 4
  }

  /** The four per-instance arrays describe the same number of splats. */
  predicate InstancesConsistent(b: Buffers, n: nat) {
    |b.center| == 3 * n && |b.scale| == 3 * n && |b.color| == 4 * n && |b.quat| == 4 * n
  }

  /** The initial buffers: a consistent quad and two splats. */
  lemma InitialBuffersConsistent()
    ensures QuadConsistent(InitialBuffers)
    ensures InstancesConsistent(InitialBuffers, 2)
  {
  }

  /** `buffers.center.length / 3`: a JavaScript division, so a real number. */
  function CenterCount(b: Buffers): (r: real)
    ensures r >= 0.0
    ensures forall n: nat :: InstancesConsistent(b, n) ==> r == n as real
  {
    |b.center| as real / 3.0
  }

  /** `Math.min(buffers.center.length / 3, maxSplats)`: the number of instances drawn. */
  function InstanceCount(b: Buffers, maxSplats: real): (r: real)
    ensures r <= maxSplats && r <= CenterCount(b)
    ensures r == maxSplats || r == CenterCount(b)
  {
    if CenterCount(b) <= maxSplats then CenterCount(b) else maxSplats
  }

  /** A worker reply: the four per-instance arrays in sorted order. */
  datatype WorkerReply = WorkerReply(quat: seq<real>, scale: seq<real>, center: seq<real>, color: seq<real>)

  /** The messages posted to the worker: a new buffer with its record count, or a camera update. */
  datatype WorkerMessage =
    | BufferMessage(buffer: seq<uint8>, numVertex: nat)
    | ViewMessage(view: seq<real>, splats: real)

  /** `{ ...buffers, center, scale, color, quat }`: the reply's arrays replace the per-instance ones. */
  function ApplyReply(b: Buffers, reply: WorkerReply): (r: Buffers)
    ensures r.index == b.index && r.position == b.position
    ensures r.center == reply.center && r.scale == reply.scale
    ensures r.color == reply.color && r.quat == reply.quat
  {
    b.(center := reply.center, scale := reply.scale, color := reply.color, quat := reply.quat)
  }

  /** The buffers after a reply depend only on the reply and the quad, not on earlier replies. */
  lemma ReplyReplacesEverySplat(b1: Buffers, b2: Buffers, reply: WorkerReply)
    requires b1.index == b2.index && b1.position == b2.position
    ensures ApplyReply(b1, reply) == ApplyReply(b2, reply)
  {
  }

  /**
   * The component between renders. React runs a commit's effects in declaration order against
   * the values of that render, queues their state updates and applies them together afterwards;
   * another render and commit follow only when the state changed.
   */
  class SplatMeshState {
    /** The `data` prop: the raw splat buffer; a new prop is a new array object. */
    var data: seq<uint8>
    var maxSplats: real
    var buffers: Buffers
    var newDataReceived: bool
    /** The messages posted to the worker so far, oldest first. */
    var posted: seq<WorkerMessage>

    /**
     * The quad is never changed, every buffer message carries the record count of its buffer, and
     * between renders the flag is always set: the update that clears it is queued in the same
     * batch as the data effect's update that sets it again.
     */
    predicate Valid()
      reads this
    {
      && QuadConsistent(buffers)
      && newDataReceived
      && forall i :: 0 <= i < |posted| && posted[i].BufferMessage? ==>
           posted[i].numVertex == RecordCount(|posted[i].buffer|)
    }

    /** The first render, before any effect has run: the flag starts set. */
    constructor (initialData: seq<uint8>, initialMaxSplats: real)
      ensures Valid()
      ensures data == initialData && maxSplats == initialMaxSplats
      ensures buffers == InitialBuffers && posted == []
    {
      data := initialData;
      maxSplats := initialMaxSplats;
      buffers := InitialBuffers;
      newDataReceived := true;
      posted := [];
    }

    /**
     * One commit's buffer effects. The posting effect (dependencies data and the flag) runs when
     * either changed: if the flag is set it posts the buffer with its record count and queues
     * clearing the flag. The data effect runs when data changed and queues setting the flag. The
     * last queued value wins; the result says whether the flag changed, which means another render.
     */
    method CommitEffects(dataChanged: bool, flagChanged: bool) returns (flagUpdated: bool)
      requires QuadConsistent(buffers)
      requires forall i :: 0 <= i < |posted| && posted[i].BufferMessage? ==>
                 posted[i].numVertex == RecordCount(|posted[i].buffer|)
      modifies this`posted, this`newDataReceived
      ensures forall i :: 0 <= i < |posted| && posted[i].BufferMessage? ==>
                posted[i].numVertex == RecordCount(|posted[i].buffer|)
      ensures posted == old(posted) +
                (if (dataChanged || flagChanged) && old(newDataReceived)
                 then [BufferMessage(data, RecordCount(|data|))] else [])
      ensures newDataReceived ==
                (if dataChanged then true
                 else if flagChanged && old(newDataReceived) then false
                 else old(newDataReceived))
      ensures flagUpdated <==> newDataReceived != old(newDataReceived)
    {
      var snapshot := newDataReceived;
      var queued: seq<bool> := [];
      if dataChanged || flagChanged {
        if snapshot {
          posted := posted + [BufferMessage(data, |data| / RowLength)];
          queued := queued + [false];
        }
      }
      if dataChanged {
        queued := queued + [true];
      }
      if queued != [] {
        newDataReceived := queued[|queued| - 1];
      }
      flagUpdated := newDataReceived != snapshot;
    }

    /**
     * Mounting: the first commit runs every effect; the flag ends set, so no second render
     * follows, and the initial buffer is posted once.
     */
    method Mount()
      requires Valid() && posted == []
      modifies this`posted, this`newDataReceived
      ensures Valid()
      ensures posted == [BufferMessage(data, RecordCount(|data|))]
    {
      var again := CommitEffects(true, false);
      // The flag did not change, so no further render and commit follow.
      assert !again;
    }

    /**
     * A new `data` prop: both effects run in the commit that follows; the buffer is posted once
     * with its record count and the flag stays set, so no further render posts it again.
     */
    method ReceiveData(newData: seq<uint8>)
      requires Valid()
      modifies this`data, this`posted, this`newDataReceived
      ensures Valid()
      ensures data == newData
      ensures posted == old(posted) + [BufferMessage(newData, RecordCount(|newData|))]
    {
      data := newData;
      var again := CommitEffects(true, false);
      // The flag did not change, so no further render and commit follow.
      assert !again;
    }

    /** The per-frame callback: posts the camera matrix with the current splat count (`numVertex`). */
    method Frame(viewProj: seq<real>)
      requires Valid()
      modifies this`posted
      ensures Valid()
      ensures posted == old(posted) + [ViewMessage(viewProj, CenterCount(buffers))]
    {
      posted := posted + [ViewMessage(viewProj, |buffers.center| as real / 3.0)];
    }

    /** The worker's onmessage: the reply's four arrays replace the per-instance buffers. */
    method OnWorkerReply(reply: WorkerReply)
      requires Valid()
      modifies this`buffers
      ensures Valid()
      ensures buffers == ApplyReply(old(buffers), reply)
    {
      buffers := buffers.(center := reply.center, scale := reply.scale, color := reply.color, quat := reply.quat);
    }

    /** The instance count of the current render. */
    function Instances(): (r: real)
      reads this
      ensures r <= maxSplats && r <= CenterCount(buffers)
    {
      InstanceCount(buffers, maxSplats)
    }
  }

  // ---------------------------------------------------------------------------------------------
  // A mesh's life

  /** What happens to a mounted mesh: a new `data` prop, a frame, or a reply from the worker. */
  datatype MeshEvent =
    | DataEvent(bytes: seq<uint8>)
    | FrameEvent(viewProj: seq<real>)
    | ReplyEvent(reply: WorkerReply)

  /** The buffer messages among the posted messages, in the order they were posted. */
  function BufferPosts(msgs: seq<WorkerMessage>): (r: seq<WorkerMessage>)
    ensures |r| <= |msgs|
    ensures forall m :: m in r ==> m in msgs && m.BufferMessage?
  {
    if msgs == [] then []
    else
      var last := msgs[|msgs| - 1];
      BufferPosts(msgs[..|msgs| - 1]) + (if last.BufferMessage? then [last] else [])
  }

  /** The buffers a schedule hands the mesh, in order. */
  function DataOf(events: seq<MeshEvent>): (r: seq<seq<uint8>>)
    ensures |r| <= |events|
    ensures forall b :: b in r ==> DataEvent(b) in events
  {
    if events == [] then []
    else
      var last := events[|events| - 1];
      DataOf(events[..|events| - 1]) + (if last.DataEvent? then [last.bytes] else [])
  }

  /** The buffer message a mesh owes each buffer: the buffer and its record count. */
  function BufferMessagesFor(buffers: seq<seq<uint8>>): (r: seq<WorkerMessage>)
    ensures |r| == |buffers|
    ensures forall i :: 0 <= i < |buffers| ==> r[i] == BufferMessage(buffers[i], RecordCount(|buffers[i]|))
  {
    seq(|buffers|, i requires 0 <= i < |buffers| => BufferMessage(buffers[i], RecordCount(|buffers[i]|)))
  }

  /** Posting one more message adds it to the buffer messages exactly when it is one. */
  lemma BufferPostsStep(msgs: seq<WorkerMessage>, m: WorkerMessage)
    ensures BufferPosts(msgs + [m]) == BufferPosts(msgs) + (if m.BufferMessage? then [m] else [])
  {
    assert (msgs + [m])[..|msgs|] == msgs;
  }

  /** One more event adds its buffer, if it carries one, to the buffers handed over. */
  lemma DataOfStep(events: seq<MeshEvent>, i: nat)
    requires i < |events|
    ensures DataOf(events[..i + 1]) ==
            DataOf(events[..i]) + (if events[i].DataEvent? then [events[i].bytes] else [])
  {
    assert events[..i + 1][..i] == events[..i];
  }

  /** The messages owed for one more buffer are the old ones and that buffer's message. */
  lemma BufferMessagesForStep(buffers: seq<seq<uint8>>, extra: seq<seq<uint8>>)
    requires |extra| <= 1
    ensures BufferMessagesFor(buffers + extra) ==
            BufferMessagesFor(buffers) + (if extra == [] then [] else [BufferMessage(extra[0], RecordCount(|extra[0]|))])
  {
  }

  /** The message a buffer is owed, for an event that hands one over. */
  function OwedFor(e: MeshEvent): (r: seq<WorkerMessage>)
    ensures e.DataEvent? ==> r == [BufferMessage(e.bytes, RecordCount(|e.bytes|))]
    ensures !e.DataEvent? ==> r == []
  {
    if e.DataEvent? then [BufferMessage(e.bytes, RecordCount(|e.bytes|))] else []
  }

  /** One event: a new buffer is posted once, a frame posts no buffer, a reply posts nothing. */
  method HandleEvent(mesh: SplatMeshState, e: MeshEvent)
    requires mesh.Valid()
    modifies mesh
    ensures mesh.Valid()
    ensures BufferPosts(mesh.posted) == old(BufferPosts(mesh.posted)) + OwedFor(e)
  {
    ghost var before := mesh.posted;
    match e
    case DataEvent(bytes) =>
      mesh.ReceiveData(bytes);
      BufferPostsStep(before, BufferMessage(bytes, RecordCount(|bytes|)));
    case FrameEvent(viewProj) =>
      mesh.Frame(viewProj);
      BufferPostsStep(before, mesh.posted[|mesh.posted| - 1]);
    case ReplyEvent(reply) =>
      mesh.OnWorkerReply(reply);
  }

  /** One more event of the schedule owes exactly the message OwedFor names. */
  lemma OwedStep(first: seq<uint8>, events: seq<MeshEvent>, i: nat)
    requires i < |events|
    ensures BufferMessagesFor([first] + DataOf(events[..i + 1])) ==
            BufferMessagesFor([first] + DataOf(events[..i])) + OwedFor(events[i])
  {
    DataOfStep(events, i);
    var extra := if events[i].DataEvent? then [events[i].bytes] else [];
    BufferMessagesForStep([first] + DataOf(events[..i]), extra);
    assert [first] + DataOf(events[..i + 1]) == [first] + DataOf(events[..i]) + extra;
  }

  /** Before any event, the mount's one buffer message is all that is owed. */
  lemma OwedAtMount(first: seq<uint8>, events: seq<MeshEvent>)
    ensures BufferPosts([BufferMessage(first, RecordCount(|first|))]) ==
            BufferMessagesFor([first] + DataOf(events[..0]))
  {
    BufferPostsStep([], BufferMessage(first, RecordCount(|first|)));
    assert events[..0] == [];
  }

  /**
   * Over a mesh's life, whatever mix of new data, frames and worker replies follows the mount, the
   * buffer messages it posts are one per buffer it was given, in order, each with its record count.
   */
  method Lifetime(first: seq<uint8>, maxSplats: real, events: seq<MeshEvent>) returns (mesh: SplatMeshState)
    ensures fresh(mesh) && mesh.Valid()
    ensures BufferPosts(mesh.posted) == BufferMessagesFor([first] + DataOf(events))
  {
    mesh := new SplatMeshState(first, maxSplats);
    mesh.Mount();
    OwedAtMount(first, events);
    for i := 0 to |events|
      invariant fresh(mesh) && mesh.Valid()
      invariant BufferPosts(mesh.posted) == BufferMessagesFor([first] + DataOf(events[..i]))
    {
      OwedStep(first, events, i);
      HandleEvent(mesh, events[i]);
    }
    assert events[..|events|] == events;
  }
}
