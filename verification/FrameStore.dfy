/** The storage of the v1 pipeline: one global pool of buffers shared by all cameras, and the places
    at which a goroutine, a channel or a queue holds slices of them. A step of the pipeline is built
    from the operations below, each of which is atomic: nobody but the holder of a slice can tell
    how it is divided further. */
module FrameStore {
  import opened JpegStream

  /** The largest capacity that goes back into the pool. */
  const MAX_POOLED := 2000 * 1024 * 1024

  /** Where slices are. */
  datatype Place =
    | Reader(cam: nat)       // the reader's frameData
    | Channel(cam: nat)      // the channel from the reader to the capture loop
    | Hand(cam: nat)         // the capture loop's frame
    | Next(cam: nat)         // its oldFrame, while it flushes
    | Evicted(cam: nat)      // the frame that Push took out to make room
    | Buffer(cam: nat)       // the drop-oldest frame buffer
    | Dispatcher(cam: nat)   // the frame that the dispatcher popped
    | Jobs                   // the queue of the worker pool
    | Worker(id: nat)        // the job that a worker runs

  datatype Stage = Raw | Ready | Published | Done

  /** A slice of a pooled buffer, with a note of which frame it was taken for: the `index`-th
      frame that camera `cam` made. The `owner` is the camera id that a capture loop writes on it
      when it puts it into its frame buffer; before that it means nothing. */
  datatype Slice = Slice(cam: nat, index: nat, buf: nat, size: nat, stage: Stage, owner: nat)

  /** Bytes that left the pipeline, under the camera id that was written on them, and whether the broker
      took them. */
  datatype Output = Output(cam: nat, index: nat, bytes: Bytes, ok: bool)

  datatype FrameId = FrameId(cam: nat, index: nat)

  /** A frame whose Release was called, and where it was then. */
  datatype Return = Return(frame: FrameId, from: Place)

  datatype Store = Store(
    free: multiset<nat>,           // the pool
    next: nat,                     // buffers from here on were never allocated
    mem: map<nat, Bytes>,          // what each buffer contains, up to its capacity
    held: map<Place, seq<Slice>>,
    made: map<nat, seq<Bytes>>,    // the frames each camera made, as it made them
    published: seq<Output>,
    stored: seq<Output>,
    released: seq<Return>)         // the frames whose Release was called, in that order

  /** What Get finds: a pooled buffer, or nothing, so that a new one is made. */
  datatype Found = Pooled(buf: nat) | Nothing

  function Held(st: Store, p: Place): seq<Slice> {
    if p in st.held then st.held[p] else []
  }

  function Made(st: Store, cam: nat): seq<Bytes> {
    if cam in st.made then st.made[cam] else []
  }

  function Zeros(n: nat): Bytes {
    seq(n, _ => 0)
  }

  // ----- the operations -----

  predicate CanGet(st: Store, f: Found) {
    f.Pooled? ==> f.buf in st.free
  }

  /** A buffer larger than the pool keeps is made without asking it. */
  predicate Asks(size: nat) {
    size <= MAX_POOLED
  }

  predicate Reuses(st: Store, size: nat, f: Found) {
    Asks(size) && f.Pooled? && f.buf in st.mem && size <= |st.mem[f.buf]|
  }

  /** Takes a buffer for a frame that a camera has just made: any pooled one, or a new one if the
      pool has nothing or what it gave is too small. */
  function Get(st: Store, p: Place, cam: nat, data: Bytes, f: Found): Store
    requires CanGet(st, f)
  {
    Add(Prepared(st, cam, data, f), p, NewSlice(st, cam, data, f))
  }

  function NewSlice(st: Store, cam: nat, data: Bytes, f: Found): Slice {
    Slice(cam, |Made(st, cam)|, if Reuses(st, |data|, f) then f.buf else st.next, |data|, Raw, 0)
  }

  function Prepared(st: Store, cam: nat, data: Bytes, f: Found): Store {
    var st1 := Append(st, cam, data);
    var st2 := if Asks(|data|) && f.Pooled? then Collect(st1, f.buf) else st1;
    if Reuses(st, |data|, f) then st2
    else Allocate(st2, if Asks(|data|) && f.Nothing? then MAX_POOLED else |data|)
  }

  function Append(st: Store, cam: nat, data: Bytes): Store {
    st.(made := st.made[cam := Made(st, cam) + [data]])
  }

  function Allocate(st: Store, capacity: nat): Store {
    st.(next := st.next + 1, mem := st.mem[st.next := Zeros(capacity)])
  }

  function Add(st: Store, p: Place, h: Slice): Store {
    st.(held := st.held[p := Held(st, p) + [h]])
  }

  function Restage(st: Store, p: Place, stage: Stage): Store
    requires Held(st, p) != []
  {
    st.(held := st.held[p := [Held(st, p)[0].(stage := stage)] + Held(st, p)[1..]])
  }

  /** Copies the frame into the buffer; what the buffer held beyond it stays there. */
  function Copy(st: Store, p: Place, data: Bytes): Store
    requires Held(st, p) != []
  {
    var h := Held(st, p)[0];
    Restage(Write(st, h.buf, data), p, Ready)
  }

  function Write(st: Store, b: nat, data: Bytes): Store {
    var was := if b in st.mem then st.mem[b] else [];
    st.(mem := st.mem[b := data + if |data| <= |was| then was[|data|..] else []])
  }

  /** A slice as it arrives at a place: the capture loop signs what it puts into its frame buffer. */
  function Signed(h: Slice, q: Place): Slice {
    if q.Buffer? then h.(owner := q.cam) else h
  }

  /** Hands the first slice at `p` on to the end of `q`. */
  function Move(st: Store, p: Place, q: Place): Store
    requires p != q && Held(st, p) != []
  {
    st.(held := st.held[p := Held(st, p)[1..]][q := Held(st, q) + [Signed(Held(st, p)[0], q)]])
  }

  /** Gives the first slice back to the pool; a buffer that is too large is left to the collector. */
  function Release(st: Store, p: Place): Store
    requires Held(st, p) != []
  {
    var h := Held(st, p)[0];
    var st1 := Logged(Abandon(st, p), Return(FrameOf(h), p));
    if h.buf in st.mem && |st.mem[h.buf]| > MAX_POOLED then st1
    else st1.(free := st.free + multiset{h.buf})
  }

  function FrameOf(h: Slice): FrameId {
    FrameId(h.cam, h.index)
  }

  function Logged(st: Store, r: Return): Store {
    st.(released := st.released + [r])
  }

  /** Forgets the first slice without giving it back. */
  function Abandon(st: Store, p: Place): Store
    requires Held(st, p) != []
  {
    st.(held := st.held[p := Held(st, p)[1..]])
  }

  /** The bytes that the first slice at `p` shows now. */
  function Bytes0(st: Store, p: Place): Bytes
    requires Held(st, p) != []
  {
    var h := Held(st, p)[0];
    if h.buf in st.mem && h.size <= |st.mem[h.buf]| then st.mem[h.buf][..h.size] else []
  }

  function Publish(st: Store, p: Place, ok: bool): Store
    requires Held(st, p) != []
  {
    var h := Held(st, p)[0];
    Restage(st, p, if ok then Published else Done)
      .(published := st.published + [Output(h.owner, h.index, Bytes0(st, p), ok)])
  }

  function Save(st: Store, p: Place): Store
    requires Held(st, p) != []
  {
    var h := Held(st, p)[0];
    Restage(st, p, Done).(stored := st.stored + [Output(h.owner, h.index, Bytes0(st, p), true)])
  }

  /** The pool drops a buffer. */
  function Collect(st: Store, b: nat): Store {
    st.(free := st.free - multiset{b})
  }

  // ----- what always holds -----

  predicate At(st: Store, p: Place, i: int) {
    0 <= i < |Held(st, p)|
  }

  predicate Differ(h: Slice, k: Slice) {
    h.buf != k.buf && (h.cam != k.cam || h.index != k.index)
  }

  /** No two slices share a buffer or stand for the same frame. */
  ghost predicate Apart(st: Store) {
    forall p, i, q, j :: At(st, p, i) && At(st, q, j) && (p != q || i != j) ==> Differ(Held(st, p)[i], Held(st, q)[j])
  }

  /** A pooled buffer is in the pool once and is held by nobody. */
  ghost predicate Pool(st: Store) {
    && (forall b :: st.free[b] <= 1)
    && (forall b :: b in st.free ==> b < st.next)
    && (forall b: nat :: b < st.next ==> b in st.mem)
    && (forall p, i :: At(st, p, i) ==> Held(st, p)[i].buf < st.next && Held(st, p)[i].buf !in st.free)
  }

  predicate Genuine(st: Store, h: Slice) {
    && h.index < |Made(st, h.cam)|
    && h.size == |Made(st, h.cam)[h.index]|
    && h.buf in st.mem && h.size <= |st.mem[h.buf]|
    && (!h.stage.Raw? ==> st.mem[h.buf][..h.size] == Made(st, h.cam)[h.index])
  }

  /** A slice that has been filled shows the frame it was taken for, byte for byte. */
  ghost predicate Contents(st: Store) {
    forall p, i :: At(st, p, i) ==> Genuine(st, Held(st, p)[i])
  }

  predicate GenuineOutput(st: Store, o: Output) {
    o.index < |Made(st, o.cam)| && o.bytes == Made(st, o.cam)[o.index]
  }

  predicate SameFrame(o: Output, cam: nat, index: nat) {
    o.cam == cam && o.index == index
  }

  ghost predicate Once(outputs: seq<Output>) {
    forall i, j :: 0 <= i < j < |outputs| ==> !SameFrame(outputs[i], outputs[j].cam, outputs[j].index)
  }

  /** What left the pipeline is genuine, no frame left twice, and a slice that has yet to be
      published or saved has not been. */
  ghost predicate Outputs(st: Store) {
    && (forall i :: 0 <= i < |st.published| ==> GenuineOutput(st, st.published[i]))
    && (forall i :: 0 <= i < |st.stored| ==> GenuineOutput(st, st.stored[i]))
    && Once(st.published) && Once(st.stored)
    && (forall p, i, n :: At(st, p, i) && 0 <= n < |st.published| && Held(st, p)[i].stage in {Raw, Ready} ==>
          !SameFrame(st.published[n], Held(st, p)[i].cam, Held(st, p)[i].index))
    && (forall p, i, n :: At(st, p, i) && 0 <= n < |st.stored| && Held(st, p)[i].stage != Done ==>
          !SameFrame(st.stored[n], Held(st, p)[i].cam, Held(st, p)[i].index))
  }

  /** No frame was released twice, and none that still has a slice was released at all. */
  ghost predicate Releases(st: Store) {
    && (forall m, n :: 0 <= m < n < |st.released| ==> st.released[m].frame != st.released[n].frame)
    && (forall n :: 0 <= n < |st.released| ==> st.released[n].frame.index < |Made(st, st.released[n].frame.cam)|)
    && (forall p, i, n :: At(st, p, i) && 0 <= n < |st.released| ==> st.released[n].frame != FrameOf(Held(st, p)[i]))
  }

  ghost predicate Sound(st: Store) {
    Apart(st) && Pool(st) && Contents(st) && Outputs(st) && Releases(st)
  }

  // ----- the operations keep it -----

  lemma {:induction false} AbandonHeld(st: Store, p: Place)
    requires Held(st, p) != []
    ensures forall r, i :: At(Abandon(st, p), r, i) ==>
              var j := if r == p then i + 1 else i;
              At(st, r, j) && Held(Abandon(st, p), r)[i] == Held(st, r)[j]
  {
    var st' := Abandon(st, p);
    assert Held(st', p) == Held(st, p)[1..];
    assert forall r :: r != p ==> Held(st', r) == Held(st, r);
  }

  lemma {:induction false} AbandonKeepsApart(st: Store, p: Place)
    requires Apart(st) && Held(st, p) != []
    ensures Apart(Abandon(st, p))
    ensures forall r, i :: At(Abandon(st, p), r, i) ==> Differ(Held(st, p)[0], Held(Abandon(st, p), r)[i])
  {
    assert At(st, p, 0);
    AbandonHeld(st, p);
  }

  lemma {:induction false} AbandonKeepsOutputs(st: Store, p: Place)
    requires Outputs(st) && Releases(st) && Held(st, p) != []
    ensures Outputs(Abandon(st, p)) && Releases(Abandon(st, p))
  {
    AbandonHeld(st, p);
  }

  lemma {:induction false} AbandonKeeps(st: Store, p: Place)
    requires Sound(st) && Held(st, p) != []
    ensures Sound(Abandon(st, p))
    ensures forall r, i :: At(Abandon(st, p), r, i) ==> Differ(Held(st, p)[0], Held(Abandon(st, p), r)[i])
  {
    AbandonHeld(st, p);
    AbandonKeepsApart(st, p);
    AbandonKeepsOutputs(st, p);
  }

  lemma {:induction false} AddHeld(st: Store, p: Place, h: Slice)
    ensures var st' := Add(st, p, h);
            forall r, i :: At(st', r, i) ==>
              if r == p && i == |Held(st, p)| then Held(st', r)[i] == h
              else At(st, r, i) && Held(st', r)[i] == Held(st, r)[i]
  {
    var st' := Add(st, p, h);
    assert Held(st', p) == Held(st, p) + [h];
    assert forall r :: r != p ==> Held(st', r) == Held(st, r);
  }

  /** A slice may be added if it is apart from all others, its buffer is not in the pool, and it
      shows what it should. */
  ghost predicate Welcome(st: Store, h: Slice) {
    && (forall p, i :: At(st, p, i) ==> Differ(h, Held(st, p)[i]))
    && h.buf < st.next && h.buf !in st.free
    && Genuine(st, h)
    && (h.stage in {Raw, Ready} ==> forall n :: 0 <= n < |st.published| ==> !SameFrame(st.published[n], h.cam, h.index))
    && (h.stage != Done ==> forall n :: 0 <= n < |st.stored| ==> !SameFrame(st.stored[n], h.cam, h.index))
    && (forall n :: 0 <= n < |st.released| ==> st.released[n].frame != FrameOf(h))
  }

  lemma {:induction false} AddKeeps(st: Store, p: Place, h: Slice)
    requires Sound(st) && Welcome(st, h)
    ensures Sound(Add(st, p, h))
  {
    AddHeld(st, p, h);
    AddKeepsApart(st, p, h);
    AddKeepsOutputs(st, p, h);
    AddKeepsReleases(st, p, h);
  }

  lemma {:induction false} AddKeepsReleases(st: Store, p: Place, h: Slice)
    requires Releases(st) && forall n :: 0 <= n < |st.released| ==> st.released[n].frame != FrameOf(h)
    ensures Releases(Add(st, p, h))
  {
    AddHeld(st, p, h);
  }

  lemma {:induction false} AddKeepsApart(st: Store, p: Place, h: Slice)
    requires Apart(st) && forall p, i :: At(st, p, i) ==> Differ(h, Held(st, p)[i])
    ensures Apart(Add(st, p, h))
  {
    AddHeld(st, p, h);
  }

  lemma {:induction false} AddKeepsOutputs(st: Store, p: Place, h: Slice)
    requires Outputs(st) && Welcome(st, h)
    ensures Outputs(Add(st, p, h))
  {
    AddHeld(st, p, h);
  }

  lemma {:induction false} MoveKeeps(st: Store, p: Place, q: Place)
    requires Sound(st) && p != q && Held(st, p) != []
    ensures Sound(Move(st, p, q))
  {
    assert At(st, p, 0);
    AbandonKeeps(st, p);
    AddKeeps(Abandon(st, p), q, Signed(Held(st, p)[0], q));
  }

  /** Only buffers, the pool and outputs depend on the pool and on the memory. */
  lemma {:induction false} Framed(st: Store, st': Store)
    requires Apart(st) && Outputs(st) && Releases(st)
    requires st'.held == st.held && st'.made == st.made
    requires st'.published == st.published && st'.stored == st.stored && st'.released == st.released
    ensures Apart(st') && Outputs(st') && Releases(st')
    ensures forall p :: Held(st', p) == Held(st, p)
    ensures forall c :: Made(st', c) == Made(st, c)
  {
    SamePlaces(st, st');
    FramedOutputs(st, st');
  }

  lemma {:induction false} SamePlaces(st: Store, st': Store)
    requires st'.held == st.held && st'.made == st.made
    ensures forall p :: Held(st', p) == Held(st, p)
    ensures forall c :: Made(st', c) == Made(st, c)
  {
  }

  lemma {:induction false} FramedOutputs(st: Store, st': Store)
    requires Outputs(st) && st'.held == st.held && st'.made == st.made
    requires st'.published == st.published && st'.stored == st.stored
    ensures Outputs(st')
  {
    SamePlaces(st, st');
  }

  /** Nothing but outputs depends on what left the pipeline. */
  lemma {:induction false} FramedStorage(st: Store, st': Store)
    requires Apart(st) && Pool(st) && Contents(st) && Releases(st)
    requires st'.held == st.held && st'.made == st.made && st'.released == st.released
    requires st'.free == st.free && st'.next == st.next && st'.mem == st.mem
    ensures Apart(st') && Pool(st') && Contents(st') && Releases(st')
  {
    SamePlaces(st, st');
  }

  lemma {:induction false} LogKeeps(st: Store, r: Return)
    requires Sound(st) && r.frame.index < |Made(st, r.frame.cam)|
    requires forall n :: 0 <= n < |st.released| ==> st.released[n].frame != r.frame
    requires forall p, i :: At(st, p, i) ==> FrameOf(Held(st, p)[i]) != r.frame
    ensures Sound(Logged(st, r))
  {
    SamePlaces(st, Logged(st, r));
    FramedOutputs(st, Logged(st, r));
    LogKeepsReleases(st, r);
  }

  lemma {:induction false} LogKeepsReleases(st: Store, r: Return)
    requires Releases(st) && r.frame.index < |Made(st, r.frame.cam)|
    requires forall n :: 0 <= n < |st.released| ==> st.released[n].frame != r.frame
    requires forall p, i :: At(st, p, i) ==> FrameOf(Held(st, p)[i]) != r.frame
    ensures Releases(Logged(st, r))
  {
    SamePlaces(st, Logged(st, r));
  }

  lemma {:induction false} FreeKeeps(st: Store, b: nat)
    requires Sound(st) && b < st.next && b !in st.free
    requires forall p, i :: At(st, p, i) ==> Held(st, p)[i].buf != b
    ensures Sound(st.(free := st.free + multiset{b}))
  {
    Framed(st, st.(free := st.free + multiset{b}));
  }

  lemma {:induction false} CollectKeeps(st: Store, b: nat)
    requires Sound(st)
    ensures Sound(Collect(st, b))
    ensures b !in Collect(st, b).free
  {
    Framed(st, Collect(st, b));
  }

  /** A frame is released for the first time, and its buffer, which was not in the pool, goes back there if
      it has at most 2097152000 bytes. */
  lemma {:induction false} ReleaseKeeps(st: Store, p: Place)
    requires Sound(st) && Held(st, p) != []
    ensures Sound(Release(st, p))
    ensures var h, st' := Held(st, p)[0], Release(st, p);
            && h.buf !in st.free && WasNotReleased(st, FrameOf(h))
            && st'.released == st.released + [Return(FrameOf(h), p)]
            && h.buf in st.mem && st'.mem == st.mem
            && st'.free == if |st.mem[h.buf]| <= 2_097_152_000 then st.free + multiset{h.buf} else st.free
  {
    var h := Held(st, p)[0];
    var rest, r := Abandon(st, p), Return(FrameOf(h), p);
    assert At(st, p, 0) && Genuine(st, h);
    AbandonKeeps(st, p);
    LogKeeps(rest, r);
    SamePlaces(rest, Logged(rest, r));
    FreeKeeps(Logged(rest, r), h.buf);
  }

  predicate WasNotReleased(st: Store, f: FrameId) {
    forall n :: 0 <= n < |st.released| ==> st.released[n].frame != f
  }

  /** The first slice's stage may change if its buffer shows the frame and the new stage does not
      promise a publication or a saving that has already happened. */
  lemma {:induction false} RestageKeeps(st: Store, p: Place, stage: Stage)
    requires Sound(st) && Held(st, p) != [] && Genuine(st, Held(st, p)[0].(stage := stage))
    requires stage == match Held(st, p)[0].stage
                      case Raw => Ready
                      case Ready => if stage.Done? then Done else Published
                      case Published => Done
                      case Done => Done
    ensures Sound(Restage(st, p, stage))
  {
    RestageKeepsStorage(st, p, stage);
    RestageKeepsApart(st, p, stage);
    RestageKeepsOutputs(st, p, stage);
    RestageKeepsReleases(st, p, stage);
  }

  lemma {:induction false} RestageKeepsStorage(st: Store, p: Place, stage: Stage)
    requires Pool(st) && Contents(st) && Held(st, p) != [] && Genuine(st, Held(st, p)[0].(stage := stage))
    ensures Pool(Restage(st, p, stage)) && Contents(Restage(st, p, stage))
  {
    RestageHeld(st, p, stage);
  }

  lemma {:induction false} RestageKeepsReleases(st: Store, p: Place, stage: Stage)
    requires Releases(st) && Held(st, p) != []
    ensures Releases(Restage(st, p, stage))
  {
    RestageHeld(st, p, stage);
    assert At(st, p, 0);
  }

  lemma {:induction false} RestageKeepsOutputs(st: Store, p: Place, stage: Stage)
    requires Outputs(st) && Held(st, p) != []
    requires stage.Raw? || stage.Ready? ==> Held(st, p)[0].stage in {Raw, Ready}
    requires stage != Done ==> Held(st, p)[0].stage != Done
    ensures Outputs(Restage(st, p, stage))
  {
    RestageHeld(st, p, stage);
    assert At(st, p, 0);
  }

  lemma {:induction false} RestageHeld(st: Store, p: Place, stage: Stage)
    requires Held(st, p) != []
    ensures forall r, i :: At(Restage(st, p, stage), r, i) ==>
              At(st, r, i) && Held(Restage(st, p, stage), r)[i] ==
                              if r == p && i == 0 then Held(st, p)[0].(stage := stage) else Held(st, r)[i]
  {
    var st' := Restage(st, p, stage);
    assert forall r :: r != p ==> Held(st', r) == Held(st, r);
  }

  lemma {:induction false} RestageKeepsApart(st: Store, p: Place, stage: Stage)
    requires Apart(st) && Held(st, p) != []
    ensures Apart(Restage(st, p, stage))
  {
    RestageHeld(st, p, stage);
  }

  /** A buffer may be written while the one slice that holds it is unfilled. */
  lemma {:induction false} WriteKeeps(st: Store, p: Place, data: Bytes)
    requires Sound(st) && Held(st, p) != [] && Held(st, p)[0].stage.Raw? && |data| == Held(st, p)[0].size
    ensures Sound(Write(st, Held(st, p)[0].buf, data))
    ensures Write(st, Held(st, p)[0].buf, data).mem[Held(st, p)[0].buf][..|data|] == data
  {
    var h := Held(st, p)[0];
    var st' := Write(st, h.buf, data);
    Framed(st, st');
    assert At(st, p, 0) && Genuine(st, h);
    forall r, i | At(st, r, i)
      ensures Genuine(st', Held(st, r)[i])
    {
      assert Genuine(st, Held(st, r)[i]);
      assert (r == p && i == 0) || Differ(Held(st, r)[i], h);
    }
  }

  lemma {:induction false} CopyKeeps(st: Store, p: Place, data: Bytes)
    requires Sound(st) && Held(st, p) != []
    requires var h := Held(st, p)[0]; h.stage.Raw? && At(st, p, 0) && Genuine(st, h) && data == Made(st, h.cam)[h.index]
    ensures Sound(Copy(st, p, data))
  {
    WriteKeeps(st, p, data);
    RestageKeeps(Write(st, Held(st, p)[0].buf, data), p, Ready);
  }

  lemma {:induction false} PublishKeeps(st: Store, p: Place, ok: bool)
    requires Sound(st) && FirstIs(st, p, Ready) && Held(st, p)[0].owner == Held(st, p)[0].cam
    ensures Sound(Publish(st, p, ok))
  {
    var h, stage := Held(st, p)[0], if ok then Published else Done;
    assert At(st, p, 0) && Genuine(st, h);
    RestageKeeps(st, p, stage);
    RestageHeld(st, p, stage);
    PublishedKeeps(Restage(st, p, stage), Output(h.owner, h.index, Bytes0(st, p), ok));
  }

  lemma {:induction false} SaveKeeps(st: Store, p: Place)
    requires Sound(st) && FirstIs(st, p, Published) && Held(st, p)[0].owner == Held(st, p)[0].cam
    ensures Sound(Save(st, p))
  {
    var h := Held(st, p)[0];
    assert At(st, p, 0) && Genuine(st, h);
    RestageKeeps(st, p, Done);
    RestageHeld(st, p, Done);
    StoredKeeps(Restage(st, p, Done), Output(h.owner, h.index, Bytes0(st, p), true));
  }

  lemma {:induction false} PublishedKeeps(st: Store, o: Output)
    requires Sound(st) && GenuineOutput(st, o)
    requires forall n :: 0 <= n < |st.published| ==> !SameFrame(st.published[n], o.cam, o.index)
    requires forall p, i :: At(st, p, i) && SameFrame(o, Held(st, p)[i].cam, Held(st, p)[i].index) ==>
               Held(st, p)[i].stage !in {Raw, Ready}
    ensures Sound(st.(published := st.published + [o]))
  {
    FramedStorage(st, st.(published := st.published + [o]));
    PublishedKeepsOutputs(st, o);
  }

  lemma {:induction false} PublishedKeepsOutputs(st: Store, o: Output)
    requires Outputs(st) && GenuineOutput(st, o)
    requires forall n :: 0 <= n < |st.published| ==> !SameFrame(st.published[n], o.cam, o.index)
    requires forall p, i :: At(st, p, i) && SameFrame(o, Held(st, p)[i].cam, Held(st, p)[i].index) ==>
               Held(st, p)[i].stage !in {Raw, Ready}
    ensures Outputs(st.(published := st.published + [o]))
  {
    SamePlaces(st, st.(published := st.published + [o]));
    OnceAppended(st.published, o);
  }

  lemma {:induction false} StoredKeeps(st: Store, o: Output)
    requires Sound(st) && GenuineOutput(st, o)
    requires forall n :: 0 <= n < |st.stored| ==> !SameFrame(st.stored[n], o.cam, o.index)
    requires forall p, i :: At(st, p, i) && SameFrame(o, Held(st, p)[i].cam, Held(st, p)[i].index) ==>
               Held(st, p)[i].stage == Done
    ensures Sound(st.(stored := st.stored + [o]))
  {
    FramedStorage(st, st.(stored := st.stored + [o]));
    StoredKeepsOutputs(st, o);
  }

  lemma {:induction false} StoredKeepsOutputs(st: Store, o: Output)
    requires Outputs(st) && GenuineOutput(st, o)
    requires forall n :: 0 <= n < |st.stored| ==> !SameFrame(st.stored[n], o.cam, o.index)
    requires forall p, i :: At(st, p, i) && SameFrame(o, Held(st, p)[i].cam, Held(st, p)[i].index) ==>
               Held(st, p)[i].stage == Done
    ensures Outputs(st.(stored := st.stored + [o]))
  {
    SamePlaces(st, st.(stored := st.stored + [o]));
    OnceAppended(st.stored, o);
  }

  lemma {:induction false} OnceAppended(outputs: seq<Output>, o: Output)
    requires Once(outputs) && forall n :: 0 <= n < |outputs| ==> !SameFrame(outputs[n], o.cam, o.index)
    ensures Once(outputs + [o])
  {
  }

  lemma {:induction false} AppendMade(st: Store, cam: nat, data: Bytes)
    ensures var st' := Append(st, cam, data);
            && Made(st', cam) == Made(st, cam) + [data]
            && (forall c :: c != cam ==> Made(st', c) == Made(st, c))
            && forall p :: Held(st', p) == Held(st, p)
  {
  }

  lemma {:induction false} AppendKeepsOutputs(st: Store, cam: nat, data: Bytes)
    requires Outputs(st) && Releases(st)
    ensures Outputs(Append(st, cam, data)) && Releases(Append(st, cam, data))
  {
    var st' := Append(st, cam, data);
    AppendMade(st, cam, data);
    forall o | GenuineOutput(st, o)
      ensures GenuineOutput(st', o)
    {
    }
  }

  lemma {:induction false} AppendKeeps(st: Store, cam: nat, data: Bytes)
    requires Sound(st)
    ensures Sound(Append(st, cam, data))
  {
    var st' := Append(st, cam, data);
    AppendMade(st, cam, data);
    forall h | Genuine(st, h)
      ensures Genuine(st', h)
    {
    }
    AppendKeepsOutputs(st, cam, data);
  }

  lemma {:induction false} AllocateKeeps(st: Store, capacity: nat)
    requires Sound(st)
    ensures Sound(Allocate(st, capacity))
  {
    Framed(st, Allocate(st, capacity));
  }

  lemma {:induction false} PreparedIsSound(st: Store, cam: nat, data: Bytes, f: Found)
    requires Sound(st)
    ensures Sound(Prepared(st, cam, data, f))
  {
    var st1 := Append(st, cam, data);
    AppendKeeps(st, cam, data);
    if Asks(|data|) && f.Pooled? {
      CollectKeeps(st1, f.buf);
    }
    var st2 := if Asks(|data|) && f.Pooled? then Collect(st1, f.buf) else st1;
    if !Reuses(st, |data|, f) {
      AllocateKeeps(st2, if Asks(|data|) && f.Nothing? then MAX_POOLED else |data|);
    }
  }

  lemma {:induction false} PreparedFrame(st: Store, cam: nat, data: Bytes, f: Found)
    ensures var st' := Prepared(st, cam, data, f);
            && (forall p :: Held(st', p) == Held(st, p))
            && (forall k :: Made(st', k) == if k == cam then Made(st, cam) + [data] else Made(st, k))
            && st'.published == st.published && st'.stored == st.stored && st'.released == st.released
  {
  }

  /** The pool's buffer is out of the pool, held by nobody, and large enough. */
  lemma {:induction false} BufferIsFree(st: Store, cam: nat, data: Bytes, f: Found)
    requires Sound(st) && CanGet(st, f)
    ensures var b := if Reuses(st, |data|, f) then f.buf else st.next;
            var st' := Prepared(st, cam, data, f);
            && (forall p, i :: At(st, p, i) ==> Held(st, p)[i].buf != b)
            && b < st'.next && b !in st'.free && b in st'.mem && |data| <= |st'.mem[b]|
  {
    assert st.next !in st.free;
  }

  /** The store just before the new slice is put in place. */
  lemma {:induction false} GetWelcomes(st: Store, cam: nat, data: Bytes, f: Found)
    requires Sound(st) && CanGet(st, f)
    ensures var h := NewSlice(st, cam, data, f);
            Welcome(Prepared(st, cam, data, f), h)
  {
    PreparedFrame(st, cam, data, f);
    BufferIsFree(st, cam, data, f);
    NewFrame(st, cam);
    var st' := Prepared(st, cam, data, f);
    assert forall p, i :: At(st', p, i) ==> At(st, p, i);
  }

  /** The next frame of a camera has no slice yet and has not left. */
  lemma {:induction false} NewFrame(st: Store, cam: nat)
    requires Sound(st)
    ensures forall p, i :: At(st, p, i) ==> Held(st, p)[i].cam != cam || Held(st, p)[i].index != |Made(st, cam)|
    ensures forall n :: 0 <= n < |st.published| ==> !SameFrame(st.published[n], cam, |Made(st, cam)|)
    ensures forall n :: 0 <= n < |st.stored| ==> !SameFrame(st.stored[n], cam, |Made(st, cam)|)
    ensures forall n :: 0 <= n < |st.released| ==> st.released[n].frame != FrameId(cam, |Made(st, cam)|)
  {
    assert forall p, i :: At(st, p, i) ==> Genuine(st, Held(st, p)[i]);
  }

  /** A pooled buffer that is large enough is reused, and no new one is made; without one, a new one is made
      that has 2097152000 bytes, or as many as the frame if that is more. */
  lemma {:induction false} GetReuses(st: Store, p: Place, cam: nat, data: Bytes, f: Found)
    requires Sound(st) && CanGet(st, f)
    ensures var st' := Get(st, p, cam, data, f);
            var h := Held(st', p)[|Held(st', p)| - 1];
            && h.cam == cam && h.index == |Made(st, cam)| && h.size == |data|
            && (|data| <= 2_097_152_000 && f.Pooled? && |data| <= |st.mem[f.buf]| ==>
                  h.buf == f.buf && st'.mem == st.mem && st'.free == st.free - multiset{f.buf})
            && (|data| > 2_097_152_000 ==> h.buf == st.next && st'.free == st.free && |st'.mem[h.buf]| == |data|)
            && (|data| <= 2_097_152_000 && f.Nothing? ==>
                  h.buf == st.next && st'.free == st.free && |st'.mem[h.buf]| == 2_097_152_000)
  {
    PreparedFrame(st, cam, data, f);
  }

  /** Whatever buffer the pool comes up with, nobody else holds it, and the frame it is taken for
      has no other slice and has not been published. */
  lemma {:induction false} GetKeeps(st: Store, p: Place, cam: nat, data: Bytes, f: Found)
    requires Sound(st) && CanGet(st, f)
    ensures Sound(Get(st, p, cam, data, f))
  {
    PreparedIsSound(st, cam, data, f);
    GetWelcomes(st, cam, data, f);
    AddKeeps(Prepared(st, cam, data, f), p, NewSlice(st, cam, data, f));
  }

  // ----- all operations together -----

  datatype Op =
    | Nop
    | GetOp(p: Place, cam: nat, data: Bytes, found: Found)
    | CopyOp(p: Place, data: Bytes)
    | MoveOp(p: Place, q: Place)
    | ReleaseOp(p: Place)
    | AbandonOp(p: Place)
    | PublishOp(p: Place, ok: bool)
    | SaveOp(p: Place)
    | CollectOp(buf: nat)

  predicate FirstIs(st: Store, p: Place, stage: Stage) {
    Held(st, p) != [] && Held(st, p)[0].stage == stage
  }

  predicate Possible(st: Store, op: Op) {
    match op
    case Nop => true
    case GetOp(p, cam, data, found) => CanGet(st, found)
    case CopyOp(p, data) => Held(st, p) != []
    case MoveOp(p, q) => p != q && Held(st, p) != []
    case ReleaseOp(p) => Held(st, p) != []
    case AbandonOp(p) => Held(st, p) != []
    case PublishOp(p, _) => Held(st, p) != []
    case SaveOp(p) => Held(st, p) != []
    case CollectOp(_) => true
  }

  /** What the goroutine that performs a possible operation has to know besides. */
  predicate Allowed(st: Store, op: Op)
    requires Possible(st, op)
  {
    match op
    case CopyOp(p, data) =>
      FirstIs(st, p, Raw) && var h := Held(st, p)[0]; h.index < |Made(st, h.cam)| && Made(st, h.cam)[h.index] == data
    case PublishOp(p, _) => FirstIs(st, p, Ready) && Held(st, p)[0].owner == Held(st, p)[0].cam
    case SaveOp(p) => FirstIs(st, p, Published) && Held(st, p)[0].owner == Held(st, p)[0].cam
    case _ => true
  }

  function Apply(st: Store, op: Op): Store
    requires Possible(st, op)
  {
    match op
    case Nop => st
    case GetOp(p, cam, data, found) => Get(st, p, cam, data, found)
    case CopyOp(p, data) => Copy(st, p, data)
    case MoveOp(p, q) => Move(st, p, q)
    case ReleaseOp(p) => Release(st, p)
    case AbandonOp(p) => Abandon(st, p)
    case PublishOp(p, ok) => Publish(st, p, ok)
    case SaveOp(p) => Save(st, p)
    case CollectOp(b) => Collect(st, b)
  }

  /** Every operation keeps buffers unshared, contents genuine and outputs unique; and a buffer that
      is released was not in the pool. */
  lemma {:induction false} ApplyKeeps(st: Store, op: Op)
    requires Sound(st) && Possible(st, op) && Allowed(st, op)
    ensures Sound(Apply(st, op))
    ensures op.ReleaseOp? ==> Held(st, op.p)[0].buf !in st.free && WasNotReleased(st, FrameOf(Held(st, op.p)[0]))
  {
    match op
    case Nop =>
    case GetOp(p, cam, data, found) => GetKeeps(st, p, cam, data, found);
    case CopyOp(p, data) =>
      assert At(st, p, 0) && Genuine(st, Held(st, p)[0]);
      CopyKeeps(st, p, data);
    case MoveOp(p, q) => MoveKeeps(st, p, q);
    case ReleaseOp(p) => ReleaseKeeps(st, p);
    case AbandonOp(p) => AbandonKeeps(st, p);
    case PublishOp(p, ok) => PublishKeeps(st, p, ok);
    case SaveOp(p) => SaveKeeps(st, p);
    case CollectOp(b) => CollectKeeps(st, b);
  }

  /** No operation changes how large a buffer is. */
  lemma {:induction false} CapacitiesStay(st: Store, op: Op, b: nat)
    requires Sound(st) && Possible(st, op) && Allowed(st, op) && b < st.next
    ensures b in st.mem && b in Apply(st, op).mem && |Apply(st, op).mem[b]| == |st.mem[b]|
  {
    if op.CopyOp? {
      assert At(st, op.p, 0) && Genuine(st, Held(st, op.p)[0]);
    }
  }

  function Restaged(hs: seq<Slice>, stage: Stage): seq<Slice>
    requires hs != []
  {
    [hs[0].(stage := stage)] + hs[1..]
  }

  /** What is at `r` after an operation. */
  function HeldAfter(st: Store, op: Op, r: Place): seq<Slice>
    requires Possible(st, op)
  {
    var hs := Held(st, r);
    match op
    case Nop => hs
    case GetOp(p, cam, data, f) =>
      if r == p then hs + [NewSlice(st, cam, data, f)] else hs
    case CopyOp(p, _) => if r == p then Restaged(hs, Ready) else hs
    case MoveOp(p, q) => if r == p then hs[1..] else if r == q then hs + [Signed(Held(st, p)[0], q)] else hs
    case ReleaseOp(p) => if r == p then hs[1..] else hs
    case AbandonOp(p) => if r == p then hs[1..] else hs
    case PublishOp(p, ok) => if r == p then Restaged(hs, if ok then Published else Done) else hs
    case SaveOp(p) => if r == p then Restaged(hs, Done) else hs
    case CollectOp(_) => hs
  }

  function MadeAfter(st: Store, op: Op, cam: nat): seq<Bytes> {
    if op.GetOp? && op.cam == cam then Made(st, cam) + [op.data] else Made(st, cam)
  }

  lemma {:induction false} GetHeld(st: Store, op: Op, r: Place)
    requires Possible(st, op) && op.GetOp?
    ensures Held(Apply(st, op), r) == HeldAfter(st, op, r)
  {
    PreparedFrame(st, op.cam, op.data, op.found);
  }

  lemma {:induction false} RestagingHeld(st: Store, op: Op, r: Place)
    requires Possible(st, op) && (op.CopyOp? || op.PublishOp? || op.SaveOp?)
    ensures Held(Apply(st, op), r) == HeldAfter(st, op, r)
  {
  }

  lemma {:induction false} ApplyHeld(st: Store, op: Op, r: Place)
    requires Possible(st, op)
    ensures Held(Apply(st, op), r) == HeldAfter(st, op, r)
  {
    if op.GetOp? {
      GetHeld(st, op, r);
    } else if op.CopyOp? || op.PublishOp? || op.SaveOp? {
      RestagingHeld(st, op, r);
    }
  }

  lemma {:induction false} ApplyMade(st: Store, op: Op, cam: nat)
    requires Possible(st, op)
    ensures Made(Apply(st, op), cam) == MadeAfter(st, op, cam)
  {
    if op.GetOp? {
      PreparedFrame(st, op.cam, op.data, op.found);
    }
  }
}
