/** Batching of video frames: the camera HAL collects a fixed number of frames into one of three
    metadata slots, writing each frame's words transposed into the slot's native handle, and hands
    the full slot to the encoder. */
module VideoBatch {
  import opened Sequences

  const META_SLOTS := 3          // CAMERA_MIN_VIDEO_BATCH_BUFFERS
  const MAX_BATCH := 16          // CAMERA_MAX_CONSUMER_BATCH_BUFFER_SIZE
  const FIELDS := 6              // fd, offset, size, usage, timestamp, format

  datatype Frame = Frame(buf: nat, ts: int, fd: int, size: int, usage: int, format: int)

  datatype MetaSlot = MetaSlot(consumerOwned: bool, numBuffers: nat, bufIndex: seq<nat>)

  /** The stream's batching state. `curMem` is whether mCurMetaMemory is set. */
  datatype Batch = Batch(
    curMem: bool, curBuf: int, curMeta: int, firstTs: int,
    slots: seq<MetaSlot>, handles: seq<seq<int>>)

  datatype Outcome = Dropped | Stored | Full(slot: nat, timestamp: int)

  /** Conversion of a wider integer to int. */
  function Int32(x: int): (r: int)
    ensures -0x8000_0000 <= r < 0x8000_0000 && (x - r) % 0x1_0000_0000 == 0
    ensures -0x8000_0000 <= x < 0x8000_0000 ==> r == x
  {
    (x + 0x8000_0000) % 0x1_0000_0000 - 0x8000_0000
  }

  /** The word for one field of a frame. */
  function Word(field: nat, f: Frame, firstTs: int): int {
    match field
    case 0 => f.fd
    case 1 => 0
    case 2 => Int32(f.size)
    case 3 => f.usage
    case 4 => Int32(f.ts - firstTs)
    case _ => f.format
  }

  function PutWords(data: seq<int>, f: Frame, index: nat, fdCnt: nat, firstTs: int): (r: seq<int>)
    requires index < fdCnt && |data| == FIELDS * fdCnt
    ensures |r| == |data|
  {
    data[index := Word(0, f, firstTs)]
        [index + fdCnt := Word(1, f, firstTs)]
        [index + fdCnt * 2 := Word(2, f, firstTs)]
        [index + fdCnt * 3 := Word(3, f, firstTs)]
        [index + fdCnt * 4 := Word(4, f, firstTs)]
        [index + fdCnt * 5 := Word(5, f, firstTs)]
  }

  predicate Shaped(b: Batch, fdCnt: nat) {
    && 1 <= fdCnt <= MAX_BATCH
    && |b.slots| == |b.handles| == META_SLOTS
    && (forall i :: 0 <= i < META_SLOTS ==> |b.slots[i].bufIndex| == MAX_BATCH && |b.handles[i]| == FIELDS * fdCnt)
    && (b.curMem ==> 0 <= b.curMeta < META_SLOTS && 0 <= b.curBuf < fdCnt)
    && (!b.curMem ==> b.curBuf == -1 && b.curMeta == -1)
  }

  /** The first slot the consumer does not own, or META_SLOTS. */
  function FreeSlot(slots: seq<MetaSlot>): (i: nat)
    ensures i <= |slots|
    ensures i < |slots| ==> !slots[i].consumerOwned
    ensures forall j :: 0 <= j < i ==> slots[j].consumerOwned
  {
    First(slots, (x: MetaSlot) => !x.consumerOwned)
  }

  lemma FreeSlotUnique(slots: seq<MetaSlot>, i: nat)
    requires i <= |slots| && (i < |slots| ==> !slots[i].consumerOwned)
    requires forall j :: 0 <= j < i ==> slots[j].consumerOwned
    ensures FreeSlot(slots) == i
  {}

  /** A new batch opens in the first free slot, if there is one. */
  function Opened(b: Batch): Batch {
    var i := FreeSlot(b.slots);
    if b.curMem || i >= |b.slots| then b
    else b.(curMem := true, curBuf := 0, curMeta := i, slots := b.slots[i := b.slots[i].(numBuffers := 0)])
  }

  function Put(b: Batch, f: Frame, fdCnt: nat): Batch
    requires Shaped(b, fdCnt) && b.curMem
  {
    var m, firstTs := b.curMeta, if b.curBuf == 0 then f.ts else b.firstTs;
    var s := b.slots[m];
    var last := b.curBuf + 1 == fdCnt;
    Batch(!last, if last then -1 else b.curBuf + 1, if last then -1 else m, firstTs,
          b.slots[m := MetaSlot(true, s.numBuffers + 1, s.bufIndex[b.curBuf := f.buf % 256])],
          b.handles[m := PutWords(b.handles[m], f, b.curBuf, fdCnt, firstTs)])
  }

  function AfterFrame(b: Batch, f: Frame, fdCnt: nat): Batch
    requires Shaped(b, fdCnt)
  {
    var o := Opened(b);
    if !o.curMem then b else Put(o, f, fdCnt)
  }

  function OutcomeOf(b: Batch, f: Frame, fdCnt: nat): Outcome
    requires Shaped(b, fdCnt)
  {
    var o := Opened(b);
    if !o.curMem then Dropped
    else if o.curBuf + 1 < fdCnt then Stored
    else Full(o.curMeta, Put(o, f, fdCnt).firstTs)
  }

  lemma AfterFrameShaped(b: Batch, f: Frame, fdCnt: nat)
    requires Shaped(b, fdCnt)
    ensures Shaped(Opened(b), fdCnt) && Shaped(AfterFrame(b, f, fdCnt), fdCnt)
  {}

  function Listed(s: MetaSlot): seq<nat>
    requires s.numBuffers <= |s.bufIndex|
  {
    s.bufIndex[..s.numBuffers]
  }

  /** Whether an index stands for a slot with buffers listed, not for a plain buffer. */
  predicate IsBatch(b: Batch, slot: nat) {
    slot < |b.slots| && b.slots[slot].numBuffers > 0
  }

  function Returned(b: Batch, slot: nat): Batch {
    if !IsBatch(b, slot) then b
    else b.(slots := b.slots[slot := b.slots[slot].(consumerOwned := false, numBuffers := 0)])
  }

  class VideoStream {
    const fdCnt: nat
    var curMem: bool
    var curBuf: int
    var curMeta: int
    var firstTs: int
    const slots: array<MetaSlot>
    const handles: array<seq<int>>

    ghost function Abs(): Batch
      reads this, slots, handles
    {
      Batch(curMem, curBuf, curMeta, firstTs, slots[..], handles[..])
    }

    ghost predicate Valid()
      reads this, slots, handles
    {
      Shaped(Abs(), fdCnt)
    }

    constructor (fdCnt: nat, data: seq<int>)
      requires 1 <= fdCnt <= MAX_BATCH && |data| == FIELDS * fdCnt
      ensures Valid() && fresh(slots) && fresh(handles) && this.fdCnt == fdCnt
      ensures !curMem && forall i :: 0 <= i < META_SLOTS ==> slots[..][i] == MetaSlot(false, 0, slots[..][i].bufIndex)
    {
      this.fdCnt := fdCnt;
      curMem, curBuf, curMeta, firstTs := false, -1, -1, 0;
      var empty := seq(MAX_BATCH, _ => 0);
      slots := new MetaSlot[META_SLOTS](_ => MetaSlot(false, 0, empty));
      handles := new seq<int>[META_SLOTS](_ => data);
    }

    /** The frame's words go `fdCnt` apart into the handle. */
    method FillWords(f: Frame, m: nat, index: nat)
      requires m < handles.Length && index < fdCnt && |handles[m]| == FIELDS * fdCnt
      modifies handles
      ensures handles[..] == old(handles[..])[m := PutWords(old(handles[m]), f, index, fdCnt, firstTs)]
    {
      var nh := handles[m];
      nh := nh[index := f.fd];
      nh := nh[index + fdCnt := 0];
      nh := nh[index + fdCnt * 2 := Int32(f.size)];
      nh := nh[index + fdCnt * 3 := f.usage];
      nh := nh[index + fdCnt * 4 := Int32(f.ts - firstTs)];
      nh := nh[index + fdCnt * 5 := f.format];
      handles[m] := nh;
    }

    method Open()
      requires Valid()
      modifies this, slots
      ensures Valid() && Abs() == Opened(old(Abs()))
    {
      if !curMem || curBuf == -1 {
        for i := 0 to META_SLOTS
          invariant Valid() && Abs() == old(Abs())
          invariant forall j :: 0 <= j < i ==> slots[..][j].consumerOwned
        {
          if !slots[i].consumerOwned {
            FreeSlotUnique(slots[..], i);
            curMem, curBuf, curMeta := true, 0, i;
            slots[i] := slots[i].(numBuffers := 0);
            return;
          }
        }
        FreeSlotUnique(slots[..], META_SLOTS);
      }
    }

    /** The frame goes into the current slot, which is full after `fdCnt` of them. */
    method Store(f: Frame) returns (outcome: Outcome)
      requires Valid() && curMem
      modifies this, slots, handles
      ensures Abs() == Put(old(Abs()), f, fdCnt)
      ensures outcome == if old(curBuf) + 1 < fdCnt then Stored else Full(old(curMeta), Abs().firstTs)
    {
      ghost var before := Abs();
      var index, m := curBuf, curMeta;
      if index == 0 {
        firstTs := f.ts;
      }
      slots[m] := slots[m].(bufIndex := slots[m].bufIndex[index := f.buf % 256],
                            numBuffers := slots[m].numBuffers + 1, consumerOwned := true);
      FillWords(f, m, index);
      curBuf := curBuf + 1;
      outcome := Stored;
      if curBuf == fdCnt {
        outcome := Full(m, firstTs);
        curBuf := -1;
        curMeta := -1;
        curMem := false;
      }
      assert Abs() == Put(before, f, fdCnt);
    }

    /** One frame of the video stream in batch mode. Without a free slot it is dropped, and the
        caller gives its buffer back. */
    method VideoFrame(f: Frame) returns (outcome: Outcome)
      requires Valid()
      modifies this, slots, handles
      ensures Valid()
      ensures Abs() == AfterFrame(old(Abs()), f, fdCnt)
      ensures outcome == OutcomeOf(old(Abs()), f, fdCnt)
    {
      AfterFrameShaped(Abs(), f, fdCnt);
      Open();
      if !curMem {
        curBuf := -1;
        return Dropped;
      }
      outcome := Store(f);
    }

    /** The consumer gives an index back. If it is a slot with buffers listed, all of them return to
        the driver and the slot is free again; otherwise it is taken for a plain buffer. */
    method BufDone(slot: nat) returns (returned: seq<nat>)
      requires Valid() && (slot < META_SLOTS ==> slots[slot].numBuffers <= MAX_BATCH)
      modifies slots
      ensures Valid() && Abs() == Returned(old(Abs()), slot)
      ensures returned == if IsBatch(old(Abs()), slot) then Listed(old(Abs()).slots[slot]) else [slot]
    {
      returned := [];
      if slot < META_SLOTS && slots[slot].numBuffers > 0 {
        var n := slots[slot].numBuffers;
        for i := 0 to n
          invariant unchanged(slots) && returned == slots[slot].bufIndex[..i]
        {
          returned := returned + [slots[slot].bufIndex[i]];
        }
        slots[slot] := slots[slot].(consumerOwned := false, numBuffers := 0);
      } else {
        returned := [slot];
      }
    }
  }
}
