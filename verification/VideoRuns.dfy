/** Runs of the batched video stream: the driver hands over frames whose buffers it owns, full slots
    go to the encoder, and the encoder gives slots back. A run is any sequence of events; a
    disabled event changes nothing. */
module VideoRuns {
  import opened Arithmetic
  import opened VideoBatch

  /** What became of a slot. One still queued was reported as failed but is in the notifier's queue,
      so it goes to the consumer like one that was sent; its last buffer has been given back already.
      A stranded one never goes there; it keeps its first `kept` buffers. */
  datatype Status = Free | Filling | WithConsumer | StillQueued | Stranded(kept: nat)

  /** How the hand-over of a full slot went: the notifier took it; it was not sent because no
      callback is set or the message type is off; or the notification failed, either before the slot
      was queued or, with the slot queued, because there was no memory for the command. */
  datatype Handover = Sent | NotSent | NotQueued | CommandLost

  datatype Delivery = Delivery(slot: nat, frames: seq<Frame>, words: seq<int>, timestamp: int, handover: Handover)

  /** The driver has the buffers whose reference count is zero. */
  datatype State = State(
    b: Batch, driver: multiset<nat>, status: seq<Status>,
    // history: frames in the batch being filled, all frames accepted, full slots, and buffers given
    // back while the driver had them
    current: seq<Frame>, accepted: seq<Frame>, log: seq<Delivery>, refused: multiset<nat>)

  datatype Event = Arrive(frame: Frame, handover: Handover) | GiveBack(slot: nat)

  function StatusAfter(h: Handover, fdCnt: nat): Status
    requires fdCnt >= 1
  {
    match h
    case Sent => WithConsumer
    case NotSent => Stranded(fdCnt)
    case NotQueued => Stranded(fdCnt - 1)
    case CommandLost => StillQueued
  }

  /** A failed notification makes the caller give the frame's buffer back. */
  predicate Failed(h: Handover) {
    h == NotQueued || h == CommandLost
  }

  function Arrived(s: State, f: Frame, h: Handover, fdCnt: nat): State
    requires Shaped(s.b, fdCnt) && |s.status| == META_SLOTS
  {
    var b', m := AfterFrame(s.b, f, fdCnt), Opened(s.b).curMeta;
    match OutcomeOf(s.b, f, fdCnt)
    case Dropped => s.(b := b')
    case Stored =>
      s.(b := b', driver := s.driver - multiset{f.buf}, status := s.status[m := Filling],
         current := s.current + [f], accepted := s.accepted + [f])
    case Full(_, timestamp) =>
      s.(b := b', driver := if Failed(h) then s.driver else s.driver - multiset{f.buf},
         status := s.status[m := StatusAfter(h, fdCnt)], current := [], accepted := s.accepted + [f],
         log := s.log + [Delivery(m, s.current + [f], b'.handles[m], timestamp, h)])
  }

  /** bufDone: a buffer the driver has is refused, its reference count being zero. */
  function Done(driver: multiset<nat>, buf: nat): multiset<nat> {
    if buf in driver then driver else driver + multiset{buf}
  }

  function DoneAll(driver: multiset<nat>, bufs: seq<nat>): multiset<nat> {
    if bufs == [] then driver else Done(DoneAll(driver, bufs[..|bufs| - 1]), bufs[|bufs| - 1])
  }

  function Refusals(driver: multiset<nat>, bufs: seq<nat>): multiset<nat> {
    if bufs == [] then multiset{}
    else
      var init, last := bufs[..|bufs| - 1], bufs[|bufs| - 1];
      Refusals(driver, init) + if last in DoneAll(driver, init) then multiset{last} else multiset{}
  }

  predicate CanGiveBack(s: State, m: nat) {
    && |s.status| == |s.b.slots| == META_SLOTS && m < META_SLOTS
    && (s.status[m] == WithConsumer || s.status[m] == StillQueued)
    && s.b.slots[m].numBuffers <= |s.b.slots[m].bufIndex|
  }

  function Apply(s: State, e: Event, fdCnt: nat): State {
    match e
    case Arrive(f, h) =>
      if !Shaped(s.b, fdCnt) || |s.status| != META_SLOTS || f.buf !in s.driver then s
      else Arrived(s, f, h, fdCnt)
    case GiveBack(m) =>
      if !CanGiveBack(s, m) then s
      else
        var bufs := Listed(s.b.slots[m]);
        s.(b := Returned(s.b, m), driver := DoneAll(s.driver, bufs), status := s.status[m := Free],
           refused := s.refused + Refusals(s.driver, bufs))
  }

  function Init(buffers: multiset<nat>, data: seq<int>): State {
    var slot := MetaSlot(false, 0, [0, 0, 0, 0, 0, 0, 0, 0, 0, 0, 0, 0, 0, 0, 0, 0]);
    State(Batch(false, -1, -1, 0, [slot, slot, slot], [data, data, data]), buffers, [Free, Free, Free], [], [], [],
          multiset{})
  }

  function Run(buffers: multiset<nat>, data: seq<int>, es: seq<Event>, fdCnt: nat): State {
    if es == [] then Init(buffers, data)
    else Apply(Run(buffers, data, es[..|es| - 1], fdCnt), es[|es| - 1], fdCnt)
  }

  // ---------------------------------------------------------------- the native handle

  /** Frame f's six words stand in column j of the handle. */
  ghost predicate Column(data: seq<int>, j: nat, f: Frame, firstTs: int, fdCnt: nat)
    requires j < fdCnt && |data| == FIELDS * fdCnt
  {
    && data[j] == Word(0, f, firstTs) && data[j + fdCnt] == Word(1, f, firstTs)
    && data[j + fdCnt * 2] == Word(2, f, firstTs) && data[j + fdCnt * 3] == Word(3, f, firstTs)
    && data[j + fdCnt * 4] == Word(4, f, firstTs) && data[j + fdCnt * 5] == Word(5, f, firstTs)
  }

  ghost predicate Columns(data: seq<int>, frames: seq<Frame>, fdCnt: nat)
    requires |frames| <= fdCnt && |data| == FIELDS * fdCnt
  {
    forall j :: 0 <= j < |frames| ==> Column(data, j, frames[j], frames[0].ts, fdCnt)
  }

  lemma PutKeepsColumn(data: seq<int>, j: nat, g: Frame, f: Frame, index: nat, fdCnt: nat, firstTs: int)
    requires j < index < fdCnt && |data| == FIELDS * fdCnt && Column(data, j, g, firstTs, fdCnt)
    ensures Column(PutWords(data, f, index, fdCnt, firstTs), j, g, firstTs, fdCnt)
  {}

  lemma PutAddsColumn(data: seq<int>, frames: seq<Frame>, f: Frame, fdCnt: nat)
    requires |frames| < fdCnt && |data| == FIELDS * fdCnt && Columns(data, frames, fdCnt)
    ensures var all := frames + [f];
      Columns(PutWords(data, f, |frames|, fdCnt, all[0].ts), all, fdCnt)
  {
    var all := frames + [f];
    var data' := PutWords(data, f, |frames|, fdCnt, all[0].ts);
    forall j | 0 <= j < |all| ensures Column(data', j, all[j], all[0].ts, fdCnt) {
      if j < |frames| {
        PutKeepsColumn(data, j, frames[j], f, |frames|, fdCnt, all[0].ts);
      }
    }
  }

  lemma DivBound(k: nat, fdCnt: nat)
    requires k < FIELDS * fdCnt
    ensures k / fdCnt < FIELDS
  {
    if FIELDS <= k / fdCnt {
      Grow(FIELDS, fdCnt, k / fdCnt, fdCnt);
    }
  }

  /** The field and the frame word k of a handle is for. */
  function FieldOf(k: nat, fdCnt: nat): (field: nat)
    requires k < FIELDS * fdCnt
    ensures field < FIELDS
  {
    DivBound(k, fdCnt);
    k / fdCnt
  }

  function FrameOf(k: nat, fdCnt: nat): (j: nat)
    requires k < FIELDS * fdCnt
    ensures j < fdCnt
  {
    k % fdCnt
  }

  /** Word k of a full handle is field k / fdCnt of frame k % fdCnt, so every word is one field of
      one frame; and every field of every frame has its word. */
  lemma FullHandle(data: seq<int>, frames: seq<Frame>, fdCnt: nat, k: nat)
    requires |frames| == fdCnt && |data| == FIELDS * fdCnt && k < |data| && Columns(data, frames, fdCnt)
    ensures data[k] == Word(FieldOf(k, fdCnt), frames[FrameOf(k, fdCnt)], frames[0].ts)
  {
    var field, j := FieldOf(k, fdCnt), FrameOf(k, fdCnt);
    assert Column(data, j, frames[j], frames[0].ts, fdCnt);
    assert k == field * fdCnt + j;
    match field { case 0 => case 1 => case 2 => case 3 => case 4 => case 5 => }
  }

  lemma WordPosition(field: nat, j: nat, fdCnt: nat)
    requires field < FIELDS && j < fdCnt
    ensures field * fdCnt + j < FIELDS * fdCnt
    ensures FieldOf(field * fdCnt + j, fdCnt) == field && FrameOf(field * fdCnt + j, fdCnt) == j
  {
    MulStep(field, FIELDS, fdCnt);
    DivUnique(field * fdCnt + j, fdCnt, field, j);
  }

  // ---------------------------------------------------------------- where the buffers are

  function Holding(st: Status, s: MetaSlot): multiset<nat>
    requires |s.bufIndex| == MAX_BATCH
  {
    match st
    case Free => multiset{}
    case Filling => if s.numBuffers <= MAX_BATCH then multiset(Listed(s)) else multiset{}
    case WithConsumer | StillQueued => if s.numBuffers <= MAX_BATCH then multiset(Listed(s)) else multiset{}
    case Stranded(k) => if k <= MAX_BATCH then multiset(s.bufIndex[..k]) else multiset{}
  }

  function HoldingAll(status: seq<Status>, slots: seq<MetaSlot>): multiset<nat>
    requires |status| == |slots| == META_SLOTS
    requires forall i :: 0 <= i < META_SLOTS ==> |slots[i].bufIndex| == MAX_BATCH
  {
    Holding(status[0], slots[0]) + Holding(status[1], slots[1]) + Holding(status[2], slots[2])
  }

  lemma HoldingUpdate(status: seq<Status>, slots: seq<MetaSlot>, i: nat, st: Status, x: MetaSlot)
    requires |status| == |slots| == META_SLOTS && i < META_SLOTS && |x.bufIndex| == MAX_BATCH
    requires forall j :: 0 <= j < META_SLOTS ==> |slots[j].bufIndex| == MAX_BATCH
    ensures HoldingAll(status[i := st], slots[i := x]) + Holding(status[i], slots[i])
         == HoldingAll(status, slots) + Holding(st, x)
  {
    match i { case 0 => case 1 => case 2 => }
  }

  function Flatten(log: seq<Delivery>): seq<Frame> {
    if log == [] then [] else Flatten(log[..|log| - 1]) + log[|log| - 1].frames
  }

  // ---------------------------------------------------------------- the invariant

  /** What a slot's record says agrees with what became of it; at most the current slot is partly
      filled. */
  ghost predicate SlotInv(st: Status, x: MetaSlot, i: nat, b: Batch, fdCnt: nat) {
    && (st == Free <==> !x.consumerOwned)
    && (st == Filling <==> b.curMem && b.curMeta == i)
    && (st == Filling ==> x.numBuffers == b.curBuf)
    && (st == WithConsumer || st == StillQueued || st.Stranded? ==> x.numBuffers == fdCnt)
    && (st.Stranded? ==> st.kept <= fdCnt)
  }

  ghost predicate SlotsInv(status: seq<Status>, b: Batch, fdCnt: nat) {
    && Shaped(b, fdCnt) && |status| == META_SLOTS
    && forall i: nat :: i < META_SLOTS ==> SlotInv(status[i], b.slots[i], i, b, fdCnt)
  }

  /** The frames of the batch being filled stand in the first columns of the current handle. */
  ghost predicate CurrentInv(b: Batch, current: seq<Frame>, fdCnt: nat)
    requires Shaped(b, fdCnt)
  {
    if !b.curMem then current == []
    else
      && |current| == b.curBuf && 1 <= |current|
      && b.firstTs == current[0].ts
      && Columns(b.handles[b.curMeta], current, fdCnt)
  }

  ghost predicate Complete(d: Delivery, fdCnt: nat) {
    && |d.frames| == fdCnt && |d.words| == FIELDS * fdCnt
    && Columns(d.words, d.frames, fdCnt)
    && |d.frames| > 0 && d.timestamp == d.frames[0].ts
  }

  ghost predicate LogInv(s: State, fdCnt: nat) {
    && (forall d :: d in s.log ==> Complete(d, fdCnt))
    && Flatten(s.log) + s.current == s.accepted
  }

  /** The last buffer of every slot whose command was lost: it is given back once on its own and may
      be once more with its slot. */
  function Doubled(log: seq<Delivery>): multiset<nat> {
    if log == [] then multiset{}
    else
      var d := log[|log| - 1];
      Doubled(log[..|log| - 1])
      + if d.handover == CommandLost && d.frames != [] then multiset{d.frames[|d.frames| - 1].buf} else multiset{}
  }

  /** The books: what was given back and what slots hold against what there was and what was given
      back early; no buffer is out of sight; and nothing is refused unless a command was lost. */
  ghost predicate Books(driver: multiset<nat>, refused: multiset<nat>, held: multiset<nat>,
                        buffers: multiset<nat>, doubled: multiset<nat>) {
    && driver + refused + held == buffers + doubled
    && driver <= buffers
    && (forall x :: x in buffers <==> x in driver || x in held)
    && (doubled == multiset{} ==> refused == multiset{})
  }

  ghost predicate Conserved(s: State, buffers: multiset<nat>)
    requires |s.status| == |s.b.slots| == META_SLOTS
    requires forall i :: 0 <= i < META_SLOTS ==> |s.b.slots[i].bufIndex| == MAX_BATCH
  {
    Books(s.driver, s.refused, HoldingAll(s.status, s.b.slots), buffers, Doubled(s.log))
  }

  /** The buffers have different indices, all of them bytes. */
  ghost predicate Indices(buffers: multiset<nat>) {
    forall x :: x in buffers ==> x < 256 && buffers[x] == 1
  }

  ghost predicate Inv(s: State, buffers: multiset<nat>, fdCnt: nat) {
    && SlotsInv(s.status, s.b, fdCnt)
    && CurrentInv(s.b, s.current, fdCnt)
    && LogInv(s, fdCnt)
    && Conserved(s, buffers)
  }

  // ---------------------------------------------------------------- events keep it

  /** The slot a frame is put into, seen before the frame: the current one, or a free one with its
      count reset. */
  lemma OpenedSlot(status: seq<Status>, b: Batch, fdCnt: nat)
    requires SlotsInv(status, b, fdCnt) && Opened(b).curMem
    ensures var o := Opened(b);
      && Shaped(o, fdCnt) && o.slots[o.curMeta].numBuffers == o.curBuf
      && (b.curMem ==> o == b && status[o.curMeta] == Filling)
      && (!b.curMem ==> o.curBuf == 0 && status[o.curMeta] == Free)
      && (forall i :: 0 <= i < META_SLOTS && i != o.curMeta ==> o.slots[i] == b.slots[i])
      && o.slots[o.curMeta].bufIndex == b.slots[o.curMeta].bufIndex
      && Holding(status[o.curMeta], b.slots[o.curMeta]) == multiset(b.slots[o.curMeta].bufIndex[..o.curBuf])
  {
    var i := FreeSlot(b.slots);
    if b.curMem {
      assert SlotInv(status[b.curMeta], b.slots[b.curMeta], b.curMeta, b, fdCnt);
    } else {
      assert SlotInv(status[i], b.slots[i], i, b, fdCnt);
    }
  }

  lemma PutKeepsSlots(status: seq<Status>, b: Batch, f: Frame, st: Status, fdCnt: nat)
    requires SlotsInv(status, b, fdCnt) && Opened(b).curMem && Shaped(Opened(b), fdCnt)
    requires if Opened(b).curBuf + 1 < fdCnt then st == Filling
             else st == WithConsumer || st == StillQueued || (st.Stranded? && st.kept <= fdCnt)
    ensures SlotsInv(status[Opened(b).curMeta := st], Put(Opened(b), f, fdCnt), fdCnt)
  {
    OpenedSlot(status, b, fdCnt);
    var o := Opened(b);
    var status', b' := status[o.curMeta := st], Put(o, f, fdCnt);
    forall i: nat | i < META_SLOTS ensures SlotInv(status'[i], b'.slots[i], i, b', fdCnt) {
      assert SlotInv(status[i], b.slots[i], i, b, fdCnt);
    }
  }

  lemma PutKeepsCurrent(status: seq<Status>, b: Batch, f: Frame, current: seq<Frame>, fdCnt: nat)
    requires SlotsInv(status, b, fdCnt) && CurrentInv(b, current, fdCnt) && Opened(b).curMem
    requires Shaped(Opened(b), fdCnt)
    ensures var o, all := Opened(b), current + [f];
      var b' := Put(o, f, fdCnt);
      && |all| == o.curBuf + 1
      && Shaped(b', fdCnt) && Columns(b'.handles[o.curMeta], all, fdCnt)
      && (o.curBuf + 1 < fdCnt ==> CurrentInv(b', all, fdCnt))
      && (o.curBuf + 1 == fdCnt ==> CurrentInv(b', [], fdCnt))
  {
    OpenedSlot(status, b, fdCnt);
    var o, all := Opened(b), current + [f];
    PutAddsColumn(o.handles[o.curMeta], current, f, fdCnt);
    assert (if o.curBuf == 0 then f.ts else o.firstTs) == all[0].ts;
  }

  lemma Extends(before: seq<nat>, k: nat, buf: nat)
    requires k < |before|
    ensures multiset(before[k := buf][..k + 1]) == multiset(before[..k]) + multiset{buf}
    ensures before[k := buf][..k] == before[..k]
  {
    assert before[k := buf][..k + 1] == before[..k] + [buf];
  }

  /** What the slot a frame was put into then holds. */
  lemma PutHolds(x: MetaSlot, before: seq<nat>, k: nat, buf: nat, st: Status)
    requires |before| == MAX_BATCH && k < MAX_BATCH && x.bufIndex == before[k := buf] && x.numBuffers == k + 1
    ensures st == Filling || st == WithConsumer || st == StillQueued || st == Stranded(k + 1)
      ==> Holding(st, x) == multiset(before[..k]) + multiset{buf}
    ensures st == Stranded(k) ==> Holding(st, x) == multiset(before[..k])
  {
    Extends(before, k, buf);
  }

  lemma PutSlots(b: Batch, f: Frame, fdCnt: nat)
    requires Shaped(b, fdCnt) && Opened(b).curMem && Shaped(Opened(b), fdCnt)
    requires Opened(b).slots[Opened(b).curMeta].numBuffers == Opened(b).curBuf
    ensures var o := Opened(b);
      var x := MetaSlot(true, o.curBuf + 1, b.slots[o.curMeta].bufIndex[o.curBuf := f.buf % 256]);
      Put(o, f, fdCnt).slots == b.slots[o.curMeta := x]
  {}

  lemma Cancel(h: multiset<nat>, h': multiset<nat>, was: multiset<nat>, now: multiset<nat>, moved: multiset<nat>)
    requires h' + was == h + now && now == was + moved
    ensures h' == h + moved
  {
    assert h' + was == h + moved + was;
    assert h' == (h' + was) - was;
    assert (h + moved + was) - was == h + moved;
  }

  /** What the slots hold grows by the frame's buffer, unless it was the last of a slot not queued. */
  lemma PutAdds(s: State, f: Frame, st: Status, fdCnt: nat)
    requires SlotsInv(s.status, s.b, fdCnt) && Opened(s.b).curMem && f.buf < 256
    requires Shaped(Opened(s.b), fdCnt) && Shaped(Put(Opened(s.b), f, fdCnt), fdCnt)
    requires var k := Opened(s.b).curBuf;
      st == Filling || st == WithConsumer || st == StillQueued || st == Stranded(k + 1) || st == Stranded(k)
    ensures var o := Opened(s.b);
      HoldingAll(s.status[o.curMeta := st], Put(o, f, fdCnt).slots)
      == HoldingAll(s.status, s.b.slots) + if st == Stranded(o.curBuf) then multiset{} else multiset{f.buf}
  {
    OpenedSlot(s.status, s.b, fdCnt);
    PutSlots(s.b, f, fdCnt);
    var o := Opened(s.b);
    var m, before := o.curMeta, s.b.slots[o.curMeta].bufIndex;
    var x := Put(o, f, fdCnt).slots[m];
    PutHolds(x, before, o.curBuf, f.buf, st);
    HoldingUpdate(s.status, s.b.slots, m, st, x);
    Cancel(HoldingAll(s.status, s.b.slots), HoldingAll(s.status[m := st], s.b.slots[m := x]),
           multiset(before[..o.curBuf]), Holding(st, x),
           if st == Stranded(o.curBuf) then multiset{} else multiset{f.buf});
  }

  /** A frame's buffer moves from the driver into a slot. */
  lemma BooksMove(driver: multiset<nat>, refused: multiset<nat>, held: multiset<nat>,
                  buffers: multiset<nat>, doubled: multiset<nat>, buf: nat)
    requires Books(driver, refused, held, buffers, doubled) && buf in driver
    ensures Books(driver - multiset{buf}, refused, held + multiset{buf}, buffers, doubled)
  {
    var d, h := driver - multiset{buf}, held + multiset{buf};
    assert d + refused + h == driver + refused + held;
    forall x ensures x in buffers <==> x in d || x in h {
      assert x in d || x in h <==> x in driver || x in held;
    }
  }

  /** It stands in a slot and with the driver. */
  lemma BooksDouble(driver: multiset<nat>, refused: multiset<nat>, held: multiset<nat>,
                    buffers: multiset<nat>, doubled: multiset<nat>, buf: nat)
    requires Books(driver, refused, held, buffers, doubled) && buf in driver
    ensures Books(driver, refused, held + multiset{buf}, buffers, doubled + multiset{buf})
  {
    forall x ensures (driver + refused + (held + multiset{buf}))[x] == (buffers + (doubled + multiset{buf}))[x] {
      assert (driver + refused + held)[x] == (buffers + doubled)[x];
    }
    assert buf in doubled + multiset{buf};
  }

  lemma FlattenSnoc(log: seq<Delivery>, d: Delivery)
    ensures Flatten(log + [d]) == Flatten(log) + d.frames
  {
    assert (log + [d])[..|log|] == log;
  }

  lemma ArriveKeepsLog(s: State, f: Frame, h: Handover, fdCnt: nat)
    requires SlotsInv(s.status, s.b, fdCnt) && CurrentInv(s.b, s.current, fdCnt) && LogInv(s, fdCnt)
    requires Opened(s.b).curMem && Shaped(Opened(s.b), fdCnt)
    ensures LogInv(Arrived(s, f, h, fdCnt), fdCnt)
  {
    PutKeepsCurrent(s.status, s.b, f, s.current, fdCnt);
    var t := Arrived(s, f, h, fdCnt);
    if Opened(s.b).curBuf + 1 == fdCnt {
      var d := t.log[|s.log|];
      FlattenSnoc(s.log, d);
      assert Complete(d, fdCnt);
    }
  }

  lemma DoubledSnoc(log: seq<Delivery>, d: Delivery)
    ensures Doubled(log + [d]) == Doubled(log)
      + if d.handover == CommandLost && d.frames != [] then multiset{d.frames[|d.frames| - 1].buf} else multiset{}
  {
    assert (log + [d])[..|log|] == log;
  }

  lemma ArrivedFields(s: State, f: Frame, h: Handover, fdCnt: nat)
    requires Shaped(s.b, fdCnt) && |s.status| == META_SLOTS && Opened(s.b).curMem && Shaped(Opened(s.b), fdCnt)
    ensures var o, t := Opened(s.b), Arrived(s, f, h, fdCnt);
      var full := o.curBuf + 1 == fdCnt;
      && t.b == Put(o, f, fdCnt) && t.refused == s.refused
      && t.status == s.status[o.curMeta := if full then StatusAfter(h, fdCnt) else Filling]
      && t.driver == (if full && Failed(h) then s.driver else s.driver - multiset{f.buf})
      && t.current == (if full then [] else s.current + [f])
      && (if full then |t.log| == |s.log| + 1 && t.log == s.log + [t.log[|s.log|]] && t.log[|s.log|].handover == h
                       && t.log[|s.log|].frames == s.current + [f]
          else t.log == s.log)
  {}

  /** The books after a frame, from where its buffer then is. */
  lemma BooksArrive(driver: multiset<nat>, refused: multiset<nat>, held: multiset<nat>,
                    buffers: multiset<nat>, doubled: multiset<nat>, buf: nat, full: bool, h: Handover)
    requires Books(driver, refused, held, buffers, doubled) && buf in driver
    ensures Books(if full && Failed(h) then driver else driver - multiset{buf}, refused,
                  held + (if full && h == NotQueued then multiset{} else multiset{buf}), buffers,
                  doubled + if full && h == CommandLost then multiset{buf} else multiset{})
  {
    if full && h == CommandLost {
      BooksDouble(driver, refused, held, buffers, doubled, buf);
    } else if full && h == NotQueued {
      assert held + multiset{} == held;
    } else {
      BooksMove(driver, refused, held, buffers, doubled, buf);
      assert doubled + multiset{} == doubled;
    }
  }

  lemma ArrivedDoubled(s: State, t: State, f: Frame, h: Handover, full: bool)
    requires if full then |t.log| == |s.log| + 1 && t.log == s.log + [t.log[|s.log|]]
                          && t.log[|s.log|].handover == h && t.log[|s.log|].frames == s.current + [f]
             else t.log == s.log
    ensures Doubled(t.log) == Doubled(s.log) + if full && h == CommandLost then multiset{f.buf} else multiset{}
  {
    if full {
      DoubledSnoc(s.log, t.log[|s.log|]);
    }
  }

  lemma ArriveHolds(s: State, f: Frame, h: Handover, fdCnt: nat)
    requires SlotsInv(s.status, s.b, fdCnt) && f.buf < 256
    requires Opened(s.b).curMem && Shaped(Opened(s.b), fdCnt) && Shaped(Put(Opened(s.b), f, fdCnt), fdCnt)
    ensures var o := Opened(s.b);
      var full := o.curBuf + 1 == fdCnt;
      var status := s.status[o.curMeta := if full then StatusAfter(h, fdCnt) else Filling];
      HoldingAll(status, Put(o, f, fdCnt).slots)
      == HoldingAll(s.status, s.b.slots) + if full && h == NotQueued then multiset{} else multiset{f.buf}
  {
    PutAdds(s, f, if Opened(s.b).curBuf + 1 == fdCnt then StatusAfter(h, fdCnt) else Filling, fdCnt);
  }

  lemma ArriveConserves(s: State, t: State, f: Frame, h: Handover, buffers: multiset<nat>, fdCnt: nat)
    requires SlotsInv(s.status, s.b, fdCnt) && Conserved(s, buffers) && Indices(buffers)
    requires f.buf in s.driver && Opened(s.b).curMem && Shaped(Opened(s.b), fdCnt)
    requires Shaped(t.b, fdCnt) && t.b == Put(Opened(s.b), f, fdCnt) && t.refused == s.refused
    requires var full := Opened(s.b).curBuf + 1 == fdCnt;
      && t.status == s.status[Opened(s.b).curMeta := if full then StatusAfter(h, fdCnt) else Filling]
      && t.driver == (if full && Failed(h) then s.driver else s.driver - multiset{f.buf})
      && Doubled(t.log) == Doubled(s.log) + if full && h == CommandLost then multiset{f.buf} else multiset{}
    ensures Conserved(t, buffers)
  {
    var full := Opened(s.b).curBuf + 1 == fdCnt;
    ArriveHolds(s, f, h, fdCnt);
    BooksArrive(s.driver, s.refused, HoldingAll(s.status, s.b.slots), buffers, Doubled(s.log), f.buf, full, h);
  }

  lemma ArriveKeeps(s: State, f: Frame, h: Handover, buffers: multiset<nat>, fdCnt: nat)
    requires Inv(s, buffers, fdCnt) && f.buf in s.driver && Indices(buffers)
    ensures Inv(Arrived(s, f, h, fdCnt), buffers, fdCnt)
  {
    if Opened(s.b).curMem {
      assert Shaped(Opened(s.b), fdCnt) by { OpenedSlot(s.status, s.b, fdCnt); }
      var t := Arrived(s, f, h, fdCnt);
      ArrivedFields(s, f, h, fdCnt);
      ArriveKeepsLog(s, f, h, fdCnt);
      var st := if Opened(s.b).curBuf + 1 < fdCnt then Filling else StatusAfter(h, fdCnt);
      assert SlotsInv(t.status, t.b, fdCnt) by { PutKeepsSlots(s.status, s.b, f, st, fdCnt); }
      assert CurrentInv(t.b, t.current, fdCnt) by { PutKeepsCurrent(s.status, s.b, f, s.current, fdCnt); }
      assert Conserved(t, buffers) by {
        ArrivedDoubled(s, t, f, h, Opened(s.b).curBuf + 1 == fdCnt);
        ArriveConserves(s, t, f, h, buffers, fdCnt);
      }
    }
  }

  // ---------------------------------------------------------------- giving back

  lemma {:induction false} DoneSum(driver: multiset<nat>, bufs: seq<nat>)
    ensures DoneAll(driver, bufs) + Refusals(driver, bufs) == driver + multiset(bufs)
  {
    if bufs != [] {
      var init, last := bufs[..|bufs| - 1], bufs[|bufs| - 1];
      DoneSum(driver, init);
      assert bufs == init + [last];
      assert DoneAll(driver, bufs) + Refusals(driver, bufs)
          == DoneAll(driver, init) + Refusals(driver, init) + multiset{last};
    }
  }

  lemma {:induction false} DoneMembers(driver: multiset<nat>, bufs: seq<nat>, x: nat)
    ensures DoneAll(driver, bufs)[x] == if x in multiset(bufs) && x !in driver then 1 else driver[x]
  {
    if bufs != [] {
      DoneMembers(driver, bufs[..|bufs| - 1], x);
      assert bufs == bufs[..|bufs| - 1] + [bufs[|bufs| - 1]];
    }
  }

  lemma NothingRefused(driver: multiset<nat>, bufs: seq<nat>, buffers: multiset<nat>)
    requires driver + multiset(bufs) <= buffers && Indices(buffers)
    ensures Refusals(driver, bufs) == multiset{}
  {
    DoneSum(driver, bufs);
    forall x ensures Refusals(driver, bufs)[x] == 0 {
      DoneMembers(driver, bufs, x);
      assert (DoneAll(driver, bufs) + Refusals(driver, bufs))[x] == (driver + multiset(bufs))[x];
      assert (driver + multiset(bufs))[x] <= buffers[x];
    }
  }

  /** A slot's buffers move to the driver, which refuses those it has. */
  lemma BooksReturn(driver: multiset<nat>, refused: multiset<nat>, held: multiset<nat>, rest: multiset<nat>,
                    buffers: multiset<nat>, doubled: multiset<nat>, bufs: seq<nat>)
    requires Books(driver, refused, held, buffers, doubled) && held == rest + multiset(bufs) && Indices(buffers)
    ensures Books(DoneAll(driver, bufs), refused + Refusals(driver, bufs), rest, buffers, doubled)
  {
    var d, r := DoneAll(driver, bufs), Refusals(driver, bufs);
    DoneSum(driver, bufs);
    assert d + (refused + r) + rest == (d + r) + refused + rest;
    assert d + (refused + r) + rest == driver + refused + held;
    forall x ensures d[x] <= buffers[x] && (x in buffers <==> x in d || x in rest) {
      DoneMembers(driver, bufs, x);
      assert x in held <==> x in rest || x in multiset(bufs);
    }
    if doubled == multiset{} {
      forall x ensures (driver + multiset(bufs))[x] <= buffers[x] {
        assert (driver + refused + held)[x] == (buffers + doubled)[x];
      }
      NothingRefused(driver, bufs, buffers);
    }
  }

  lemma GiveBackFields(s: State, m: nat, fdCnt: nat)
    requires Shaped(s.b, fdCnt) && CanGiveBack(s, m) && s.b.slots[m].numBuffers > 0
    ensures var x, t := s.b.slots[m].(consumerOwned := false, numBuffers := 0), Apply(s, GiveBack(m), fdCnt);
      && t.b == s.b.(slots := s.b.slots[m := x]) && t.status == s.status[m := Free]
      && t.driver == DoneAll(s.driver, Listed(s.b.slots[m])) && t.log == s.log
      && t.refused == s.refused + Refusals(s.driver, Listed(s.b.slots[m]))
  {}

  lemma GiveBackConserves(s: State, m: nat, buffers: multiset<nat>, fdCnt: nat)
    requires SlotsInv(s.status, s.b, fdCnt) && CanGiveBack(s, m) && s.b.slots[m].numBuffers == fdCnt
    requires Conserved(s, buffers) && Indices(buffers)
    ensures var t := Apply(s, GiveBack(m), fdCnt);
      Shaped(t.b, fdCnt) && |t.status| == META_SLOTS && Conserved(t, buffers)
  {
    var x, bufs := s.b.slots[m].(consumerOwned := false, numBuffers := 0), Listed(s.b.slots[m]);
    var held, rest := HoldingAll(s.status, s.b.slots), HoldingAll(s.status[m := Free], s.b.slots[m := x]);
    GiveBackFields(s, m, fdCnt);
    HoldingUpdate(s.status, s.b.slots, m, Free, x);
    assert held == rest + multiset(bufs);
    BooksReturn(s.driver, s.refused, held, rest, buffers, Doubled(s.log), bufs);
  }

  lemma FreedKeepsSlots(status: seq<Status>, b: Batch, m: nat, fdCnt: nat)
    requires SlotsInv(status, b, fdCnt) && m < META_SLOTS && (status[m] == WithConsumer || status[m] == StillQueued)
    ensures SlotsInv(status[m := Free], b.(slots := b.slots[m := b.slots[m].(consumerOwned := false, numBuffers := 0)]),
                     fdCnt)
  {
    assert SlotInv(status[m], b.slots[m], m, b, fdCnt);
    var b' := b.(slots := b.slots[m := b.slots[m].(consumerOwned := false, numBuffers := 0)]);
    forall i: nat | i < META_SLOTS ensures SlotInv(status[m := Free][i], b'.slots[i], i, b', fdCnt) {
      assert SlotInv(status[i], b.slots[i], i, b, fdCnt);
    }
  }

  lemma GiveBackKeeps(s: State, m: nat, buffers: multiset<nat>, fdCnt: nat)
    requires Inv(s, buffers, fdCnt) && CanGiveBack(s, m) && Indices(buffers)
    ensures Inv(Apply(s, GiveBack(m), fdCnt), buffers, fdCnt)
  {
    var t := Apply(s, GiveBack(m), fdCnt);
    assert SlotInv(s.status[m], s.b.slots[m], m, s.b, fdCnt);
    assert Conserved(t, buffers) && Shaped(t.b, fdCnt) by { GiveBackConserves(s, m, buffers, fdCnt); }
    GiveBackFields(s, m, fdCnt);
    FreedKeepsSlots(s.status, s.b, m, fdCnt);
  }

  lemma {:induction false} RunKeeps(buffers: multiset<nat>, data: seq<int>, es: seq<Event>, fdCnt: nat)
    requires 1 <= fdCnt <= MAX_BATCH && |data| == FIELDS * fdCnt && Indices(buffers)
    ensures Inv(Run(buffers, data, es, fdCnt), buffers, fdCnt)
  {
    if es != [] {
      var s, e := Run(buffers, data, es[..|es| - 1], fdCnt), es[|es| - 1];
      RunKeeps(buffers, data, es[..|es| - 1], fdCnt);
      match e
      case Arrive(f, h) => if f.buf in s.driver { ArriveKeeps(s, f, h, buffers, fdCnt); }
      case GiveBack(m) => if CanGiveBack(s, m) { GiveBackKeeps(s, m, buffers, fdCnt); }
    }
  }

  // ---------------------------------------------------------------- what it gives

  ghost predicate Setup(buffers: multiset<nat>, data: seq<int>, fdCnt: nat) {
    1 <= fdCnt <= MAX_BATCH && |data| == FIELDS * fdCnt && Indices(buffers)
  }

  /** Every accepted frame is in exactly one place: position j of the n-th full slot or of the batch
      being filled, in order of arrival. Full slots hold exactly a batch, the one being filled less,
      and at most one slot is being filled. */
  lemma FramesInOrder(buffers: multiset<nat>, data: seq<int>, es: seq<Event>, fdCnt: nat)
    requires Setup(buffers, data, fdCnt)
    ensures var s := Run(buffers, data, es, fdCnt);
      && Flatten(s.log) + s.current == s.accepted
      && (forall d :: d in s.log ==> |d.frames| == fdCnt)
      && |s.current| < fdCnt
      && |s.status| == META_SLOTS
      && (s.current == [] <==> forall i :: 0 <= i < META_SLOTS ==> s.status[i] != Filling)
      && (forall i, j :: 0 <= i < j < META_SLOTS && s.status[i] == Filling ==> s.status[j] != Filling)
  {
    RunKeeps(buffers, data, es, fdCnt);
    var s := Run(buffers, data, es, fdCnt);
    forall i: nat | i < META_SLOTS ensures s.status[i] == Filling <==> s.b.curMem && s.b.curMeta == i {
      assert SlotInv(s.status[i], s.b.slots[i], i, s.b, fdCnt);
    }
    if s.b.curMem {
      assert s.status[s.b.curMeta] == Filling;
    }
  }

  /** The handle of a full slot, whenever it became full: all its words are set, word k being field
      k / fdCnt of the slot's frame k % fdCnt. */
  lemma FullSlotWords(buffers: multiset<nat>, data: seq<int>, es: seq<Event>, fdCnt: nat, d: Delivery, k: nat)
    requires Setup(buffers, data, fdCnt) && d in Run(buffers, data, es, fdCnt).log && k < FIELDS * fdCnt
    ensures |d.words| == FIELDS * fdCnt && |d.frames| == fdCnt
    ensures d.words[k] == Word(FieldOf(k, fdCnt), d.frames[FrameOf(k, fdCnt)], d.frames[0].ts)
  {
    RunKeeps(buffers, data, es, fdCnt);
    assert Complete(d, fdCnt);
    FullHandle(d.words, d.frames, fdCnt, k);
  }

  lemma ColumnWords(d: Delivery, fdCnt: nat, j: nat)
    requires Complete(d, fdCnt) && j < fdCnt
    ensures |d.words| == 6 * fdCnt && |d.frames| == fdCnt
    ensures d.words[j] == d.frames[j].fd && d.words[fdCnt + j] == 0
    ensures d.words[2 * fdCnt + j] == Int32(d.frames[j].size) && d.words[3 * fdCnt + j] == d.frames[j].usage
    ensures d.words[4 * fdCnt + j] == Int32(d.frames[j].ts - d.frames[0].ts)
    ensures d.words[5 * fdCnt + j] == d.frames[j].format
  {
    assert Column(d.words, j, d.frames[j], d.frames[0].ts, fdCnt);
  }

  /** What the encoder finds in the handle of a full slot, word by word: first the file descriptors of
      all frames, then their offsets, sizes, usage flags, times since the first frame and formats.
      The slot comes with the time of its first frame. */
  lemma HandleContents(buffers: multiset<nat>, data: seq<int>, es: seq<Event>, fdCnt: nat, d: Delivery, j: nat)
    requires Setup(buffers, data, fdCnt) && d in Run(buffers, data, es, fdCnt).log && j < fdCnt
    ensures |d.words| == 6 * fdCnt && |d.frames| == fdCnt && d.timestamp == d.frames[0].ts
    ensures d.words[j] == d.frames[j].fd && d.words[fdCnt + j] == 0
    ensures d.words[2 * fdCnt + j] == Int32(d.frames[j].size) && d.words[3 * fdCnt + j] == d.frames[j].usage
    ensures d.words[4 * fdCnt + j] == Int32(d.frames[j].ts - d.frames[0].ts)
    ensures d.words[5 * fdCnt + j] == d.frames[j].format
  {
    RunKeeps(buffers, data, es, fdCnt);
    assert Complete(d, fdCnt);
    ColumnWords(d, fdCnt, j);
  }

  /** The books balance: what the driver has, what it refused and what the slots account for are the
      buffers there were at the start and those given back early by a lost command. No buffer is out
      of sight, and the driver never has one twice. */
  lemma BuffersConserved(buffers: multiset<nat>, data: seq<int>, es: seq<Event>, fdCnt: nat)
    requires Setup(buffers, data, fdCnt)
    ensures var s := Run(buffers, data, es, fdCnt);
      && |s.status| == |s.b.slots| == META_SLOTS
      && (forall i :: 0 <= i < META_SLOTS ==> |s.b.slots[i].bufIndex| == MAX_BATCH)
      && s.driver + s.refused + HoldingAll(s.status, s.b.slots) == buffers + Doubled(s.log)
      && (forall x :: x in buffers <==> x in s.driver || x in HoldingAll(s.status, s.b.slots))
      && s.driver <= buffers
  {
    RunKeeps(buffers, data, es, fdCnt);
  }

  lemma FreeSlots(status: seq<Status>, b: Batch, fdCnt: nat)
    requires SlotsInv(status, b, fdCnt)
    ensures Opened(b).curMem <==> b.curMem || exists i :: 0 <= i < META_SLOTS && status[i] == Free
  {
    forall i: nat | i < META_SLOTS ensures status[i] == Free <==> !b.slots[i].consumerOwned {
      assert SlotInv(status[i], b.slots[i], i, b, fdCnt);
    }
    if !b.curMem && FreeSlot(b.slots) < META_SLOTS {
      assert status[FreeSlot(b.slots)] == Free;
    }
  }

  lemma DropsIffNotOpened(s: State, f: Frame, h: Handover, fdCnt: nat)
    requires Shaped(s.b, fdCnt) && |s.status| == META_SLOTS && f.buf in s.driver
    ensures Opened(s.b).curMem ==> Apply(s, Arrive(f, h), fdCnt).accepted == s.accepted + [f]
    ensures !Opened(s.b).curMem ==> Apply(s, Arrive(f, h), fdCnt) == s
  {}

  /** A frame is dropped, and its buffer kept by the driver, exactly when it would start a batch and
      no slot is free. */
  lemma DroppedIffNoFreeSlot(buffers: multiset<nat>, data: seq<int>, es: seq<Event>, fdCnt: nat, f: Frame, h: Handover)
    requires Setup(buffers, data, fdCnt) && f.buf in Run(buffers, data, es, fdCnt).driver
    ensures var s := Run(buffers, data, es, fdCnt);
      && |s.status| == META_SLOTS
      && (Apply(s, Arrive(f, h), fdCnt).accepted == s.accepted
          <==> s.current == [] && forall i :: 0 <= i < META_SLOTS ==> s.status[i] != Free)
      && (Apply(s, Arrive(f, h), fdCnt).accepted == s.accepted ==> Apply(s, Arrive(f, h), fdCnt) == s)
  {
    var s := Run(buffers, data, es, fdCnt);
    assert SlotsInv(s.status, s.b, fdCnt) && (s.b.curMem <==> s.current != []) by {
      RunKeeps(buffers, data, es, fdCnt);
    }
    FreeSlots(s.status, s.b, fdCnt);
    DropsIffNotOpened(s, f, h, fdCnt);
    assert |s.accepted + [f]| != |s.accepted|;
  }

  lemma StrandedStays(s: State, e: Event, fdCnt: nat, i: nat)
    requires SlotsInv(s.status, s.b, fdCnt) && i < META_SLOTS && s.status[i].Stranded?
    ensures |Apply(s, e, fdCnt).status| == META_SLOTS && Apply(s, e, fdCnt).status[i] == s.status[i]
  {
    assert SlotInv(s.status[i], s.b.slots[i], i, s.b, fdCnt);
    if Opened(s.b).curMem {
      OpenedSlot(s.status, s.b, fdCnt);
    }
  }

  lemma RunSnoc(buffers: multiset<nat>, data: seq<int>, es: seq<Event>, e: Event, fdCnt: nat)
    ensures Run(buffers, data, es + [e], fdCnt) == Apply(Run(buffers, data, es, fdCnt), e, fdCnt)
  {
    assert (es + [e])[..|es|] == es;
  }

  /** A slot the consumer has, or is still queued for it, can be given back at any moment, whatever the
      batch size: it is free afterwards and none of its buffers is left anywhere but with the driver
      or in another slot. */
  lemma GiveBackFrees(buffers: multiset<nat>, data: seq<int>, es: seq<Event>, fdCnt: nat, m: nat)
    requires Setup(buffers, data, fdCnt) && m < META_SLOTS
    requires var s := Run(buffers, data, es, fdCnt);
      |s.status| == META_SLOTS && (s.status[m] == WithConsumer || s.status[m] == StillQueued)
    ensures var s, t := Run(buffers, data, es, fdCnt), Run(buffers, data, es + [GiveBack(m)], fdCnt);
      && |s.b.slots| == META_SLOTS && fdCnt <= |s.b.slots[m].bufIndex|
      && t.status == s.status[m := Free]
      && forall x :: x in t.driver <==> x in s.driver || x in s.b.slots[m].bufIndex[..fdCnt]
  {
    RunKeeps(buffers, data, es, fdCnt);
    RunSnoc(buffers, data, es, GiveBack(m), fdCnt);
    var s := Run(buffers, data, es, fdCnt);
    assert SlotInv(s.status[m], s.b.slots[m], m, s.b, fdCnt);
    GiveBackFields(s, m, fdCnt);
    var bufs := Listed(s.b.slots[m]);
    forall x ensures x in DoneAll(s.driver, bufs) <==> x in s.driver || x in bufs {
      DoneMembers(s.driver, bufs, x);
    }
  }

  /** A slot that was filled but neither sent nor queued never becomes free again; a failed
      notification gives back the last of its buffers, an unsent one none. So once every slot has been
      stranded all further frames are dropped. */
  lemma {:induction false} StrandedForEver(buffers: multiset<nat>, data: seq<int>,
                                           es: seq<Event>, more: seq<Event>, fdCnt: nat, i: nat)
    requires Setup(buffers, data, fdCnt) && i < META_SLOTS
    requires |Run(buffers, data, es, fdCnt).status| == META_SLOTS && Run(buffers, data, es, fdCnt).status[i].Stranded?
    ensures var t := Run(buffers, data, es + more, fdCnt);
      |t.status| == META_SLOTS && t.status[i] == Run(buffers, data, es, fdCnt).status[i]
  {
    if more == [] {
      assert es + more == es;
    } else {
      var last := |more| - 1;
      StrandedForEver(buffers, data, es, more[..last], fdCnt, i);
      assert (es + more)[..|es + more| - 1] == es + more[..last];
      RunKeeps(buffers, data, es + more[..last], fdCnt);
      StrandedStays(Run(buffers, data, es + more[..last], fdCnt), more[last], fdCnt, i);
    }
  }

  lemma HoldingSize(st: Status, x: MetaSlot)
    requires |x.bufIndex| == MAX_BATCH && (st == Free || (st.Stranded? && st.kept <= MAX_BATCH))
    ensures |Holding(st, x)| == if st == Free then 0 else st.kept
  {}

  lemma HoldingAllEmpty(status: seq<Status>, slots: seq<MetaSlot>)
    requires |status| == |slots| == META_SLOTS
    requires forall i :: 0 <= i < META_SLOTS ==> |slots[i].bufIndex| == MAX_BATCH
    requires forall i :: 0 <= i < META_SLOTS ==>
      status[i] == Free || (status[i].Stranded? && status[i].kept <= MAX_BATCH)
    ensures HoldingAll(status, slots) == multiset{}
       <==> forall i :: 0 <= i < META_SLOTS ==> status[i] == Free || status[i].kept == 0
  {
    HoldingSize(status[0], slots[0]);
    HoldingSize(status[1], slots[1]);
    HoldingSize(status[2], slots[2]);
    var h0, h1, h2 := Holding(status[0], slots[0]), Holding(status[1], slots[1]), Holding(status[2], slots[2]);
    assert |h0 + h1 + h2| == |h0| + |h1| + |h2|;
  }

  lemma AllWithDriver(driver: multiset<nat>, buffers: multiset<nat>)
    requires driver <= buffers && Indices(buffers) && forall x :: x in buffers ==> x in driver
    ensures driver == buffers
  {
    forall x ensures driver[x] == buffers[x] {
      if x in buffers { assert 1 <= driver[x] <= buffers[x]; }
    }
  }

  lemma WholeIffRestEmpty(driver: multiset<nat>, rest: multiset<nat>, buffers: multiset<nat>)
    requires driver + rest == buffers
    ensures driver == buffers <==> rest == multiset{}
  {
    assert |driver + rest| == |driver| + |rest|;
  }

  // ---------------------------------------------------------------- buffers in two places

  /** Every buffer is with the driver or in one slot, and nowhere else. */
  ghost predicate Apart(s: State, buffers: multiset<nat>) {
    && |s.status| == |s.b.slots| == META_SLOTS
    && (forall i :: 0 <= i < META_SLOTS ==> |s.b.slots[i].bufIndex| == MAX_BATCH)
    && s.driver + HoldingAll(s.status, s.b.slots) == buffers
  }

  ghost predicate AlwaysApart(buffers: multiset<nat>, data: seq<int>, es: seq<Event>, fdCnt: nat) {
    && Apart(Run(buffers, data, es, fdCnt), buffers)
    && (es != [] ==> AlwaysApart(buffers, data, es[..|es| - 1], fdCnt))
  }

  predicate NoCommandLost(log: seq<Delivery>) {
    forall k :: 0 <= k < |log| ==> log[k].handover != CommandLost
  }

  lemma {:induction false} DoubledIff(log: seq<Delivery>)
    requires forall k :: 0 <= k < |log| ==> log[k].frames != []
    ensures Doubled(log) == multiset{} <==> NoCommandLost(log)
  {
    if log != [] {
      var init, d := log[..|log| - 1], log[|log| - 1];
      DoubledIff(init);
      if d.handover == CommandLost {
        assert d.frames[|d.frames| - 1].buf in Doubled(log);
      } else {
        assert Doubled(log) == Doubled(init);
      }
    }
  }

  lemma LogStep(s: State, e: Event, fdCnt: nat)
    ensures var t := Apply(s, e, fdCnt);
      t.log == s.log || (|t.log| == |s.log| + 1 && t.log[..|s.log|] == s.log && t.refused == s.refused)
  {}

  lemma PlainBooks(driver: multiset<nat>, refused: multiset<nat>, held: multiset<nat>, buffers: multiset<nat>)
    requires Books(driver, refused, held, buffers, multiset{})
    ensures refused == multiset{} && driver + held == buffers
  {
    assert driver + multiset{} == driver && buffers + multiset{} == buffers;
  }

  lemma DoubledMeans(s: State, buffers: multiset<nat>, fdCnt: nat)
    requires Inv(s, buffers, fdCnt)
    ensures Doubled(s.log) == multiset{} <==> NoCommandLost(s.log)
    ensures NoCommandLost(s.log) ==> s.refused == multiset{} && Apart(s, buffers)
  {
    forall k | 0 <= k < |s.log| ensures s.log[k].frames != [] {
      assert Complete(s.log[k], fdCnt);
    }
    DoubledIff(s.log);
    if NoCommandLost(s.log) {
      PlainBooks(s.driver, s.refused, HoldingAll(s.status, s.b.slots), buffers);
    }
  }

  /** The hand-over that loses a command leaves the frame's buffer both in the slot and with the
      driver. */
  lemma LostCommandDoubles(s: State, t: State, buffers: multiset<nat>, fdCnt: nat)
    requires Inv(t, buffers, fdCnt) && t.refused == s.refused == multiset{}
    requires Doubled(t.log) != multiset{}
    ensures !Apart(t, buffers)
  {
    var held := HoldingAll(t.status, t.b.slots);
    assert t.driver + held == buffers + Doubled(t.log);
    assert |buffers + Doubled(t.log)| == |buffers| + |Doubled(t.log)|;
  }

  /** At every moment of a run every buffer is in one place only if and only if no command of a
      hand-over was lost. */
  lemma {:induction false} ApartIffNoCommandLost(buffers: multiset<nat>, data: seq<int>, es: seq<Event>, fdCnt: nat)
    requires Setup(buffers, data, fdCnt)
    ensures AlwaysApart(buffers, data, es, fdCnt) <==> NoCommandLost(Run(buffers, data, es, fdCnt).log)
  {
    var t := Run(buffers, data, es, fdCnt);
    RunKeeps(buffers, data, es, fdCnt);
    DoubledMeans(t, buffers, fdCnt);
    if es != [] {
      var s := Run(buffers, data, es[..|es| - 1], fdCnt);
      ApartIffNoCommandLost(buffers, data, es[..|es| - 1], fdCnt);
      LogStep(s, es[|es| - 1], fdCnt);
      assert NoCommandLost(t.log) ==> NoCommandLost(s.log) by {
        if NoCommandLost(t.log) && t.log != s.log {
          assert forall k :: 0 <= k < |s.log| ==> s.log[k] == t.log[k];
        }
      }
      if NoCommandLost(s.log) && !NoCommandLost(t.log) {
        RunKeeps(buffers, data, es[..|es| - 1], fdCnt);
        DoubledMeans(s, buffers, fdCnt);
        LostCommandDoubles(s, t, buffers, fdCnt);
      }
    }
  }

  // ---------------------------------------------------------------- which hand-overs lose buffers

  /** A hand-over that leaves buffers in its slot for ever: unsent, or failed before it was queued
      with more than the last buffer to give back. */
  predicate Loses(h: Handover, fdCnt: nat) {
    h == NotSent || (h == NotQueued && fdCnt > 1)
  }

  ghost predicate SomeLost(log: seq<Delivery>, fdCnt: nat) {
    exists k :: 0 <= k < |log| && Loses(log[k].handover, fdCnt)
  }

  ghost predicate SomeStuck(status: seq<Status>) {
    exists i :: 0 <= i < |status| && status[i].Stranded? && status[i].kept > 0
  }

  lemma LostSnoc(log: seq<Delivery>, d: Delivery, fdCnt: nat)
    ensures SomeLost(log + [d], fdCnt) <==> SomeLost(log, fdCnt) || Loses(d.handover, fdCnt)
  {
    if SomeLost(log, fdCnt) {
      var k :| 0 <= k < |log| && Loses(log[k].handover, fdCnt);
      assert (log + [d])[k] == log[k];
    }
    assert (log + [d])[|log|] == d;
  }

  lemma StuckUpdate(status: seq<Status>, i: nat, st: Status)
    requires i < |status| && !status[i].Stranded?
    ensures SomeStuck(status[i := st]) <==> SomeStuck(status) || (st.Stranded? && st.kept > 0)
  {
    if SomeStuck(status) {
      var j :| 0 <= j < |status| && status[j].Stranded? && status[j].kept > 0;
      assert status[i := st][j] == status[j];
    }
    if st.Stranded? && st.kept > 0 {
      assert status[i := st][i] == st;
    }
  }

  lemma ArrivedLoses(s: State, f: Frame, h: Handover, fdCnt: nat)
    requires SlotsInv(s.status, s.b, fdCnt) && (SomeLost(s.log, fdCnt) <==> SomeStuck(s.status))
    ensures SomeLost(Arrived(s, f, h, fdCnt).log, fdCnt) <==> SomeStuck(Arrived(s, f, h, fdCnt).status)
  {
    if Opened(s.b).curMem {
      OpenedSlot(s.status, s.b, fdCnt);
      ArrivedFields(s, f, h, fdCnt);
      var o, t := Opened(s.b), Arrived(s, f, h, fdCnt);
      StuckUpdate(s.status, o.curMeta, if o.curBuf + 1 < fdCnt then Filling else StatusAfter(h, fdCnt));
      if o.curBuf + 1 == fdCnt {
        LostSnoc(s.log, t.log[|s.log|], fdCnt);
      }
    }
  }

  lemma GiveBackLoses(s: State, m: nat, fdCnt: nat)
    requires SomeLost(s.log, fdCnt) <==> SomeStuck(s.status)
    ensures var t := Apply(s, GiveBack(m), fdCnt); SomeLost(t.log, fdCnt) <==> SomeStuck(t.status)
  {
    if CanGiveBack(s, m) {
      StuckUpdate(s.status, m, Free);
    }
  }

  lemma {:induction false} LostIffStuck(buffers: multiset<nat>, data: seq<int>, es: seq<Event>, fdCnt: nat)
    requires Setup(buffers, data, fdCnt)
    ensures var s := Run(buffers, data, es, fdCnt); SomeLost(s.log, fdCnt) <==> SomeStuck(s.status)
  {
    if es != [] {
      var s, e := Run(buffers, data, es[..|es| - 1], fdCnt), es[|es| - 1];
      LostIffStuck(buffers, data, es[..|es| - 1], fdCnt);
      RunKeeps(buffers, data, es[..|es| - 1], fdCnt);
      match e
      case Arrive(f, h) => if f.buf in s.driver { ArrivedLoses(s, f, h, fdCnt); }
      case GiveBack(m) => GiveBackLoses(s, m, fdCnt);
    }
  }

  lemma BackIffNoneStuck(s: State, buffers: multiset<nat>, fdCnt: nat)
    requires Inv(s, buffers, fdCnt) && Indices(buffers)
    requires forall i :: 0 <= i < |s.status| ==> s.status[i] == Free || s.status[i].Stranded?
    ensures !SomeStuck(s.status) <==> HoldingAll(s.status, s.b.slots) == multiset{}
    ensures !SomeStuck(s.status) ==> s.driver == buffers
  {
    forall i: nat | i < META_SLOTS
      ensures s.status[i] == Free || (s.status[i].Stranded? && s.status[i].kept <= MAX_BATCH)
    {
      assert SlotInv(s.status[i], s.b.slots[i], i, s.b, fdCnt);
    }
    HoldingAllEmpty(s.status, s.b.slots);
    if !SomeStuck(s.status) {
      AllWithDriver(s.driver, buffers);
    }
  }

  /** When every slot is free or stranded and no hand-over was one that loses buffers, the driver has
      all its buffers back; and only then, unless the command of some hand-over was lost. */
  lemma AllBuffersBackIffNoneLost(buffers: multiset<nat>, data: seq<int>, es: seq<Event>, fdCnt: nat)
    requires Setup(buffers, data, fdCnt)
    requires var s := Run(buffers, data, es, fdCnt);
      forall i :: 0 <= i < |s.status| ==> s.status[i] == Free || s.status[i].Stranded?
    ensures var s := Run(buffers, data, es, fdCnt);
      && (!SomeLost(s.log, fdCnt) ==> s.driver == buffers)
      && (NoCommandLost(s.log) ==> (s.driver == buffers <==> !SomeLost(s.log, fdCnt)))
  {
    var s := Run(buffers, data, es, fdCnt);
    RunKeeps(buffers, data, es, fdCnt);
    DoubledMeans(s, buffers, fdCnt);
    LostIffStuck(buffers, data, es, fdCnt);
    BackIffNoneStuck(s, buffers, fdCnt);
    if NoCommandLost(s.log) {
      WholeIffRestEmpty(s.driver, HoldingAll(s.status, s.b.slots), buffers);
    }
  }

  // ---------------------------------------------------------------- runs that go wrong

  lemma RunOne(buffers: multiset<nat>, data: seq<int>, a: Event, fdCnt: nat)
    ensures Run(buffers, data, [a], fdCnt) == Apply(Init(buffers, data), a, fdCnt)
  {
    RunSnoc(buffers, data, [], a, fdCnt);
    assert [] + [a] == [a];
  }

  lemma RunTwo(buffers: multiset<nat>, data: seq<int>, a: Event, b: Event, fdCnt: nat)
    ensures Run(buffers, data, [a, b], fdCnt) == Apply(Run(buffers, data, [a], fdCnt), b, fdCnt)
  {
    RunSnoc(buffers, data, [a], b, fdCnt);
    assert [a] + [b] == [a, b];
  }

  lemma RunThree(buffers: multiset<nat>, data: seq<int>, a: Event, b: Event, c: Event, fdCnt: nat)
    ensures Run(buffers, data, [a, b, c], fdCnt) == Apply(Run(buffers, data, [a, b], fdCnt), c, fdCnt)
  {
    RunSnoc(buffers, data, [a, b], c, fdCnt);
    assert [a, b] + [c] == [a, b, c];
  }

  /** A stream with batches of one frame, whose only buffer is f's. */
  ghost predicate Looks(s: State, status: seq<Status>, driver: multiset<nat>, f: Frame) {
    && Shaped(s.b, 1) && !s.b.curMem && |status| == META_SLOTS && s.status == status && s.driver == driver
    && forall i :: 0 <= i < META_SLOTS ==>
         && (s.b.slots[i].consumerOwned <==> status[i] != Free)
         && (status[i] != Free ==> s.b.slots[i].numBuffers == 1 && s.b.slots[i].bufIndex[0] == f.buf)
  }

  lemma Starts(f: Frame, data: seq<int>)
    requires |data| == FIELDS
    ensures Looks(Init(multiset{f.buf}, data), [Free, Free, Free], multiset{f.buf}, f)
  {}

  lemma FillsBatch(b: Batch, f: Frame, i: nat)
    requires Shaped(b, 1) && !b.curMem && f.buf < 256 && i < META_SLOTS && FreeSlot(b.slots) == i
    ensures var o := Opened(b);
      && o.curMem && o.curMeta == i && o.curBuf == 0 && Shaped(o, 1)
      && Shaped(Put(o, f, 1), 1) && !Put(o, f, 1).curMem
      && Put(o, f, 1).slots == b.slots[i := MetaSlot(true, 1, b.slots[i].bufIndex[0 := f.buf])]
  {}

  lemma Fills(s: State, f: Frame, h: Handover, i: nat, status: seq<Status>, driver: multiset<nat>)
    requires Looks(s, status, driver, f) && f.buf < 256 && f.buf in driver
    requires i < META_SLOTS && status[i] == Free && forall j :: 0 <= j < i ==> status[j] != Free
    ensures var t := Apply(s, Arrive(f, h), 1);
      && Looks(t, status[i := StatusAfter(h, 1)], if Failed(h) then driver else driver - multiset{f.buf}, f)
      && |t.log| == |s.log| + 1 && t.log[..|s.log|] == s.log && t.log[|s.log|].handover == h
  {
    FreeSlotUnique(s.b.slots, i);
    FillsBatch(s.b, f, i);
    ArrivedFields(s, f, h, 1);
  }

  lemma Returns(s: State, f: Frame, m: nat, status: seq<Status>, driver: multiset<nat>)
    requires Looks(s, status, driver, f) && m < META_SLOTS
    requires status[m] == WithConsumer || status[m] == StillQueued
    ensures var t := Apply(s, GiveBack(m), 1);
      Looks(t, status[m := Free], Done(driver, f.buf), f) && t.log == s.log
  {
    GiveBackFields(s, m, 1);
    assert Listed(s.b.slots[m]) == [f.buf] && [f.buf][..0] == [];
  }

  /** A run that loses its only buffer: a batch of one frame that is full but not sent. */
  lemma UnsentFrameIsLost(f: Frame, data: seq<int>)
    requires f.buf < 256 && |data| == FIELDS
    ensures var s := Run(multiset{f.buf}, data, [Arrive(f, NotSent)], 1);
      && s.driver == multiset{} && s.status == [Stranded(1), Free, Free]
      && |s.log| == 1 && s.log[0].handover == NotSent
  {
    RunOne(multiset{f.buf}, data, Arrive(f, NotSent), 1);
    Starts(f, data);
    Fills(Init(multiset{f.buf}, data), f, NotSent, 0, [Free, Free, Free], multiset{f.buf});
  }

  /** The buffer comes again into the second slot, and the first gives it back. */
  lemma AgainAndBack(s: State, f: Frame, h: Handover)
    requires Looks(s, [StillQueued, Free, Free], multiset{f.buf}, f) && f.buf < 256 && !Failed(h)
    ensures var t := Apply(Apply(s, Arrive(f, h), 1), GiveBack(0), 1);
      && Looks(t, [Free, StatusAfter(h, 1), Free], multiset{f.buf}, f)
      && |t.log| == |s.log| + 1 && t.log[..|s.log|] == s.log && t.log[|s.log|].handover == h
  {
    Fills(s, f, h, 1, [StillQueued, Free, Free], multiset{f.buf});
    Returns(Apply(s, Arrive(f, h), 1), f, 0, [StillQueued, StatusAfter(h, 1), Free], multiset{});
  }

  lemma FirstLost(f: Frame, data: seq<int>)
    requires f.buf < 256 && |data| == FIELDS
    ensures var s := Run(multiset{f.buf}, data, [Arrive(f, CommandLost)], 1);
      && Looks(s, [StillQueued, Free, Free], multiset{f.buf}, f)
      && |s.log| == 1 && s.log[0].handover == CommandLost
  {
    RunOne(multiset{f.buf}, data, Arrive(f, CommandLost), 1);
    Starts(f, data);
    Fills(Init(multiset{f.buf}, data), f, CommandLost, 0, [Free, Free, Free], multiset{f.buf});
  }

  lemma LostThenAgain(f: Frame, h: Handover, data: seq<int>)
    requires f.buf < 256 && |data| == FIELDS && !Failed(h)
    ensures var s := Run(multiset{f.buf}, data, [Arrive(f, CommandLost), Arrive(f, h), GiveBack(0)], 1);
      && Looks(s, [Free, StatusAfter(h, 1), Free], multiset{f.buf}, f)
      && |s.log| == 2 && s.log[0].handover == CommandLost && s.log[1].handover == h
  {
    RunTwo(multiset{f.buf}, data, Arrive(f, CommandLost), Arrive(f, h), 1);
    RunThree(multiset{f.buf}, data, Arrive(f, CommandLost), Arrive(f, h), GiveBack(0), 1);
    FirstLost(f, data);
    AgainAndBack(Run(multiset{f.buf}, data, [Arrive(f, CommandLost)], 1), f, h);
  }

  /** A run that gives a buffer back while the consumer reads it: the command of its first hand-over
      is lost, it comes again and is sent, and then the first slot returns it. */
  lemma GivenBackWhileRead(f: Frame, data: seq<int>)
    requires f.buf < 256 && |data| == FIELDS
    ensures var s := Run(multiset{f.buf}, data, [Arrive(f, CommandLost), Arrive(f, Sent), GiveBack(0)], 1);
      && s.driver == multiset{f.buf} && s.status == [Free, WithConsumer, Free]
      && |s.b.slots| == META_SLOTS && s.b.slots[1].numBuffers == 1
      && |s.b.slots[1].bufIndex| == MAX_BATCH && s.b.slots[1].bufIndex[0] == f.buf
  {
    LostThenAgain(f, Sent, data);
  }

  lemma BackThenUnsent(s: State, f: Frame)
    requires Looks(s, [StillQueued, Free, Free], multiset{f.buf}, f) && f.buf < 256
    ensures var t := Apply(Apply(s, GiveBack(0), 1), Arrive(f, NotSent), 1);
      && Looks(t, [Stranded(1), Free, Free], multiset{}, f)
      && |t.log| == |s.log| + 1 && t.log[..|s.log|] == s.log && t.log[|s.log|].handover == NotSent
  {
    Returns(s, f, 0, [StillQueued, Free, Free], multiset{f.buf});
    Fills(Apply(s, GiveBack(0), 1), f, NotSent, 0, [Free, Free, Free], multiset{f.buf});
  }

  lemma LostBackUnsent(f: Frame, data: seq<int>)
    requires f.buf < 256 && |data| == FIELDS
    ensures var s := Run(multiset{f.buf}, data, [Arrive(f, CommandLost), GiveBack(0), Arrive(f, NotSent)], 1);
      && Looks(s, [Stranded(1), Free, Free], multiset{}, f)
      && |s.log| == 2 && s.log[0].handover == CommandLost && s.log[1].handover == NotSent
  {
    RunTwo(multiset{f.buf}, data, Arrive(f, CommandLost), GiveBack(0), 1);
    RunThree(multiset{f.buf}, data, Arrive(f, CommandLost), GiveBack(0), Arrive(f, NotSent), 1);
    FirstLost(f, data);
    BackThenUnsent(Run(multiset{f.buf}, data, [Arrive(f, CommandLost)], 1), f);
  }

  /** With lost commands which hand-overs there were does not decide whether a buffer is lost: in one
      order the unsent slot's buffer is with the driver at the end, in the other it is not. */
  lemma HandoversDoNotDecide(f: Frame, data: seq<int>)
    requires f.buf < 256 && |data| == FIELDS
    ensures var s := Run(multiset{f.buf}, data, [Arrive(f, CommandLost), Arrive(f, NotSent), GiveBack(0)], 1);
      && s.driver == multiset{f.buf} && s.status == [Free, Stranded(1), Free]
      && |s.log| == 2 && s.log[0].handover == CommandLost && s.log[1].handover == NotSent
    ensures var s := Run(multiset{f.buf}, data, [Arrive(f, CommandLost), GiveBack(0), Arrive(f, NotSent)], 1);
      && s.driver == multiset{} && s.status == [Stranded(1), Free, Free]
      && |s.log| == 2 && s.log[0].handover == CommandLost && s.log[1].handover == NotSent
  {
    LostThenAgain(f, NotSent, data);
    LostBackUnsent(f, data);
  }

  /** A stream with batches of two frames whose first slot has these buffers listed. */
  ghost predicate Pair(s: State, st: Status, bufs: seq<nat>, driver: multiset<nat>, refused: multiset<nat>) {
    && Shaped(s.b, 2) && s.status == [st, Free, Free] && s.driver == driver && s.refused == refused
    && |bufs| <= 2 && s.b.slots[0].numBuffers == |bufs| && s.b.slots[0].bufIndex[..|bufs|] == bufs
    && (s.b.curMem <==> st == Filling) && (st == Filling ==> s.b.curMeta == 0 && s.b.curBuf == |bufs|)
    && (s.b.slots[0].consumerOwned <==> st != Free)
  }

  lemma FirstOfPair(s: State, f: Frame, h: Handover, y: nat)
    requires Pair(s, Free, [], multiset{f.buf, y}, multiset{}) && f.buf < 256
    ensures Pair(Apply(s, Arrive(f, h), 2), Filling, [f.buf], multiset{y}, multiset{})
  {
    FreeSlotUnique(s.b.slots, 0);
    ArrivedFields(s, f, h, 2);
    assert s.driver - multiset{f.buf} == multiset{y};
  }

  lemma SecondOfPair(s: State, x: nat, g: Frame)
    requires Pair(s, Filling, [x], multiset{g.buf}, multiset{}) && g.buf < 256
    ensures Pair(Apply(s, Arrive(g, CommandLost), 2), StillQueued, [x, g.buf], multiset{g.buf}, multiset{})
  {
    ArrivedFields(s, g, CommandLost, 2);
    assert s.b.slots[0].bufIndex[0] == s.b.slots[0].bufIndex[..1][0];
  }

  /** Two buffers given back of which the driver has the second. */
  lemma PairDone(x: nat, y: nat)
    requires x != y
    ensures DoneAll(multiset{y}, [x, y]) == multiset{x, y} && Refusals(multiset{y}, [x, y]) == multiset{y}
  {
    assert [x, y][..1] == [x] && [x][..0] == [];
    assert DoneAll(multiset{y}, [x]) == multiset{y, x} && Refusals(multiset{y}, [x]) == multiset{};
  }

  lemma PairFreed(s: State, t: State, x: nat, y: nat)
    requires Pair(s, StillQueued, [x, y], multiset{y}, multiset{})
    requires t.b == s.b.(slots := s.b.slots[0 := s.b.slots[0].(consumerOwned := false, numBuffers := 0)])
    requires t.status == s.status[0 := Free] && t.driver == multiset{x, y} && t.refused == multiset{y}
    ensures Pair(t, Free, [], multiset{x, y}, multiset{y})
  {}

  lemma ReturnsPair(s: State, x: nat, y: nat)
    requires Pair(s, StillQueued, [x, y], multiset{y}, multiset{}) && x != y
    ensures Pair(Apply(s, GiveBack(0), 2), Free, [], multiset{x, y}, multiset{y})
  {
    GiveBackFields(s, 0, 2);
    assert Listed(s.b.slots[0]) == [x, y];
    PairDone(x, y);
    assert s.refused + multiset{y} == multiset{y};
    PairFreed(s, Apply(s, GiveBack(0), 2), x, y);
  }

  lemma PairStarts(x: nat, y: nat, data: seq<int>)
    requires |data| == FIELDS * 2
    ensures Pair(Init(multiset{x, y}, data), Free, [], multiset{x, y}, multiset{})
  {}

  lemma PairReturns(s: State, f: Frame, g: Frame, h: Handover)
    requires Pair(s, Free, [], multiset{f.buf, g.buf}, multiset{})
    requires f.buf < 256 && g.buf < 256 && f.buf != g.buf
    ensures var t := Apply(Apply(Apply(s, Arrive(f, h), 2), Arrive(g, CommandLost), 2), GiveBack(0), 2);
      Pair(t, Free, [], multiset{f.buf, g.buf}, multiset{g.buf})
  {
    FirstOfPair(s, f, h, g.buf);
    SecondOfPair(Apply(s, Arrive(f, h), 2), f.buf, g);
    ReturnsPair(Apply(Apply(s, Arrive(f, h), 2), Arrive(g, CommandLost), 2), f.buf, g.buf);
  }

  /** A run that gives a buffer back twice: once when the notification is reported as failed and once
      with its slot. The reference count refuses the second. */
  lemma ReturnedTwice(f: Frame, g: Frame, h: Handover, data: seq<int>)
    requires f.buf < 256 && g.buf < 256 && f.buf != g.buf && |data| == FIELDS * 2
    ensures var s := Run(multiset{f.buf, g.buf}, data, [Arrive(f, h), Arrive(g, CommandLost), GiveBack(0)], 2);
      && s.driver == multiset{f.buf, g.buf} && s.refused == multiset{g.buf} && s.status == [Free, Free, Free]
  {
    var b, e, e' := multiset{f.buf, g.buf}, Arrive(f, h), Arrive(g, CommandLost);
    RunOne(b, data, e, 2);
    RunTwo(b, data, e, e', 2);
    RunThree(b, data, e, e', GiveBack(0), 2);
    PairStarts(f.buf, g.buf, data);
    PairReturns(Init(b, data), f, g, h);
  }
}
