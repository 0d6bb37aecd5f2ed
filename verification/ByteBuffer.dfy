/** The growable two-cursor buffer of include/ByteBuffer.h and src/ByteBuffer.cc with
    the network-order integers of include/NetBuffer.h, against a plain byte queue. */
module ByteBuffers {
  import opened Bytes
  import opened ByteOrder

  const UNLIMITED := -1
  const INITIAL_SIZE := 1024
  const EXTRA_SIZE := 65536
  const SIZE_VALUES := 0x1_0000_0000_0000_0000   // values of size_t

  class ByteBuffer {
    var maxSize: int
    var reader: nat
    var writer: nat
    var buffer: seq<byte>

    ghost predicate Valid()
      reads this
    {
      && reader <= writer <= |buffer|
      && (maxSize != UNLIMITED ==> writer <= Limit())
    }

    // The limit of a fixed buffer as size_t: a negative one other than -1 is huge.
    function Limit(): (n: nat)
      reads this
      ensures 0 <= maxSize < SIZE_VALUES ==> n == maxSize
    {
      maxSize % SIZE_VALUES
    }

    // The bytes between the cursors: what a reader of the buffer sees.
    ghost function Contents(): seq<byte>
      reads this
      requires Valid()
    {
      buffer[reader..writer]
    }

    // How many more bytes a fixed buffer takes; an unlimited one always has room.
    ghost predicate Fits(n: nat)
      reads this
    {
      maxSize == UNLIMITED || n <= Limit() - writer
    }

    // The tail that writable_bytes promises exists in the vector.
    ghost predicate TailAllocated()
      reads this
    {
      maxSize == UNLIMITED || Limit() <= |buffer|
    }

    constructor (max: int := UNLIMITED, initial: nat := INITIAL_SIZE)
      ensures Valid() && maxSize == max && Contents() == []
      ensures |buffer| == if max > 0 then max else initial
      ensures reader == writer == 0 && (0 <= max < SIZE_VALUES ==> TailAllocated())
    {
      maxSize := max;
      reader, writer := 0, 0;
      buffer := seq(if max > 0 then max else initial, _ => 0);
    }

    // Move construction: the vector is taken over and rhs is left empty.
    constructor MoveFrom(rhs: ByteBuffer)
      requires rhs.Valid()
      modifies rhs
      ensures Valid() && maxSize == old(rhs.maxSize) && Contents() == old(rhs.Contents())
      ensures rhs.Valid() && rhs.maxSize == old(rhs.maxSize) && rhs.Contents() == []
    {
      maxSize, reader, writer, buffer := rhs.maxSize, rhs.reader, rhs.writer, rhs.buffer;
      new;
      rhs.buffer := [];
      rhs.Reset();
    }

    method Swap(rhs: ByteBuffer)
      requires Valid() && rhs.Valid()
      modifies this, rhs
      ensures Valid() && rhs.Valid()
      ensures maxSize == old(rhs.maxSize) && rhs.maxSize == old(maxSize)
      ensures Contents() == old(rhs.Contents()) && rhs.Contents() == old(Contents())
    {
      maxSize, rhs.maxSize := rhs.maxSize, maxSize;
      reader, rhs.reader := rhs.reader, reader;
      writer, rhs.writer := rhs.writer, writer;
      buffer, rhs.buffer := rhs.buffer, buffer;
    }

    // Move assignment: swap, then the right-hand side is emptied.
    method MoveAssign(rhs: ByteBuffer)
      requires Valid() && rhs.Valid()
      modifies this, rhs
      ensures Valid() && maxSize == old(rhs.maxSize)
      ensures rhs.Valid() && rhs.maxSize == old(maxSize) && rhs.Contents() == []
      ensures rhs != this ==> Contents() == old(rhs.Contents())
    {
      Swap(rhs);
      rhs.Reset();
    }

    method Reset()
      modifies `reader, `writer
      ensures reader == writer == 0
    {
      reader, writer := 0, 0;
    }

    function ReadableBytes(): (n: nat)
      reads this
      requires Valid()
      ensures n == |Contents()|
    {
      writer - reader
    }

    function WritableBytes(): (n: nat)
      reads this
      requires Valid()
    {
      (if maxSize != UNLIMITED then Limit() else |buffer|) - writer
    }

    // The n bytes that start offset bytes after the read cursor.
    function Peek(offset: nat, n: nat): (s: seq<byte>)
      reads this
      requires Valid() && offset + n <= ReadableBytes()
      ensures s == Contents()[offset..offset + n]
    {
      var s := buffer[reader + offset..reader + offset + n];
      assert forall i :: 0 <= i < n ==> s[i] == Contents()[offset + i];
      s
    }

    // The caller has stored n bytes at the write cursor.
    method HasWritten(n: nat)
      requires Valid() && writer + n <= |buffer| && Fits(n)
      modifies `writer
      ensures Valid() && Contents() == old(Contents()) + buffer[old(writer)..old(writer) + n]
    {
      writer := writer + n;
    }

    method HasRead(n: nat)
      requires Valid()
      modifies `reader, `writer
      ensures Valid()
      ensures Contents() == if n <= |old(Contents())| then old(Contents())[n..] else []
      ensures n >= |old(Contents())| ==> reader == writer == 0
    {
      if n < ReadableBytes() {
        reader := reader + n;
      } else {
        Reset();
      }
    }

    method TakenAsString(n: int := -1) returns (s: seq<byte>)
      requires Valid() && n <= ReadableBytes()
      modifies `reader, `writer
      ensures Valid()
      ensures s == if n < 0 then old(Contents()) else old(Contents())[..n]
      ensures s + Contents() == old(Contents())
    {
      var len := if n <= -1 then ReadableBytes() else n;
      s := buffer[reader..reader + len];
      assert s == Contents()[..len];
      HasRead(len);
    }

    method MigrateData()
      requires Valid()
      modifies `reader, `writer, `buffer
      ensures Valid() && reader == 0 && |buffer| == |old(buffer)| && writer <= old(writer)
      ensures Contents() == old(Contents())
    {
      if reader != 0 {
        var readable := ReadableBytes();
        buffer := buffer[reader..writer] + buffer[readable..];
        reader := 0;
        writer := readable;
      }
    }

    method MakeWritableBytes(n: nat)
      requires Valid()
      modifies `reader, `writer, `buffer
      ensures Valid() && Contents() == old(Contents()) && reader <= old(reader)
      ensures old(Fits(n)) ==> writer + n <= |buffer| && Fits(n)
      ensures !old(Fits(n)) ==> reader == old(reader) && writer == old(writer) && buffer == old(buffer)
    {
      var spare := (if maxSize != UNLIMITED && Limit() < |buffer| then Limit() else |buffer|) - writer;
      if spare < n {
        if maxSize != UNLIMITED && Limit() - writer < n {
          return;
        }
        buffer := buffer + seq(writer + n - |buffer|, _ => 0);
      } else if reader != 0 {
        MigrateData();
      }
    }

    method Append(data: seq<byte>) returns (ok: bool)
      requires Valid()
      modifies `reader, `writer, `buffer
      ensures Valid() && ok == old(Fits(|data|)) && reader <= old(reader)
      ensures ok ==> Contents() == old(Contents()) + data
      ensures !ok ==> reader == old(reader) && writer == old(writer) && buffer == old(buffer)
    {
      MakeWritableBytes(|data|);
      if WritableBytes() >= |data| {
        ghost var before := Contents();
        buffer := buffer[..writer] + data + buffer[writer + |data|..];
        assert Contents() == before;
        HasWritten(|data|);
        return true;
      }
      return false;
    }

    method Shrink()
      requires Valid()
      modifies `reader, `writer, `buffer
      ensures Valid() && Contents() == old(Contents()) && |buffer| == |Contents()|
    {
      MigrateData();
      buffer := buffer[..ReadableBytes()];
    }

    // A caller stores data at the write cursor and says so.
    method WriteTail(data: seq<byte>) returns (ok: bool)
      requires Valid()
      modifies `writer, `buffer
      ensures Valid() && ok == old(writer + |data| <= |buffer| && Fits(|data|))
      ensures Contents() == if ok then old(Contents()) + data else old(Contents())
    {
      if writer + |data| > |buffer| || |data| > WritableBytes() {
        return false;
      }
      ghost var before := Contents();
      buffer := buffer[..writer] + data + buffer[writer + |data|..];
      assert Contents() == before;
      HasWritten(|data|);
      return true;
    }

    // ---------- Network-order integers ----------

    // append_int8, 16, 32 and 64: x in w bytes, whatever the host order.
    method AppendInt(x: int, w: nat, littleEndian: bool) returns (ok: bool)
      requires Valid()
      modifies `reader, `writer, `buffer
      ensures Valid() && ok == old(Fits(w))
      ensures Contents() == if ok then old(Contents()) + BigEndian(x, w) else old(Contents())
    {
      HostToNetIsBigEndian(littleEndian, x, w);
      ok := Append(Memory(littleEndian, HostToNet(littleEndian, x, w), w));
    }

    // The w bytes at offset, as an unsigned integer.
    method PeekUnsigned(offset: nat, w: nat, littleEndian: bool) returns (n: nat)
      requires Valid() && offset + w <= ReadableBytes()
      ensures n == Unsigned(Contents()[offset..offset + w])
    {
      var bytes := Peek(offset, w);
      NetToHostReadsBigEndian(littleEndian, bytes);
      n := HostToNet(littleEndian, FromMemory(littleEndian, bytes), w);
    }

    // peek_int8, 16, 32 and 64: the unsigned value reinterpreted as signed.
    method PeekInt(w: nat, littleEndian: bool) returns (x: int)
      requires Valid() && w <= ReadableBytes()
      ensures x == Signed(Contents()[..w])
    {
      var n := PeekUnsigned(0, w, littleEndian);
      assert Contents()[0..w] == Contents()[..w];
      x := if 2 * n >= Pow256(w) then n - Pow256(w) else n;
    }

    method ReadInt(w: nat, littleEndian: bool) returns (x: int)
      requires Valid() && w <= ReadableBytes()
      modifies `reader, `writer
      ensures Valid() && x == Signed(old(Contents())[..w]) && Contents() == old(Contents())[w..]
    {
      x := PeekInt(w, littleEndian);
      HasRead(w);
    }

    // ---------- Scatter read ----------

    // How many bytes one readv can deliver.
    function ReadLimit(): nat
      reads this
      requires Valid()
    {
      WritableBytes() + if WritableBytes() < EXTRA_SIZE then EXTRA_SIZE else 0
    }

    // Of n bytes, those that readv stores in the tail stay inside the vector.
    predicate StaysInside(n: nat)
      reads this
      requires Valid()
    {
      writer + Min(n, WritableBytes()) <= |buffer|
    }

    // read_fd is safe whatever arrives exactly when the promised tail is allocated.
    lemma ReadFdSafe()
      requires Valid()
      ensures (forall n: nat :: n <= ReadLimit() ==> StaysInside(n)) <==> TailAllocated()
    {
      if forall n: nat :: n <= ReadLimit() ==> StaysInside(n) {
        assert StaysInside(WritableBytes());
      }
    }

    // read_fd, given the bytes readv delivered (None when it failed): the free tail is
    // filled first, the rest goes through the side array.
    method ReadFd(arrived: Option<seq<byte>>) returns (n: int)
      requires Valid()
      requires arrived.Some? ==> |arrived.value| <= ReadLimit() && StaysInside(|arrived.value|)
      modifies `reader, `writer, `buffer
      ensures Valid()
      ensures arrived.None? ==> n == -1 && Contents() == old(Contents())
      ensures arrived.Some? ==> n == |arrived.value|
      ensures arrived.Some? && old(Fits(n)) ==> Contents() == old(Contents()) + arrived.value
      ensures arrived.Some? && !old(Fits(n)) ==>
        Contents() == old(Contents()) + arrived.value[..old(WritableBytes())]
    {
      if arrived.None? {
        return -1;
      }
      var data, writable := arrived.value, WritableBytes();
      n := |data|;
      if n <= writable {
        var ok := WriteTail(data);
      } else {
        var ok := WriteTail(data[..writable]);
        ok := Append(data[writable..]);
        assert data == data[..writable] + data[writable..];
      }
    }
  }

  // A fixed buffer that was shrunk promises a tail that its vector does not have.
  method ShrunkOverruns() returns (b: ByteBuffer)
    ensures b.Valid() && b.maxSize == 10 && b.Contents() == []
    ensures !b.TailAllocated() && forall n: nat :: n > 0 ==> !b.StaysInside(n)
  {
    b := new ByteBuffer(10);
    b.Shrink();
  }

  // A new fixed buffer takes exactly as many bytes as its limit says, in one piece or two,
  // and once they have all been read it takes as many again.
  method FixedCapacity(max: nat, first: seq<byte>, second: seq<byte>, third: seq<byte>)
    returns (ok1: bool, ok2: bool, ok3: bool)
    requires max < SIZE_VALUES
    ensures ok1 <==> |first| <= max
    ensures ok2 <==> (if ok1 then |first| else 0) + |second| <= max
    ensures ok3 <==> |third| <= max
  {
    var b := new ByteBuffer(max);
    ok1 := b.Append(first);
    assert b.writer == |b.Contents()| && b.Limit() == max;
    ok2 := b.Append(second);
    b.HasRead(b.ReadableBytes());
    ok3 := b.Append(third);
  }

  // ---------- Every sequence of operations is a run of a byte queue ----------

  datatype Option<T> = None | Some(value: T)

  function Min(a: nat, b: nat): nat {
    if a < b then a else b
  }

  datatype Op =
    | OpAppend(data: seq<byte>)
    | OpAppendInt(x: int, w: nat)
    | OpEnsure(n: nat)
    | OpWriteTail(data: seq<byte>)    // stored at begin_write(), then has_written
    | OpReadFd(data: seq<byte>)
    | OpHasRead(n: nat)
    | OpTake(length: int)
    | OpReadInt(w: nat)
    | OpShrink
    | OpReset

  datatype Outcome =
    | Stored(ok: bool)
    | Received(n: nat, kept: nat)     // read_fd returned n, and kept bytes joined the queue
    | Taken(bytes: seq<byte>)
    | Number(x: int)
    | Done
    | Misused                         // an assertion of the source forbids the call
    | Overrun                         // read_fd would store past the vector

  // The bytes that leave the front of queue q under op.
  function Leaving(q: seq<byte>, op: Op): seq<byte> {
    match op
    case OpHasRead(n) => q[..Min(n, |q|)]
    case OpTake(n) => if n < 0 then q else if n <= |q| then q[..n] else []
    case OpReadInt(w) => if w <= |q| then q[..w] else []
    case OpReset => q
    case _ => []
  }

  function Entering(op: Op, out: Outcome): seq<byte> {
    match op
    case OpAppend(data) => if out == Stored(true) then data else []
    case OpAppendInt(x, w) => if out == Stored(true) then BigEndian(x, w) else []
    case OpWriteTail(data) => if out == Stored(true) then data else []
    case OpReadFd(data) => if out.Received? && out.kept <= |data| then data[..out.kept] else []
    case _ => []
  }

  // Whether out is the right answer to op on queue q.
  predicate Answers(q: seq<byte>, op: Op, out: Outcome) {
    match op
    case OpAppend(_) => out.Stored?
    case OpAppendInt(_, _) => out.Stored?
    case OpWriteTail(_) => out == Stored(true) || out == Misused
    case OpReadFd(data) => out == Overrun || (out.Received? && out.kept <= out.n <= |data|)
    case OpTake(n) => out == if n <= |q| then Taken(Leaving(q, op)) else Misused
    case OpReadInt(w) => out == if w <= |q| then Number(Signed(q[..w])) else Misused
    case _ => out == Done
  }

  function QueueAfter(q: seq<byte>, op: Op, out: Outcome): seq<byte> {
    q[|Leaving(q, op)|..] + Entering(op, out)
  }

  // Nothing that was offered is refused or lost.
  predicate Complete(out: Outcome) {
    out != Stored(false) && out != Overrun && (out.Received? ==> out.kept == out.n)
  }

  // outs are the answers of a byte queue that starts as q and ends as q'.
  predicate QueueRun(q: seq<byte>, ops: seq<Op>, outs: seq<Outcome>, q': seq<byte>)
    decreases |ops|
  {
    if ops == [] || outs == [] then ops == [] && outs == [] && q == q' else
    Answers(q, ops[0], outs[0]) && QueueRun(QueueAfter(q, ops[0], outs[0]), ops[1..], outs[1..], q')
  }

  // Operations that put bytes in.
  method Put(b: ByteBuffer, op: Op, littleEndian: bool) returns (out: Outcome)
    requires b.Valid() && (op.OpAppend? || op.OpAppendInt? || op.OpEnsure? || op.OpWriteTail?)
    modifies b
    ensures b.Valid() && b.maxSize == old(b.maxSize)
    ensures Answers(old(b.Contents()), op, out)
    ensures b.Contents() == QueueAfter(old(b.Contents()), op, out)
    ensures op.OpAppend? ==> out == Stored(old(b.Fits(|op.data|)))
    ensures op.OpAppendInt? ==> out == Stored(old(b.Fits(op.w)))
  {
    hide BigEndian;
    match op
    case OpAppend(data) =>
      var ok := b.Append(data);
      out := Stored(ok);
    case OpAppendInt(x, w) =>
      var ok := b.AppendInt(x, w, littleEndian);
      out := Stored(ok);
    case OpEnsure(n) =>
      b.MakeWritableBytes(n);
      out := Done;
    case OpWriteTail(data) =>
      var ok := b.WriteTail(data);
      out := if ok then Stored(true) else Misused;
  }

  // read_fd with up to |data| bytes waiting.
  method Receive(b: ByteBuffer, data: seq<byte>) returns (out: Outcome)
    requires b.Valid()
    modifies b
    ensures b.Valid() && b.maxSize == old(b.maxSize)
    ensures Answers(old(b.Contents()), OpReadFd(data), out)
    ensures b.Contents() == QueueAfter(old(b.Contents()), OpReadFd(data), out)
    ensures var n := old(Min(|data|, b.ReadLimit()));
      out == if !old(b.StaysInside(n)) then Overrun
             else Received(n, if old(b.Fits(n)) then n else old(b.WritableBytes()))
  {
    var n := Min(|data|, b.ReadLimit());
    if !b.StaysInside(n) {
      return Overrun;
    }
    ghost var fits := b.Fits(n);
    var writable := b.WritableBytes();
    ghost var before := b.Contents();
    var limited := b.maxSize != UNLIMITED;
    var got := b.ReadFd(Some(data[..n]));
    var kept := if limited && n > writable then writable else n;
    assert data[..n][..kept] == data[..kept];
    assert b.Contents() == before + data[..kept];
    out := Received(n, kept);
  }

  // One read into a new unlimited buffer takes what fits its first 1024 bytes and the side
  // array of 65536, and no more.
  method FreshRead(data: seq<byte>) returns (n: nat, kept: seq<byte>)
    ensures n == (if |data| <= 66560 then |data| else 66560) && kept == data[..n]
  {
    var b := new ByteBuffer();
    var out := Receive(b, data);
    n := out.n;
    kept := b.TakenAsString();
  }

  // Operations that take bytes out, or none.
  method Get(b: ByteBuffer, op: Op, littleEndian: bool) returns (out: Outcome)
    requires b.Valid() && (op.OpHasRead? || op.OpTake? || op.OpReadInt? || op.OpShrink? || op.OpReset?)
    modifies b
    ensures b.Valid() && b.maxSize == old(b.maxSize)
    ensures Answers(old(b.Contents()), op, out)
    ensures b.Contents() == QueueAfter(old(b.Contents()), op, out)
    ensures Complete(out)
  {
    hide Signed;
    match op
    case OpHasRead(n) =>
      b.HasRead(n);
      out := Done;
    case OpTake(n) =>
      if n > b.ReadableBytes() {
        return Misused;
      }
      var bytes := b.TakenAsString(n);
      out := Taken(bytes);
    case OpReadInt(w) =>
      if w > b.ReadableBytes() {
        return Misused;
      }
      var x := b.ReadInt(w, littleEndian);
      out := Number(x);
    case OpShrink =>
      b.Shrink();
      out := Done;
    case OpReset =>
      b.Reset();
      out := Done;
  }

  method Apply(b: ByteBuffer, op: Op, littleEndian: bool) returns (out: Outcome)
    requires b.Valid()
    modifies b
    ensures b.Valid() && b.maxSize == old(b.maxSize)
    ensures Answers(old(b.Contents()), op, out)
    ensures b.Contents() == QueueAfter(old(b.Contents()), op, out)
    ensures b.maxSize == UNLIMITED ==> Complete(out)
  {
    hide Entering, Leaving, QueueAfter;
    if op.OpReadFd? {
      b.ReadFdSafe();
      out := Receive(b, op.data);
    } else if op.OpAppend? || op.OpAppendInt? || op.OpEnsure? || op.OpWriteTail? {
      out := Put(b, op, littleEndian);
    } else {
      out := Get(b, op, littleEndian);
    }
  }

  method Replay(b: ByteBuffer, ops: seq<Op>, littleEndian: bool) returns (outs: seq<Outcome>)
    requires b.Valid()
    modifies b
    ensures b.Valid() && b.maxSize == old(b.maxSize)
    ensures QueueRun(old(b.Contents()), ops, outs, b.Contents())
    ensures b.maxSize == UNLIMITED ==> forall i :: 0 <= i < |outs| ==> Complete(outs[i])
    decreases |ops|
  {
    hide Answers, QueueAfter, Complete;
    if ops == [] {
      return [];
    }
    var first := Apply(b, ops[0], littleEndian);
    var rest := Replay(b, ops[1..], littleEndian);
    outs := [first] + rest;
    assert outs[0] == first && outs[1..] == rest;
  }

  function Entered(ops: seq<Op>, outs: seq<Outcome>): seq<byte>
    decreases |ops|
  {
    if ops == [] || outs == [] then [] else Entering(ops[0], outs[0]) + Entered(ops[1..], outs[1..])
  }

  function Departed(q: seq<byte>, ops: seq<Op>, outs: seq<Outcome>): seq<byte>
    decreases |ops|
  {
    if ops == [] || outs == [] then [] else
    Leaving(q, ops[0]) + Departed(QueueAfter(q, ops[0], outs[0]), ops[1..], outs[1..])
  }

  lemma StepConserves(q: seq<byte>, op: Op, out: Outcome)
    ensures Leaving(q, op) + QueueAfter(q, op, out) == q + Entering(op, out)
  {
    hide Entering;
    var left := Leaving(q, op);
    assert left == q[..|left|];
  }

  lemma Regroup(a: seq<byte>, b: seq<byte>, c: seq<byte>, d: seq<byte>, e: seq<byte>, f: seq<byte>, g: seq<byte>)
    requires b + c == d + e && a + d == f + g
    ensures (a + b) + c == f + (g + e)
  {
    assert (a + b) + c == a + (b + c);
    assert a + (d + e) == (a + d) + e;
    assert (f + g) + e == f + (g + e);
  }

  // No byte is lost, duplicated or reordered: what left, followed by what is still
  // there, is what was there at first followed by what was accepted.
  lemma {:induction false} BytesConserved(q: seq<byte>, ops: seq<Op>, outs: seq<Outcome>, q': seq<byte>)
    requires QueueRun(q, ops, outs, q')
    ensures Departed(q, ops, outs) + q' == q + Entered(ops, outs)
    decreases |ops|
  {
    hide Answers, Leaving, Entering, QueueAfter;
    if ops != [] {
      var mid := QueueAfter(q, ops[0], outs[0]);
      BytesConserved(mid, ops[1..], outs[1..], q');
      StepConserves(q, ops[0], outs[0]);
      Regroup(Leaving(q, ops[0]), Departed(mid, ops[1..], outs[1..]), q', mid, Entered(ops[1..], outs[1..]),
              q, Entering(ops[0], outs[0]));
    }
  }

  // ---------- Two buffers, with swap and move ----------

  datatype Pair = Pair(first: seq<byte>, second: seq<byte>)

  datatype PairOp =
    | First(op: Op)
    | Second(op: Op)
    | Swap            // first.swap(second)
    | MoveAssign      // first = std::move(second)
    | MoveConstruct   // first is made anew from std::move(second)

  function PairAfter(p: Pair, op: PairOp, out: Outcome): Pair {
    match op
    case First(o) => Pair(QueueAfter(p.first, o, out), p.second)
    case Second(o) => Pair(p.first, QueueAfter(p.second, o, out))
    case Swap => Pair(p.second, p.first)
    case _ => Pair(p.second, [])
  }

  predicate PairAnswers(p: Pair, op: PairOp, out: Outcome) {
    match op
    case First(o) => Answers(p.first, o, out)
    case Second(o) => Answers(p.second, o, out)
    case _ => out == Done
  }

  function PairLeaving(p: Pair, op: PairOp): seq<byte> {
    match op
    case First(o) => Leaving(p.first, o)
    case Second(o) => Leaving(p.second, o)
    case Swap => []
    case _ => p.first
  }

  function PairEntering(op: PairOp, out: Outcome): seq<byte> {
    if op.First? || op.Second? then Entering(op.op, out) else []
  }

  // outs are the answers of two byte queues that start as p and end as p'.
  predicate PairRun(p: Pair, ops: seq<PairOp>, outs: seq<Outcome>, p': Pair)
    decreases |ops|
  {
    if ops == [] || outs == [] then ops == [] && outs == [] && p == p' else
    PairAnswers(p, ops[0], outs[0]) && PairRun(PairAfter(p, ops[0], outs[0]), ops[1..], outs[1..], p')
  }

  method ApplyPair(a: ByteBuffer, b: ByteBuffer, op: PairOp, littleEndian: bool)
    returns (out: Outcome, a': ByteBuffer)
    requires a.Valid() && b.Valid() && a != b
    modifies a, b
    ensures a'.Valid() && b.Valid() && a' != b && (a' == a || fresh(a'))
    ensures PairAnswers(old(Pair(a.Contents(), b.Contents())), op, out)
    ensures Pair(a'.Contents(), b.Contents()) == PairAfter(old(Pair(a.Contents(), b.Contents())), op, out)
  {
    hide Answers, QueueAfter;
    a', out := a, Done;
    if op.First? {
      out := Apply(a, op.op, littleEndian);
    } else if op.Second? {
      out := Apply(b, op.op, littleEndian);
    } else if op.Swap? {
      a.Swap(b);
    } else if op.MoveAssign? {
      a.MoveAssign(b);
    } else {
      a' := new ByteBuffer.MoveFrom(b);
    }
  }

  // Any operations on two buffers, swaps and moves between them included.
  method ReplayPair(a: ByteBuffer, b: ByteBuffer, ops: seq<PairOp>, littleEndian: bool)
    returns (outs: seq<Outcome>, a': ByteBuffer)
    requires a.Valid() && b.Valid() && a != b
    modifies a, b
    ensures a'.Valid() && b.Valid() && a' != b
    ensures PairRun(old(Pair(a.Contents(), b.Contents())), ops, outs, Pair(a'.Contents(), b.Contents()))
    decreases |ops|
  {
    hide PairAnswers, PairAfter;
    if ops == [] {
      return [], a;
    }
    var first, x := ApplyPair(a, b, ops[0], littleEndian);
    var rest;
    rest, a' := ReplayPair(x, b, ops[1..], littleEndian);
    outs := [first] + rest;
    assert outs[0] == first && outs[1..] == rest;
  }

  function AllEntered(ops: seq<PairOp>, outs: seq<Outcome>): multiset<byte>
    decreases |ops|
  {
    if ops == [] || outs == [] then multiset{} else
    multiset(PairEntering(ops[0], outs[0])) + AllEntered(ops[1..], outs[1..])
  }

  function AllDeparted(p: Pair, ops: seq<PairOp>, outs: seq<Outcome>): multiset<byte>
    decreases |ops|
  {
    if ops == [] || outs == [] then multiset{} else
    multiset(PairLeaving(p, ops[0])) + AllDeparted(PairAfter(p, ops[0], outs[0]), ops[1..], outs[1..])
  }

  function Held(p: Pair): multiset<byte> {
    multiset(p.first) + multiset(p.second)
  }

  lemma BesideBag(a: multiset<byte>, b: multiset<byte>, c: multiset<byte>, d: multiset<byte>, e: multiset<byte>)
    requires a + b == c + d
    ensures a + (b + e) == (c + e) + d && a + (e + b) == (e + c) + d
  {
    assert a + (b + e) == (a + b) + e;
    assert b + e == e + b && c + e == e + c;
  }

  lemma RegroupBags(a: multiset<byte>, b: multiset<byte>, c: multiset<byte>, d: multiset<byte>, e: multiset<byte>,
                    f: multiset<byte>, g: multiset<byte>)
    requires b + c == d + e && a + d == f + g
    ensures (a + b) + c == f + (g + e)
  {
    assert (a + b) + c == a + (b + c);
    assert a + (d + e) == (a + d) + e;
  }

  lemma PairStepConserves(p: Pair, op: PairOp, out: Outcome)
    ensures multiset(PairLeaving(p, op)) + Held(PairAfter(p, op, out)) == Held(p) + multiset(PairEntering(op, out))
  {
    hide Leaving, Entering, QueueAfter;
    match op
    case First(o) =>
      SameBytes(p.first, o, out);
      BesideBag(multiset(Leaving(p.first, o)), multiset(QueueAfter(p.first, o, out)), multiset(p.first),
                multiset(Entering(o, out)), multiset(p.second));
    case Second(o) =>
      SameBytes(p.second, o, out);
      BesideBag(multiset(Leaving(p.second, o)), multiset(QueueAfter(p.second, o, out)), multiset(p.second),
                multiset(Entering(o, out)), multiset(p.first));
    case _ =>
  }

  lemma SameBytes(q: seq<byte>, op: Op, out: Outcome)
    ensures multiset(Leaving(q, op)) + multiset(QueueAfter(q, op, out)) == multiset(q) + multiset(Entering(op, out))
  {
    hide Leaving, Entering, QueueAfter;
    StepConserves(q, op, out);
    assert multiset(Leaving(q, op) + QueueAfter(q, op, out)) == multiset(q + Entering(op, out));
  }

  // Over both buffers too no byte is lost or made up.
  lemma {:induction false} PairConserved(p: Pair, ops: seq<PairOp>, outs: seq<Outcome>, p': Pair)
    requires PairRun(p, ops, outs, p')
    ensures AllDeparted(p, ops, outs) + Held(p') == Held(p) + AllEntered(ops, outs)
    decreases |ops|
  {
    hide PairAnswers, PairLeaving, PairEntering, PairAfter, Held;
    if ops != [] {
      var mid := PairAfter(p, ops[0], outs[0]);
      PairConserved(mid, ops[1..], outs[1..], p');
      PairStepConserves(p, ops[0], outs[0]);
      RegroupBags(multiset(PairLeaving(p, ops[0])), AllDeparted(mid, ops[1..], outs[1..]), Held(p'), Held(mid),
                  AllEntered(ops[1..], outs[1..]), Held(p), multiset(PairEntering(ops[0], outs[0])));
    }
  }
}
