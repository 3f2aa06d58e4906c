/** A byte string with room at both ends (src/buffer.rs). */
module Buffers {
  import opened Options
  import opened Bytes

  // The window after front growth, as the code computes it: the bytes move by more - start, the window by more.
  function FrontGrown(bytes: seq<bv8>, start: nat, more: nat): seq<bv8> {
    if start < more then Zeros(more - start) + bytes else bytes
  }

  // What a window shows; a window that reaches past the bytes shows nothing, reading it would panic.
  function Window(bytes: seq<bv8>, start: nat, end: nat): Option<seq<bv8>> {
    if start <= end <= |bytes| then Some(bytes[start..end]) else None
  }

  function AfterEnsureFront(bytes: seq<bv8>, start: nat, end: nat, more: nat): Option<seq<bv8>> {
    if start < more then Window(FrontGrown(bytes, start, more), start + more, end + more)
    else Window(bytes, start, end)
  }

  // The growth calls for which the window keeps showing the same bytes.
  predicate GrowsRight(capacity: nat, start: nat, end: nat, more: nat) {
    start == 0 || more <= start || (start == end && 2 * start <= capacity)
  }

  lemma FrontGrowthRight(bytes: seq<bv8>, start: nat, end: nat, more: nat)
    requires start <= end <= |bytes| && GrowsRight(|bytes|, start, end, more)
    ensures AfterEnsureFront(bytes, start, end, more) == Window(bytes, start, end)
  {
    if start < more {
      var grown := FrontGrown(bytes, start, more);
      assert grown[start + more..end + more] == bytes[start..end];
    }
  }

  // In the remaining case the window shows the bytes that lie `start` further right, if there are any.
  lemma FrontGrowthShift(bytes: seq<bv8>, start: nat, end: nat, more: nat)
    requires start <= end <= |bytes| && 0 < start < more
    ensures AfterEnsureFront(bytes, start, end, more) == Window(bytes, start + start, end + start)
  {
    if end + start <= |bytes| {
      var grown := Zeros(more - start) + bytes;
      var a, b := grown[start + more..end + more], bytes[start + start..end + start];
      assert forall k :: 0 <= k < |a| ==> a[k] == b[k];
      assert a == b;
    }
  }

  /** Front growth shifts the window `start` bytes too far whenever it happens at 0 < start < more: the content is kept
      for every possible content exactly when nothing is in front, or enough room is, or the window is empty. */
  lemma FrontGrowthExactly(capacity: nat, start: nat, end: nat, more: nat)
    requires start <= end <= capacity
    ensures GrowsRight(capacity, start, end, more)
       <==> forall bytes: seq<bv8> :: |bytes| == capacity ==>
              AfterEnsureFront(bytes, start, end, more) == Window(bytes, start, end)
  {
    if GrowsRight(capacity, start, end, more) {
      forall bytes: seq<bv8> | |bytes| == capacity
        ensures AfterEnsureFront(bytes, start, end, more) == Window(bytes, start, end)
      {
        FrontGrowthRight(bytes, start, end, more);
      }
    } else {
      var bytes := Zeros(capacity);
      if start < end {
        bytes := bytes[start := 1];
        if end + start <= capacity {
          FrontGrowthShift(bytes, start, end, more);
          assert bytes[2 * start..end + start][0] == 0 && bytes[start..end][0] == 1;
        }
      }
      assert AfterEnsureFront(bytes, start, end, more) != Window(bytes, start, end);
    }
  }

  /** A part taken off a buffer: it looks at the same bytes. */
  datatype BufferView = BufferView(bytes: seq<bv8>, start: nat, end: nat) {
    predicate Valid() {
      start <= end <= |bytes|
    }

    function Contents(): seq<bv8>
      requires Valid()
    {
      bytes[start..end]
    }

    // Only the right end is compared with the length, as in the code.
    function View(from: nat, to: nat): (v: Option<BufferView>)
      requires Valid()
      ensures v.Some? <==> to <= |Contents()|
      ensures v.Some? ==> (v.value.Valid() <==> from <= to)
      ensures v.Some? && from <= to ==> v.value.Contents() == Contents()[from..to]
    {
      if end - start >= to then Some(BufferView(bytes, start + from, start + to)) else None
    }

    function PopBack(len: nat): (r: (BufferView, Option<BufferView>))
      requires Valid()
      ensures r.0.Valid() && (r.1.Some? <==> len <= |Contents()|)
      ensures r.1.Some? ==> r.1.value.Valid() && |r.1.value.Contents()| == len
                            && r.0.Contents() + r.1.value.Contents() == Contents()
      ensures r.1.None? ==> r.0 == this
    {
      if end - start >= len then (this.(end := end - len), Some(BufferView(bytes, end - len, end))) else (this, None)
    }

    function PopFront(len: nat): (r: (BufferView, Option<BufferView>))
      requires Valid()
      ensures r.0.Valid() && (r.1.Some? <==> len <= |Contents()|)
      ensures r.1.Some? ==> r.1.value.Valid() && |r.1.value.Contents()| == len
                            && r.1.value.Contents() + r.0.Contents() == Contents()
      ensures r.1.None? ==> r.0 == this
    {
      if end - start >= len then (this.(start := start + len), Some(BufferView(bytes, start, start + len)))
      else (this, None)
    }
  }

  // `data` copied over the bytes from position `at`.
  function Overwrite(bytes: seq<bv8>, at: nat, data: seq<bv8>): (r: seq<bv8>)
    requires at + |data| <= |bytes|
    ensures |r| == |bytes|
  {
    bytes[..at] + data + bytes[at + |data|..]
  }

  lemma OverwriteShows(bytes: seq<bv8>, at: nat, data: seq<bv8>, end: nat)
    requires at + |data| <= end <= |bytes|
    ensures Overwrite(bytes, at, data)[at..end] == data + bytes[at + |data|..end]
  {
  }

  // One operation at one end of a buffer.
  datatype BufferOp = Front(data: seq<bv8>) | Back(data: seq<bv8>) | TakeFront(len: nat) | TakeBack(len: nat)

  // Where the window lies, whatever the bytes are.
  datatype Layout = Layout(capacity: nat, start: nat, end: nat)

  predicate Fits(l: Layout) {
    l.start <= l.end <= l.capacity
  }

  function Pushed(l: Layout, op: BufferOp): Layout
    requires op.Front? || op.Back?
  {
    var n := |op.data|;
    if op.Front? then
      if n <= l.start then l.(start := l.start - n) else Layout(l.capacity + n - l.start, l.start, l.end + n)
    else l.(end := l.end + n, capacity := if l.end + n <= l.capacity then l.capacity else l.end + n)
  }

  predicate GrowthRight(l: Layout, op: BufferOp) {
    op.Front? ==> GrowsRight(l.capacity, l.start, l.end, |op.data|)
  }

  function Moved(l: Layout, op: BufferOp): (r: Layout)
    requires Fits(l)
    ensures GrowthRight(l, op) ==> Fits(r)
  {
    match op
    case Front(_) => Pushed(l, op)
    case Back(_) => Pushed(l, op)
    case TakeFront(len) => if len <= l.end - l.start then l.(start := l.start + len) else l
    case TakeBack(len) => if len <= l.end - l.start then l.(end := l.end - len) else l
  }

  // The same operation on a plain byte string: the new string, and what was taken off.
  function Edited(s: seq<bv8>, op: BufferOp): (seq<bv8>, Option<seq<bv8>>) {
    match op
    case Front(data) => (data + s, None)
    case Back(data) => (s + data, None)
    case TakeFront(len) => if len <= |s| then (s[len..], Some(s[..len])) else (s, None)
    case TakeBack(len) => if len <= |s| then (s[..|s| - len], Some(s[|s| - len..])) else (s, None)
  }

  // Every front growth on the way is one that keeps the content.
  predicate AllGrowRight(l: Layout, ops: seq<BufferOp>)
    requires Fits(l)
    decreases |ops|
  {
    ops != [] ==> GrowthRight(l, ops[0]) && AllGrowRight(Moved(l, ops[0]), ops[1..])
  }

  function EditedAll(s: seq<bv8>, ops: seq<BufferOp>): (r: (seq<bv8>, seq<Option<seq<bv8>>>))
    decreases |ops|
  {
    if ops == [] then (s, [])
    else
      var (s', taken) := Edited(s, ops[0]);
      var (last, rest) := EditedAll(s', ops[1..]);
      (last, [taken] + rest)
  }

  lemma FrontGrowthRightIf(bytes: seq<bv8>, start: nat, end: nat, more: nat)
    requires start <= end <= |bytes|
    ensures GrowsRight(|bytes|, start, end, more)
            ==> AfterEnsureFront(bytes, start, end, more) == Window(bytes, start, end)
  {
    if GrowsRight(|bytes|, start, end, more) {
      FrontGrowthRight(bytes, start, end, more);
    }
  }

  class Buffer {
    var bytes: seq<bv8>
    var start: nat
    var end: nat

    ghost predicate Valid()
      reads this
    {
      start <= end <= |bytes|
    }

    ghost function Contents(): seq<bv8>
      reads this
      requires Valid()
    {
      bytes[start..end]
    }

    constructor New(left: nat, main: nat)
      ensures Valid() && Contents() == [] && start == left && |bytes| == left + main
    {
      bytes, start, end := Zeros(left + main), left, left;
    }

    constructor Build(data: seq<bv8>, moreLeft: nat, moreRight: nat)
      ensures Valid() && Contents() == data && start == moreLeft && |bytes| == moreLeft + |data| + moreRight
    {
      bytes := Zeros(moreLeft) + data + Zeros(moreRight);
      start, end := moreLeft, moreLeft + |data|;
    }

    method EnsureFront(more: nat)
      requires Valid()
      modifies this
      ensures Window(bytes, start, end) == AfterEnsureFront(old(bytes), old(start), old(end), more)
      ensures bytes == FrontGrown(old(bytes), old(start), more)
      ensures |bytes| == |old(bytes)| + if old(start) < more then more - old(start) else 0
      ensures start == old(start) + (if old(start) < more then more else 0)
      ensures end == old(end) + (if old(start) < more then more else 0)
      ensures GrowsRight(|old(bytes)|, old(start), old(end), more) ==>
                Valid() && start >= more && Contents() == old(Contents())
    {
      FrontGrowthRightIf(bytes, start, end, more);
      if start < more {
        bytes := Zeros(more - start) + bytes;
        start := start + more;
        end := end + more;
      }
    }

    method EnsureBack(more: nat)
      requires Valid()
      modifies this`bytes
      ensures Valid() && Contents() == old(Contents()) && old(bytes) <= bytes
      ensures |bytes| == if end + more <= |old(bytes)| then |old(bytes)| else end + more
    {
      var remain := |bytes| - end;
      if remain < more {
        bytes := bytes + Zeros(more - remain);
      }
    }

    // The bytes go in front of the content. False stands for the panic of a copy past the bytes; without it the
    // window may still reach past the bytes afterwards.
    method PushFront(data: seq<bv8>) returns (ok: bool)
      requires Valid()
      modifies this
      ensures ok <==> |data| <= old(start) || 2 * old(start) <= |old(bytes)|
      ensures Layout(|bytes|, start, end) == Pushed(Layout(|old(bytes)|, old(start), old(end)), Front(data))
      ensures ok ==> bytes == Overwrite(FrontGrown(old(bytes), old(start), |data|), start, data)
      ensures ok ==> (Valid() <==> |data| <= old(start) || old(start) + old(end) <= |old(bytes)|)
      ensures ok && Valid() ==>
                Contents() == data + if |data| <= old(start) then old(Contents())
                                     else old(bytes)[2 * old(start)..old(end) + old(start)]
      ensures GrowsRight(|old(bytes)|, old(start), old(end), |data|) ==>
                ok && Valid() && Contents() == data + old(Contents())
    {
      hide AfterEnsureFront, Overwrite;
      if 0 < start < |data| {
        FrontGrowthShift(bytes, start, end, |data|);
      }
      EnsureFront(|data|);
      start := start - |data|;
      if start + |data| > |bytes| {
        return false;
      }
      if end <= |bytes| {
        OverwriteShows(bytes, start, data, end);
      }
      bytes := Overwrite(bytes, start, data);
      ok := true;
    }

    method PushBack(data: seq<bv8>)
      requires Valid()
      modifies this
      ensures Valid() && Contents() == old(Contents()) + data
      ensures Layout(|bytes|, start, end) == Pushed(Layout(|old(bytes)|, old(start), old(end)), Back(data))
    {
      EnsureBack(|data|);
      bytes := bytes[..end] + data + bytes[end + |data|..];
      end := end + |data|;
    }

    method PopBack(len: nat) returns (view: Option<BufferView>)
      requires Valid()
      modifies this`end
      ensures Valid() && (view.Some? <==> len <= |old(Contents())|)
      ensures view.Some? ==> view.value.Valid() && |view.value.Contents()| == len
                             && Contents() + view.value.Contents() == old(Contents())
      ensures end == if view.Some? then old(end) - len else old(end)
    {
      if end - start >= len {
        end := end - len;
        view := Some(BufferView(bytes, end, end + len));
      } else {
        view := None;
      }
    }

    method PopFront(len: nat) returns (view: Option<BufferView>)
      requires Valid()
      modifies this`start
      ensures Valid() && (view.Some? <==> len <= |old(Contents())|)
      ensures view.Some? ==> view.value.Valid() && |view.value.Contents()| == len
                             && view.value.Contents() + Contents() == old(Contents())
      ensures start == if view.Some? then old(start) + len else old(start)
    {
      if end - start >= len {
        start := start + len;
        view := Some(BufferView(bytes, start - len, start));
      } else {
        view := None;
      }
    }

    method Truncate(len: nat) returns (ok: bool)
      requires Valid()
      modifies this`end
      ensures Valid() && (ok <==> len <= |old(Contents())|)
      ensures Contents() == if ok then old(Contents())[..len] else old(Contents())
    {
      ok := end - start >= len;
      if ok {
        end := start + len;
        assert bytes[start..end] == old(bytes[start..end])[..len];
      }
    }

    method MoveFrontRight(len: nat) returns (ok: bool)
      requires Valid()
      modifies this`start
      ensures Valid() && (ok <==> len <= |old(Contents())|)
      ensures Contents() == if ok then old(Contents())[len..] else old(Contents())
      ensures ok ==> start == old(start) + len
    {
      ok := start + len <= end;
      if ok {
        start := start + len;
        assert bytes[start..end] == old(bytes[start..end])[len..];
      }
    }

    method MoveFrontLeft(len: nat) returns (ok: bool)
      requires Valid()
      modifies this`start
      ensures Valid() && (ok <==> len <= old(start))
      ensures Contents() == if ok then bytes[old(start) - len..old(start)] + old(Contents()) else old(Contents())
    {
      ok := start >= len;
      if ok {
        start := start - len;
        assert bytes[start..end] == bytes[start..start + len] + bytes[start + len..end];
      }
    }

    method MoveBackRight(len: nat) returns (ok: bool)
      requires Valid()
      modifies this`end
      ensures Valid() && (ok <==> old(end) + len <= |bytes|)
      ensures Contents() == if ok then old(Contents()) + bytes[old(end)..old(end) + len] else old(Contents())
    {
      ok := end + len <= |bytes|;
      if ok {
        end := end + len;
        assert bytes[start..end] == bytes[start..end - len] + bytes[end - len..end];
      }
    }

    method MoveBackLeft(len: nat) returns (ok: bool)
      requires Valid()
      modifies this`end
      ensures Valid() && (ok <==> len <= |old(Contents())|)
      ensures Contents() == if ok then old(Contents())[..|old(Contents())| - len] else old(Contents())
    {
      ok := end >= len && end - len >= start;
      if ok {
        end := end - len;
        assert bytes[start..end] == old(bytes[start..end])[..end - start];
      }
    }
  }

  /** Receiving into a fresh buffer, as the backend does: up to 1500 bytes always fit, and they become its content. */
  method Receive(packet: seq<bv8>) returns (buf: Buffer)
    requires |packet| <= 1500
    ensures fresh(buf) && buf.Valid() && buf.Contents() == packet && buf.start == 100
  {
    buf := new Buffer.New(100, 1500);
    buf.bytes := buf.bytes[..100] + packet + buf.bytes[100 + |packet|..];
    var ok := buf.MoveBackRight(|packet|);
    assert ok;
  }

  lemma Cancel<T>(a: seq<T>, b: seq<T>, c: seq<T>, d: seq<T>)
    requires a + b == c + d && (|a| == |c| || |b| == |d|)
    ensures a == c && b == d
  {
    assert a == (a + b)[..|a|] && c == (c + d)[..|c|];
    assert b == (a + b)[|a|..] && d == (c + d)[|c|..];
  }

  /** Pushing and popping at the back undo each other. */
  method PushPopBack(buf: Buffer, data: seq<bv8>) returns (view: Option<BufferView>)
    requires buf.Valid()
    modifies buf
    ensures buf.Valid() && buf.Contents() == old(buf.Contents()) && view.Some? && view.value.Valid()
    ensures view.value.Contents() == data
  {
    buf.PushBack(data);
    view := buf.PopBack(|data|);
    Cancel(buf.Contents(), view.value.Contents(), old(buf.Contents()), data);
  }

  /** At the front they do so whenever the growth is right. */
  method PushPopFront(buf: Buffer, data: seq<bv8>) returns (view: Option<BufferView>)
    requires buf.Valid() && GrowsRight(|buf.bytes|, buf.start, buf.end, |data|)
    modifies buf
    ensures buf.Valid() && buf.Contents() == old(buf.Contents()) && view.Some? && view.value.Valid()
    ensures view.value.Contents() == data
  {
    var ok := buf.PushFront(data);
    view := buf.PopFront(|data|);
    Cancel(view.value.Contents(), buf.Contents(), data, old(buf.Contents()));
  }

  method Operate(buf: Buffer, op: BufferOp) returns (taken: Option<seq<bv8>>)
    requires buf.Valid()
    requires GrowthRight(Layout(|buf.bytes|, buf.start, buf.end), op)
    modifies buf
    ensures buf.Valid() && (buf.Contents(), taken) == Edited(old(buf.Contents()), op)
    ensures Layout(|buf.bytes|, buf.start, buf.end) == Moved(Layout(|old(buf.bytes)|, old(buf.start), old(buf.end)), op)
  {
    taken := None;
    match op {
      case Front(data) => var ok := buf.PushFront(data);
      case Back(data) => buf.PushBack(data);
      case TakeFront(len) =>
        ghost var before := buf.Contents();
        var view := buf.PopFront(len);
        if view.Some? {
          taken := Some(view.value.Contents());
          Cancel(view.value.Contents(), buf.Contents(), before[..len], before[len..]);
        }
      case TakeBack(len) =>
        ghost var before := buf.Contents();
        var view := buf.PopBack(len);
        if view.Some? {
          taken := Some(view.value.Contents());
          Cancel(buf.Contents(), view.value.Contents(), before[..|before| - len], before[|before| - len..]);
        }
    }
  }

  /** A buffer is a byte string with headroom: for every sequence of pushes and pops at both ends in which each front
      growth is right, content and taken parts are those of a plain byte string, and the window stays within the
      bytes. */
  method OperateAll(buf: Buffer, ops: seq<BufferOp>) returns (taken: seq<Option<seq<bv8>>>)
    requires buf.Valid() && AllGrowRight(Layout(|buf.bytes|, buf.start, buf.end), ops)
    modifies buf
    ensures buf.Valid() && buf.Contents() == EditedAll(old(buf.Contents()), ops).0
    ensures taken == EditedAll(old(buf.Contents()), ops).1
  {
    taken := [];
    assert ops[0..] == ops && [] + EditedAll(buf.Contents(), ops).1 == EditedAll(buf.Contents(), ops).1;
    for i := 0 to |ops|
      invariant buf.Valid() && AllGrowRight(Layout(|buf.bytes|, buf.start, buf.end), ops[i..])
      invariant EditedAll(buf.Contents(), ops[i..]).0 == EditedAll(old(buf.Contents()), ops).0
      invariant taken + EditedAll(buf.Contents(), ops[i..]).1 == EditedAll(old(buf.Contents()), ops).1
    {
      assert ops[i..][0] == ops[i] && ops[i..][1..] == ops[i + 1..];
      var part := Operate(buf, ops[i]);
      taken := taken + [part];
    }
    assert ops[|ops|..] == [] && taken + [] == taken;
  }

  lemma {:induction false} EditedConcat(s: seq<bv8>, a: seq<BufferOp>, b: seq<BufferOp>)
    ensures EditedAll(s, a + b).0 == EditedAll(EditedAll(s, a).0, b).0
    ensures EditedAll(s, a + b).1 == EditedAll(s, a).1 + EditedAll(EditedAll(s, a).0, b).1
    decreases |a|
  {
    if a == [] {
      assert a + b == b;
    } else {
      EditedConcat(Edited(s, a[0]).0, a[1..], b);
      assert (a + b)[1..] == a[1..] + b;
    }
  }

  lemma EditedOne(s: seq<bv8>, op: BufferOp)
    ensures EditedAll(s, [op]) == (Edited(s, op).0, [Edited(s, op).1])
  {
    var (s', taken) := Edited(s, op);
    var (last, rest) := EditedAll(s', [op][1..]);
    assert last == s' && [taken] + rest == [taken];
    assert EditedAll(s, [op]) == (last, [taken] + rest);
  }

  function Undo(op: BufferOp): BufferOp
    requires op.Front? || op.Back?
  {
    if op.Front? then TakeFront(|op.data|) else TakeBack(|op.data|)
  }

  // The pops that take back a row of pushes, and what they give.
  function UndoAll(pushes: seq<BufferOp>): (r: (seq<BufferOp>, seq<Option<seq<bv8>>>))
    requires forall k :: 0 <= k < |pushes| ==> pushes[k].Front? || pushes[k].Back?
  {
    if pushes == [] then ([], [])
    else
      var (ops, given) := UndoAll(pushes[1..]);
      (ops + [Undo(pushes[0])], given + [Some(pushes[0].data)])
  }

  /** Pushes in any order at both ends, taken back in reverse order, give back their data and restore the content. */
  lemma {:induction false} UndoRestores(s: seq<bv8>, pushes: seq<BufferOp>)
    requires forall k :: 0 <= k < |pushes| ==> pushes[k].Front? || pushes[k].Back?
    ensures EditedAll(EditedAll(s, pushes).0, UndoAll(pushes).0) == (s, UndoAll(pushes).1)
    decreases |pushes|
  {
    if pushes != [] {
      var s' := Edited(s, pushes[0]).0;
      UndoRestores(s', pushes[1..]);
      var last := Undo(pushes[0]);
      EditedConcat(EditedAll(s, pushes).0, UndoAll(pushes[1..]).0, [last]);
      assert Edited(s', last) == (s, Some(pushes[0].data));
      EditedOne(s', last);
    }
  }

  // Popping and pushing back what was popped restores the content, and needs no growth.
  method PopPushFront(buf: Buffer, len: nat)
    requires buf.Valid() && len <= |buf.Contents()|
    modifies buf
    ensures buf.Valid() && buf.Contents() == old(buf.Contents())
  {
    var view := buf.PopFront(len);
    var ok := buf.PushFront(view.value.Contents());
  }
}
