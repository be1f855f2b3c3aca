/** In-place editing of an mbuf's bytes, and the plain sequence editing it refines.

    An `Image` is the value of an mbuf: the whole data room and the header fields
    `data_off`, `data_len` and `pkt_len`. The class `Mbuf` edits it in place. */
module MbufEditing {
  import opened Machine

  const HEADROOM: nat := 128
  const DATA_ROOM: nat := 2048

  datatype Image = Image(buf: seq<u8>, dataOff: nat, dataLen: nat, pktLen: nat) {
    predicate Valid() {
      dataOff + dataLen <= |buf| < U16_RANGE && pktLen == dataLen
    }

    function View(): (v: seq<u8>)
      requires Valid()
      ensures |v| == dataLen
    {
      buf[dataOff..dataOff + dataLen]
    }

    function Tailroom(): nat
      requires Valid()
    {
      |buf| - dataOff - dataLen
    }
  }

  /** What slice access answers. */
  datatype Access =
    | Slice(at: nat, count: nat)
    | BadOffset(offset: nat, len: nat)
    | OutOfBuffer(size: nat, left: nat)

  // ----- Editing images -----

  /** `ptr::copy`: the destination gets what the source held, overlap or not. */
  function MoveBytes(buf: seq<u8>, src: nat, dst: nat, n: nat): (r: seq<u8>)
    requires src + n <= |buf| && dst + n <= |buf|
    ensures |r| == |buf|
  {
    buf[..dst] + buf[src..src + n] + buf[dst + n..]
  }

  lemma MoveNothing(buf: seq<u8>, src: nat, dst: nat)
    requires src <= |buf| && dst <= |buf|
    ensures MoveBytes(buf, src, dst, 0) == buf
  {}

  predicate CanExtend(m: Image, offset: nat, len: nat)
    requires m.Valid()
  {
    len > 0 && offset <= m.dataLen && len <= m.Tailroom()
  }

  function Extended(m: Image, offset: nat, len: nat): (r: Image)
    requires m.Valid() && CanExtend(m, offset, len)
    ensures r.Valid()
  {
    m.(buf := MoveBytes(m.buf, m.dataOff + offset, m.dataOff + offset + len, m.dataLen - offset),
       dataLen := m.dataLen + len, pktLen := m.pktLen + len)
  }

  predicate CanShrink(m: Image, offset: nat, len: nat)
    requires m.Valid()
  {
    len > 0 && offset + len <= m.dataLen
  }

  function Shrunk(m: Image, offset: nat, len: nat): (r: Image)
    requires m.Valid() && CanShrink(m, offset, len)
    ensures r.Valid()
  {
    m.(buf := MoveBytes(m.buf, m.dataOff + offset + len, m.dataOff + offset, m.dataLen - offset - len),
       dataLen := m.dataLen - len, pktLen := m.pktLen - len)
  }

  function Written(m: Image, offset: nat, data: seq<u8>): (r: Image)
    requires m.Valid() && offset + |data| <= m.dataLen
    ensures r.Valid()
  {
    m.(buf := m.buf[..m.dataOff + offset] + data + m.buf[m.dataOff + offset + |data|..])
  }

  /** `read_data_slice`: the second bound test compares the end of the slice with
      what is left after the offset, so the offset counts twice. */
  function ReadSlice(m: Image, offset: nat, size: nat, count: nat): Access
    requires m.Valid()
  {
    ReadBytes(m, offset, size * count, count)
  }

  /** The same for `count` items that take `bytes` bytes. */
  function ReadBytes(m: Image, offset: nat, bytes: nat, count: nat): Access
    requires m.Valid()
  {
    if offset >= m.dataLen then BadOffset(offset, m.dataLen)
    else if offset + bytes > m.dataLen - offset then OutOfBuffer(bytes, m.dataLen - offset)
    else Slice(m.dataOff + offset, count)
  }

  /** `read_data`. */
  function ReadItem(m: Image, offset: nat, size: nat): Access
    requires m.Valid()
  {
    if offset >= m.dataLen then BadOffset(offset, m.dataLen)
    else if offset + size > m.dataLen then OutOfBuffer(size, m.dataLen - offset)
    else Slice(m.dataOff + offset, 1)
  }

  /** `a - b` on usize, wrapping. */
  function WrapMinus(a: nat, b: nat): (r: nat)
    ensures r < U64_RANGE
    ensures b <= a < U64_RANGE ==> r == a - b
  {
    (a - b) % U64_RANGE
  }

  /** What `write_data_slice` answers. Beyond the data the room left, inside the error
      value, wraps. */
  function WriteAnswer(m: Image, offset: nat, size: nat, count: nat): Access
    requires m.Valid()
  {
    if offset + size * count <= m.dataLen then ReadSlice(m, offset, size, count)
    else OutOfBuffer(size * count, WrapMinus(m.dataLen, offset))
  }

  /** Every accepted slice lies inside the data, but not every slice inside the
      data is accepted: the exact condition is 2 * offset + bytes <= data_len. */
  lemma SliceAccess(m: Image, offset: nat, size: nat, count: nat)
    requires m.Valid()
    ensures ReadSlice(m, offset, size, count).Slice?
            <==> offset < m.dataLen && 2 * offset + size * count <= m.dataLen
    ensures ReadSlice(m, offset, size, count).Slice?
            ==> m.dataOff <= ReadSlice(m, offset, size, count).at
                && ReadSlice(m, offset, size, count).at + size * count <= m.dataOff + m.dataLen
    ensures ReadItem(m, offset, size).Slice?
            <==> offset < m.dataLen && offset + size <= m.dataLen
  {
    var bytes := size * count;
    assert 0 <= bytes;
  }

  /** An mbuf of the pool that holds `len` bytes of data, all zero. */
  function Pooled(len: nat): (m: Image)
    requires len <= DATA_ROOM
    ensures m.Valid() && m.dataLen == len && m.Tailroom() == DATA_ROOM - len
  {
    Image(seq(HEADROOM + DATA_ROOM, _ => 0), HEADROOM, len, len)
  }

  /** The second of two bytes lies inside the data, yet it cannot be read as a
      slice, only as an item. */
  lemma RefusedSlice()
    ensures ReadSlice(Pooled(2), 1, 1, 1) == OutOfBuffer(1, 1) && ReadItem(Pooled(2), 1, 1).Slice?
  {}

  /** `a` is where the `bytes` bytes of data from the offset on are. */
  predicate IsData(m: Image, a: Access, offset: nat, bytes: nat)
    requires m.Valid() && a.Slice?
  {
    && a.at == m.dataOff + offset
    && offset + bytes <= |m.View()| && a.at + bytes <= |m.buf|
    && m.buf[a.at..a.at + bytes] == m.View()[offset..offset + bytes]
  }

  lemma SubSlice(b: seq<u8>, from: nat, to: nat, i: nat, j: nat)
    requires i <= j && from + j <= to <= |b|
    ensures b[from..to][i..j] == b[from + i..from + j]
  {
    var v := b[from..to];
    var part, same := v[i..j], b[from + i..from + j];
    forall k | 0 <= k < j - i
      ensures part[k] == same[k]
    {
      assert part[k] == v[i + k] == b[from + (i + k)];
    }
  }

  lemma WithinData(m: Image, offset: nat, bytes: nat, count: nat)
    requires m.Valid() && offset + bytes <= m.dataLen
    ensures IsData(m, Slice(m.dataOff + offset, count), offset, bytes)
  {
    SubSlice(m.buf, m.dataOff, m.dataOff + m.dataLen, offset, offset + bytes);
  }

  lemma BytesAreData(m: Image, offset: nat, bytes: nat, count: nat)
    requires m.Valid()
    ensures var a := ReadBytes(m, offset, bytes, count);
            a.Slice? ==> a.count == count && IsData(m, a, offset, bytes)
  {
    if ReadBytes(m, offset, bytes, count).Slice? {
      WithinData(m, offset, bytes, count);
    }
  }

  /** What is accepted is the bytes of the data from the offset on, as many as were
      asked for. */
  lemma SliceIsData(m: Image, offset: nat, size: nat, count: nat)
    requires m.Valid()
    ensures var a := ReadSlice(m, offset, size, count);
            a.Slice? ==> a.count == count && IsData(m, a, offset, size * count)
  {
    BytesAreData(m, offset, size * count, count);
  }

  lemma ItemIsData(m: Image, offset: nat, size: nat)
    requires m.Valid()
    ensures var a := ReadItem(m, offset, size);
            a.Slice? ==> a.count == 1 && IsData(m, a, offset, size)
  {
    if ReadItem(m, offset, size).Slice? {
      WithinData(m, offset, size, 1);
    }
  }

  /** What the error values say: how far the offset is out, or how many bytes were
      asked for and how many there are from the offset on. */
  lemma AccessErrors(m: Image, offset: nat, size: nat, count: nat)
    requires m.Valid()
    ensures offset >= |m.View()| ==> ReadSlice(m, offset, size, count) == BadOffset(offset, |m.View()|)
                                     && ReadItem(m, offset, size) == BadOffset(offset, |m.View()|)
    ensures offset < |m.View()| && !ReadSlice(m, offset, size, count).Slice?
            ==> ReadSlice(m, offset, size, count) == OutOfBuffer(size * count, |m.View()[offset..]|)
    ensures offset < |m.View()| && !ReadItem(m, offset, size).Slice?
            ==> ReadItem(m, offset, size) == OutOfBuffer(size, |m.View()[offset..]|)
  {}

  /** Each error value once, with numbers that differ. */
  lemma ErrorValues()
    ensures ReadSlice(Pooled(5), 2, 2, 1) == OutOfBuffer(2, 3) && ReadSlice(Pooled(5), 7, 2, 1) == BadOffset(7, 5)
    ensures ReadItem(Pooled(5), 4, 2) == OutOfBuffer(2, 1) && ReadItem(Pooled(5), 7, 2) == BadOffset(7, 5)
    ensures WriteAnswer(Pooled(5), 2, 2, 1) == OutOfBuffer(2, 3) && WriteAnswer(Pooled(5), 5, 2, 0) == BadOffset(5, 5)
    ensures WriteAnswer(Pooled(5), 3, 2, 4) == OutOfBuffer(8, 2)
    ensures WriteAnswer(Pooled(5), 6, 2, 1) == OutOfBuffer(2, U64_RANGE - 1)
  {}

  // ----- The views -----

  lemma ExtendedView(m: Image, offset: nat, len: nat)
    requires m.Valid() && CanExtend(m, offset, len)
    ensures var v := Extended(m, offset, len).View();
            |v| == m.dataLen + len && v[..offset] == m.View()[..offset] && v[offset + len..] == m.View()[offset..]
  {}

  lemma ShrunkView(m: Image, offset: nat, len: nat)
    requires m.Valid() && CanShrink(m, offset, len)
    ensures Shrunk(m, offset, len).View() == m.View()[..offset] + m.View()[offset + len..]
  {}

  lemma WrittenView(m: Image, offset: nat, data: seq<u8>)
    requires m.Valid() && offset + |data| <= m.dataLen
    ensures Written(m, offset, data).View() == m.View()[..offset] + data + m.View()[offset + |data|..]
  {
    var buf := Written(m, offset, data).buf;
    var from, at, to := m.dataOff, m.dataOff + offset, m.dataOff + m.dataLen;
    SubSlice(m.buf, from, to, 0, offset);
    SubSlice(m.buf, from, to, offset + |data|, m.dataLen);
    assert buf[from..at] == m.buf[from..at];
    assert buf[at..at + |data|] == data;
    assert buf[at + |data|..to] == m.buf[at + |data|..to];
    assert buf[from..to] == buf[from..at] + buf[at..at + |data|] + buf[at + |data|..to];
  }

  lemma Split(v: seq<u8>, offset: nat, len: nat)
    requires offset + len <= |v|
    ensures v == v[..offset] + v[offset..offset + len] + v[offset + len..]
  {}

  /** Opening a gap and closing it again restores the data, despite the two
      overlapping moves in opposite directions. */
  lemma ExtendThenShrink(m: Image, offset: nat, len: nat)
    requires m.Valid() && CanExtend(m, offset, len)
    ensures CanShrink(Extended(m, offset, len), offset, len)
    ensures Shrunk(Extended(m, offset, len), offset, len).View() == m.View()
    ensures Shrunk(Extended(m, offset, len), offset, len).Tailroom() == m.Tailroom()
  {
    var e := Extended(m, offset, len);
    ExtendedView(m, offset, len);
    ShrunkView(e, offset, len);
    assert m.View() == m.View()[..offset] + m.View()[offset..];
  }

  /** Inserting is extending and then writing the gap. The insertion always
      happens, yet the write reports success only in the first half of the old
      data. */
  lemma Insert(m: Image, offset: nat, data: seq<u8>)
    requires m.Valid() && CanExtend(m, offset, |data|)
    ensures Written(Extended(m, offset, |data|), offset, data).View()
            == m.View()[..offset] + data + m.View()[offset..]
    ensures WriteAnswer(Extended(m, offset, |data|), offset, 1, |data|).Slice? <==> 2 * offset <= m.dataLen
  {
    var e := Extended(m, offset, |data|);
    ExtendedView(m, offset, |data|);
    WrittenView(e, offset, data);
    assert 1 * |data| == |data|;
  }

  /** Removing bytes and inserting them again restores the data. */
  lemma ShrinkThenInsert(m: Image, offset: nat, len: nat)
    requires m.Valid() && CanShrink(m, offset, len)
    ensures CanExtend(Shrunk(m, offset, len), offset, len)
    ensures var removed := m.View()[offset..offset + len];
            Written(Extended(Shrunk(m, offset, len), offset, len), offset, removed).View() == m.View()
  {
    var s, v := Shrunk(m, offset, len), m.View();
    var removed := v[offset..offset + len];
    ShrunkView(m, offset, len);
    assert s.View()[..offset] == v[..offset] && s.View()[offset..] == v[offset + len..];
    assert |removed| == len;
    Insert(s, offset, removed);
    Split(v, offset, len);
  }

  // ----- Scripts of edits -----

  datatype Edit =
    | Extend(offset: nat, len: nat)
    | Shrink(offset: nat, len: nat)
    | Resize(offset: nat, delta: int)
    | Truncate(toLen: nat)
    | Write(offset: nat, data: seq<u8>)

  /** `resize` picks `shrink` or `extend` by the sign. */
  function Desugar(e: Edit): Edit {
    match e
    case Resize(offset, delta) => if delta < 0 then Shrink(offset, -delta) else Extend(offset, delta)
    case _ => e
  }

  function Apply(m: Image, e: Edit): (r: Image)
    requires m.Valid()
    ensures r.Valid()
  {
    match Desugar(e)
    case Extend(o, n) => if CanExtend(m, o, n) then Extended(m, o, n) else m
    case Shrink(o, n) => if CanShrink(m, o, n) then Shrunk(m, o, n) else m
    case Truncate(n) => if n < m.dataLen then m.(dataLen := n, pktLen := n) else m
    case Write(o, data) => if o + |data| <= m.dataLen then Written(m, o, data) else m
  }

  /** Whether the edit reports Ok. */
  function Reports(m: Image, e: Edit): bool
    requires m.Valid()
  {
    match Desugar(e)
    case Extend(o, n) => CanExtend(m, o, n)
    case Shrink(o, n) => CanShrink(m, o, n)
    case Truncate(n) => n < m.dataLen
    case Write(o, data) => WriteAnswer(m, o, 1, |data|).Slice?
  }

  function Run(m: Image, script: seq<Edit>): (r: Image)
    requires m.Valid()
    ensures r.Valid()
  {
    if script == [] then m else Apply(Run(m, script[..|script| - 1]), script[|script| - 1])
  }

  function RunReports(m: Image, script: seq<Edit>): (oks: seq<bool>)
    requires m.Valid()
    ensures |oks| == |script|
  {
    if script == [] then []
    else
      var before := script[..|script| - 1];
      RunReports(m, before) + [Reports(Run(m, before), script[|script| - 1])]
  }

  /** Resizing by n and then by -n restores the data exactly when the first resize
      succeeded or the second one fails too: after a refused extension the shrink
      still removes data if there is enough of it. */
  lemma ResizeThenBack(m: Image, offset: nat, n: int)
    requires m.Valid() && n > 0
    ensures Apply(Apply(m, Resize(offset, n)), Resize(offset, -n)).View() == m.View()
            <==> n <= m.Tailroom() || m.dataLen < offset + n
  {
    if CanExtend(m, offset, n) {
      ExtendThenShrink(m, offset, n);
    } else if CanShrink(m, offset, n) {
      assert |Apply(m, Resize(offset, -n)).View()| < |m.View()|;
    }
  }

  /** A full mbuf: the resize by 1 is refused, the resize by -1 then removes a byte. */
  lemma LossAfterRefusal()
    ensures var m := Pooled(DATA_ROOM);
            && !Reports(m, Resize(0, 1)) && Apply(m, Resize(0, 1)) == m
            && Apply(Apply(m, Resize(0, 1)), Resize(0, -1)).View() == m.View()[1..]
  {
    var m := Pooled(DATA_ROOM);
    assert Apply(m, Resize(0, 1)) == m;
    ShrunkView(m, 0, 1);
    assert m.View()[..0] + m.View()[1..] == m.View()[1..];
  }

  // ----- Plain sequence editing -----

  /** A byte of the abstract data: bytes opened by `extend` are unknown until
      they are written. */
  datatype Cell = Known(b: u8) | Unknown

  datatype Text = Text(cells: seq<Cell>, room: nat)

  function Blank(n: nat): seq<Cell> {
    seq(n, _ => Unknown)
  }

  function Cells(data: seq<u8>): seq<Cell> {
    seq(|data|, i requires 0 <= i < |data| => Known(data[i]))
  }

  /** Insert, delete, cut and overwrite on a sequence; an edit that does not fit
      changes nothing. */
  function EditText(t: Text, e: Edit): Text {
    var c := t.cells;
    match Desugar(e)
    case Extend(o, n) =>
      if 0 < n <= t.room && o <= |c| then Text(c[..o] + Blank(n) + c[o..], t.room - n) else t
    case Shrink(o, n) =>
      if 0 < n && o + n <= |c| then Text(c[..o] + c[o + n..], t.room + n) else t
    case Truncate(n) =>
      if n < |c| then Text(c[..n], t.room + |c| - n) else t
    case Write(o, data) =>
      if o + |data| <= |c| then Text(c[..o] + Cells(data) + c[o + |data|..], t.room) else t
  }

  function TextReports(t: Text, e: Edit): bool {
    match Desugar(e)
    case Extend(o, n) => 0 < n <= t.room && o <= |t.cells|
    case Shrink(o, n) => 0 < n && o + n <= |t.cells|
    case Truncate(n) => n < |t.cells|
    case Write(o, data) => o < |t.cells| && 2 * o + |data| <= |t.cells|
  }

  function RunText(t: Text, script: seq<Edit>): Text {
    if script == [] then t else EditText(RunText(t, script[..|script| - 1]), script[|script| - 1])
  }

  function RunTextReports(t: Text, script: seq<Edit>): seq<bool> {
    if script == [] then []
    else
      var before := script[..|script| - 1];
      RunTextReports(t, before) + [TextReports(RunText(t, before), script[|script| - 1])]
  }

  /** The buffer shows exactly the known bytes of the text and has its room. */
  predicate Shows(m: Image, t: Text)
    requires m.Valid()
  {
    && |t.cells| == m.dataLen
    && t.room == m.Tailroom()
    && forall i :: 0 <= i < |t.cells| ==> t.cells[i].Known? ==> t.cells[i].b == m.View()[i]
  }

  /** Nothing outside the old and new data windows is touched, and the window
      does not move. */
  predicate Framed(m: Image, r: Image) {
    && r.dataOff == m.dataOff
    && |r.buf| == |m.buf|
    && forall i :: 0 <= i < |m.buf| && (i < m.dataOff || (m.dataOff + m.dataLen <= i && m.dataOff + r.dataLen <= i))
                   ==> r.buf[i] == m.buf[i]
  }

  lemma ExtendShows(m: Image, t: Text, o: nat, n: nat)
    requires m.Valid() && Shows(m, t) && CanExtend(m, o, n)
    ensures Shows(Extended(m, o, n), EditText(t, Extend(o, n)))
  {
    ExtendedView(m, o, n);
    var v, r := m.View(), Extended(m, o, n).View();
    var cells := EditText(t, Extend(o, n)).cells;
    forall i | 0 <= i < |cells| && cells[i].Known?
      ensures cells[i].b == r[i]
    {
      if i < o {
        assert cells[i] == t.cells[i] && r[i] == r[..o][i] == v[i];
      } else if i >= o + n {
        assert cells[i] == t.cells[i - n] && r[i] == r[o + n..][i - o - n] == v[o..][i - o - n] == v[i - n];
      }
    }
  }

  lemma ExtendRefines(m: Image, t: Text, o: nat, n: nat)
    requires m.Valid() && Shows(m, t) && CanExtend(m, o, n)
    ensures Shows(Extended(m, o, n), EditText(t, Extend(o, n))) && Framed(m, Extended(m, o, n))
  {
    ExtendShows(m, t, o, n);
  }

  lemma ShrinkRefines(m: Image, t: Text, o: nat, n: nat)
    requires m.Valid() && Shows(m, t) && CanShrink(m, o, n)
    ensures Shows(Shrunk(m, o, n), EditText(t, Shrink(o, n))) && Framed(m, Shrunk(m, o, n))
  {
    ShrunkView(m, o, n);
  }

  lemma WriteRefines(m: Image, t: Text, o: nat, data: seq<u8>)
    requires m.Valid() && Shows(m, t) && o + |data| <= m.dataLen
    ensures Shows(Written(m, o, data), EditText(t, Write(o, data))) && Framed(m, Written(m, o, data))
  {
    WrittenView(m, o, data);
  }

  lemma TruncateRefines(m: Image, t: Text, n: nat)
    requires m.Valid() && Shows(m, t)
    ensures Shows(Apply(m, Truncate(n)), EditText(t, Truncate(n))) && Framed(m, Apply(m, Truncate(n)))
  {}

  lemma ReportsAlike(m: Image, t: Text, e: Edit)
    requires m.Valid() && Shows(m, t)
    ensures Reports(m, e) == TextReports(t, e)
  {
    if Desugar(e).Write? {
      assert 1 * |Desugar(e).data| == |Desugar(e).data|;
    }
  }

  /** One edit in the buffer does what the same edit does to a plain sequence. */
  lemma EditRefines(m: Image, t: Text, e: Edit)
    requires m.Valid() && Shows(m, t)
    ensures Shows(Apply(m, e), EditText(t, e))
    ensures Reports(m, e) == TextReports(t, e)
    ensures Framed(m, Apply(m, e))
  {
    ReportsAlike(m, t, e);
    match Desugar(e)
    case Extend(o, n) => if CanExtend(m, o, n) { ExtendRefines(m, t, o, n); }
    case Shrink(o, n) => if CanShrink(m, o, n) { ShrinkRefines(m, t, o, n); }
    case Truncate(n) => TruncateRefines(m, t, n);
    case Write(o, data) => if o + |data| <= m.dataLen { WriteRefines(m, t, o, data); }
  }

  /** The largest data length a script reaches. */
  function Reach(m: Image, script: seq<Edit>): (n: nat)
    requires m.Valid()
    ensures m.dataLen <= n && Run(m, script).dataLen <= n
  {
    if script == [] then m.dataLen
    else
      var before, now := Reach(m, script[..|script| - 1]), Run(m, script).dataLen;
      if before < now then now else before
  }

  /** The headroom, and the bytes beyond the largest window reached, are as before. */
  predicate ScriptFramed(m: Image, r: Image, reach: nat) {
    && r.dataOff == m.dataOff && |r.buf| == |m.buf|
    && forall i :: 0 <= i < |m.buf| && (i < m.dataOff || m.dataOff + reach <= i) ==> r.buf[i] == m.buf[i]
  }

  lemma FrameOneMore(m: Image, r: Image, r': Image, reach: nat, reach': nat)
    requires ScriptFramed(m, r, reach) && Framed(r, r') && r.dataLen <= reach <= reach' && r'.dataLen <= reach'
    ensures ScriptFramed(m, r', reach')
  {}

  /** Every script of edits on the buffer does what the same script does to a
      plain sequence, step reports included, and touches nothing outside the largest
      window it reaches. */
  lemma {:induction false} ScriptRefines(m: Image, t: Text, script: seq<Edit>)
    requires m.Valid() && Shows(m, t)
    ensures Shows(Run(m, script), RunText(t, script))
    ensures RunReports(m, script) == RunTextReports(t, script)
    ensures ScriptFramed(m, Run(m, script), Reach(m, script))
  {
    if script != [] {
      var before := script[..|script| - 1];
      ScriptRefines(m, t, before);
      EditRefines(Run(m, before), RunText(t, before), script[|script| - 1]);
      FrameOneMore(m, Run(m, before), Run(m, script), Reach(m, before), Reach(m, script));
    }
  }

  // ----- In place -----

  /** `a += n as uN`: the cast and the sum wrap at `width`, and do nothing else
      as long as the exact sum fits. */
  method AddCast(a: nat, n: nat, width: nat) returns (r: nat)
    requires a < width
    ensures r < width && (a + n < width ==> r == a + n)
  {
    var m := n % width;
    r := if a + m < width then a + m else a + m - width;
  }

  /** `a -= n as uN`. */
  method SubtractCast(a: nat, n: nat, width: nat) returns (r: nat)
    requires a < width
    ensures r < width && (n <= a ==> r == a - n)
  {
    var m := n % width;
    r := if m <= a then a - m else a + width - m;
  }

  lemma IsExtended(m: Image, r: Image, offset: nat, len: nat)
    requires m.Valid() && CanExtend(m, offset, len)
    requires r.buf == MoveBytes(m.buf, m.dataOff + offset, m.dataOff + offset + len, m.dataLen - offset)
    requires r.dataOff == m.dataOff && r.dataLen == r.pktLen == m.dataLen + len
    ensures r == Extended(m, offset, len) && r.Valid()
  {}

  lemma IsShrunk(m: Image, r: Image, offset: nat, len: nat)
    requires m.Valid() && CanShrink(m, offset, len)
    requires r.buf == MoveBytes(m.buf, m.dataOff + offset + len, m.dataOff + offset, m.dataLen - offset - len)
    requires r.dataOff == m.dataOff && r.dataLen == r.pktLen == m.dataLen - len
    ensures r == Shrunk(m, offset, len) && r.Valid()
  {}

  class Mbuf {
    const buf: array<u8>
    var dataOff: nat
    var dataLen: nat
    var pktLen: nat

    ghost function Value(): Image
      reads this, buf
    {
      Image(buf[..], dataOff, dataLen, pktLen)
    }

    ghost predicate Valid()
      reads this, buf
    {
      Value().Valid()
    }

    /** A freshly allocated mbuf: empty, behind the headroom. */
    constructor ()
      ensures Valid() && fresh(buf)
      ensures Value().dataOff == HEADROOM && Value().dataLen == 0 && Value().Tailroom() == DATA_ROOM
    {
      buf := new u8[HEADROOM + DATA_ROOM];
      dataOff, dataLen, pktLen := HEADROOM, 0, 0;
    }

    method CopyWithin(src: nat, dst: nat, n: nat)
      requires src + n <= buf.Length && dst + n <= buf.Length
      modifies buf
      ensures buf[..] == MoveBytes(old(buf[..]), src, dst, n)
    {
      forall k | 0 <= k < n {
        buf[dst + k] := buf[src + k];
      }
    }

    /** Move the data behind the gap, if there is any. */
    method Shift(src: nat, dst: nat, toCopy: nat)
      requires src + toCopy <= buf.Length && dst + toCopy <= buf.Length
      modifies buf
      ensures buf[..] == MoveBytes(old(buf[..]), src, dst, toCopy)
    {
      if toCopy > 0 {
        CopyWithin(src, dst, toCopy);
      } else {
        MoveNothing(buf[..], src, dst);
      }
    }

    /** The record keeping of `extend`. */
    method Grow(len: nat)
      requires dataLen + len < U16_RANGE && pktLen == dataLen
      modifies this`dataLen, this`pktLen
      ensures dataLen == pktLen == old(dataLen) + len
    {
      dataLen := AddCast(dataLen, len, U16_RANGE);
      pktLen := AddCast(pktLen, len, U32_RANGE);
    }

    /** The record keeping of `shrink`. */
    method Reduce(len: nat)
      requires len <= dataLen < U16_RANGE && pktLen == dataLen
      modifies this`dataLen, this`pktLen
      ensures dataLen == pktLen == old(dataLen) - len
    {
      dataLen := SubtractCast(dataLen, len, U16_RANGE);
      pktLen := SubtractCast(pktLen, len, U32_RANGE);
    }

    method OpenGap(offset: nat, len: nat)
      requires offset <= dataLen == pktLen && dataOff + dataLen + len <= buf.Length < U16_RANGE
      modifies this`dataLen, this`pktLen, buf
      ensures buf[..] == MoveBytes(old(buf[..]), dataOff + offset, dataOff + offset + len, old(dataLen) - offset)
      ensures dataLen == pktLen == old(dataLen) + len
    {
      Shift(dataOff + offset, dataOff + offset + len, dataLen - offset);
      Grow(len);
    }

    method CloseGap(offset: nat, len: nat)
      requires offset + len <= dataLen == pktLen && dataOff + dataLen <= buf.Length < U16_RANGE
      modifies this`dataLen, this`pktLen, buf
      ensures buf[..] == MoveBytes(old(buf[..]), dataOff + offset + len, dataOff + offset, old(dataLen) - offset - len)
      ensures dataLen == pktLen == old(dataLen) - len
    {
      Shift(dataOff + offset + len, dataOff + offset, dataLen - offset - len);
      Reduce(len);
    }

    /** None of the u16 and u32 casts and sums truncates. */
    method Extend(offset: nat, len: nat) returns (ok: bool)
      requires Valid()
      modifies this`dataLen, this`pktLen, buf
      ensures Valid() && ok == CanExtend(old(Value()), offset, len)
      ensures Value() == if ok then Extended(old(Value()), offset, len) else old(Value())
    {
      if len <= 0 || offset > dataLen || len > buf.Length - dataOff - dataLen {
        return false;
      }
      ghost var m := Value();
      OpenGap(offset, len);
      IsExtended(m, Value(), offset, len);
      return true;
    }

    method Shrink(offset: nat, len: nat) returns (ok: bool)
      requires Valid()
      modifies this`dataLen, this`pktLen, buf
      ensures Valid() && ok == CanShrink(old(Value()), offset, len)
      ensures Value() == if ok then Shrunk(old(Value()), offset, len) else old(Value())
    {
      if len <= 0 || offset + len > dataLen {
        return false;
      }
      ghost var m := Value();
      CloseGap(offset, len);
      IsShrunk(m, Value(), offset, len);
      return true;
    }

    method Resize(offset: nat, delta: int) returns (ok: bool)
      requires Valid()
      modifies this`dataLen, this`pktLen, buf
      ensures Valid() && ok == Reports(old(Value()), Edit.Resize(offset, delta))
      ensures Value() == Apply(old(Value()), Edit.Resize(offset, delta))
    {
      if delta < 0 {
        ok := Shrink(offset, -delta);
      } else {
        ok := Extend(offset, delta);
      }
    }

    method Truncate(toLen: nat) returns (ok: bool)
      requires Valid()
      modifies this`dataLen, this`pktLen
      ensures Valid() && ok == Reports(old(Value()), Edit.Truncate(toLen))
      ensures Value() == Apply(old(Value()), Edit.Truncate(toLen))
    {
      if toLen >= dataLen {
        return false;
      }
      dataLen := toLen % U16_RANGE;
      pktLen := toLen % U32_RANGE;
      return true;
    }

    /** `ptr::copy_nonoverlapping` into the data. */
    method CopyIn(offset: nat, data: seq<u8>)
      requires Valid() && offset + |data| <= dataLen
      modifies buf
      ensures Value() == Written(old(Value()), offset, data)
    {
      var at := dataOff + offset;
      forall k | 0 <= k < |data| {
        buf[at + k] := data[k];
      }
    }

    /** `write_data_slice` of `count` items of `size` bytes each. The bytes are
        written whenever they fit, even when the answer is an error. */
    method WriteDataSlice(offset: nat, size: nat, count: nat, data: seq<u8>) returns (answer: Access)
      requires Valid() && |data| == size * count
      modifies buf
      ensures Valid() && answer == WriteAnswer(old(Value()), offset, size, count)
      ensures Value() == Apply(old(Value()), Edit.Write(offset, data))
      ensures answer.Slice? ==> answer.at == dataOff + offset && answer.count == count
                                && answer.at + |data| <= buf.Length && buf[answer.at..answer.at + |data|] == data
    {
      if offset + size * count > dataLen {
        return OutOfBuffer(size * count, WrapMinus(dataLen, offset));
      }
      CopyIn(offset, data);
      if offset >= dataLen {
        return BadOffset(offset, dataLen);
      }
      if offset + size * count > dataLen - offset {
        return OutOfBuffer(size * count, dataLen - offset);
      }
      return Slice(dataOff + offset, count);
    }

    method Perform(e: Edit) returns (ok: bool)
      requires Valid()
      modifies this`dataLen, this`pktLen, buf
      ensures Valid() && ok == Reports(old(Value()), e) && Value() == Apply(old(Value()), e)
    {
      match e
      case Extend(o, n) => ok := Extend(o, n);
      case Shrink(o, n) => ok := Shrink(o, n);
      case Resize(o, delta) => ok := Resize(o, delta);
      case Truncate(n) => ok := Truncate(n);
      case Write(o, data) =>
        var answer := WriteDataSlice(o, 1, |data|, data);
        ok := answer.Slice?;
    }

    /** Any script, run in place, shows the text the script makes. */
    method RunScript(script: seq<Edit>, ghost t: Text) returns (oks: seq<bool>)
      requires Valid() && Shows(Value(), t)
      modifies this`dataLen, this`pktLen, buf
      ensures Valid() && Shows(Value(), RunText(t, script))
      ensures oks == RunTextReports(t, script)
      ensures ScriptFramed(old(Value()), Value(), Reach(old(Value()), script))
    {
      oks := [];
      for i := 0 to |script|
        invariant Valid() && Value() == Run(old(Value()), script[..i])
        invariant oks == RunReports(old(Value()), script[..i])
      {
        assert script[..i + 1][..i] == script[..i];
        var ok := Perform(script[i]);
        oks := oks + [ok];
      }
      assert script[..|script|] == script;
      ScriptRefines(old(Value()), t, script);
    }
  }

  /** `Mbuf::from_bytes`; `null` stands for any of its errors. */
  method FromBytes(data: seq<u8>, poolHasOne: bool) returns (m: Mbuf?)
    ensures m != null <==> poolHasOne && 0 < |data| <= DATA_ROOM
    ensures m != null ==> fresh(m) && fresh(m.buf) && m.Valid() && m.Value().View() == data
  {
    if !poolHasOne {
      return null;
    }
    var made := new Mbuf();
    var ok := made.Extend(0, |data|);
    if !ok {
      return null;
    }
    var answer := made.WriteDataSlice(0, 1, |data|, data);
    assert answer.Slice?;
    return made;
  }
}
