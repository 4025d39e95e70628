/**
 * Framing of the PostgreSQL frontend/backend protocol 3.0 as wasmpg/pgproto.go does it
 * (message formats: section 55.7 of the PostgreSQL 16 manual).
 */
module PgProto {
  import opened Common

  const FE_QUERY: byte := 81         // 'Q'
  const FE_PARSE: byte := 80         // 'P'
  const FE_TERMINATE: byte := 88     // 'X'
  const BE_NOTIFICATION: byte := 65  // 'A'
  const BE_READY: byte := 90         // 'Z'
  const READY_IDLE: byte := 73       // 'I'

  const SSL_REQUEST: int := 80877103
  const GSS_ENC_REQUEST: int := 80877104
  const CANCEL_REQUEST: int := 80877102

  /** 64 << 20 */
  const MAX_MESSAGE: int := 67108864

  // ---- Integers and strings on the wire ----

  /** The low 32 bits of v, read as a signed integer: Go's int32 conversion. */
  function Int32(v: int): (r: int)
    ensures -0x8000_0000 <= r < 0x8000_0000
    ensures -0x8000_0000 <= v < 0x8000_0000 ==> r == v
  {
    Signed(v % 0x1_0000_0000)
  }

  /** Two's complement reading of a 32-bit word. */
  function Signed(u: int): (r: int)
  {
    if u < 0x8000_0000 then u else u - 0x1_0000_0000
  }

  /** The big-endian value of b. */
  function BigEndian(b: bytes): (r: nat)
  {
    if b == [] then 0 else BigEndian(b[..|b| - 1]) * 256 + b[|b| - 1]
  }

  /** The signed big-endian integer in the first four bytes of b. */
  function ReadInt32(b: bytes): (r: int)
    requires |b| >= 4
  {
    Signed(BigEndian(b[..4]))
  }

  function PutInt32(v: int): (r: bytes)
    ensures |r| == 4
  {
    var u := v % 0x1_0000_0000;
    [u / 0x100_0000, u / 0x1_0000 % 256, u / 256 % 256, u % 256]
  }

  /** Writing an integer and reading it back gives its low 32 bits. */
  lemma ReadPut(v: int, rest: bytes)
    ensures ReadInt32(PutInt32(v) + rest) == Int32(v)
  {
    var u := v % 0x1_0000_0000;
    var p := PutInt32(v);
    assert (p + rest)[..4] == p;
    assert p[..3] == [u / 0x100_0000, u / 0x1_0000 % 256, u / 256 % 256];
    assert p[..3][..2] == [u / 0x100_0000, u / 0x1_0000 % 256];
    assert p[..3][..2][..1] == [u / 0x100_0000];
    assert BigEndian(p) == BigEndian(p[..3]) * 256 + u % 256;
    assert BigEndian(p[..3]) == BigEndian(p[..3][..2]) * 256 + u / 256 % 256;
    assert BigEndian(p[..3][..2]) == BigEndian(p[..3][..2][..1]) * 256 + u / 0x1_0000 % 256;
    assert BigEndian(p[..3][..2][..1]) == u / 0x100_0000;
    Digits(u);
  }

  lemma Digits(u: int)
    requires 0 <= u < 0x1_0000_0000
    ensures u == ((u / 0x100_0000 * 256 + u / 0x1_0000 % 256) * 256 + u / 256 % 256) * 256 + u % 256
  {
    var a := u / 256;
    var b := a / 256;
    var c := b / 256;
    assert b == u / 0x1_0000;
    assert c == u / 0x100_0000;
  }

  lemma FourBytes(b: bytes)
    requires |b| == 4
    ensures BigEndian(b) == (((b[0] as int) * 256 + b[1]) * 256 + b[2]) * 256 + b[3]
  {
    assert b[..3] == [b[0], b[1], b[2]] && b[..3][..2] == [b[0], b[1]] && b[..3][..2][..1] == [b[0]];
    assert BigEndian(b) == BigEndian(b[..3]) * 256 + b[3];
    assert BigEndian(b[..3]) == BigEndian(b[..3][..2]) * 256 + b[2];
    assert BigEndian(b[..3][..2]) == BigEndian(b[..3][..2][..1]) * 256 + b[1];
    assert BigEndian(b[..3][..2][..1]) == b[0];
  }

  /** Reading an integer and writing it gives the four bytes back. */
  lemma PutRead(b: bytes)
    requires |b| == 4
    ensures PutInt32(ReadInt32(b)) == b
  {
    assert b[..4] == b;
    FourBytes(b);
    Undigits(b[0], b[1], b[2], b[3]);
  }

  lemma Undigits(a: byte, b: byte, c: byte, d: byte)
    ensures var u := ((a * 256 + b) * 256 + c) * 256 + d;
      && 0 <= u < 0x1_0000_0000 && Signed(u) % 0x1_0000_0000 == u
      && u / 0x100_0000 == a && u / 0x1_0000 % 256 == b && u / 256 % 256 == c && u % 256 == d
  {
    var p := (a * 256 + b) * 256 + c;
    var u := p * 256 + d;
    assert u / 256 == p && u % 256 == d;
    assert p / 256 == a * 256 + b && p % 256 == c;
    assert u / 0x1_0000 == p / 256 && u / 0x100_0000 == p / 0x1_0000 == a;
  }

  /** A NUL-terminated string off the front of b: the text and what follows the NUL. */
  function CString(b: bytes): (r: Option<(bytes, bytes)>)
    ensures r.None? <==> 0 !in b
    ensures r.Some? ==> b == r.value.0 + [0] + r.value.1 && 0 !in r.value.0
  {
    if b == [] then None
    else if b[0] == 0 then Some(([], b[1..]))
    else match CString(b[1..])
      case None => None
      case Some((s, rest)) => Some(([b[0]] + s, rest))
  }

  /** The cut is at the first NUL, so a text without one comes back whole. */
  lemma {:induction false} CStringOf(s: bytes, rest: bytes)
    requires 0 !in s
    ensures CString(s + [0] + rest) == Some((s, rest))
  {
    if s == [] {
      assert s + [0] + rest == [0] + rest;
    } else {
      assert (s + [0] + rest)[1..] == s[1..] + [0] + rest;
      CStringOf(s[1..], rest);
      assert [s[0]] + s[1..] == s;
    }
  }

  // ---- Backend messages ----

  /** encodeBackend: type byte, self-inclusive int32 length, payload. */
  function EncodeBackend(typ: byte, payload: bytes): (r: bytes)
    ensures |r| == |payload| + 5
  {
    [typ] + PutInt32(|payload| + 4) + payload
  }

  /** nextBackendMessage: the type and total length of the first frame, if buf holds a whole one. */
  function NextBackend(buf: bytes): (r: Option<(byte, nat)>)
    ensures r.Some? ==> 5 <= r.value.1 <= |buf| && r.value.0 == buf[0]
  {
    if |buf| < 5 then None
    else
      var length := ReadInt32(buf[1..5]);
      if length < 4 || length > MAX_MESSAGE || |buf| < length + 1 then None
      else Some((buf[0], length + 1))
  }

  /** Framing looks only at the header: more bytes behind a frame change nothing. */
  lemma NextBackendPrefix(a: bytes, b: bytes)
    requires NextBackend(a).Some?
    ensures NextBackend(a + b) == NextBackend(a)
  {
    assert (a + b)[1..5] == a[1..5];
  }

  /** A frame is found exactly when the buffer starts with one encodeBackend can write within the cap. */
  lemma NextBackendExactly(buf: bytes)
    ensures NextBackend(buf).Some? <==>
      exists typ: byte, payload: bytes, rest: bytes ::
        |payload| + 4 <= MAX_MESSAGE && buf == EncodeBackend(typ, payload) + rest
  {
    hide PutInt32, BigEndian;
    var next := NextBackend(buf);
    if next.Some? {
      var payload, rest := buf[5..next.value.1], buf[next.value.1..];
      assert buf[1..5][..4] == buf[1..5];
      PutRead(buf[1..5]);
      assert buf == [buf[0]] + buf[1..5] + payload + rest;
      assert buf == EncodeBackend(buf[0], payload) + rest;
    }
    if typ: byte, payload: bytes, rest: bytes :|
      |payload| + 4 <= MAX_MESSAGE && buf == EncodeBackend(typ, payload) + rest
    {
      EncodedIsFrame(typ, payload);
      NextBackendPrefix(EncodeBackend(typ, payload), rest);
    }
  }

  /** A frame is exactly one message. */
  predicate IsFrame(f: bytes) {
    NextBackend(f).Some? && NextBackend(f).value.1 == |f|
  }

  /**
   * What encodeBackend writes is read back as one frame exactly when the length fits the
   * cap; beyond the cap (and where the int32 length wraps around) it is not.
   */
  lemma EncodedIsFrame(typ: byte, payload: bytes)
    ensures IsFrame(EncodeBackend(typ, payload)) <==> |payload| + 4 <= MAX_MESSAGE
  {
    var f := EncodeBackend(typ, payload);
    ReadPut(|payload| + 4, []);
    assert PutInt32(|payload| + 4) + [] == PutInt32(|payload| + 4);
    assert f[1..5] == PutInt32(|payload| + 4);
  }

  /** Reference view of a backend stream: its whole frames, and the bytes left unframed. */
  function Frames(buf: bytes): (r: seq<bytes>)
    decreases |buf|
  {
    match NextBackend(buf)
    case None => []
    case Some((_, total)) => [buf[..total]] + Frames(buf[total..])
  }

  function Tail(buf: bytes): (r: bytes)
    decreases |buf|
  {
    match NextBackend(buf)
    case None => buf
    case Some((_, total)) => Tail(buf[total..])
  }

  lemma FirstIsFrame(buf: bytes)
    requires NextBackend(buf).Some?
    ensures IsFrame(buf[..NextBackend(buf).value.1])
  {
    var f := buf[..NextBackend(buf).value.1];
    assert f[1..5] == buf[1..5];
  }

  lemma ConcatCons(f: bytes, fs: seq<bytes>, tail: bytes)
    ensures Concat([f] + fs) + tail == f + (Concat(fs) + tail)
  {
    assert ([f] + fs)[1..] == fs;
  }

  /** Nothing is lost by framing. */
  lemma {:induction false} FramesCover(buf: bytes)
    ensures Concat(Frames(buf)) + Tail(buf) == buf
    decreases |buf|
  {
    if NextBackend(buf).None? {
      assert Concat<byte>([]) + buf == buf;
    } else {
      var total := NextBackend(buf).value.1;
      FramesCover(buf[total..]);
      ConcatCons(buf[..total], Frames(buf[total..]), Tail(buf[total..]));
    }
  }

  /** Every frame is one message, and no whole message is left in the tail. */
  lemma {:induction false} FramesWellFormed(buf: bytes)
    ensures forall f :: f in Frames(buf) ==> IsFrame(f)
    ensures NextBackend(Tail(buf)).None?
    decreases |buf|
  {
    if NextBackend(buf).Some? {
      FramesWellFormed(buf[NextBackend(buf).value.1..]);
      FirstIsFrame(buf);
    }
  }

  /** Framing is unambiguous: gluing frames and an unframed tail together and reading gives them back. */
  lemma {:induction false} FramesOfConcat(fs: seq<bytes>, tail: bytes)
    requires forall f :: f in fs ==> IsFrame(f)
    requires NextBackend(tail).None?
    ensures Frames(Concat(fs) + tail) == fs && Tail(Concat(fs) + tail) == tail
  {
    if fs == [] {
      assert Concat(fs) + tail == tail;
    } else {
      var f, rest := fs[0], Concat(fs[1..]) + tail;
      assert f in fs && IsFrame(f);
      ConcatCons(f, fs[1..], tail);
      assert fs == [f] + fs[1..];
      NextBackendPrefix(f, rest);
      assert (f + rest)[..|f|] == f && (f + rest)[|f|..] == rest;
      FramesOfConcat(fs[1..], tail);
    }
  }

  // ---- ReadyForQuery ----

  /** A ReadyForQuery frame is six bytes long; its last byte is the transaction status. */
  predicate IsReady(f: bytes) {
    |f| == 6 && f[0] == BE_READY
  }

  /** The status byte of the last ReadyForQuery among fs. */
  function LastReady(fs: seq<bytes>): (r: Option<byte>)
  {
    if fs == [] then None
    else if IsReady(fs[|fs| - 1]) then Some(fs[|fs| - 1][5])
    else LastReady(fs[..|fs| - 1])
  }

  /** What the final ReadyForQuery of a reply says, over the frames before any damage. */
  function LastReadyForQuery(buf: bytes): (r: Option<byte>)
  {
    LastReady(Frames(buf))
  }

  /** The last of two stretches that has a ReadyForQuery decides. */
  lemma {:induction false} LastReadyConcat(fs: seq<bytes>, gs: seq<bytes>)
    ensures LastReady(fs + gs) == if LastReady(gs).Some? then LastReady(gs) else LastReady(fs)
  {
    if gs == [] {
      assert fs + gs == fs;
    } else {
      var last := gs[|gs| - 1];
      assert (fs + gs)[|fs + gs| - 1] == last;
      assert (fs + gs)[..|fs + gs| - 1] == fs + gs[..|gs| - 1];
      LastReadyConcat(fs, gs[..|gs| - 1]);
    }
  }

  /** A ReadyForQuery on the wire: 'Z', the length five, the status. */
  function Ready(status: byte): bytes {
    [90, 0, 0, 0, 5, status]
  }

  lemma ReadyIsFrame(f: bytes)
    requires IsFrame(f)
    ensures IsReady(f) <==> |f| >= 6 && f == Ready(f[5])
  {
    hide BigEndian;
    if |f| == 6 {
      FourBytes(f[1..5]);
      assert f[1..5][..4] == f[1..5];
      assert BigEndian(f[1..5]) < 0x1_0000_0000;
      assert Signed(BigEndian(f[1..5])) == 5;
      LengthFive(f[1], f[2], f[3], f[4]);
    }
  }

  lemma LengthFive(a: byte, b: byte, c: byte, d: byte)
    requires Signed((((a as int) * 256 + b) * 256 + c) * 256 + d) == 5
    ensures a == 0 && b == 0 && c == 0 && d == 5
  {
  }

  /** The status of a reply is s exactly when some whole frame is a ReadyForQuery of s and none behind it, up
      to the first damage, is a ReadyForQuery. */
  lemma {:induction false} LastReadyExactly(fs: seq<bytes>, tail: bytes, s: byte)
    requires (forall f :: f in fs ==> IsFrame(f)) && NextBackend(tail).None?
    ensures LastReadyForQuery(Concat(fs) + tail) == Some(s) <==>
      exists i :: 0 <= i < |fs| && fs[i] == Ready(s) && forall j, x :: i < j < |fs| ==> fs[j] != Ready(x)
  {
    FramesOfConcat(fs, tail);
    LastOf(fs, s);
  }

  lemma {:induction false} LastOf(fs: seq<bytes>, s: byte)
    requires forall f :: f in fs ==> IsFrame(f)
    ensures LastReady(fs) == Some(s) <==>
      exists i :: 0 <= i < |fs| && fs[i] == Ready(s) && forall j, x :: i < j < |fs| ==> fs[j] != Ready(x)
  {
    hide IsFrame, IsReady;
    if fs != [] {
      var n := |fs| - 1;
      var init, last := fs[..n], fs[n];
      LastOf(init, s);
      ReadyIsFrame(last);
      assert forall x :: last == Ready(x) ==> last[5] == x;
      if IsReady(last) {
        assert last == Ready(last[5]);
      } else if LastReady(init) == Some(s) {
        var i :| 0 <= i < |init| && init[i] == Ready(s) && forall j, x :: i < j < |init| ==> init[j] != Ready(x);
        ReadyLength(last);
        assert forall j, x :: i < j < |fs| ==> fs[j] != Ready(x);
      } else if i :| 0 <= i < |fs| && fs[i] == Ready(s) && forall j, x :: i < j < |fs| ==> fs[j] != Ready(x) {
        ReadyLength(last);
        assert i < n && init[i] == Ready(s);
      }
    }
  }

  lemma ReadyLength(f: bytes)
    requires IsFrame(f) && !IsReady(f)
    ensures forall x :: f != Ready(x)
  {
    ReadyIsFrame(f);
    assert forall x :: Ready(x)[5] == x;
  }

  /** Splitting a reference view at a frame boundary. */
  lemma {:induction false} FramesFrom(buf: bytes, done: seq<bytes>, i: nat)
    requires i <= |buf| && Frames(buf) == done + Frames(buf[i..])
    requires NextBackend(buf[i..]).Some?
    ensures var total := NextBackend(buf[i..]).value.1;
      && i + total <= |buf|
      && Frames(buf) == done + [buf[i..i + total]] + Frames(buf[i + total..])
  {
    var total := NextBackend(buf[i..]).value.1;
    assert buf[i..][..total] == buf[i..i + total];
    assert buf[i..][total..] == buf[i + total..];
  }

  /** lastReadyForQuery as the source loops it. */
  method ScanLastReady(buf: bytes) returns (status: Option<byte>)
    ensures status == LastReadyForQuery(buf)
  {
    status := None;
    var i := 0;
    ghost var done: seq<bytes> := [];
    assert buf[0..] == buf;
    while i < |buf|
      invariant 0 <= i <= |buf|
      invariant Frames(buf) == done + Frames(buf[i..])
      invariant status == LastReady(done)
    {
      var next := NextBackend(buf[i..]);
      if next.None? { break; }
      var total := next.value.1;
      FramesFrom(buf, done, i);
      ghost var frame := buf[i..i + total];
      if next.value.0 == BE_READY && total == 6 {
        status := Some(buf[i + 5]);
      }
      assert (done + [frame])[..|done|] == done;
      done := done + [frame];
      i := i + total;
    }
    assert Frames(buf) == done;
  }

  // ---- NotificationResponse ----

  datatype Notification = Notification(pid: int, channel: bytes, payload: bytes)

  predicate IsNotification(f: bytes) {
    f != [] && f[0] == BE_NOTIFICATION
  }

  function EncodeNotification(n: Notification): (r: bytes)
  {
    EncodeBackend(BE_NOTIFICATION, NotificationBody(n))
  }

  function NotificationBody(n: Notification): (r: bytes)
  {
    PutInt32(n.pid) + (n.channel + [0]) + (n.payload + [0])
  }

  function DecodeNotification(payload: bytes): (r: Option<Notification>)
  {
    if |payload| < 4 then None
    else match CString(payload[4..])
      case None => None
      case Some((channel, rest)) =>
        match CString(rest)
        case None => None
        case Some((text, _)) => Some(Notification(ReadInt32(payload[..4]), channel, text))
  }

  /** An injected notification decodes to what was sent exactly when neither text holds a NUL. */
  lemma NotificationRoundTrip(n: Notification)
    requires Int32(n.pid) == n.pid
    ensures DecodeNotification(NotificationBody(n)) == Some(n) <==> 0 !in n.channel && 0 !in n.payload
  {
    var b := NotificationBody(n);
    assert b[..4] == PutInt32(n.pid) + [];
    ReadPut(n.pid, []);
    assert b[4..] == n.channel + [0] + (n.payload + [0]);
    if 0 !in n.channel {
      CStringOf(n.channel, n.payload + [0]);
      if 0 !in n.payload {
        assert n.payload + [0] == n.payload + [0] + [];
        CStringOf(n.payload, []);
      }
    }
  }

  /** What decodes: a process id and two terminated texts, whatever follows them. */
  lemma DecodesExactly(payload: bytes, n: Notification)
    ensures DecodeNotification(payload) == Some(n) <==>
      && 0 !in n.channel && 0 !in n.payload && -0x8000_0000 <= n.pid < 0x8000_0000
      && exists rest :: payload == PutInt32(n.pid) + (n.channel + [0] + (n.payload + [0] + rest))
  {
    hide PutInt32, BigEndian, CString, Int32;
    if DecodeNotification(payload) == Some(n) {
      var (channel, rest) := CString(payload[4..]).value;
      var (text, more) := CString(rest).value;
      assert payload[..4][..4] == payload[..4];
      PutRead(payload[..4]);
      ReadBounds(payload[..4]);
      assert payload == payload[..4] + payload[4..];
      assert payload == PutInt32(n.pid) + (n.channel + [0] + (n.payload + [0] + more));
    }
    if rest: bytes :| 0 !in n.channel && 0 !in n.payload && -0x8000_0000 <= n.pid < 0x8000_0000
                      && payload == PutInt32(n.pid) + (n.channel + [0] + (n.payload + [0] + rest))
    {
      CStringOf(n.payload, rest);
      CStringOf(n.channel, n.payload + [0] + rest);
      ReadPut(n.pid, []);
      Int32Small(n.pid);
      assert payload[..4] == PutInt32(n.pid) + [];
      assert payload[4..] == n.channel + [0] + (n.payload + [0] + rest);
    }
  }

  /** The bytes of a notification: 'A', its length, the process id, and the two texts. */
  lemma NotificationBytes()
    ensures EncodeNotification(Notification(258, [99], [112, 113])) == [65, 0, 0, 0, 13, 0, 0, 1, 2, 99, 0, 112, 113, 0]
  {
  }

  function Decoded(f: bytes): (r: Option<Notification>)
    requires |f| >= 5
  {
    DecodeNotification(f[5..])
  }

  /** The frames that are not notifications, in order. */
  function Others(fs: seq<bytes>): (r: seq<bytes>)
  {
    if fs == [] then []
    else if IsNotification(fs[0]) then Others(fs[1..])
    else [fs[0]] + Others(fs[1..])
  }

  /** The notification a frame carries, if it is one and decodes. */
  function FoundIn(f: bytes): (r: seq<Notification>)
  {
    if IsNotification(f) && |f| >= 5 && Decoded(f).Some? then [Decoded(f).value] else []
  }

  /** The notifications that decode, in order. */
  function Found(fs: seq<bytes>): (r: seq<Notification>)
  {
    if fs == [] then [] else FoundIn(fs[0]) + Found(fs[1..])
  }

  lemma {:induction false} OthersAmong(fs: seq<bytes>)
    ensures forall f :: f in Others(fs) ==> f in fs
  {
    if fs != [] {
      OthersAmong(fs[1..]);
    }
  }

  lemma {:induction false} OthersAppend(fs: seq<bytes>, f: bytes)
    ensures Others(fs + [f]) == Others(fs) + (if IsNotification(f) then [] else [f])
  {
    if fs == [] {
      assert fs + [f] == [f];
    } else {
      assert (fs + [f])[1..] == fs[1..] + [f];
      OthersAppend(fs[1..], f);
    }
  }

  /** The first frame of a stream contributes itself to clean, or its notification to found. */
  lemma SplitHead(buf: bytes)
    requires NextBackend(buf).Some?
    ensures var f := buf[..NextBackend(buf).value.1]; var rest := buf[NextBackend(buf).value.1..];
      && Clean(buf) == (if IsNotification(f) then [] else f) + Clean(rest)
      && Found(Frames(buf)) == FoundIn(f) + Found(Frames(rest))
  {
    var f, rest := buf[..NextBackend(buf).value.1], buf[NextBackend(buf).value.1..];
    assert Frames(buf)[1..] == Frames(rest);
    if !IsNotification(f) {
      ConcatCons(f, Others(Frames(rest)), Tail(rest));
    }
  }

  /** What one turn of the splitting loop adds to its two outputs. */
  lemma SplitTurn(buf: bytes, clean: bytes, found: seq<Notification>)
    requires NextBackend(buf).Some?
    ensures var f := buf[..NextBackend(buf).value.1]; var rest := buf[NextBackend(buf).value.1..];
      && (IsNotification(f) <==> NextBackend(buf).value.0 == BE_NOTIFICATION)
      && (if IsNotification(f) then clean else clean + f) + Clean(rest) == clean + Clean(buf)
      && (if IsNotification(f) then found + FoundIn(f) else found) + Found(Frames(rest)) == found + Found(Frames(buf))
  {
    var f, rest := buf[..NextBackend(buf).value.1], buf[NextBackend(buf).value.1..];
    SplitHead(buf);
    if IsNotification(f) {
      Regroup(found, FoundIn(f), Found(Frames(rest)));
    } else {
      Regroup(clean, f, Clean(rest));
    }
  }

  lemma SplitEnd(buf: bytes)
    requires NextBackend(buf).None?
    ensures Clean(buf) == buf && Found(Frames(buf)) == []
  {
  }

  /**
   * splitNotifications: clean is the frames that are not notifications followed by the
   * unframed tail, found is the notifications that decode.
   */
  method SplitNotifications(buf: bytes) returns (clean: bytes, found: seq<Notification>)
    ensures clean == Concat(Others(Frames(buf))) + Tail(buf)
    ensures found == Found(Frames(buf))
  {
    hide Frames, Others, Found, DecodeNotification;
    clean, found := [], [];
    var i := 0;
    ghost var left := buf;
    while i < |buf|
      invariant 0 <= i <= |buf| && left == buf[i..]
      invariant clean + Clean(left) == Clean(buf)
      invariant found + Found(Frames(left)) == Found(Frames(buf))
    {
      var next := NextBackend(buf[i..]);
      if next.None? {
        SplitEnd(left);
        clean := clean + buf[i..];
        return;
      }
      var frame := buf[i..i + next.value.1];
      assert frame == left[..next.value.1];
      SplitTurn(left, clean, found);
      if next.value.0 == BE_NOTIFICATION {
        var n := DecodeNotification(frame[5..]);
        if n.Some? {
          found := found + [n.value];
        }
      } else {
        clean := clean + frame;
      }
      left := left[next.value.1..];
      i := i + next.value.1;
    }
    SplitEnd(left);
  }

  function Clean(buf: bytes): (r: bytes)
  {
    Concat(Others(Frames(buf))) + Tail(buf)
  }

  /** The cleaned stream frames as the kept frames, so nothing was glued or torn. */
  lemma CleanFrames(buf: bytes)
    ensures Frames(Clean(buf)) == Others(Frames(buf)) && Tail(Clean(buf)) == Tail(buf)
  {
    FramesWellFormed(buf);
    OthersAmong(Frames(buf));
    FramesOfConcat(Others(Frames(buf)), Tail(buf));
  }

  /** Splitting is idempotent, and the second pass finds nothing. */
  lemma CleanIdempotent(buf: bytes)
    ensures Clean(Clean(buf)) == Clean(buf)
    ensures Found(Frames(Clean(buf))) == []
  {
    CleanFrames(buf);
    OthersAgain(Frames(buf));
  }

  lemma {:induction false} OthersAgain(fs: seq<bytes>)
    ensures Others(Others(fs)) == Others(fs) && Found(Others(fs)) == []
  {
    if fs != [] {
      OthersAgain(fs[1..]);
      if !IsNotification(fs[0]) {
        assert Others(fs)[1..] == Others(fs[1..]);
      }
    }
  }

  /** Taking notifications out never changes what the reply says about the session. */
  lemma CleanKeepsStatus(buf: bytes)
    ensures LastReadyForQuery(Clean(buf)) == LastReadyForQuery(buf)
  {
    CleanFrames(buf);
    OthersKeepStatus(Frames(buf));
  }

  lemma {:induction false} OthersKeepStatus(fs: seq<bytes>)
    ensures LastReady(Others(fs)) == LastReady(fs)
  {
    if fs != [] {
      var init, last := fs[..|fs| - 1], fs[|fs| - 1];
      assert fs == init + [last];
      OthersAppend(init, last);
      OthersKeepStatus(init);
      if IsNotification(last) {
        assert Others(fs) == Others(init);
      } else {
        assert Others(fs) == Others(init) + [last];
        assert Others(fs)[..|Others(fs)| - 1] == Others(init);
      }
    }
  }

  /** What a backend stream is made of: notifications, notification frames that do not decode, other frames. */
  datatype Item = Told(note: Notification) | Garbled(frame: bytes) | Other(frame: bytes) {
    function Bytes(): bytes {
      match this
      case Told(n) => EncodeNotification(n)
      case Garbled(f) => f
      case Other(f) => f
    }

    ghost predicate Valid() {
      match this
      case Told(n) =>
        && 0 !in n.channel && 0 !in n.payload && -0x8000_0000 <= n.pid < 0x8000_0000
        && |n.channel| + |n.payload| + 10 <= 67108864
      case Garbled(f) => IsFrame(f) && f[0] == 65 && forall n :: DecodeNotification(f[5..]) != Some(n)
      case Other(f) => IsFrame(f) && f[0] != 65
    }
  }

  function ItemBytes(items: seq<Item>): seq<bytes> {
    if items == [] then [] else [items[0].Bytes()] + ItemBytes(items[1..])
  }

  function Notes(items: seq<Item>): seq<Notification> {
    if items == [] then [] else (if items[0].Told? then [items[0].note] else []) + Notes(items[1..])
  }

  function OtherBytes(items: seq<Item>): bytes {
    if items == [] then [] else (if items[0].Other? then items[0].frame else []) + OtherBytes(items[1..])
  }

  lemma ItemSplits(item: Item)
    requires item.Valid()
    ensures IsFrame(item.Bytes())
    ensures FoundIn(item.Bytes()) == if item.Told? then [item.note] else []
    ensures IsNotification(item.Bytes()) <==> !item.Other?
  {
    hide DecodeNotification, PutInt32, NextBackend;
    if item.Told? {
      var n := item.note;
      EncodedIsFrame(65, NotificationBody(n));
      assert NotificationBody(n) == PutInt32(n.pid) + (n.channel + [0] + (n.payload + [0] + []));
      DecodesExactly(NotificationBody(n), n);
      assert EncodeNotification(n)[5..] == NotificationBody(n);
      assert EncodeNotification(n)[0] == 65;
    } else {
      FrameLength(item.frame);
    }
  }

  lemma FrameLength(f: bytes)
    requires IsFrame(f)
    ensures |f| >= 5
  {
  }

  lemma {:induction false} ItemsSplit(items: seq<Item>)
    requires forall item :: item in items ==> item.Valid()
    ensures forall f :: f in ItemBytes(items) ==> IsFrame(f)
    ensures Found(ItemBytes(items)) == Notes(items) && Concat(Others(ItemBytes(items))) == OtherBytes(items)
  {
    hide IsFrame, FoundIn, EncodeNotification, IsNotification;
    if items != [] {
      var rest := ItemBytes(items[1..]);
      ItemSplits(items[0]);
      ItemsSplit(items[1..]);
      assert items[0].Other? ==> items[0].Bytes() == items[0].frame;
      assert ItemBytes(items)[1..] == rest;
      assert Others(ItemBytes(items)) == (if items[0].Other? then [items[0].frame] else []) + Others(rest);
      if items[0].Other? {
        ConcatCons(items[0].frame, Others(rest), []);
        assert Concat([items[0].frame] + Others(rest)) + [] == Concat([items[0].frame] + Others(rest));
        assert Concat(Others(rest)) + [] == Concat(Others(rest));
      }
    }
  }

  /** Any notifications among any other frames, and bytes of no whole frame behind them: exactly those that
      decode are found, each once and in order, and everything that is no notification is left as it was. */
  lemma StreamSplits(items: seq<Item>, tail: bytes)
    requires (forall item :: item in items ==> item.Valid()) && NextBackend(tail).None?
    ensures Found(Frames(Concat(ItemBytes(items)) + tail)) == Notes(items)
    ensures Clean(Concat(ItemBytes(items)) + tail) == OtherBytes(items) + tail
  {
    hide IsFrame, Found, Others, Frames, Tail, NextBackend;
    ItemsSplit(items);
    FramesOfConcat(ItemBytes(items), tail);
  }

  // ---- Frontend messages ----

  datatype FrontendError = TooSmall | TooLarge

  /** typ is 0 for a startup-phase message, code is 0 for any other. */
  datatype FrontendMessage = FrontendMessage(typ: byte, code: int, raw: bytes, payload: bytes)

  datatype FrontendResult =
    | Incomplete
    | Bad(error: FrontendError)
    | Message(msg: FrontendMessage)

  /** nextFrontendMessage. The bytes consumed are those of msg.raw. */
  function NextFrontend(buf: bytes, startup: bool): (r: FrontendResult)
    ensures r.Message? ==> 5 <= |r.msg.raw| <= |buf| && r.msg.raw == buf[..|r.msg.raw|]
  {
    if startup then
      if |buf| < 8 then Incomplete
      else
        var length := ReadInt32(buf[..4]);
        if length < 8 then Bad(TooSmall)
        else if length > MAX_MESSAGE then Bad(TooLarge)
        else if |buf| < length then Incomplete
        else Message(FrontendMessage(0, ReadInt32(buf[4..8]), buf[..length], buf[8..length]))
    else
      if |buf| < 5 then Incomplete
      else
        var length := ReadInt32(buf[1..5]);
        if length < 4 then Bad(TooSmall)
        else if length > MAX_MESSAGE then Bad(TooLarge)
        else if |buf| < length + 1 then Incomplete
        else Message(FrontendMessage(buf[0], 0, buf[..length + 1], buf[5..length + 1]))
  }

  /** A frontend message on the wire: untyped in the startup phase, and framed as the backend's after it. */
  function FrontendFrame(m: FrontendMessage, startup: bool): (r: bytes)
  {
    if startup then PutInt32(|m.payload| + 8) + PutInt32(m.code) + m.payload
    else EncodeBackend(m.typ, m.payload)
  }

  /** m can be sent in this phase. */
  predicate Sendable(m: FrontendMessage, startup: bool) {
    && m.raw == FrontendFrame(m, startup)
    && (if startup then m.typ == 0 && |m.payload| + 8 <= MAX_MESSAGE && -0x8000_0000 <= m.code < 0x8000_0000
        else m.code == 0 && |m.payload| + 4 <= MAX_MESSAGE)
  }

  /** A message sent is the message read, whatever follows it. */
  lemma FrontendReads(m: FrontendMessage, startup: bool, rest: bytes)
    requires Sendable(m, startup)
    ensures NextFrontend(m.raw + rest, startup) == Message(m)
  {
    hide ReadInt32, PutInt32, Int32;
    var buf := m.raw + rest;
    Int32Small(m.code);
    if startup {
      var length := |m.payload| + 8;
      Int32Small(length);
      ReadPut(length, []);
      ReadPut(m.code, []);
      assert buf[..4] == PutInt32(length) + [] && buf[4..8] == PutInt32(m.code) + [];
      assert buf[..length] == m.raw && buf[8..length] == m.payload;
    } else {
      var length := |m.payload| + 4;
      Int32Small(length);
      ReadPut(length, []);
      assert buf[1..5] == PutInt32(length) + [];
      assert buf[..length + 1] == m.raw && buf[5..length + 1] == m.payload;
    }
  }

  lemma Int32Small(v: int)
    ensures -0x8000_0000 <= v < 0x8000_0000 ==> Int32(v) == v
  {
  }

  /** A message is read exactly when the buffer starts with one that can be sent, and it is that one. */
  lemma NextFrontendExactly(buf: bytes, startup: bool)
    ensures NextFrontend(buf, startup).Message? <==>
      exists m: FrontendMessage, rest: bytes :: Sendable(m, startup) && buf == m.raw + rest
    ensures NextFrontend(buf, startup).Message? ==> Sendable(NextFrontend(buf, startup).msg, startup)
  {
    hide PutInt32, Int32;
    var next := NextFrontend(buf, startup);
    if next.Message? {
      ReadIsSendable(buf, startup);
      assert Sendable(next.msg, startup) && buf == next.msg.raw + buf[|next.msg.raw|..];
    }
    if m: FrontendMessage, rest: bytes :| Sendable(m, startup) && buf == m.raw + rest {
      FrontendReads(m, startup, rest);
    }
  }

  lemma ReadIsSendable(buf: bytes, startup: bool)
    requires NextFrontend(buf, startup).Message?
    ensures Sendable(NextFrontend(buf, startup).msg, startup)
  {
    hide PutInt32, BigEndian;
    var m := NextFrontend(buf, startup).msg;
    if startup {
      assert buf[..4][..4] == buf[..4] && buf[4..8][..4] == buf[4..8];
      PutRead(buf[..4]);
      PutRead(buf[4..8]);
      ReadBounds(buf[4..8]);
      assert m.raw == buf[..4] + buf[4..8] + m.payload;
    } else {
      assert buf[1..5][..4] == buf[1..5];
      PutRead(buf[1..5]);
      assert m.raw == [buf[0]] + buf[1..5] + m.payload;
    }
  }

  lemma ReadBounds(b: bytes)
    requires |b| == 4
    ensures -0x8000_0000 <= ReadInt32(b) < 0x8000_0000
  {
    assert b[..4] == b;
    FourBytes(b);
    Undigits(b[0], b[1], b[2], b[3]);
  }

  /** encodeQuery */
  function EncodeQuery(sql: bytes): (r: bytes) {
    EncodeBackend(FE_QUERY, sql + [0])
  }

  /** The shim's own ROLLBACK, and any Query of a text without a NUL, reads back as that text. */
  lemma QueryRoundTrip(sql: bytes, rest: bytes)
    requires |sql| + 5 <= MAX_MESSAGE
    ensures var next := NextFrontend(EncodeQuery(sql) + rest, false);
      next.Message? && next.msg.typ == FE_QUERY && next.msg.raw == EncodeQuery(sql) && (Sql(next.msg) == sql <==> 0 !in sql)
  {
    hide EncodeBackend;
    var m := FrontendMessage(FE_QUERY, 0, EncodeQuery(sql), sql + [0]);
    FrontendReads(m, false, rest);
    if 0 !in sql {
      CStringOf(sql, []);
      assert sql + [0] + [] == sql + [0];
    }
  }

  /** Once a message or an error is decided, later bytes cannot change it. */
  lemma NextFrontendPrefix(a: bytes, b: bytes, startup: bool)
    requires !NextFrontend(a, startup).Incomplete?
    ensures NextFrontend(a + b, startup) == NextFrontend(a, startup)
  {
    if startup {
      assert (a + b)[..4] == a[..4] && (a + b)[4..8] == a[4..8];
      var length := ReadInt32(a[..4]);
      if 8 <= length <= |a| {
        assert (a + b)[..length] == a[..length] && (a + b)[8..length] == a[8..length];
      }
    } else {
      assert (a + b)[1..5] == a[1..5];
      var total := ReadInt32(a[1..5]) + 1;
      if 5 <= total <= |a| {
        assert (a + b)[..total] == a[..total] && (a + b)[5..total] == a[5..total];
      }
    }
  }

  /** sql: the statement text of a Query or Parse message, empty for anything else. */
  function Sql(m: FrontendMessage): (r: bytes)
  {
    if m.typ == FE_QUERY then
      match CString(m.payload)
      case None => []
      case Some((s, _)) => s
    else if m.typ == FE_PARSE then
      match CString(m.payload)
      case None => []
      case Some((_, rest)) =>
        match CString(rest)
        case None => []
        case Some((s, _)) => s
    else []
  }

  /** The text of a Query is its payload up to the first zero byte; that of a Parse is what follows the
      statement's name, up to the second. Without those bytes, and for any other message, there is none. */
  lemma SqlExactly(m: FrontendMessage, name: bytes, text: bytes, rest: bytes)
    requires 0 !in name && 0 !in text
    ensures m.typ == 81 && m.payload == text + [0] + rest ==> Sql(m) == text
    ensures m.typ == 80 && m.payload == name + [0] + (text + [0] + rest) ==> Sql(m) == text
    ensures m.typ == 81 && m.payload == text ==> Sql(m) == []
    ensures m.typ == 80 && (m.payload == name || m.payload == name + [0] + text) ==> Sql(m) == []
    ensures m.typ != 81 && m.typ != 80 ==> Sql(m) == []
  {
    hide CString;
    CStringOf(text, rest);
    CStringOf(name, text + [0] + rest);
    CStringOf(name, text);
    NoTerminator(text);
    NoTerminator(name);
  }

  lemma {:induction false} NoTerminator(s: bytes)
    requires 0 !in s
    ensures CString(s).None?
  {
    if s != [] {
      NoTerminator(s[1..]);
    }
  }

  /** Behind a type byte the declared length decides: below its own four bytes or over the cap of 64 MiB it is
      an error, and short of its payload the message is waited for. */
  lemma LengthDecides(typ: byte, length: int, rest: bytes)
    requires -0x8000_0000 <= length < 0x8000_0000
    ensures var next := NextFrontend([typ] + PutInt32(length) + rest, false);
      && (next == Bad(TooSmall) <==> length < 4)
      && (next == Bad(TooLarge) <==> length > 64 * 1024 * 1024)
      && (next.Incomplete? <==> 4 <= length <= 64 * 1024 * 1024 && |rest| + 4 < length)
  {
    hide PutInt32, BigEndian, Int32;
    var buf := [typ] + PutInt32(length) + rest;
    ReadPut(length, []);
    Int32Small(length);
    assert buf[1..5] == PutInt32(length) + [];
  }

  /** The same in the startup phase, where the length counts the code as well. */
  lemma StartupLengthDecides(length: int, code: bytes, rest: bytes)
    requires -0x8000_0000 <= length < 0x8000_0000 && |code| == 4
    ensures var next := NextFrontend(PutInt32(length) + code + rest, true);
      && (next == Bad(TooSmall) <==> length < 8)
      && (next == Bad(TooLarge) <==> length > 64 * 1024 * 1024)
      && (next.Incomplete? <==> 8 <= length <= 64 * 1024 * 1024 && |rest| + 8 < length)
  {
    hide PutInt32, BigEndian, Int32;
    var buf := PutInt32(length) + code + rest;
    ReadPut(length, []);
    Int32Small(length);
    assert buf[..4] == PutInt32(length) + [];
  }

  /** With less than a header in the buffer nothing is decided. */
  lemma HeaderDecides(buf: bytes, startup: bool)
    requires |buf| < if startup then 8 else 5
    ensures NextFrontend(buf, startup).Incomplete?
  {
  }
}
