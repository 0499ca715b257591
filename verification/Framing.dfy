/** Splitting a peer's byte stream into messages. What the receiver holds is a function of the bytes received,
    however they were cut into chunks. */
module Framing {
  import opened Basics
  import opened Bytes

  const HEADER_SIZE: nat := 24
  const MAX_SIZE: nat := 0x02000000
  const READ_AHEAD: nat := 256 * 1024

  datatype Frame = Frame(header: seq<byte>, data: seq<byte>)

  /** The message size field: little-endian, after the start marker and the command. */
  function DataSize(header: seq<byte>): nat
    requires |header| >= HEADER_SIZE
  {
    (header[16] as int) + 256 * (header[17] as int) + 65536 * (header[18] as int) + 16777216 * (header[19] as int)
  }

  /** A header made of a marker, a command, the four bytes of n, least significant first, and a checksum has size n. */
  lemma SizeField(marker: seq<byte>, command: seq<byte>, n: nat, checksum: seq<byte>)
    requires |marker| == 4 && |command| == 12 && |checksum| == 4 && n < 0x1_0000_0000
    ensures var header := marker + command + [n % 256, n / 256 % 256, n / 65536 % 256, n / 16777216] + checksum;
            |header| == HEADER_SIZE && DataSize(header) == n
  {
    FourBytes(n);
    hide DataSize;
    var size: seq<byte> := [n % 256, n / 256 % 256, n / 65536 % 256, n / 16777216];
    SizeAt(marker + command, size, checksum);
  }

  lemma SizeAt(front: seq<byte>, size: seq<byte>, checksum: seq<byte>)
    requires |front| == 16 && |size| == 4 && |checksum| == 4
    ensures DataSize(front + size + checksum)
            == (size[0] as int) + 256 * (size[1] as int) + 65536 * (size[2] as int) + 16777216 * (size[3] as int)
  {
    var header := front + size + checksum;
    assert header[16] == size[0] && header[17] == size[1] && header[18] == size[2] && header[19] == size[3];
  }

  lemma FourBytes(n: nat)
    ensures n % 256 + 256 * (n / 256 % 256) + 65536 * (n / 65536 % 256) + 16777216 * (n / 16777216) == n
  {
    assert n / 256 / 256 == n / 65536 && n / 65536 / 256 == n / 16777216;
  }

  // ------------------------------------------------------------ the stream

  /** Bytes of an unfinished message, or the header that got the stream rejected. */
  datatype Tail = Open(bytes: seq<byte>) | Rejected(header: seq<byte>)

  datatype Parsed = Parsed(done: seq<Frame>, tail: Tail)

  function Parse(s: seq<byte>): Parsed
    decreases |s|
  {
    if |s| < HEADER_SIZE then Parsed([], Open(s))
    else
      var header := s[..HEADER_SIZE];
      var end := HEADER_SIZE + DataSize(header);
      if DataSize(header) > MAX_SIZE then Parsed([], Rejected(header))
      else if |s| < end then Parsed([], Open(s))
      else
        var rest := Parse(s[end..]);
        Parsed([Frame(header, s[HEADER_SIZE..end])] + rest.done, rest.tail)
  }

  predicate Whole(f: Frame) {
    |f.header| == HEADER_SIZE && DataSize(f.header) <= MAX_SIZE && |f.data| == DataSize(f.header)
  }

  predicate AllWhole(frames: seq<Frame>) { forall i :: 0 <= i < |frames| ==> Whole(frames[i]) }

  function Flatten(frames: seq<Frame>): seq<byte> {
    if frames == [] then [] else frames[0].header + frames[0].data + Flatten(frames[1..])
  }

  predicate Unfinished(s: seq<byte>) {
    |s| < HEADER_SIZE || (DataSize(s) <= MAX_SIZE && |s| < HEADER_SIZE + DataSize(s))
  }

  lemma SizeOfPrefix(s: seq<byte>, n: nat)
    requires HEADER_SIZE <= n <= |s|
    ensures DataSize(s[..n]) == DataSize(s)
  {
  }

  lemma ParseOne(f: Frame, s: seq<byte>)
    requires Whole(f)
    ensures Parse(f.header + f.data + s) == Parsed([f] + Parse(s).done, Parse(s).tail)
  {
    hide DataSize;
    var t := f.header + f.data + s;
    var end := HEADER_SIZE + DataSize(f.header);
    assert t[..HEADER_SIZE] == f.header;
    assert t[HEADER_SIZE..end] == f.data;
    assert t[end..] == s;
  }

  /** Parsing undoes flattening: whole messages are found again, and what follows them is parsed on its own. */
  lemma {:induction false} ParseFlatten(frames: seq<Frame>, s: seq<byte>)
    requires AllWhole(frames)
    ensures Parse(Flatten(frames) + s) == Parsed(frames + Parse(s).done, Parse(s).tail)
  {
    hide DataSize, Parse;
    if frames == [] {
      assert Flatten(frames) + s == s;
    } else {
      var f, more := frames[0], frames[1..];
      ParseFlatten(more, s);
      ParseOne(f, Flatten(more) + s);
      assert Flatten(frames) + s == f.header + f.data + (Flatten(more) + s);
      assert frames + Parse(s).done == [f] + (more + Parse(s).done);
    }
  }

  /** What parsing found, put together again, is the stream up to the point of rejection. */
  ghost predicate Accounts(s: seq<byte>, p: Parsed) {
    && AllWhole(p.done)
    && match p.tail
       case Open(bytes) => Flatten(p.done) + bytes == s && Unfinished(bytes)
       case Rejected(header) =>
         Flatten(p.done) + header <= s && |header| == HEADER_SIZE && DataSize(header) > MAX_SIZE
  }

  /** Parsing loses nothing. */
  lemma {:induction false} FlattenParse(s: seq<byte>)
    ensures Accounts(s, Parse(s))
    decreases |s|
  {
    hide DataSize;
    if |s| >= HEADER_SIZE {
      SizeOfPrefix(s, HEADER_SIZE);
      var end := HEADER_SIZE + DataSize(s);
      if DataSize(s) <= MAX_SIZE && |s| >= end {
        FlattenParse(s[end..]);
        AccountsOne(Frame(s[..HEADER_SIZE], s[HEADER_SIZE..end]), s[end..], Parse(s[end..]));
        assert s == s[..HEADER_SIZE] + s[HEADER_SIZE..end] + s[end..];
      } else {
        assert Flatten([]) + s == s;
        assert Flatten([]) + s[..HEADER_SIZE] == s[..HEADER_SIZE];
      }
    } else {
      assert Flatten([]) + s == s;
    }
  }

  lemma AccountsOne(f: Frame, s: seq<byte>, p: Parsed)
    requires Whole(f) && Accounts(s, p)
    ensures Accounts(f.header + f.data + s, Parsed([f] + p.done, p.tail))
  {
    hide DataSize;
    var frames := [f] + p.done;
    assert frames[1..] == p.done;
    assert Flatten(frames) == f.header + f.data + Flatten(p.done);
    match p.tail {
      case Open(bytes) => assert Flatten(frames) + bytes == f.header + f.data + (Flatten(p.done) + bytes);
      case Rejected(header) =>
        assert Flatten(frames) + header == f.header + f.data + (Flatten(p.done) + header);
    }
  }

  /** More bytes only add: the messages found so far stay, and a rejected stream stays rejected where it was. */
  lemma ParseExtends(s: seq<byte>, t: seq<byte>)
    ensures Parse(s).done <= Parse(s + t).done
    ensures Parse(s).tail.Rejected? ==> Parse(s + t) == Parse(s)
  {
    FlattenParse(s);
    hide DataSize, Parse;
    var p := Parse(s);
    match p.tail {
      case Open(bytes) =>
        assert s + t == Flatten(p.done) + (bytes + t);
        ParseFlatten(p.done, bytes + t);
      case Rejected(header) =>
        var more := s[|Flatten(p.done) + header|..] + t;
        assert s + t == Flatten(p.done) + (header + more);
        ParseFlatten(p.done, header + more);
        ParseRejected(header, more);
        assert p.done + [] == p.done;
    }
  }

  lemma ParseRejected(header: seq<byte>, more: seq<byte>)
    requires |header| == HEADER_SIZE && DataSize(header) > MAX_SIZE
    ensures Parse(header + more) == Parsed([], Rejected(header))
  {
    assert (header + more)[..HEADER_SIZE] == header;
  }

  /** Bytes that follow an unfinished message are parsed together with it. */
  lemma ParseContinues(s: seq<byte>, done: seq<Frame>, b: seq<byte>, more: seq<byte>)
    requires Parse(s) == Parsed(done, Open(b))
    ensures Parse(s + more) == Parsed(done + Parse(b + more).done, Parse(b + more).tail)
  {
    hide DataSize, Parse, Flatten, AllWhole;
    FlattenParse(s);
    ParseFlatten(done, b + more);
    assert s + more == Flatten(done) + (b + more);
  }

  // ------------------------------------------------------------ the receiver

  function Overwrite(buf: seq<byte>, pos: nat, bytes: seq<byte>): seq<byte>
    requires pos + |bytes| <= |buf|
  {
    buf[..pos] + bytes + buf[pos + |bytes|..]
  }

  /** A buffer resized to n: cut, or filled up with zeros. */
  function Resized(buf: seq<byte>, n: nat): seq<byte> {
    if |buf| >= n then buf[..n] else buf + seq(n - |buf|, i => 0)
  }

  class NetMessage {
    var inData: bool
    var hdrbuf: seq<byte>
    var hdr: seq<byte>
    var nHdrPos: nat
    var vRecv: seq<byte>
    var nDataPos: nat

    /** The receive buffer never exceeds the announced size, and holds the bytes counted so far. */
    ghost predicate Valid()
      reads this
    {
      && |hdrbuf| == HEADER_SIZE && nHdrPos <= HEADER_SIZE
      && (inData ==> nHdrPos == HEADER_SIZE && hdr == hdrbuf && DataSize(hdr) <= MAX_SIZE && nDataPos <= |vRecv| <= DataSize(hdr))
      && (!inData ==> nDataPos == 0 && vRecv == [] && (nHdrPos == HEADER_SIZE ==> DataSize(hdrbuf) > MAX_SIZE))
    }

    /** The stream bytes taken in. */
    ghost function Bytes(): seq<byte>
      requires Valid()
      reads this
    {
      if inData then hdr + vRecv[..nDataPos] else hdrbuf[..nHdrPos]
    }

    predicate Complete()
      requires Valid()
      reads this
    {
      inData && DataSize(hdr) == nDataPos
    }

    ghost predicate Refused()
      requires Valid()
      reads this
    {
      !inData && nHdrPos == HEADER_SIZE
    }

    constructor ()
      ensures Valid() && Bytes() == [] && !Complete() && !Refused()
    {
      inData, hdrbuf, hdr, nHdrPos, vRecv, nDataPos := false, seq(HEADER_SIZE, i => 0), [], 0, [], 0;
    }

    /** -1 when the header, once there, announces too large a message. */
    method ReadHeader(bytes: seq<byte>) returns (handled: int)
      requires Valid() && !inData
      modifies this
      ensures Valid() && handled <= |bytes|
      ensures handled >= 0 ==> Bytes() == old(Bytes()) + bytes[..handled] && !Refused()
      ensures handled >= 0 && bytes != [] ==> handled > 0
      ensures old(Refused()) ==> handled < 0
      ensures handled < 0 ==> Refused() && old(Bytes()) <= Bytes() <= old(Bytes()) + bytes
    {
      var nCopy := Min(HEADER_SIZE - nHdrPos, |bytes|);
      hdrbuf := Overwrite(hdrbuf, nHdrPos, bytes[..nCopy]);
      assert nCopy == 0 ==> hdrbuf == old(hdrbuf);
      nHdrPos := nHdrPos + nCopy;
      assert hdrbuf[..nHdrPos] == old(Bytes()) + bytes[..nCopy];
      if nHdrPos < HEADER_SIZE { return nCopy; }
      assert hdrbuf[..nHdrPos] == hdrbuf;
      hdr := hdrbuf;
      if DataSize(hdr) > MAX_SIZE { return -1; }
      inData := true;
      assert hdr + vRecv[..nDataPos] == hdr;
      return nCopy;
    }

    /** The buffer grows ahead of the data by a bounded amount, never beyond the message. */
    method ReadData(bytes: seq<byte>) returns (handled: nat)
      requires Valid() && inData
      modifies this
      ensures Valid() && inData && handled <= |bytes| && Bytes() == old(Bytes()) + bytes[..handled]
      ensures !old(Complete()) && bytes != [] ==> handled > 0
    {
      var nCopy := Min(DataSize(hdr) - nDataPos, |bytes|);
      if |vRecv| < nDataPos + nCopy {
        vRecv := Resized(vRecv, Min(DataSize(hdr), nDataPos + nCopy + READ_AHEAD));
      }
      vRecv := Overwrite(vRecv, nDataPos, bytes[..nCopy]);
      nDataPos := nDataPos + nCopy;
      assert vRecv[..nDataPos] == old(vRecv[..nDataPos]) + bytes[..nCopy];
      return nCopy;
    }

    /** Take in bytes as header or as data, whichever is due. */
    method Read(bytes: seq<byte>) returns (handled: int)
      requires Valid() && !Complete() && bytes != []
      modifies this
      ensures Valid() && handled != 0 && Grown(old(Bytes()), old(View()), bytes, handled, Bytes(), View())
    {
      hide Parse, DataSize;
      ViewIsParse();
      if !inData {
        handled := ReadHeader(bytes);
      } else {
        handled := ReadData(bytes);
      }
      ViewIsParse();
    }

    /** The message as a parse result of its own. */
    ghost function View(): Parsed
      requires Valid()
      reads this
    {
      if Complete() then Parsed([Frame(hdr, vRecv)], Open([]))
      else if Refused() then Parsed([], Rejected(hdrbuf))
      else Parsed([], Open(Bytes()))
    }

    /** The message is what its bytes parse to; a complete one's buffer is the payload, exactly as long as the
        header says. */
    lemma ViewIsParse()
      requires Valid()
      ensures Parse(Bytes()) == View()
      ensures Complete() ==> |vRecv| == DataSize(hdr) && Whole(Frame(hdr, vRecv))
      ensures Refused() ==> Bytes() == hdrbuf
    {
      hide DataSize;
      if Complete() {
        assert Bytes() == hdr + vRecv + [];
        ParseOne(Frame(hdr, vRecv), []);
      } else if inData {
        assert Bytes()[..HEADER_SIZE] == hdr;
      } else {
        assert Refused() ==> Bytes()[..HEADER_SIZE] == hdrbuf;
      }
    }
  }

  /** The messages as frames. */
  ghost function Frames(msgs: seq<NetMessage>): seq<Frame>
    reads msgs
  {
    seq(|msgs|, i requires 0 <= i < |msgs| reads msgs => Frame(msgs[i].hdr, msgs[i].vRecv))
  }

  /** The messages taken, the queued ones, of which the last may be unfinished. */
  ghost function HeldOf(msgs: seq<NetMessage>, taken: seq<Frame>): Parsed
    requires forall i :: 0 <= i < |msgs| ==> msgs[i].Valid()
    reads msgs
  {
    if msgs == [] then Parsed(taken, Open([]))
    else
      var n := |msgs| - 1;
      Parsed(taken + Frames(msgs[..n]) + msgs[n].View().done, msgs[n].View().tail)
  }

  /** Taking the first message leaves what is held the same. */
  lemma HeldAfterFirst(msgs: seq<NetMessage>, taken: seq<Frame>)
    requires msgs != [] && (forall i :: 0 <= i < |msgs| ==> msgs[i].Valid()) && msgs[0].Complete()
    ensures forall i :: 0 <= i < |msgs[1..]| ==> msgs[1..][i].Valid()
    ensures HeldOf(msgs[1..], taken + [Frame(msgs[0].hdr, msgs[0].vRecv)]) == HeldOf(msgs, taken)
  {
    var f, n := Frame(msgs[0].hdr, msgs[0].vRecv), |msgs| - 1;
    if n > 0 {
      assert Frames(msgs[..n]) == [f] + Frames(msgs[1..][..n - 1]);
    } else {
      assert Frames(msgs[..0]) == [];
    }
  }

  /** So does queueing an empty message after complete ones. */
  lemma HeldWithFresh(msgs: seq<NetMessage>, msg: NetMessage, taken: seq<Frame>)
    requires (forall i :: 0 <= i < |msgs| ==> msgs[i].Valid()) && (msgs == [] || msgs[|msgs| - 1].Complete())
    requires msg.Valid() && !msg.Complete() && !msg.Refused() && msg.Bytes() == []
    ensures forall i :: 0 <= i < |msgs + [msg]| ==> (msgs + [msg])[i].Valid()
    ensures HeldOf(msgs + [msg], taken) == HeldOf(msgs, taken)
  {
    hide NetMessage.Bytes, NetMessage.Refused, DataSize;
    assert (msgs + [msg])[..|msgs|] == msgs;
    if msgs != [] {
      var n := |msgs| - 1;
      assert Frames(msgs) == Frames(msgs[..n]) + [Frame(msgs[n].hdr, msgs[n].vRecv)];
    }
  }

  lemma TakenFirst(msgs: seq<NetMessage>, taken: seq<Frame>)
    requires forall i :: 0 <= i < |msgs| ==> msgs[i].Valid()
    ensures taken <= HeldOf(msgs, taken).done
    ensures msgs != [] && msgs[0].Complete() ==> taken + [Frame(msgs[0].hdr, msgs[0].vRecv)] <= HeldOf(msgs, taken).done
  {
    if msgs != [] && msgs[0].Complete() { HeldAfterFirst(msgs, taken); }
  }

  /** An incomplete message, of bytes b, has taken in the first handled bytes, or has refused them. */
  ghost predicate Grown(b: seq<byte>, view: Parsed, bytes: seq<byte>, handled: int, b': seq<byte>, view': Parsed) {
    && view.done == [] && handled <= |bytes| && Parse(b') == view'
    && (view.tail == Open(b) || (view.tail == Rejected(b) && handled < 0 && |b| == HEADER_SIZE))
    && (if handled >= 0 then b' == b + bytes[..handled] && view'.tail.Open?
        else |b'| == HEADER_SIZE && DataSize(b') > MAX_SIZE && b <= b' <= b + bytes && view' == Parsed([], Rejected(b')))
  }

  /** The stream then parses to what came before it and the message. */
  lemma MessageGrows(s: seq<byte>, done: seq<Frame>, b: seq<byte>, view: Parsed, bytes: seq<byte>, handled: int,
                     b': seq<byte>, view': Parsed)
    requires Grown(b, view, bytes, handled, b', view') && Parse(s) == Parsed(done + view.done, view.tail)
    ensures Parse(s + if handled < 0 then bytes else bytes[..handled]) == Parsed(done + view'.done, view'.tail)
  {
    hide Parse, DataSize;
    assert done + [] == done;
    if handled >= 0 {
      ParseContinues(s, done, b, bytes[..handled]);
    } else if view.tail.Open? {
      ParseContinues(s, done, b, bytes);
      var more := (b + bytes)[|b'|..];
      assert b + bytes == b' + more;
      ParseRejected(b', more);
    } else {
      ParseExtends(s, bytes);
      assert b == b';
    }
  }

  class Receiver {
    var vRecvMsg: seq<NetMessage>
    ghost var stream: seq<byte>   // every byte passed in
    ghost var taken: seq<Frame>   // the messages already removed for processing

    /** Messages are separate objects, and all but the last are complete. */
    ghost predicate Queue()
      reads this, vRecvMsg
    {
      && (forall i, j :: 0 <= i < j < |vRecvMsg| ==> vRecvMsg[i] != vRecvMsg[j])
      && (forall i :: 0 <= i < |vRecvMsg| ==> vRecvMsg[i].Valid())
      && (forall i :: 0 <= i < |vRecvMsg| - 1 ==> vRecvMsg[i].Complete())
    }

    /** The complete messages, those already taken first, and the unfinished one as far as it has come. */
    ghost function Held(): Parsed
      requires Queue()
      reads this, vRecvMsg
    {
      if vRecvMsg == [] then Parsed(taken, Open([]))
      else
        var n := |vRecvMsg| - 1;
        Parsed(taken + Frames(vRecvMsg[..n]) + vRecvMsg[n].View().done, vRecvMsg[n].View().tail)
    }

    lemma HeldIs()
      requires Queue()
      ensures Held() == HeldOf(vRecvMsg, taken)
    {
    }

    /** What is held is what the stream parses to. */
    ghost predicate Valid()
      reads this, vRecvMsg
    {
      Queue() && Held() == Parse(stream)
    }

    constructor ()
      ensures Valid() && stream == [] && taken == []
    {
      vRecvMsg, stream, taken := [], [], [];
    }

    /** A new message, when there is none or the last one is complete. */
    method StartMessage()
      requires Valid()
      modifies this`vRecvMsg
      ensures Valid() && vRecvMsg != [] && !vRecvMsg[|vRecvMsg| - 1].Complete()
      ensures forall i :: 0 <= i < |vRecvMsg| ==> vRecvMsg[i] in old(vRecvMsg) || fresh(vRecvMsg[i])
    {
      hide Parse, DataSize, Held, HeldOf, NetMessage.Bytes, NetMessage.Refused;
      if vRecvMsg == [] || vRecvMsg[|vRecvMsg| - 1].Complete() {
        HeldIs();
        var msg := new NetMessage();
        HeldWithFresh(vRecvMsg, msg, taken);
        vRecvMsg := vRecvMsg + [msg];
        HeldIs();
      }
    }

    /** One turn of the loop: take in some bytes, at least one, or refuse. */
    method Absorb(bytes: seq<byte>) returns (handled: int)
      requires Valid() && bytes != []
      modifies this`vRecvMsg, this`stream, vRecvMsg
      ensures Valid() && handled <= |bytes|
      ensures forall i :: 0 <= i < |vRecvMsg| ==> vRecvMsg[i] in old(vRecvMsg) || fresh(vRecvMsg[i])
      ensures handled >= 0 ==> handled > 0 && stream == old(stream) + bytes[..handled] && Parse(stream).tail.Open?
      ensures handled < 0 ==> stream == old(stream) + bytes && Parse(stream).tail.Rejected?
    {
      hide Parse, DataSize;
      StartMessage();
      var n := |vRecvMsg| - 1;
      var msg := vRecvMsg[n];
      ghost var before, b, view := taken + Frames(vRecvMsg[..n]), msg.Bytes(), msg.View();
      handled := msg.Read(bytes);
      assert taken + Frames(vRecvMsg[..n]) == before;
      MessageGrows(stream, before, b, view, bytes, handled, msg.Bytes(), msg.View());
      stream := stream + (if handled < 0 then bytes else bytes[..handled]);
    }

    /** However the stream is cut into chunks, what is held is what the whole stream parses to; false exactly
        when bytes arrive on a rejected stream. */
    method ReceiveMsgBytes(bytes: seq<byte>) returns (ok: bool)
      requires Valid()
      modifies this`vRecvMsg, this`stream, vRecvMsg
      ensures Valid() && stream == old(stream) + bytes
      ensures ok <==> bytes == [] || Parse(stream).tail.Open?
    {
      hide Parse, DataSize, Held, Queue, Valid;
      var pos := 0;
      assert old(stream) + bytes[..0] == old(stream);
      while pos < |bytes|
        invariant pos <= |bytes| && Valid() && stream == old(stream) + bytes[..pos]
        invariant pos > 0 ==> Parse(stream).tail.Open?
        invariant forall i :: 0 <= i < |vRecvMsg| ==> vRecvMsg[i] in old(vRecvMsg) || fresh(vRecvMsg[i])
      {
        var handled := Absorb(bytes[pos..]);
        if handled < 0 {
          assert bytes[..pos] + bytes[pos..] == bytes;
          return false;
        }
        assert bytes[..pos] + bytes[pos..][..handled] == bytes[..pos + handled];
        pos := pos + handled;
      }
      assert bytes[..pos] == bytes;
      return true;
    }

    /** Hand the first message to processing. */
    method Take() returns (f: Frame)
      requires Valid() && vRecvMsg != [] && vRecvMsg[0].Complete()
      modifies this`vRecvMsg, this`taken
      ensures Valid() && stream == old(stream) && taken == old(taken) + [f] && Whole(f)
      ensures taken <= Parse(stream).done
    {
      hide Parse, DataSize, Held, HeldOf;
      f := Frame(vRecvMsg[0].hdr, vRecvMsg[0].vRecv);
      vRecvMsg[0].ViewIsParse();
      HeldIs();
      HeldAfterFirst(vRecvMsg, taken);
      TakenFirst(vRecvMsg, taken);
      taken := taken + [f];
      vRecvMsg := vRecvMsg[1..];
      HeldIs();
    }
  }
}
