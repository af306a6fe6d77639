/**
 The wire layout of the chat server's packets: the replies it builds, field by
 field, and the requests it reads. The type codes come from a protocol header
 that is not part of this model, so they are parameters.
 */
module Packets {
  import opened Wrappers

  type byte = b: int | 0 <= b < 0x100

  const ID_LEN: nat := 20
  const NICK_NAME_LEN: nat := 20

  // A WCHAR takes two bytes.
  const ID_BYTES: nat := 2 * ID_LEN
  const NICK_BYTES: nat := 2 * NICK_NAME_LEN

  datatype Packet =
    | ResLogin(status: int, account: int)
    | ResSectorMove(account: int, x: int, y: int)
    | ResMessage(account: int, id: seq<byte>, nick: seq<byte>, message: seq<byte>)

  datatype Codes = Codes(
    resLogin: int, resMove: int, resMessage: int,
    reqMove: int, reqMessage: int, reqHeartbeat: int, monitorLogin: int, reqSectorInfo: int)

  predicate IsWord(v: int) { 0 <= v < 0x1_0000 }
  predicate IsInt64(v: int) { -0x8000_0000_0000_0000 <= v < 0x8000_0000_0000_0000 }

  ghost predicate Proper(c: Codes) {
    && IsWord(c.resLogin) && IsWord(c.resMove) && IsWord(c.resMessage)
    && c.resLogin != c.resMove && c.resLogin != c.resMessage && c.resMove != c.resMessage
    && IsWord(c.reqMove) && IsWord(c.reqMessage) && c.reqMove != c.reqMessage
  }

  ghost predicate Fits(p: Packet) {
    match p
    case ResLogin(status, account) => 0 <= status < 0x100 && IsInt64(account)
    case ResSectorMove(account, x, y) => IsInt64(account) && IsWord(x) && IsWord(y)
    case ResMessage(account, id, nick, message) =>
      IsInt64(account) && |id| == ID_BYTES && |nick| == NICK_BYTES && |message| < 0x1_0000
  }

  // --- Little-endian numbers of a fixed width -------------------------------

  function Pow(w: nat): (p: nat)
    ensures p > 0
  {
    if w == 0 then 1 else 0x100 * Pow(w - 1)
  }

  function Bytes(n: nat, w: nat): (bs: seq<byte>)
    ensures |bs| == w
  {
    if w == 0 then [] else [n % 0x100] + Bytes(n / 0x100, w - 1)
  }

  function Number(bs: seq<byte>): nat {
    if bs == [] then 0 else bs[0] + 0x100 * Number(bs[1..])
  }

  lemma {:induction false} NumberOfBytes(n: nat, w: nat)
    requires n < Pow(w)
    ensures Number(Bytes(n, w)) == n
  {
    if w > 0 {
      NumberOfBytes(n / 0x100, w - 1);
      assert Bytes(n, w)[1..] == Bytes(n / 0x100, w - 1);
    }
  }

  lemma {:induction false} BytesOfNumber(bs: seq<byte>)
    ensures Number(bs) < Pow(|bs|) && Bytes(Number(bs), |bs|) == bs
  {
    if bs != [] {
      BytesOfNumber(bs[1..]);
      var n := Number(bs);
      assert n % 0x100 == bs[0] && n / 0x100 == Number(bs[1..]);
    }
  }

  lemma Widths()
    ensures Pow(1) == 0x100 && Pow(2) == 0x1_0000 && Pow(8) == 0x1_0000_0000_0000_0000
  {
    assert Pow(1) == 0x100 && Pow(2) == 0x1_0000 && Pow(3) == 0x100_0000 && Pow(4) == 0x1_0000_0000;
    assert Pow(5) == 0x100_0000_0000 && Pow(6) == 0x1_0000_0000_0000 && Pow(7) == 0x100_0000_0000_0000;
  }

  // Two's complement.
  function Unsigned(v: int): nat
    requires IsInt64(v)
  {
    if v < 0 then v + 0x1_0000_0000_0000_0000 else v
  }

  function Signed(n: nat): int {
    if n < 0x8000_0000_0000_0000 then n else n - 0x1_0000_0000_0000_0000
  }

  function Int64Bytes(v: int): (bs: seq<byte>)
    requires IsInt64(v)
    ensures |bs| == 8
  {
    Bytes(Unsigned(v), 8)
  }

  function WordBytes(v: int): (bs: seq<byte>)
    requires IsWord(v)
    ensures |bs| == 2
  {
    Bytes(v, 2)
  }

  // --- Fields read from the front of a buffer -------------------------------

  // The next w bytes as a number; nothing when the packet is too short.
  function TakeWord(bs: seq<byte>): Option<(int, seq<byte>)> {
    if |bs| < 2 then None else Some((Number(bs[..2]), bs[2..]))
  }

  function TakeInt64(bs: seq<byte>): Option<(int, seq<byte>)> {
    if |bs| < 8 then None else Some((Signed(Number(bs[..8])), bs[8..]))
  }

  function TakeBytes(bs: seq<byte>, n: nat): Option<(seq<byte>, seq<byte>)> {
    if |bs| < n then None else Some((bs[..n], bs[n..]))
  }

  /** A word in front is read back, and whatever is read was a word in front. */
  lemma WordExact(bs: seq<byte>, v: int, rest: seq<byte>)
    ensures TakeWord(bs) == Some((v, rest)) <==> IsWord(v) && bs == WordBytes(v) + rest
  {
    Widths();
    if |bs| >= 2 {
      BytesOfNumber(bs[..2]);
      assert bs == bs[..2] + bs[2..];
    }
    if IsWord(v) {
      NumberOfBytes(v, 2);
      assert (WordBytes(v) + rest)[..2] == WordBytes(v) && (WordBytes(v) + rest)[2..] == rest;
    }
  }

  lemma Int64Exact(bs: seq<byte>, v: int, rest: seq<byte>)
    ensures TakeInt64(bs) == Some((v, rest)) <==> IsInt64(v) && bs == Int64Bytes(v) + rest
  {
    Widths();
    hide Pow, Bytes, Number;
    if |bs| >= 8 {
      BytesOfNumber(bs[..8]);
      assert bs == bs[..8] + bs[8..];
    }
    if IsInt64(v) {
      NumberOfBytes(Unsigned(v), 8);
      assert (Int64Bytes(v) + rest)[..8] == Int64Bytes(v) && (Int64Bytes(v) + rest)[8..] == rest;
    }
  }

  lemma BytesExact(bs: seq<byte>, n: nat, x: seq<byte>, rest: seq<byte>)
    ensures TakeBytes(bs, n) == Some((x, rest)) <==> |x| == n && bs == x + rest
  {
    if |bs| >= n {
      assert bs == bs[..n] + bs[n..];
    }
    if |x| == n {
      assert (x + rest)[..n] == x && (x + rest)[n..] == rest;
    }
  }

  // --- Replies --------------------------------------------------------------

  // The fields behind the type code, in the order they are put, followed by rest.
  function BodyOf(p: Packet, rest: seq<byte>): seq<byte>
    requires Fits(p)
  {
    match p
    case ResLogin(status, account) => [status] + (Int64Bytes(account) + rest)
    case ResSectorMove(account, x, y) => Int64Bytes(account) + (WordBytes(x) + (WordBytes(y) + rest))
    case ResMessage(account, id, nick, message) =>
      Int64Bytes(account) + (id + (nick + (WordBytes(|message|) + (message + rest))))
  }

  function CodeOf(c: Codes, p: Packet): int {
    match p
    case ResLogin(_, _) => c.resLogin
    case ResSectorMove(_, _, _) => c.resMove
    case ResMessage(_, _, _, _) => c.resMessage
  }

  function Encode(c: Codes, p: Packet): seq<byte>
    requires Proper(c) && Fits(p)
  {
    WordBytes(CodeOf(c, p)) + BodyOf(p, [])
  }

  // The reader a client needs.
  function DecodeLogin(bs: seq<byte>): Option<(Packet, seq<byte>)> {
    if bs == [] then None else
    match TakeInt64(bs[1..])
    case None => None
    case Some((account, rest)) => Some((ResLogin(bs[0], account), rest))
  }

  function DecodeMove(bs: seq<byte>): Option<(Packet, seq<byte>)> {
    match TakeInt64(bs)
    case None => None
    case Some((account, r1)) =>
      match TakeWord(r1)
      case None => None
      case Some((x, r2)) =>
        match TakeWord(r2)
        case None => None
        case Some((y, rest)) => Some((ResSectorMove(account, x, y), rest))
  }

  function DecodeMessage(bs: seq<byte>): Option<(Packet, seq<byte>)> {
    match TakeInt64(bs)
    case None => None
    case Some((account, r1)) =>
      match TakeBytes(r1, ID_BYTES)
      case None => None
      case Some((id, r2)) =>
        match TakeBytes(r2, NICK_BYTES)
        case None => None
        case Some((nick, r3)) =>
          match TakeWord(r3)
          case None => None
          case Some((n, r4)) =>
            if n < 0 then None else
            match TakeBytes(r4, n)
            case None => None
            case Some((message, rest)) => Some((ResMessage(account, id, nick, message), rest))
  }

  function Decode(c: Codes, bs: seq<byte>): Option<(Packet, seq<byte>)> {
    match TakeWord(bs)
    case None => None
    case Some((code, rest)) =>
      if code == c.resLogin then DecodeLogin(rest)
      else if code == c.resMove then DecodeMove(rest)
      else if code == c.resMessage then DecodeMessage(rest)
      else None
  }

  lemma BodySplits(p: Packet, rest: seq<byte>)
    requires Fits(p)
    ensures BodyOf(p, rest) == BodyOf(p, []) + rest
  {
    hide Int64Bytes, WordBytes;
  }

  lemma BodyRead(c: Codes, p: Packet, rest: seq<byte>)
    requires Fits(p)
    ensures (match p
             case ResLogin(_, _) => DecodeLogin(BodyOf(p, rest))
             case ResSectorMove(_, _, _) => DecodeMove(BodyOf(p, rest))
             case ResMessage(_, _, _, _) => DecodeMessage(BodyOf(p, rest))) == Some((p, rest))
  {
    hide Int64Bytes, WordBytes, TakeInt64, TakeWord, TakeBytes;
    match p
    case ResLogin(status, account) =>
      assert BodyOf(p, rest)[1..] == Int64Bytes(account) + rest;
      Int64Exact(Int64Bytes(account) + rest, account, rest);
    case ResSectorMove(account, x, y) =>
      var r2 := WordBytes(y) + rest;
      var r1 := WordBytes(x) + r2;
      Int64Exact(Int64Bytes(account) + r1, account, r1);
      WordExact(r1, x, r2);
      WordExact(r2, y, rest);
    case ResMessage(account, id, nick, message) =>
      var r4 := message + rest;
      var r3 := WordBytes(|message|) + r4;
      var r2 := nick + r3;
      var r1 := id + r2;
      Int64Exact(Int64Bytes(account) + r1, account, r1);
      BytesExact(r1, ID_BYTES, id, r2);
      BytesExact(r2, NICK_BYTES, nick, r3);
      WordExact(r3, |message|, r4);
      BytesExact(r4, |message|, message, rest);
  }

  lemma LoginSound(bs: seq<byte>, p: Packet, rest: seq<byte>)
    requires DecodeLogin(bs) == Some((p, rest))
    ensures p.ResLogin? && Fits(p) && bs == BodyOf(p, rest)
  {
    hide Int64Bytes, TakeInt64;
    Int64Exact(bs[1..], p.account, rest);
    assert bs == [bs[0]] + bs[1..];
  }

  lemma MoveSound(bs: seq<byte>, p: Packet, rest: seq<byte>)
    requires DecodeMove(bs) == Some((p, rest))
    ensures p.ResSectorMove? && Fits(p) && bs == BodyOf(p, rest)
  {
    hide Int64Bytes, WordBytes, TakeInt64, TakeWord;
    var r1 := TakeInt64(bs).value.1;
    var r2 := TakeWord(r1).value.1;
    Int64Exact(bs, p.account, r1);
    WordExact(r1, p.x, r2);
    WordExact(r2, p.y, rest);
  }

  lemma MessageSound(bs: seq<byte>, p: Packet, rest: seq<byte>)
    requires DecodeMessage(bs) == Some((p, rest))
    ensures p.ResMessage? && Fits(p) && bs == BodyOf(p, rest)
  {
    hide Int64Bytes, WordBytes, TakeInt64, TakeWord, TakeBytes;
    var r1 := TakeInt64(bs).value.1;
    var r2 := TakeBytes(r1, ID_BYTES).value.1;
    var r3 := TakeBytes(r2, NICK_BYTES).value.1;
    var (n, r4) := TakeWord(r3).value;
    Int64Exact(bs, p.account, r1);
    BytesExact(r1, ID_BYTES, p.id, r2);
    BytesExact(r2, NICK_BYTES, p.nick, r3);
    WordExact(r3, n, r4);
    BytesExact(r4, n, p.message, rest);
  }

  /** A packet is read from the front of a buffer, leaving rest, exactly when the buffer is its encoding and rest. */
  lemma DecodeExact(c: Codes, bs: seq<byte>, p: Packet, rest: seq<byte>)
    requires Proper(c)
    ensures Decode(c, bs) == Some((p, rest)) <==> Fits(p) && bs == Encode(c, p) + rest
  {
    hide DecodeLogin, DecodeMove, DecodeMessage, WordBytes, TakeWord, BodyOf, Fits;
    if Decode(c, bs) == Some((p, rest)) {
      var (code, body) := TakeWord(bs).value;
      WordExact(bs, code, body);
      if code == c.resLogin {
        LoginSound(body, p, rest);
      } else if code == c.resMove {
        MoveSound(body, p, rest);
      } else {
        MessageSound(body, p, rest);
      }
      BodySplits(p, rest);
      assert bs == Encode(c, p) + rest;
    }
    if Fits(p) && bs == Encode(c, p) + rest {
      var body := BodyOf(p, rest);
      BodySplits(p, rest);
      assert bs == WordBytes(CodeOf(c, p)) + body;
      WordExact(bs, CodeOf(c, p), body);
      BodyRead(c, p, rest);
    }
  }

  function EncodeAll(c: Codes, ps: seq<Packet>): seq<byte>
    requires Proper(c) && forall p :: p in ps ==> Fits(p)
  {
    if ps == [] then [] else Encode(c, ps[0]) + EncodeAll(c, ps[1..])
  }

  function DecodeAll(c: Codes, bs: seq<byte>): Option<seq<Packet>>
    decreases |bs|
  {
    if bs == [] then Some([]) else
    match Decode(c, bs)
    case None => None
    case Some((p, rest)) =>
      if |rest| >= |bs| then None else
      match DecodeAll(c, rest)
      case None => None
      case Some(ps) => Some([p] + ps)
  }

  /** Any run of replies in one buffer is read back as those replies. */
  lemma {:induction false} StreamRoundTrip(c: Codes, ps: seq<Packet>)
    requires Proper(c) && forall p :: p in ps ==> Fits(p)
    ensures DecodeAll(c, EncodeAll(c, ps)) == Some(ps)
    decreases |ps|
  {
    if ps != [] {
      hide Decode, Encode, Fits;
      assert |Encode(c, ps[0])| >= 2 by { EncodeLength(c, ps[0]); }
      var rest := EncodeAll(c, ps[1..]);
      DecodeExact(c, Encode(c, ps[0]) + rest, ps[0], rest);
      StreamRoundTrip(c, ps[1..]);
      assert [ps[0]] + ps[1..] == ps;
    }
  }

  lemma EncodeLength(c: Codes, p: Packet)
    requires Proper(c) && Fits(p)
    ensures |Encode(c, p)| >= 2
  {
  }

  /** What is read from a whole buffer is what it encodes, so no buffer encodes two runs of replies. */
  lemma {:induction false} StreamSound(c: Codes, bs: seq<byte>)
    requires Proper(c)
    ensures DecodeAll(c, bs).Some? ==>
              (forall p :: p in DecodeAll(c, bs).value ==> Fits(p)) && EncodeAll(c, DecodeAll(c, bs).value) == bs
    decreases |bs|
  {
    if bs != [] && DecodeAll(c, bs).Some? {
      hide Decode, Encode, Fits;
      var (p, rest) := Decode(c, bs).value;
      DecodeExact(c, bs, p, rest);
      StreamSound(c, rest);
      var ps := DecodeAll(c, rest).value;
      assert ([p] + ps)[1..] == ps;
    }
  }

  lemma Nest(o: seq<byte>, a: seq<byte>, b: seq<byte>, c: seq<byte>, d: seq<byte>, e: seq<byte>, f: seq<byte>)
    ensures o + a + b + c + d + e + f == o + (a + (b + (c + (d + (e + (f + []))))))
  {
    assert d + e + f == d + (e + (f + []));
    assert b + c + (d + e + f) == b + (c + (d + (e + (f + []))));
    assert o + a + b + c + d + e + f == o + (a + (b + c + (d + e + f)));
  }

  // The packet under construction: fields are appended in order.
  class PacketBuffer {
    var data: seq<byte>

    constructor ()
      ensures data == []
    {
      data := [];
    }

    method PutWord(v: int)
      requires IsWord(v)
      modifies this
      ensures data == old(data) + WordBytes(v)
    {
      data := data + WordBytes(v);
    }

    method PutInt64(v: int)
      requires IsInt64(v)
      modifies this
      ensures data == old(data) + Int64Bytes(v)
    {
      data := data + Int64Bytes(v);
    }

    method PutData(bs: seq<byte>)
      modifies this
      ensures data == old(data) + bs
    {
      data := data + bs;
    }

    method MakeResLogin(c: Codes, status: byte, account: int)
      requires Proper(c) && Fits(ResLogin(status, account))
      modifies this
      ensures data == old(data) + Encode(c, ResLogin(status, account))
    {
      hide WordBytes, Int64Bytes;
      PutWord(c.resLogin);
      PutData([status]);
      PutInt64(account);
    }

    method MakeResSectorMove(c: Codes, account: int, x: int, y: int)
      requires Proper(c) && Fits(ResSectorMove(account, x, y))
      modifies this
      ensures data == old(data) + Encode(c, ResSectorMove(account, x, y))
    {
      hide WordBytes, Int64Bytes;
      PutWord(c.resMove);
      PutInt64(account);
      PutWord(x);
      PutWord(y);
    }

    // The message length counts bytes; only that many bytes of the message are put.
    method MakeResMessage(c: Codes, account: int, id: seq<byte>, nick: seq<byte>, messageLen: int, message: seq<byte>)
      requires Proper(c) && IsInt64(account) && IsWord(messageLen)
      requires |id| >= ID_BYTES && |nick| >= NICK_BYTES && |message| >= messageLen
      modifies this
      ensures data == old(data) +
              Encode(c, ResMessage(account, id[..ID_BYTES], nick[..NICK_BYTES], message[..messageLen]))
    {
      hide WordBytes, Int64Bytes;
      PutWord(c.resMessage);
      PutInt64(account);
      PutData(id[..ID_BYTES]);
      PutData(nick[..NICK_BYTES]);
      PutWord(messageLen);
      PutData(message[..messageLen]);
      Nest(old(data), WordBytes(c.resMessage), Int64Bytes(account), id[..ID_BYTES], nick[..NICK_BYTES],
           WordBytes(messageLen), message[..messageLen]);
    }
  }

  // --- Requests -------------------------------------------------------------

  datatype Request =
    | Move(account: int, x: int, y: int)
    | Message(account: int, message: seq<byte>)
    | Heartbeat
    | SectorInfo
    | Reject

  // How a received packet is understood. Reading past its end, trailing bytes
  // and unknown types all end in Reject: the sender is disconnected.
  function ParseRequest(c: Codes, bs: seq<byte>): Request {
    match TakeWord(bs)
    case None => Reject
    case Some((code, body)) =>
      if code == c.reqMove then ParseMove(body)
      else if code == c.reqMessage then ParseMessage(body)
      else if code == c.reqHeartbeat then Heartbeat
      else if code == c.monitorLogin then Reject
      else if code == c.reqSectorInfo then SectorInfo
      else Reject
  }

  function ParseMove(bs: seq<byte>): Request {
    match DecodeMove(bs)
    case None => Reject
    case Some((p, rest)) => if p.ResSectorMove? && rest == [] then Move(p.account, p.x, p.y) else Reject
  }

  function ParseMessage(bs: seq<byte>): Request {
    match TakeInt64(bs)
    case None => Reject
    case Some((account, r1)) =>
      match TakeWord(r1)
      case None => Reject
      case Some((n, r2)) =>
        if n < 0 then Reject else
        match TakeBytes(r2, n)
        case None => Reject
        case Some((message, rest)) => if rest == [] then Message(account, message) else Reject
  }

  /** A move request is understood from exactly one byte string, and from no other. */
  lemma MoveRequestExact(c: Codes, bs: seq<byte>, account: int, x: int, y: int)
    requires Proper(c)
    ensures ParseRequest(c, bs) == Move(account, x, y)
            <==> IsInt64(account) && IsWord(x) && IsWord(y)
                 && bs == WordBytes(c.reqMove) + (Int64Bytes(account) + (WordBytes(x) + WordBytes(y)))
  {
    hide WordBytes, Int64Bytes, TakeWord, DecodeMove;
    var p := ResSectorMove(account, x, y);
    if ParseRequest(c, bs) == Move(account, x, y) {
      var (code, body) := TakeWord(bs).value;
      WordExact(bs, code, body);
      assert DecodeMove(body) == Some((p, []));
      MoveSound(body, p, []);
      assert WordBytes(y) + [] == WordBytes(y);
    }
    if Fits(p) && bs == WordBytes(c.reqMove) + (Int64Bytes(account) + (WordBytes(x) + WordBytes(y))) {
      assert WordBytes(y) + [] == WordBytes(y);
      WordExact(bs, c.reqMove, BodyOf(p, []));
      BodyRead(c, p, []);
    }
  }

  /** A chat request is understood exactly when its length field counts its remaining bytes. */
  lemma MessageRequestExact(c: Codes, bs: seq<byte>, account: int, message: seq<byte>)
    requires Proper(c)
    ensures ParseRequest(c, bs) == Message(account, message)
            <==> IsInt64(account) && |message| < 0x1_0000
                 && bs == WordBytes(c.reqMessage) + (Int64Bytes(account) + (WordBytes(|message|) + message))
  {
    hide WordBytes, Int64Bytes, TakeWord, TakeInt64, TakeBytes;
    if ParseRequest(c, bs) == Message(account, message) {
      var (code, body) := TakeWord(bs).value;
      WordExact(bs, code, body);
      var r1 := TakeInt64(body).value.1;
      var (n, r2) := TakeWord(r1).value;
      Int64Exact(body, account, r1);
      WordExact(r1, n, r2);
      BytesExact(r2, n, message, []);
      assert message + [] == message;
    }
    if IsInt64(account) && |message| < 0x1_0000
       && bs == WordBytes(c.reqMessage) + (Int64Bytes(account) + (WordBytes(|message|) + message)) {
      var r1 := WordBytes(|message|) + message;
      WordExact(bs, c.reqMessage, Int64Bytes(account) + r1);
      Int64Exact(Int64Bytes(account) + r1, account, r1);
      WordExact(r1, |message|, message);
      BytesExact(message, |message|, message, []);
      assert message + [] == message;
    }
  }
}
