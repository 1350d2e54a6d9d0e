/** Reading the server name of a TLS ClientHello without consuming a byte more
    than the records that carry it.

    The parsers are loops over shrinking slices, as in the source, proved against
    recursive readers; the readers are proved to invert a serializer of ClientHello
    messages, however the message is split into records. */
module Sni {
  import opened Basics

  type Byte = b: int | 0 <= b < 256
  type Bytes = seq<Byte>

  const MAX_RECORDS := 4
  const MAX_BODY := 16384

  function U16(hi: Byte, lo: Byte): nat { hi * 256 + lo }

  function U24(a: Byte, b: Byte, c: Byte): nat { a * 65536 + b * 256 + c }

  // ---- the readers ----

  /** The first host_name of a server name list. */
  function ReadNames(b: Bytes): Bytes {
    if |b| < 3 then []
    else
      var len := U16(b[1], b[2]);
      var rest := b[3..];
      if |rest| < len then []
      else if b[0] == 0 then rest[..len]
      else ReadNames(rest[len..])
  }

  function ReadServerNameExt(b: Bytes): Bytes {
    if |b| < 2 then []
    else if |b| - 2 < U16(b[0], b[1]) then []
    else ReadNames(b[2..])
  }

  /** The name of the first server_name extension. */
  function ReadExtensions(p: Bytes): Bytes {
    if |p| < 4 then []
    else
      var len := U16(p[2], p[3]);
      var rest := p[4..];
      if |rest| < len then []
      else if U16(p[0], p[1]) == 0 then ReadServerNameExt(rest[..len])
      else ReadExtensions(rest[len..])
  }

  /** What follows a field prefixed by a one-byte length. */
  function Skip8(p: Bytes): Option<Bytes> {
    if |p| < 1 || |p| - 1 < p[0] then None else Some(p[1 + p[0]..])
  }

  function Skip16(p: Bytes): Option<Bytes> {
    if |p| < 2 || |p| - 2 < U16(p[0], p[1]) then None else Some(p[2 + U16(p[0], p[1])..])
  }

  function ReadHello(b: Bytes): Bytes {
    if |b| < 4 || b[0] != 1 || |b| - 4 < 34 then []
    else
      var session := Skip8(b[38..]);
      if session.None? then []
      else
        var suites := Skip16(session.value);
        if suites.None? then []
        else
          var compression := Skip8(suites.value);
          if compression.None? || |compression.value| < 2 then []
          else
            var p := compression.value;
            if |p| - 2 < U16(p[0], p[1]) then [] else ReadExtensions(p[2..])
  }

  // ---- the parsers, as the source runs them ----

  method ParseServerNameExt(ext: Bytes) returns (name: Bytes)
    ensures name == ReadServerNameExt(ext)
  {
    var b := ext;
    if |b| < 2 {
      return [];
    }
    var listLen := U16(b[0], b[1]);
    b := b[2..];
    if |b| < listLen {
      return [];
    }
    while |b| >= 3
      invariant ReadNames(b) == ReadServerNameExt(ext)
      decreases |b|
    {
      var nameType, nameLen := b[0], U16(b[1], b[2]);
      b := b[3..];
      if |b| < nameLen {
        return [];
      }
      if nameType == 0 {
        return b[..nameLen];
      }
      b := b[nameLen..];
    }
    return [];
  }

  method ParseSNI(b: Bytes) returns (name: Bytes)
    ensures name == ReadHello(b)
  {
    if |b| < 4 || b[0] != 1 {
      return [];
    }
    var p := b[4..];
    if |p| < 34 {
      return [];
    }
    p := p[34..];
    assert p == b[38..];
    if |p| < 1 {
      return [];
    }
    var sidLen := p[0];
    p := p[1..];
    if |p| < sidLen {
      return [];
    }
    p := p[sidLen..];
    ghost var session := Skip8(b[38..]);
    assert session == Some(p);
    if |p| < 2 {
      return [];
    }
    var csLen := U16(p[0], p[1]);
    p := p[2..];
    if |p| < csLen {
      return [];
    }
    p := p[csLen..];
    ghost var suites := Skip16(session.value);
    assert suites == Some(p);
    if |p| < 1 {
      return [];
    }
    var cmLen := p[0];
    p := p[1..];
    if |p| < cmLen {
      return [];
    }
    p := p[cmLen..];
    assert Skip8(suites.value) == Some(p);
    if |p| < 2 {
      return [];
    }
    var extTotal := U16(p[0], p[1]);
    p := p[2..];
    if |p| < extTotal {
      return [];
    }
    while |p| >= 4
      invariant ReadExtensions(p) == ReadHello(b)
      decreases |p|
    {
      var extType, extLen := U16(p[0], p[1]), U16(p[2], p[3]);
      p := p[4..];
      if |p| < extLen {
        return [];
      }
      if extType == 0 {
        name := ParseServerNameExt(p[..extLen]);
        return;
      }
      p := p[extLen..];
    }
    return [];
  }

  // ---- records ----

  /** What peeking at a stream yields: the name and the number of bytes consumed. */
  datatype Peeked = Hello(name: Bytes, consumed: nat) | Refused

  /** The handshake message the joined record bodies hold, if they hold it whole. */
  datatype Message = Partial | Complete(msg: Bytes) | NotHello

  function MessageOf(hs: Bytes): Message {
    if |hs| < 4 then Partial
    else if hs[0] != 1 then NotHello
    else if |hs| < 4 + U24(hs[1], hs[2], hs[3]) then Partial
    else Complete(hs[..4 + U24(hs[1], hs[2], hs[3])])
  }

  /** Reads up to `left` more records from data, `hs` being the bodies so far and
      `used` the bytes read so far. */
  function PeekFrom(data: Bytes, left: nat, hs: Bytes, used: nat): Peeked {
    if left == 0 || |data| < 5 || data[0] != 0x16 then Refused
    else
      var len := U16(data[3], data[4]);
      if len < 1 || len > MAX_BODY || |data| - 5 < len then Refused
      else
        var hs' := hs + data[5..5 + len];
        match MessageOf(hs')
        case NotHello => Refused
        case Complete(msg) => Hello(ReadHello(msg), used + 5 + len)
        case Partial => PeekFrom(data[5 + len..], left - 1, hs', used + 5 + len)
  }

  function Peek(data: Bytes): Peeked { PeekFrom(data, MAX_RECORDS, [], 0) }

  /** The client's connection: bytes that arrive in order, and how far they were read. */
  class Conn {
    const data: Bytes
    var pos: nat

    constructor (data: Bytes)
      ensures this.data == data && pos == 0
    {
      this.data := data;
      pos := 0;
    }

    /** io.ReadFull: n bytes, or an error after whatever is left. */
    method ReadFull(n: nat) returns (r: Option<Bytes>)
      requires pos <= |data|
      modifies this
      ensures old(pos) + n <= |data| ==> pos == old(pos) + n && r == Some(data[old(pos)..old(pos) + n])
      ensures old(pos) + n > |data| ==> pos == |data| && r == None
    {
      if pos + n <= |data| {
        r := Some(data[pos..pos + n]);
        pos := pos + n;
      } else {
        r := None;
        pos := |data|;
      }
    }
  }

  /** One record, as PeekFrom sees it at position `at` of the stream. */
  lemma PeekAt(data: Bytes, at: nat, left: nat, hs: Bytes, used: nat)
    requires at <= |data| && left > 0
    ensures at + 5 > |data| ==> PeekFrom(data[at..], left, hs, used) == Refused
    ensures at + 5 <= |data| ==>
      var len := U16(data[at + 3], data[at + 4]);
      PeekFrom(data[at..], left, hs, used) ==
        if data[at] != 0x16 || len < 1 || len > MAX_BODY || at + 5 + len > |data| then Refused
        else
          var hs' := hs + data[at + 5..at + 5 + len];
          match MessageOf(hs')
          case NotHello => Refused
          case Complete(msg) => Hello(ReadHello(msg), used + 5 + len)
          case Partial => PeekFrom(data[at + 5 + len..], left - 1, hs', used + 5 + len)
  {
    hide MessageOf, ReadHello;
    if at + 5 <= |data| {
      var rest := data[at..];
      assert rest[0] == data[at] && rest[3] == data[at + 3] && rest[4] == data[at + 4];
      var len := U16(data[at + 3], data[at + 4]);
      if at + 5 + len <= |data| {
        assert rest[5..5 + len] == data[at + 5..at + 5 + len];
        assert rest[5 + len..] == data[at + 5 + len..];
      }
    }
  }

  /** The result is `Peek` of what was unread, with the bytes consumed, and the position
      stands just behind them. */
  method PeekSNI(conn: Conn) returns (r: Option<(Bytes, Bytes)>)
    requires conn.pos <= |conn.data|
    modifies conn
    ensures old(conn.pos) <= conn.pos <= |conn.data|
    ensures Peek(conn.data[old(conn.pos)..]).Refused? <==> r == None
    ensures r.Some? ==>
              Peek(conn.data[old(conn.pos)..]) == Hello(r.value.0, conn.pos - old(conn.pos))
              && r.value.1 == conn.data[old(conn.pos)..conn.pos]
  {
    hide PeekFrom, ReadHello, Peek, U16, U24;
    var data := conn.data;
    ghost var start := conn.pos;
    ghost var all := Peek(data[start..]);
    PeekStarts(data[start..]);
    var buf: Bytes := [];
    var hs: Bytes := [];
    var rec := 0;
    while rec < MAX_RECORDS
      invariant 0 <= rec <= MAX_RECORDS && start <= conn.pos <= |data|
      invariant buf == data[start..conn.pos]
      invariant PeekFrom(data[conn.pos..], MAX_RECORDS - rec, hs, conn.pos - start) == all
    {
      ghost var at := conn.pos;
      PeekAt(data, at, MAX_RECORDS - rec, hs, at - start);
      var hdr := conn.ReadFull(5);
      if hdr.None? {
        return None;
      }
      var h := hdr.value;
      assert h[0] == data[at] && h[3] == data[at + 3] && h[4] == data[at + 4];
      if h[0] != 0x16 {
        return None;
      }
      var recLen := U16(h[3], h[4]);
      if recLen < 1 || recLen > MAX_BODY {
        return None;
      }
      var body := conn.ReadFull(recLen);
      if body.None? {
        return None;
      }
      Joined(data, start, at, at + 5, conn.pos);
      buf := buf + h;
      buf := buf + body.value;
      hs := hs + body.value;
      rec := rec + 1;
      if |hs| < 4 {
        continue;
      }
      if hs[0] != 1 {
        return None;
      }
      var msgLen := U24(hs[1], hs[2], hs[3]);
      if |hs| >= 4 + msgLen {
        var name := ParseSNI(hs[..4 + msgLen]);
        return Some((name, buf));
      }
    }
    NoRecordsLeft(data[conn.pos..], hs, conn.pos - start);
    return None;
  }

  lemma Joined(data: Bytes, a: nat, b: nat, c: nat, d: nat)
    requires a <= b <= c <= d <= |data|
    ensures data[a..b] + data[b..c] + data[c..d] == data[a..d]
  {
  }

  lemma PeekStarts(data: Bytes)
    ensures Peek(data) == PeekFrom(data, MAX_RECORDS, [], 0)
  {
  }

  lemma NoRecordsLeft(data: Bytes, hs: Bytes, used: nat)
    ensures PeekFrom(data, 0, hs, used) == Refused
  {
  }

  // ---- a serializer of ClientHello messages (RFC 8446, section 4.1.2; RFC 6066, section 3) ----

  datatype Name = Name(kind: Byte, value: Bytes)

  datatype Extension = ServerName(names: seq<Name>) | Other(kind: nat, body: Bytes)

  datatype ClientHello = ClientHello(
    versionAndRandom: Bytes, session: Bytes, suites: Bytes, compression: Bytes, extensions: seq<Extension>)

  function Put16(n: nat): (r: Bytes)
    requires n < 65536
    ensures |r| == 2 && U16(r[0], r[1]) == n
  {
    [n / 256, n % 256]
  }

  function Put24(n: nat): (r: Bytes)
    requires n < 16777216
    ensures |r| == 3 && U24(r[0], r[1], r[2]) == n
  {
    [n / 65536, n / 256 % 256, n % 256]
  }

  predicate NamesFit(names: seq<Name>) { forall i :: 0 <= i < |names| ==> |names[i].value| < 65536 }

  function PutNames(names: seq<Name>): Bytes
    requires NamesFit(names)
  {
    if |names| == 0 then []
    else [names[0].kind] + Put16(|names[0].value|) + names[0].value + PutNames(names[1..])
  }

  predicate ExtensionFits(e: Extension) {
    match e
    case ServerName(names) => NamesFit(names) && |PutNames(names)| + 2 < 65536
    case Other(kind, body) => 0 < kind < 65536 && |body| < 65536
  }

  function PutExtension(e: Extension): Bytes
    requires ExtensionFits(e)
  {
    match e
    case ServerName(names) =>
      var list := PutNames(names);
      Put16(0) + Put16(|list| + 2) + (Put16(|list|) + list)
    case Other(kind, body) => Put16(kind) + Put16(|body|) + body
  }

  predicate ExtensionsFit(es: seq<Extension>) { forall i :: 0 <= i < |es| ==> ExtensionFits(es[i]) }

  function PutExtensions(es: seq<Extension>): Bytes
    requires ExtensionsFit(es)
  {
    if |es| == 0 then [] else PutExtension(es[0]) + PutExtensions(es[1..])
  }

  /** The lengths fit their prefixes. */
  predicate WellFormed(ch: ClientHello) {
    && |ch.versionAndRandom| == 34 && |ch.session| < 256 && |ch.suites| < 65536 && |ch.compression| < 256
    && ExtensionsFit(ch.extensions) && |PutExtensions(ch.extensions)| < 65536
  }

  function PutBody(ch: ClientHello): Bytes
    requires WellFormed(ch)
  {
    var exts := PutExtensions(ch.extensions);
    ch.versionAndRandom + ([|ch.session|] + ch.session
      + (Put16(|ch.suites|) + ch.suites + ([|ch.compression|] + ch.compression + (Put16(|exts|) + exts))))
  }

  function Serialize(ch: ClientHello): (r: Bytes)
    requires WellFormed(ch)
  {
    BodyLength(ch);
    [1] + Put24(|PutBody(ch)|) + PutBody(ch)
  }

  lemma BodyLength(ch: ClientHello)
    requires WellFormed(ch)
    ensures |PutBody(ch)| < 16777216
  {
  }

  /** The name the message asks for: the first host_name of its first server_name
      extension, or nothing. */
  function HostName(ch: ClientHello): Bytes { FirstServerName(ch.extensions) }

  function FirstServerName(es: seq<Extension>): Bytes {
    if |es| == 0 then []
    else match es[0] case ServerName(names) => FirstHostName(names) case Other(_, _) => FirstServerName(es[1..])
  }

  function FirstHostName(names: seq<Name>): Bytes {
    if |names| == 0 then [] else if names[0].kind == 0 then names[0].value else FirstHostName(names[1..])
  }

  // ---- the readers invert the serializer ----

  lemma FieldsOfName(n: Name, rest: Bytes)
    requires |n.value| < 65536
    ensures var b := [n.kind] + Put16(|n.value|) + n.value + rest;
            && |b| >= 3 && b[0] == n.kind && U16(b[1], b[2]) == |n.value|
            && b[3..] == n.value + rest
            && b[3..][..|n.value|] == n.value && b[3..][|n.value|..] == rest
  {
    hide Put24;
    var head := [n.kind] + Put16(|n.value|);
    assert |head| == 3 && head[1..] == Put16(|n.value|);
    assert head + n.value + rest == head + (n.value + rest);
  }

  lemma {:induction false} NamesInverted(names: seq<Name>)
    requires NamesFit(names)
    ensures ReadNames(PutNames(names)) == FirstHostName(names)
  {
    hide Put16, Put24, U16;
    if |names| > 0 {
      NamesInverted(names[1..]);
      FieldsOfName(names[0], PutNames(names[1..]));
    }
  }

  lemma ServerNameRead(names: seq<Name>, rest: Bytes)
    requires ExtensionFits(ServerName(names))
    ensures ReadExtensions(PutExtension(ServerName(names)) + rest) == FirstHostName(names)
  {
    hide Put16, Put24;
    var list := PutNames(names);
    var ext := Put16(|list|) + list;
    var p := PutExtension(ServerName(names)) + rest;
    assert p[4..] == ext + rest;
    assert U16(p[2], p[3]) == |ext|;
    assert p[4..][..|ext|] == ext;
    assert U16(ext[0], ext[1]) == |list| && ext[2..] == list;
    NamesInverted(names);
  }

  lemma OtherSkipped(kind: nat, body: Bytes, rest: Bytes)
    requires ExtensionFits(Other(kind, body))
    ensures ReadExtensions(PutExtension(Other(kind, body)) + rest) == ReadExtensions(rest)
  {
    hide Put16, Put24;
    var p := PutExtension(Other(kind, body)) + rest;
    assert p[4..] == body + rest;
    assert U16(p[0], p[1]) == kind && U16(p[2], p[3]) == |body|;
    assert p[4..][|body|..] == rest;
  }

  lemma NothingRead(p: Bytes)
    requires p == []
    ensures ReadExtensions(p) == []
  {
  }

  lemma {:induction false} ExtensionsInverted(es: seq<Extension>)
    requires ExtensionsFit(es)
    ensures ReadExtensions(PutExtensions(es)) == FirstServerName(es)
  {
    hide PutExtension, ReadExtensions, FirstHostName, Put16, PutNames;
    if |es| == 0 {
      NothingRead(PutExtensions(es));
    } else {
      match es[0]
      case ServerName(names) => ServerNameRead(names, PutExtensions(es[1..]));
      case Other(kind, body) =>
        ExtensionsInverted(es[1..]);
        OtherSkipped(kind, body, PutExtensions(es[1..]));
    }
  }

  lemma Skip8Inverted(field: Bytes, rest: Bytes)
    requires |field| < 256
    ensures Skip8([|field|] + field + rest) == Some(rest)
  {
    assert ([|field|] + field + rest)[1 + |field|..] == rest;
  }

  lemma Skip16Inverted(field: Bytes, rest: Bytes)
    requires |field| < 65536
    ensures Skip16(Put16(|field|) + field + rest) == Some(rest)
  {
    hide Put16, Put24;
    var p := Put16(|field|) + field + rest;
    assert U16(p[0], p[1]) == |field|;
    assert p[2 + |field|..] == rest;
  }

  /** Reading a serialized ClientHello yields exactly the name it carries. */
  lemma HelloInverted(ch: ClientHello)
    requires WellFormed(ch)
    ensures ReadHello(Serialize(ch)) == HostName(ch)
  {
    hide Put16, Put24, PutExtensions, ReadExtensions, FirstServerName, Skip8, Skip16;
    var b := Serialize(ch);
    var exts := PutExtensions(ch.extensions);
    var afterCompression := Put16(|exts|) + exts;
    var afterSuites := [|ch.compression|] + ch.compression + afterCompression;
    var afterSession := Put16(|ch.suites|) + ch.suites + afterSuites;
    var afterRandom := [|ch.session|] + ch.session + afterSession;
    assert b[4..] == PutBody(ch) == ch.versionAndRandom + afterRandom;
    assert b[38..] == b[4..][34..] == afterRandom;
    Skip8Inverted(ch.session, afterSession);
    Skip16Inverted(ch.suites, afterSuites);
    Skip8Inverted(ch.compression, afterCompression);
    assert afterCompression[2..] == exts;
    assert U16(afterCompression[0], afterCompression[1]) == |exts|;
    ExtensionsInverted(ch.extensions);
  }

  // ---- any split into records (RFC 8446, section 5.1) ----

  datatype Record = Record(version: Bytes, body: Bytes)

  predicate RecordFits(r: Record) { |r.version| == 2 && 1 <= |r.body| <= 16384 }

  function PutRecord(r: Record): Bytes
    requires RecordFits(r)
  {
    [0x16] + r.version + Put16(|r.body|) + r.body
  }

  predicate RecordsFit(rs: seq<Record>) { forall i :: 0 <= i < |rs| ==> RecordFits(rs[i]) }

  function Wire(rs: seq<Record>): Bytes
    requires RecordsFit(rs)
  {
    if |rs| == 0 then [] else PutRecord(rs[0]) + Wire(rs[1..])
  }

  function Bodies(rs: seq<Record>): Bytes {
    if |rs| == 0 then [] else rs[0].body + Bodies(rs[1..])
  }

  lemma {:induction false} BodiesButLast(rs: seq<Record>)
    requires |rs| > 0
    ensures Bodies(rs) == Bodies(rs[..|rs| - 1]) + rs[|rs| - 1].body
  {
    if |rs| == 1 {
      assert rs[1..] == [] && rs[..0] == [];
    } else {
      BodiesButLast(rs[1..]);
      assert rs[1..][..|rs| - 2] == rs[..|rs| - 1][1..];
    }
  }

  /** A handshake message: its type byte, its length, and that many bytes. */
  predicate IsMessage(msg: Bytes) {
    |msg| >= 4 && msg[0] == 1 && |msg| == 4 + U24(msg[1], msg[2], msg[3])
  }

  lemma MessageIn(hs: Bytes, msg: Bytes)
    requires IsMessage(msg)
    ensures |hs| < |msg| && hs <= msg ==> MessageOf(hs) == Partial
    ensures msg <= hs ==> MessageOf(hs) == Complete(msg)
  {
  }

  /** The records carry the message, and it is the last one that completes it. */
  ghost predicate Carries(rs: seq<Record>, hs: Bytes, msg: Bytes) {
    && |rs| > 0
    && |hs + Bodies(rs[..|rs| - 1])| < |msg|
    && msg <= hs + Bodies(rs)
  }

  lemma Assoc(a: Bytes, b: Bytes, c: Bytes)
    ensures (a + b) + c == a + (b + c)
  {
  }

  lemma FieldsOfRecord(r: Record, rest: Bytes)
    requires RecordFits(r)
    ensures var data, n := PutRecord(r) + rest, |r.body|;
            && |PutRecord(r)| == 5 + n
            && data[0] == 0x16 && U16(data[3], data[4]) == n
            && data[5..5 + n] == r.body && data[5 + n..] == rest
  {
    hide Put24;
    var head := [0x16] + r.version + Put16(|r.body|);
    assert |head| == 5 && PutRecord(r) + rest == head + r.body + rest;
    assert head[3..] == Put16(|r.body|);
  }

  lemma ReadOneRecord(r: Record, rest: Bytes, left: nat, hs: Bytes, used: nat)
    requires RecordFits(r) && left > 0
    ensures var data := PutRecord(r) + rest;
            PeekFrom(data, left, hs, used) ==
              match MessageOf(hs + r.body)
              case NotHello => Refused
              case Complete(msg) => Hello(ReadHello(msg), used + |PutRecord(r)|)
              case Partial => PeekFrom(rest, left - 1, hs + r.body, used + |PutRecord(r)|)
  {
    hide PutRecord, ReadHello, MessageOf, U16;
    FieldsOfRecord(r, rest);
  }

  /** With the first record read, the others still carry the message. */
  lemma CarriesOn(rs: seq<Record>, hs: Bytes, msg: Bytes)
    requires Carries(rs, hs, msg) && |rs| > 1
    ensures Carries(rs[1..], hs + rs[0].body, msg)
    ensures |hs + rs[0].body| < |msg| && hs + rs[0].body <= msg
  {
    var r, more := rs[0], rs[1..];
    assert rs[..|rs| - 1][0] == r && rs[..|rs| - 1][1..] == more[..|more| - 1];
    assert hs + Bodies(rs[..|rs| - 1]) == (hs + r.body) + Bodies(more[..|more| - 1]);
    assert hs + Bodies(rs) == (hs + r.body) + Bodies(more);
  }

  lemma CarriedByOne(r: Record, hs: Bytes, msg: Bytes)
    requires Carries([r], hs, msg)
    ensures msg <= hs + r.body
  {
    assert hs + Bodies([r]) == hs + r.body;
  }

  lemma WireOfFirst(rs: seq<Record>)
    requires RecordsFit(rs) && |rs| > 0
    ensures Wire(rs) == PutRecord(rs[0]) + Wire(rs[1..])
  {
    hide PutRecord;
  }

  lemma WireFirst(rs: seq<Record>, rest: Bytes)
    requires RecordsFit(rs) && |rs| > 0
    ensures Wire(rs) + rest == PutRecord(rs[0]) + (Wire(rs[1..]) + rest)
    ensures |Wire(rs)| == |PutRecord(rs[0])| + |Wire(rs[1..])|
  {
    hide PutRecord, Wire;
    WireOfFirst(rs);
    Assoc(PutRecord(rs[0]), Wire(rs[1..]), rest);
  }

  lemma {:induction false} SplitInverted(rs: seq<Record>, rest: Bytes, left: nat, hs: Bytes, used: nat, msg: Bytes)
    requires RecordsFit(rs) && |rs| <= left && IsMessage(msg) && Carries(rs, hs, msg)
    ensures PeekFrom(Wire(rs) + rest, left, hs, used) == Hello(ReadHello(msg), used + |Wire(rs)|)
  {
    hide PeekFrom, PutRecord, ReadHello, MessageOf, IsMessage;
    WireFirst(rs, rest);
    ReadOneRecord(rs[0], Wire(rs[1..]) + rest, left, hs, used);
    MessageIn(hs + rs[0].body, msg);
    if |rs| == 1 {
      assert rs == [rs[0]];
      CarriedByOne(rs[0], hs, msg);
      assert Wire(rs[1..]) == [];
    } else {
      CarriesOn(rs, hs, msg);
      SplitInverted(rs[1..], rest, left - 1, hs + rs[0].body, used + |PutRecord(rs[0])|, msg);
    }
  }

  /** For every ClientHello, split in any way over at most four records, peeking
      yields exactly the name it carries and consumes exactly those records,
      whatever follows them. */
  lemma PeekInvertsEverySplit(ch: ClientHello, rs: seq<Record>, rest: Bytes)
    requires WellFormed(ch) && RecordsFit(rs) && |rs| <= 4
    requires Carries(rs, [], Serialize(ch))
    ensures Peek(Wire(rs) + rest) == Hello(HostName(ch), |Wire(rs)|)
  {
    hide PeekFrom, ReadHello, Wire, Serialize, WellFormed;
    SerializedIsMessage(ch);
    SplitInverted(rs, rest, MAX_RECORDS, [], 0, Serialize(ch));
    HelloInverted(ch);
  }

  lemma SerializedIsMessage(ch: ClientHello)
    requires WellFormed(ch)
    ensures IsMessage(Serialize(ch))
  {
    hide Put16, Put24, PutBody;
    BodyLength(ch);
  }

  /** A message that needs a fifth record is refused, so the peer is not waited for. */
  lemma FiveRecordsAreRefused(rs: seq<Record>, rest: Bytes, msg: Bytes)
    requires RecordsFit(rs) && |rs| > 4 && IsMessage(msg) && Carries(rs, [], msg) && Bodies(rs) == msg
    ensures Peek(Wire(rs) + rest) == Refused
  {
    LongSplitRefused(rs, rest, MAX_RECORDS, [], 0, msg);
  }

  lemma {:induction false} LongSplitRefused(rs: seq<Record>, rest: Bytes, left: nat, hs: Bytes, used: nat, msg: Bytes)
    requires RecordsFit(rs) && |rs| > left && IsMessage(msg) && Carries(rs, hs, msg)
    ensures PeekFrom(Wire(rs) + rest, left, hs, used) == Refused
    decreases left
  {
    hide PutRecord, ReadHello, MessageOf, IsMessage;
    if left > 0 {
      WireFirst(rs, rest);
      ReadOneRecord(rs[0], Wire(rs[1..]) + rest, left, hs, used);
      hide PeekFrom;
      MessageIn(hs + rs[0].body, msg);
      CarriesOn(rs, hs, msg);
      LongSplitRefused(rs[1..], rest, left - 1, hs + rs[0].body, used + |PutRecord(rs[0])|, msg);
    }
  }

  // ---- nothing else is read ----

  /** The records are at the front of the stream, and the message is completed by the
      last of them. */
  ghost predicate Found(data: Bytes, hs: Bytes, rs: seq<Record>, msg: Bytes) {
    RecordsFit(rs) && Wire(rs) <= data && IsMessage(msg) && Carries(rs, hs, msg)
  }

  lemma RecordRead(data: Bytes, len: nat) returns (r: Record)
    requires |data| >= 5 && data[0] == 0x16 && len == U16(data[3], data[4]) && 1 <= len <= 16384 && 5 + len <= |data|
    ensures RecordFits(r) && PutRecord(r) == data[..5 + len] && r.body == data[5..5 + len]
  {
    r := Record(data[1..3], data[5..5 + len]);
    assert Put16(len) == data[3..5];
    assert [0x16] + data[1..3] + data[3..5] == data[..5];
  }

  lemma OneBody(r: Record)
    ensures Bodies([r]) == r.body && Bodies([r][..0]) == []
  {
    assert [r][1..] == [] && [r][..0] == [];
  }

  lemma CompletedHere(hs: Bytes, r: Record)
    requires MessageOf(hs).Partial? && MessageOf(hs + r.body).Complete?
    ensures IsMessage(MessageOf(hs + r.body).msg) && Carries([r], hs, MessageOf(hs + r.body).msg)
  {
    var msg := MessageOf(hs + r.body).msg;
    OneBody(r);
    assert |hs| >= 4 ==> forall i :: 0 <= i < 4 ==> (hs + r.body)[i] == hs[i];
    assert hs + Bodies([r][..0]) == hs;
  }

  lemma CarriesMore(r: Record, rs: seq<Record>, hs: Bytes, msg: Bytes)
    requires Carries(rs, hs + r.body, msg)
    ensures Carries([r] + rs, hs, msg)
  {
    var all := [r] + rs;
    assert all[1..] == rs && all[..|all| - 1] == [r] + rs[..|rs| - 1];
    assert ([r] + rs[..|rs| - 1])[1..] == rs[..|rs| - 1];
    assert hs + Bodies(all) == (hs + r.body) + Bodies(rs);
    assert hs + Bodies(all[..|all| - 1]) == (hs + r.body) + Bodies(rs[..|rs| - 1]);
  }

  lemma {:induction false} FoundInStream(data: Bytes, left: nat, hs: Bytes, used: nat) returns (rs: seq<Record>, msg: Bytes)
    requires PeekFrom(data, left, hs, used).Hello? && MessageOf(hs).Partial?
    ensures Found(data, hs, rs, msg) && |rs| <= left
    ensures PeekFrom(data, left, hs, used) == Hello(ReadHello(msg), used + |Wire(rs)|)
  {
    hide U16, PutRecord, MessageOf, ReadHello, IsMessage, Carries;
    var len := U16(data[3], data[4]);
    var r := RecordRead(data, len);
    var hs' := hs + r.body;
    if MessageOf(hs').Complete? {
      CompletedHere(hs, r);
      rs, msg := [r], MessageOf(hs').msg;
      assert rs[1..] == [] && Wire(rs) == PutRecord(r) + [];
    } else {
      rs, msg := FoundInStream(data[5 + len..], left - 1, hs', used + 5 + len);
      CarriesMore(r, rs, hs, msg);
      var all := [r] + rs;
      assert all[1..] == rs && Wire(all) == PutRecord(r) + Wire(rs);
      assert data == data[..5 + len] + data[5 + len..];
      rs := all;
    }
  }

  /** Where peeking yields a name, the bytes consumed are at most four records of a
      fitting size whose bodies carry a ClientHello, the last completing it, and the
      name is the one read from that. */
  lemma PeekIsSound(data: Bytes)
    requires Peek(data).Hello?
    ensures exists rs, msg :: Found(data, [], rs, msg) && |rs| <= 4 && Peek(data) == Hello(ReadHello(msg), |Wire(rs)|)
  {
    hide PeekFrom, Found, ReadHello;
    var rs, msg := FoundInStream(data, MAX_RECORDS, [], 0);
  }
}
