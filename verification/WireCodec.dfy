/** The 64-byte wire message of the port mapper protocol and its 48-byte short form. */
module WireCodec {
  import opened Basics
  import opened Sockaddr
  import opened MapRequests

  const MESSAGE_SIZE := 48
  const IPADDR_SIZE := 16

  const MT_REQ: bv8 := 0
  const MT_ACC: bv8 := 1
  const MT_ACK: bv8 := 2
  const MT_REJ: bv8 := 3

  /** The message parameters (`iwpm_msg_parms`). Only a request carries the mapped address
      of the connecting peer; for other messages those fields are not set. */
  datatype Parms = Parms(ipVer: bv32, ver: bv8, mt: bv8, pmtime: bv8, handle: bv64,
                         apport: bv16, cpport: bv16, apip: seq<bv8>, cpip: seq<bv8>,
                         mapped: Option<(bv16, seq<bv8>)>)

  predicate Shaped(p: Parms) {
    && |p.apip| == IPADDR_SIZE && |p.cpip| == IPADDR_SIZE
    && (p.mapped.Some? <==> p.mt == MT_REQ)
    && (p.mapped.Some? ==> |p.mapped.value.1| == IPADDR_SIZE)
  }

  function Be16(x: bv16): (b: seq<bv8>)
    ensures |b| == 2
  {
    [((x >> 8) & 0xFF) as bv8, (x & 0xFF) as bv8]
  }

  function FromBe16(b: seq<bv8>): bv16
    requires |b| == 2
  {
    (b[0] as bv16 << 8) | b[1] as bv16
  }

  function Be64(x: bv64): (b: seq<bv8>)
    ensures |b| == 8
  {
    [((x >> 56) & 0xFF) as bv8, ((x >> 48) & 0xFF) as bv8, ((x >> 40) & 0xFF) as bv8, ((x >> 32) & 0xFF) as bv8,
     ((x >> 24) & 0xFF) as bv8, ((x >> 16) & 0xFF) as bv8, ((x >> 8) & 0xFF) as bv8, (x & 0xFF) as bv8]
  }

  function FromBe64(b: seq<bv8>): bv64
    requires |b| == 8
  {
    (b[0] as bv64 << 56) | (b[1] as bv64 << 48) | (b[2] as bv64 << 40) | (b[3] as bv64 << 32)
    | (b[4] as bv64 << 24) | (b[5] as bv64 << 16) | (b[6] as bv64 << 8) | b[7] as bv64
  }

  lemma Be16RoundTrip(x: bv16, b: seq<bv8>)
    requires |b| == 2
    ensures FromBe16(Be16(x)) == x && Be16(FromBe16(b)) == b
  {
  }

  lemma Be64RoundTrip(x: bv64)
    ensures FromBe64(Be64(x)) == x
  {
  }

  lemma Be64RoundTripBack(b: seq<bv8>)
    requires |b| == 8
    ensures Be64(FromBe64(b)) == b
  {
  }

  /** The number that bytes in network order stand for: the first is the most significant. */
  function NumberOf(b: seq<bv8>): bv64 {
    if b == [] then 0 else (NumberOf(b[..|b| - 1]) << 8) | b[|b| - 1] as bv64
  }

  lemma NextByte(b: seq<bv8>, k: nat)
    requires k < |b|
    ensures NumberOf(b[..k + 1]) == (NumberOf(b[..k]) << 8) | b[k] as bv64
  {
    assert b[..k + 1][..k] == b[..k];
  }

  /** Ports and handles are in network order. */
  lemma NetworkOrder(x: bv16, y: bv64)
    ensures NumberOf(Be16(x)) == x as bv64 && NumberOf(Be64(y)) == y
  {
    Number16(Be16(x));
    Number64(Be64(y));
    Be16Parts(x);
    Be64Parts(y);
  }

  lemma Number16(b: seq<bv8>)
    requires |b| == 2
    ensures NumberOf(b) == (((0 << 8) | b[0] as bv64) << 8) | b[1] as bv64
  {
    hide NumberOf;
    Nothing(b);
    NextByte(b, 0);
    NextByte(b, 1);
    assert b[..2] == b;
  }

  lemma Nothing(b: seq<bv8>)
    ensures NumberOf(b[..0]) == 0
  {
  }

  /** Eight bytes, four at a time. */
  lemma Number64(b: seq<bv8>)
    requires |b| == 8
    ensures NumberOf(b) == Eight(b)
  {
    hide NumberOf;
    Nothing(b);
    NextByte(b, 0);
    NextByte(b, 1);
    NextByte(b, 2);
    NextByte(b, 3);
    NextByte(b, 4);
    NextByte(b, 5);
    NextByte(b, 6);
    NextByte(b, 7);
    assert b[..8] == b;
  }

  function Eight(b: seq<bv8>): bv64
    requires |b| == 8
  {
    var high := (((((((0 << 8) | b[0] as bv64) << 8) | b[1] as bv64) << 8) | b[2] as bv64) << 8) | b[3] as bv64;
    (((((((high << 8) | b[4] as bv64) << 8) | b[5] as bv64) << 8) | b[6] as bv64) << 8) | b[7] as bv64
  }

  lemma Be16Parts(x: bv16)
    ensures var b := Be16(x);
            ((((0 as bv64) << 8) | b[0] as bv64) << 8) | b[1] as bv64 == x as bv64
  {
  }

  lemma Be64Parts(x: bv64)
    ensures Eight(Be64(x)) == x
  {
  }

  /** The first byte packs IP version, protocol version and message type. */
  function Magic(ipVer: bv32, ver: bv8, mt: bv8): bv8 {
    ((ipVer & 0x0F) as bv8) | ((ver << 6) & 0xC0) | ((mt << 4) & 0x30)
  }

  lemma MagicParts(ipVer: bv32, ver: bv8, mt: bv8)
    ensures Magic(ipVer, ver, mt) == (((ipVer & 0x0F) as bv8) | ((ver << 6) & 0xC0)) | ((mt << 4) & 0x30)
  {
  }

  /** `form_iwpm_msg` */
  function Form(p: Parms): (b: seq<bv8>)
    requires Shaped(p)
    ensures |b| == 64
  {
    var (mport, mip) := Tail(p);
    Packed(Magic(p.ipVer, p.ver, p.mt), p.pmtime, mport, p.apport, p.cpport, p.handle, p.cpip, p.apip, mip)
  }

  function Tail(p: Parms): (r: (bv16, seq<bv8>))
    requires Shaped(p)
    ensures |r.1| == IPADDR_SIZE
  {
    if p.mapped.Some? then p.mapped.value else (0, seq(IPADDR_SIZE, _ => 0))
  }

  /** The members of the message in the order of their declaration, without padding. */
  function Packed(magic: bv8, pmtime: bv8, reserved: bv16, apport: bv16, cpport: bv16, handle: bv64,
                  cpip: seq<bv8>, apip: seq<bv8>, mappedCpip: seq<bv8>): (b: seq<bv8>)
    requires |cpip| == |apip| == |mappedCpip| == IPADDR_SIZE
    ensures |b| == 64
  {
    Header(magic, pmtime, reserved, apport, cpport, handle) + (cpip + apip + mappedCpip)
  }

  function Header(magic: bv8, pmtime: bv8, reserved: bv16, apport: bv16, cpport: bv16, handle: bv64): (b: seq<bv8>)
    ensures |b| == 16
  {
    [magic, pmtime] + Be16(reserved) + Be16(apport) + Be16(cpport) + Be64(handle)
  }

  /** `parse_iwpm_msg` */
  function Parse(b: seq<bv8>): (r: Option<Parms>)
    requires |b| == 64
    ensures r.Some? ==> |r.value.apip| == IPADDR_SIZE && |r.value.cpip| == IPADDR_SIZE
  {
    var ipVer, ver, mt := (b[0] & 0x0F) as bv32, (b[0] & 0xC0) >> 6, (b[0] & 0x30) >> 4;
    if ipVer != 4 && ipVer != 6 then None
    else
      Some(Parms(ipVer, ver, mt, b[1], FromBe64(b[8..16]), FromBe16(b[4..6]), FromBe16(b[6..8]),
                 b[32..48], b[16..32], if mt == MT_REQ then Some((FromBe16(b[2..4]), b[48..64])) else None))
  }

  /** Parsing recovers the three packed fields exactly when they fit. */
  lemma MagicRoundTrip(ipVer: bv32, ver: bv8, mt: bv8)
    requires ipVer == 4 || ipVer == 6
    ensures var m := Magic(ipVer, ver, mt);
            && (m & 0x0F) as bv32 == ipVer
            && ((m & 0xC0) >> 6 == ver <==> ver < 4)
            && ((m & 0x30) >> 4 == mt <==> mt < 4)
  {
  }

  /** Where the members of a message are. */
  lemma Layout(magic: bv8, pmtime: bv8, reserved: bv16, apport: bv16, cpport: bv16, handle: bv64,
               cpip: seq<bv8>, apip: seq<bv8>, mappedCpip: seq<bv8>)
    requires |cpip| == |apip| == |mappedCpip| == IPADDR_SIZE
    ensures var b := Packed(magic, pmtime, reserved, apport, cpport, handle, cpip, apip, mappedCpip);
            && b[0] == magic && b[1] == pmtime
            && b[2..4] == Be16(reserved) && b[4..6] == Be16(apport) && b[6..8] == Be16(cpport)
            && b[8..16] == Be64(handle) && b[16..32] == cpip && b[32..48] == apip && b[48..64] == mappedCpip
  {
    HeaderLayout(magic, pmtime, reserved, apport, cpport, handle);
    hide Be16, Be64, Header;
    var h, ips := Header(magic, pmtime, reserved, apport, cpport, handle), cpip + apip + mappedCpip;
    var b := h + ips;
    forall i, j | 0 <= i <= j <= 16 ensures b[i..j] == h[i..j] {
      SliceOfFirst(h, ips, i, j);
    }
    forall i, j | 16 <= i <= j <= 64 ensures b[i..j] == ips[i - 16..j - 16] {
      SliceOfSecond(h, ips, i, j);
    }
    assert ips[0..16] == cpip && ips[16..32] == apip && ips[32..48] == mappedCpip;
  }

  lemma SliceOfFirst(a: seq<bv8>, b: seq<bv8>, i: nat, j: nat)
    requires i <= j <= |a|
    ensures (a + b)[i..j] == a[i..j]
  {
    assert forall k :: 0 <= k < j - i ==> (a + b)[i..j][k] == a[i..j][k];
  }

  lemma SliceOfSecond(a: seq<bv8>, b: seq<bv8>, i: nat, j: nat)
    requires |a| <= i <= j <= |a| + |b|
    ensures (a + b)[i..j] == b[i - |a|..j - |a|]
  {
    assert forall k :: 0 <= k < j - i ==> (a + b)[i..j][k] == b[i - |a|..j - |a|][k];
  }

  lemma HeaderLayout(magic: bv8, pmtime: bv8, reserved: bv16, apport: bv16, cpport: bv16, handle: bv64)
    ensures var b := Header(magic, pmtime, reserved, apport, cpport, handle);
            && b[0] == magic && b[1] == pmtime && b[2..4] == Be16(reserved)
            && b[4..6] == Be16(apport) && b[6..8] == Be16(cpport) && b[8..16] == Be64(handle)
  {
    hide Be16, Be64;
    var p, q, r, s := Be16(reserved), Be16(apport), Be16(cpport), Be64(handle);
    var b := [magic, pmtime] + p + q + r + s;
    assert b[2] == p[0] && b[3] == p[1] && b[4] == q[0] && b[5] == q[1] && b[6] == r[0] && b[7] == r[1];
    assert b[2..4] == [b[2], b[3]] && b[4..6] == [b[4], b[5]] && b[6..8] == [b[6], b[7]];
    assert p == [p[0], p[1]] && q == [q[0], q[1]] && r == [r[0], r[1]];
  }

  lemma FormLayout(p: Parms)
    requires Shaped(p)
    ensures var b := Form(p);
            && b[0] == Magic(p.ipVer, p.ver, p.mt) && b[1] == p.pmtime
            && b[2..4] == Be16(Tail(p).0) && b[4..6] == Be16(p.apport) && b[6..8] == Be16(p.cpport)
            && b[8..16] == Be64(p.handle) && b[16..32] == p.cpip && b[32..48] == p.apip && b[48..64] == Tail(p).1
  {
    hide Be16, Be64, Magic, Packed;
    Layout(Magic(p.ipVer, p.ver, p.mt), p.pmtime, Tail(p).0, p.apport, p.cpport, p.handle,
           p.cpip, p.apip, Tail(p).1);
  }

  /** Parsing a formed message gives back every parameter, exactly when protocol version and
      message type fit their two bits. */
  lemma ParseForm(p: Parms)
    requires Shaped(p) && (p.ipVer == 4 || p.ipVer == 6)
    ensures Parse(Form(p)) == Some(p) <==> p.ver < 4 && p.mt < 4
  {
    hide Be16, Be64, FromBe16, FromBe64, Magic, Form;
    FormLayout(p);
    MagicRoundTrip(p.ipVer, p.ver, p.mt);
    Be16RoundTrip(p.apport, [0, 0]);
    Be16RoundTrip(p.cpport, [0, 0]);
    Be16RoundTrip(Tail(p).0, [0, 0]);
    Be64RoundTrip(p.handle);
  }

  /** A message as forming leaves it: the fields of the mapped address are zero unless the
      message is a request. */
  predicate Canonical(b: seq<bv8>)
    requires |b| == 64
  {
    (b[0] & 0x30) >> 4 != MT_REQ ==> b[2..4] == [0, 0] && b[48..64] == seq(IPADDR_SIZE, _ => 0)
  }

  /** Forming what was parsed gives back the message. */
  lemma FormParse(b: seq<bv8>)
    requires |b| == 64 && Canonical(b) && Parse(b).Some?
    ensures Shaped(Parse(b).value) && Form(Parse(b).value) == b
  {
    hide Be16, Be64, FromBe16, FromBe64, Magic, Form;
    var p := Parse(b).value;
    FormLayout(p);
    MagicBack(b[0]);
    Be16RoundTrip(0, b[2..4]);
    Be16RoundTrip(0, b[4..6]);
    Be16RoundTrip(0, b[6..8]);
    Be64RoundTripBack(b[8..16]);
    ZeroBe16();
    SameFields(b, Form(p));
  }

  lemma ZeroBe16()
    ensures Be16(0) == [0, 0]
  {
  }

  lemma MagicBack(m: bv8)
    ensures Magic((m & 0x0F) as bv32, (m & 0xC0) >> 6, (m & 0x30) >> 4) == m
  {
  }

  lemma SameFields(b: seq<bv8>, c: seq<bv8>)
    requires |b| == |c| == 64 && b[0] == c[0] && b[1] == c[1]
    requires b[2..4] == c[2..4] && b[4..6] == c[4..6] && b[6..8] == c[6..8] && b[8..16] == c[8..16]
    requires b[16..32] == c[16..32] && b[32..48] == c[32..48] && b[48..64] == c[48..64]
    ensures b == c
  {
    assert forall x: seq<bv8> :: |x| == 64 ==>
      x == [x[0], x[1]] + x[2..4] + x[4..6] + x[6..8] + x[8..16] + x[16..32] + x[32..48] + x[48..64];
  }

  /** Length of a message on the wire: only a request is sent in full. */
  function Size(mt: bv8): nat {
    if mt == MT_REQ then MESSAGE_SIZE + IPADDR_SIZE else MESSAGE_SIZE
  }

  /** What the receiver finds in its buffer: the bytes sent, and behind a short message
      whatever the buffer held before. */
  function Received(p: Parms, before: seq<bv8>): (b: seq<bv8>)
    requires Shaped(p) && |before| == 64
    ensures |b| == 64
  {
    Form(p)[..Size(p.mt)] + before[Size(p.mt)..]
  }

  /** Cutting accepts, acks and rejects at 48 bytes loses nothing. */
  lemma ShortFormLosesNothing(p: Parms, before: seq<bv8>)
    requires Shaped(p) && (p.ipVer == 4 || p.ipVer == 6) && p.ver < 4 && p.mt < 4 && |before| == 64
    ensures Parse(Received(p, before)) == Some(p)
  {
    hide Be16, Be64, FromBe16, FromBe64, Magic, Form;
    ParseForm(p);
    MagicRoundTrip(p.ipVer, p.ver, p.mt);
    FormLayout(p);
    var b, c := Form(p), Received(p, before);
    if p.mt == MT_REQ {
      assert c == b;
    } else {
      assert c[..48] == b[..48];
      SameSlice(b, c, 4, 6);
      SameSlice(b, c, 6, 8);
      SameSlice(b, c, 8, 16);
      SameSlice(b, c, 16, 32);
      SameSlice(b, c, 32, 48);
    }
  }

  lemma SameSlice(b: seq<bv8>, c: seq<bv8>, i: nat, j: nat)
    requires |b| == |c| == 64 && b[..48] == c[..48] && i <= j <= 48
    ensures b[i..j] == c[i..j]
  {
    forall k | i <= k < j
      ensures b[k] == c[k]
    {
      assert b[k] == b[..48][k] && c[k] == c[..48][k];
    }
  }

  // ----- the messages of the protocol

  predicate FitsFamily(a: Addr, f: Family) {
    a.family == f && |a.ip| == IpLength(f)
  }

  /** All addresses of the message are of one Internet family. */
  predicate Sendable(m: Msg) {
    var f := m.ap.family;
    Internet(f) && FitsFamily(m.ap, f) && FitsFamily(m.cp, f) && (m.Req? ==> FitsFamily(m.mappedCp, f))
  }

  /** `copy_iwpm_sockaddr` into a 16-byte field; an IPv4 address leaves the rest as it was. */
  function Store(ip: seq<bv8>, field: seq<bv8>): (r: seq<bv8>)
    requires |ip| <= |field| == IPADDR_SIZE
    ensures |r| == IPADDR_SIZE
  {
    ip + field[|ip|..]
  }

  function TypeOf(m: Msg): bv8 {
    match m
    case Req(_, _, _, _) => MT_REQ
    case Acc(_, _, _) => MT_ACC
    case Ack(_, _, _) => MT_ACK
    case Rej(_, _, _) => MT_REJ
  }

  /** The parameters sent for `m`, from the address fields' previous contents. */
  function ToParms(m: Msg, apip: seq<bv8>, cpip: seq<bv8>, mappedCpip: seq<bv8>): (p: Parms)
    requires Sendable(m) && |apip| == |cpip| == |mappedCpip| == IPADDR_SIZE
    ensures Shaped(p)
  {
    Parms(if m.ap.family == Inet then 4 else 6, 0, TypeOf(m), 0, m.handle, m.ap.port, m.cp.port,
          Store(m.ap.ip, apip), Store(m.cp.ip, cpip),
          if m.Req? then Some((m.mappedCp.port, Store(m.mappedCp.ip, mappedCpip))) else None)
  }

  /** The first byte of a message: its type above the IP version. */
  function FirstByte(m: Msg): bv8 {
    var v: bv8 := if m.ap.family == Inet then 4 else 6;
    match m
    case Req(_, _, _, _) => v
    case Acc(_, _, _) => 0x10 | v
    case Ack(_, _, _) => 0x20 | v
    case Rej(_, _, _) => 0x30 | v
  }

  /** The header of a message on the wire: type and IP version, then the ports and the handle. */
  lemma HeaderOnTheWire(m: Msg, apip: seq<bv8>, cpip: seq<bv8>, mappedCpip: seq<bv8>)
    requires Sendable(m) && |apip| == |cpip| == |mappedCpip| == IPADDR_SIZE
    ensures var b := Form(ToParms(m, apip, cpip, mappedCpip));
            && b[0] == FirstByte(m) && b[1] == 0
            && b[4..6] == Be16(m.ap.port) && b[6..8] == Be16(m.cp.port) && b[8..16] == Be64(m.handle)
            && (m.Req? ==> b[2..4] == Be16(m.mappedCp.port))
  {
    hide Be16, Be64, Form, Store, Magic, FirstByte, Sendable;
    FormLayout(ToParms(m, apip, cpip, mappedCpip));
    FirstByteIs(m);
  }

  /** The addresses of a message on the wire, each at the start of its field, whatever the fields
      held before. */
  lemma AddressesOnTheWire(m: Msg, apip: seq<bv8>, cpip: seq<bv8>, mappedCpip: seq<bv8>)
    requires Sendable(m) && |apip| == |cpip| == |mappedCpip| == IPADDR_SIZE
    ensures var b, len := Form(ToParms(m, apip, cpip, mappedCpip)), |m.ap.ip|;
            && b[16..16 + len] == m.cp.ip && b[32..32 + len] == m.ap.ip
            && (m.Req? ==> b[48..48 + len] == m.mappedCp.ip)
  {
    hide Be16, Be64, Form, Store, Magic, Sendable;
    var p := ToParms(m, apip, cpip, mappedCpip);
    FormLayout(p);
    OneLength(m);
    FieldStart(Form(p), 16, m.cp.ip, cpip);
    FieldStart(Form(p), 32, m.ap.ip, apip);
    if m.Req? {
      FieldStart(Form(p), 48, m.mappedCp.ip, mappedCpip);
    }
  }

  lemma OneLength(m: Msg)
    requires Sendable(m)
    ensures |m.ap.ip| == |m.cp.ip| <= IPADDR_SIZE && (m.Req? ==> |m.mappedCp.ip| == |m.ap.ip|)
  {
  }

  lemma FirstByteIs(m: Msg)
    requires Sendable(m)
    ensures Magic(if m.ap.family == Inet then 4 else 6, 0, TypeOf(m)) == FirstByte(m)
  {
  }

  lemma FieldStart(b: seq<bv8>, at: nat, ip: seq<bv8>, field: seq<bv8>)
    requires at + IPADDR_SIZE <= |b| && |ip| <= |field| == IPADDR_SIZE
    requires b[at..at + IPADDR_SIZE] == Store(ip, field)
    ensures b[at..at + |ip|] == ip
  {
    Stored(ip, field);
    hide Store;
    assert b[at..at + |ip|] == b[at..at + IPADDR_SIZE][..|ip|];
  }

  lemma Stored(ip: seq<bv8>, field: seq<bv8>)
    requires |ip| <= |field| == IPADDR_SIZE
    ensures Store(ip, field)[..|ip|] == ip
  {
  }

  function LoadAddr(f: Family, ip: seq<bv8>, port: bv16): Addr
    requires |ip| == IPADDR_SIZE
  {
    Addr(f, ip[..IpLength(f)], port)
  }

  /** The message a daemon acts on. */
  function FromParms(p: Parms): Msg
    requires Shaped(p) && p.mt < 4
  {
    var f := if p.ipVer == 4 then Inet else Inet6;
    var ap, cp := LoadAddr(f, p.apip, p.apport), LoadAddr(f, p.cpip, p.cpport);
    if p.mt == MT_REQ then Req(p.handle, ap, cp, LoadAddr(f, p.mapped.value.1, p.mapped.value.0))
    else if p.mt == MT_ACC then Acc(p.handle, ap, cp)
    else if p.mt == MT_ACK then Ack(p.handle, ap, cp)
    else Rej(p.handle, ap, cp)
  }

  /** The wire is transparent: whatever the unused bytes of the sender's and the receiver's
      buffers hold, the receiver acts on exactly the message that was sent. */
  lemma WireIsTransparent(m: Msg, apip: seq<bv8>, cpip: seq<bv8>, mappedCpip: seq<bv8>, before: seq<bv8>)
    requires Sendable(m) && |apip| == |cpip| == |mappedCpip| == IPADDR_SIZE && |before| == 64
    ensures var r := Parse(Received(ToParms(m, apip, cpip, mappedCpip), before));
            r.Some? && Shaped(r.value) && r.value.mt < 4 && FromParms(r.value) == m
  {
    var p := ToParms(m, apip, cpip, mappedCpip);
    ShortFormLosesNothing(p, before);
    assert Store(m.ap.ip, apip)[..|m.ap.ip|] == m.ap.ip && Store(m.cp.ip, cpip)[..|m.cp.ip|] == m.cp.ip;
    if m.Req? {
      assert Store(m.mappedCp.ip, mappedCpip)[..|m.mappedCp.ip|] == m.mappedCp.ip;
    }
  }

  // ----- the message buffer

  /** `iwpm_wire_msg`: the message as the daemon fills it in and reads it. */
  class WireMsg {
    var magic: bv8
    var pmtime: bv8
    var reserved: bv16
    var apport: bv16
    var cpport: bv16
    var handle: bv64
    var cpip: seq<bv8>
    var apip: seq<bv8>
    var mappedCpip: seq<bv8>

    predicate Valid()
      reads this
    {
      |cpip| == |apip| == |mappedCpip| == IPADDR_SIZE
    }

    /** The message as it lies in memory. */
    function Bytes(): (b: seq<bv8>)
      requires Valid()
      reads this
      ensures |b| == 64
    {
      Packed(magic, pmtime, reserved, apport, cpport, handle, cpip, apip, mappedCpip)
    }

    /** `form_iwpm_msg`: whatever the buffer held before is overwritten. */
    method FormMsg(p: Parms)
      requires Shaped(p)
      modifies this
      ensures Valid() && Bytes() == Form(p)
    {
      hide Packed, Be16, Be64, Magic;
      MagicParts(p.ipVer, p.ver, p.mt);
      reserved, mappedCpip := 0, seq(IPADDR_SIZE, _ => 0);
      pmtime := p.pmtime;
      handle := p.handle;
      magic := (p.ipVer & 0x0F) as bv8;
      magic := magic | ((p.ver << 6) & 0xC0);
      magic := magic | ((p.mt << 4) & 0x30);
      apport, cpport := p.apport, p.cpport;
      apip, cpip := p.apip, p.cpip;
      if p.mt == MT_REQ {
        reserved, mappedCpip := p.mapped.value.0, p.mapped.value.1;
      }
    }

    /** `parse_iwpm_msg` */
    method ParseMsg() returns (r: Option<Parms>)
      requires Valid()
      ensures r == Parse(Bytes())
    {
      Layout(magic, pmtime, reserved, apport, cpport, handle, cpip, apip, mappedCpip);
      Be16RoundTrip(reserved, [0, 0]);
      Be16RoundTrip(apport, [0, 0]);
      Be16RoundTrip(cpport, [0, 0]);
      Be64RoundTrip(handle);
      hide Be16, Be64, FromBe16, FromBe64, Packed;
      var ipVer: bv32 := (magic & 0x0F) as bv32;
      if ipVer != 4 && ipVer != 6 {
        return None;
      }
      var ver, mt := (magic & 0xC0) >> 6, (magic & 0x30) >> 4;
      r := Some(Parms(ipVer, ver, mt, pmtime, handle, apport, cpport, apip, cpip,
                      if mt == MT_REQ then Some((reserved, mappedCpip)) else None));
    }
  }
}
