/**
 The decoder inverts the encoding of RFC 4271 section 4 and RFC 5492 section 4: any sequence of valid messages,
 laid out back to back, comes back with exactly its types, offsets, lengths and contents.
 */
module BgpInverse {
  import opened Wrappers
  import opened Bgp

  // ---------- encoding ----------

  function Enc16(n: nat): (b: seq<byte>)
    requires n < 65536
    ensures |b| == 2 && Word16(b[0], b[1]) == n
  {
    [(n / 256) as byte, (n % 256) as byte]
  }

  function Enc32(n: nat): (b: seq<byte>)
    requires n < 0x1_0000_0000
    ensures |b| == 4 && Word32(b) == n
  {
    Enc16(n / 65536) + Enc16(n % 65536)
  }

  /** Section 4.3: only the bytes the length needs are sent. */
  datatype Prefix = Prefix(addr: seq<byte>, bits: nat)

  predicate ValidPrefix(p: Prefix) {
    p.bits <= 32 && |p.addr| == 4 && forall j :: PrefixBytes(p.bits) <= j < 4 ==> p.addr[j] == 0
  }

  function EncodePrefix(p: Prefix): seq<byte>
    requires ValidPrefix(p)
  {
    [p.bits as byte] + p.addr[..PrefixBytes(p.bits)]
  }

  datatype Attr = Attr(flags: byte, atype: byte, value: seq<byte>)

  /** The extended-length flag decides whether one or two length bytes follow. */
  predicate Extended(a: Attr) {
    a.flags / 16 % 2 == 1
  }

  predicate ValidAttr(a: Attr) {
    |a.value| < if Extended(a) then 65536 else 256
  }

  function EncodeAttr(a: Attr): seq<byte>
    requires ValidAttr(a)
  {
    [a.flags, a.atype] + (if Extended(a) then Enc16(|a.value|) else [|a.value| as byte]) + a.value
  }

  function EncodeTlv(t: byte, value: seq<byte>): seq<byte>
    requires |value| < 256
  {
    [t, |value| as byte] + value
  }

  datatype Cap = Cap(code: byte, value: seq<byte>)

  predicate ValidCap(c: Cap) {
    |c.value| < 256
  }

  function EncodeCap(c: Cap): seq<byte>
    requires ValidCap(c)
  {
    EncodeTlv(c.code, c.value)
  }

  datatype Param = CapsParam(caps: seq<Cap>) | OtherParam(ptype: byte, value: seq<byte>)

  predicate ValidParam(p: Param) {
    match p
    case CapsParam(caps) => (forall c :: c in caps ==> ValidCap(c)) && |EncodeCaps(caps)| < 256
    case OtherParam(ptype, value) => ptype != 2 && |value| < 256
  }

  function ParamValue(p: Param): seq<byte>
    requires ValidParam(p)
  {
    match p
    case CapsParam(caps) => EncodeCaps(caps)
    case OtherParam(_, value) => value
  }

  function ParamType(p: Param): byte {
    if p.CapsParam? then 2 else p.ptype
  }

  function EncodeParam(p: Param): seq<byte>
    requires ValidParam(p)
  {
    EncodeTlv(ParamType(p), ParamValue(p))
  }

  function EncodePrefixes(ps: seq<Prefix>): seq<byte>
    requires forall p :: p in ps ==> ValidPrefix(p)
  {
    if ps == [] then [] else EncodePrefix(ps[0]) + EncodePrefixes(ps[1..])
  }

  function EncodeAttrs(xs: seq<Attr>): seq<byte>
    requires forall a :: a in xs ==> ValidAttr(a)
  {
    if xs == [] then [] else EncodeAttr(xs[0]) + EncodeAttrs(xs[1..])
  }

  function EncodeCaps(cs: seq<Cap>): seq<byte>
    requires forall c :: c in cs ==> ValidCap(c)
  {
    if cs == [] then [] else EncodeCap(cs[0]) + EncodeCaps(cs[1..])
  }

  function EncodeParams(ps: seq<Param>): seq<byte>
    requires forall p :: p in ps ==> ValidParam(p)
  {
    if ps == [] then [] else EncodeParam(ps[0]) + EncodeParams(ps[1..])
  }

  datatype Msg =
    | OpenMsg(version: byte, asn: nat, hold: nat, id: seq<byte>, params: seq<Param>)
    | UpdateMsg(withdrawn: seq<Prefix>, attrs: seq<Attr>, nlri: seq<Prefix>)
    | NotificationMsg(code: byte, sub: byte, data: seq<byte>)
    | KeepaliveMsg
    | RefreshMsg(afi: nat, reserved: byte, safi: byte)

  predicate ValidParts(m: Msg) {
    match m
    case OpenMsg(_, asn, hold, id, params) =>
      && asn < 65536 && hold < 65536 && |id| == 4
      && (forall p :: p in params ==> ValidParam(p)) && |EncodeParams(params)| < 256
    case UpdateMsg(withdrawn, attrs, nlri) =>
      && (forall p :: p in withdrawn ==> ValidPrefix(p)) && |EncodePrefixes(withdrawn)| < 65536
      && (forall a :: a in attrs ==> ValidAttr(a)) && |EncodeAttrs(attrs)| < 65536
      && (forall p :: p in nlri ==> ValidPrefix(p))
    case NotificationMsg(_, _, _) => true
    case KeepaliveMsg => true
    case RefreshMsg(afi, _, _) => afi < 65536
  }

  function EncodeBody(m: Msg): seq<byte>
    requires ValidParts(m)
  {
    match m
    case OpenMsg(version, asn, hold, id, params) =>
      [version] + Enc16(asn) + Enc16(hold) + id + [|EncodeParams(params)| as byte] + EncodeParams(params)
    case UpdateMsg(withdrawn, attrs, nlri) =>
      Enc16(|EncodePrefixes(withdrawn)|) + EncodePrefixes(withdrawn)
      + Enc16(|EncodeAttrs(attrs)|) + EncodeAttrs(attrs) + EncodePrefixes(nlri)
    case NotificationMsg(code, sub, data) => [code, sub] + data
    case KeepaliveMsg => []
    case RefreshMsg(afi, reserved, safi) => Enc16(afi) + [reserved, safi]
  }

  /** Section 4.1: a message is at most 4096 bytes. */
  predicate ValidMsg(m: Msg) {
    ValidParts(m) && HEADER + |EncodeBody(m)| <= 4096
  }

  function TypeOf(m: Msg): Kind {
    match m
    case OpenMsg(_, _, _, _, _) => OPEN
    case UpdateMsg(_, _, _) => UPDATE
    case NotificationMsg(_, _, _) => NOTIFICATION
    case KeepaliveMsg => KEEPALIVE
    case RefreshMsg(_, _, _) => ROUTE_REFRESH
  }

  function TypeByte(k: Kind): byte {
    match k
    case OPEN => 1
    case UPDATE => 2
    case NOTIFICATION => 3
    case KEEPALIVE => 4
    case ROUTE_REFRESH => 5
  }

  function Ones(n: nat): seq<byte> {
    seq(n, _ => 255)
  }

  function EncodeHeader(k: Kind, length: nat): seq<byte>
    requires length < 65536
  {
    Ones(16) + Enc16(length) + [TypeByte(k)]
  }

  function Encode(m: Msg): (b: seq<byte>)
    requires ValidMsg(m)
    ensures |b| == HEADER + |EncodeBody(m)|
  {
    EncodeHeader(TypeOf(m), HEADER + |EncodeBody(m)|) + EncodeBody(m)
  }

  function EncodeAll(ms: seq<Msg>): seq<byte>
    requires forall m :: m in ms ==> ValidMsg(m)
  {
    if ms == [] then [] else Encode(ms[0]) + EncodeAll(ms[1..])
  }

  // ---------- what should come back ----------

  function PrefixFieldsOf(ps: seq<Prefix>, base: nat): seq<Field> {
    if ps == [] then []
    else
      var n := 1 + PrefixBytes(ps[0].bits);
      [Leaf(PrefixOf(ps[0].addr, ps[0].bits), base, n)] + PrefixFieldsOf(ps[1..], base + n)
  }

  function AttrFieldsOf(xs: seq<Attr>, base: nat): seq<Field> {
    if xs == [] then []
    else
      var n := (if Extended(xs[0]) then 4 else 3) + |xs[0].value|;
      [Leaf(Attribute(xs[0].atype, xs[0].value), base, n)] + AttrFieldsOf(xs[1..], base + n)
  }

  function CapFieldsOf(cs: seq<Cap>, base: nat): seq<Field> {
    if cs == [] then []
    else
      var n := 2 + |cs[0].value|;
      [Leaf(Capability(cs[0].code, cs[0].value), base, n)] + CapFieldsOf(cs[1..], base + n)
  }

  function ParamFields(p: Param, base: nat): seq<Field> {
    match p
    case CapsParam(caps) => CapFieldsOf(caps, base + 2)
    case OtherParam(ptype, value) => [Leaf(Parameter(ptype, |value|), base, 2 + |value|)]
  }

  function ParamFieldsOf(ps: seq<Param>, base: nat): seq<Field>
    requires forall p :: p in ps ==> ValidParam(p)
  {
    if ps == [] then [] else ParamFields(ps[0], base) + ParamFieldsOf(ps[1..], base + 2 + |ParamValue(ps[0])|)
  }

  function CapAs(cs: seq<Cap>, found: nat): nat {
    if cs == [] then found
    else CapAs(cs[1..], CapFound(cs[0], found))
  }

  function LaterOf(p: Param, found: nat): nat {
    var here := if p.CapsParam? then CapAs(p.caps, 0) else 0;
    if here != 0 then here else found
  }

  /** The last nonzero 4-octet AS the capabilities announce. */
  function RealAs(ps: seq<Param>, found: nat): nat {
    if ps == [] then found else RealAs(ps[1..], LaterOf(ps[0], found))
  }

  function ContentOf(m: Msg, base: nat): Body
    requires ValidParts(m)
  {
    match m
    case OpenMsg(version, asn, hold, id, params) =>
      var announced := RealAs(params, 0);
      Body(OpenWith(if announced != 0 then announced else asn, hold),
           [Leaf(Version(version), base, 1), Leaf(MyAs(asn), base + 1, 2), Leaf(HoldTime(hold), base + 3, 2),
            Leaf(RouterId(id), base + 5, 4)]
           + if params == [] then []
             else [Field(OptionalParameters, base + 10, |EncodeParams(params)|, ParamFieldsOf(params, base + 10))])
    case UpdateMsg(withdrawn, attrs, nlri) =>
      var w, a := |EncodePrefixes(withdrawn)|, |EncodeAttrs(attrs)|;
      Body(if withdrawn == [] && attrs == [] && nlri == [] then EndOfRib else if withdrawn != [] && nlri == [] then Withdraws else Announces,
           Group(PathAttributes, base + 2 + w, 2 + a, AttrFieldsOf(attrs, base + 4 + w))
           + Group(Nlri, base + 4 + w + a, |EncodePrefixes(nlri)|, PrefixFieldsOf(nlri, base + 4 + w + a))
           + Group(WithdrawnRoutes, base, 2 + w, PrefixFieldsOf(withdrawn, base + 2)))
    case NotificationMsg(code, sub, _) =>
      Body(Plain, [Leaf(ErrorCode(code), base, 1), Leaf(Subcode(sub), base + 1, 1)])
    case KeepaliveMsg => Body(Plain, [])
    case RefreshMsg(afi, _, safi) => Body(Plain, [Leaf(Family(afi, safi), base, 4)])
  }

  /** The header's lines, each where its bytes stand in the encoded header: marker, length, type. */
  function HeaderOf(m: Msg, pos: nat): seq<Field>
    requires ValidMsg(m)
  {
    var marker, length, kind := Ones(16), Enc16(|Encode(m)|), [TypeByte(TypeOf(m))];
    [Field(Marker, pos, |marker|, []),
     Field(MessageLength(|Encode(m)|), pos + |marker|, |length|, []),
     Field(MessageType(TypeOf(m)), pos + |marker + length|, |kind|, [])]
  }

  function MessageOf(m: Msg, pos: nat): Message
    requires ValidMsg(m)
  {
    var content := ContentOf(m, pos + HEADER);
    Message(Some(TypeOf(m)), content.summary, pos, |Encode(m)|, HeaderOf(m, pos) + content.fields)
  }

  function MessagesOf(ms: seq<Msg>, pos: nat): seq<Message>
    requires forall m :: m in ms ==> ValidMsg(m)
  {
    if ms == [] then [] else [MessageOf(ms[0], pos)] + MessagesOf(ms[1..], pos + HEADER + |EncodeBody(ms[0])|)
  }

  // ---------- round trips ----------

  lemma PaddedBack(p: Prefix)
    requires ValidPrefix(p)
    ensures PrefixBytes(p.bits) <= 4 && Padded(p.addr[..PrefixBytes(p.bits)]) == p.addr
  {
  }

  lemma PrefixFirst(p: Prefix, rest: seq<byte>, base: nat)
    requires ValidPrefix(p)
    ensures var n := 1 + PrefixBytes(p.bits);
            Prefixes(EncodePrefix(p) + rest, base) == [Leaf(PrefixOf(p.addr, p.bits), base, n)] + Prefixes(rest, base + n)
  {
    hide Padded;
    var n := PrefixBytes(p.bits);
    var buf := EncodePrefix(p) + rest;
    PaddedBack(p);
    assert buf[0] as nat == p.bits && buf[1..1 + n] == p.addr[..n] && buf[1 + n..] == rest;
  }

  lemma PrefixesUnfold(ps: seq<Prefix>, base: nat)
    requires ps != [] && forall p :: p in ps ==> ValidPrefix(p)
    ensures EncodePrefixes(ps) == EncodePrefix(ps[0]) + EncodePrefixes(ps[1..])
    ensures var n := 1 + PrefixBytes(ps[0].bits);
            PrefixFieldsOf(ps, base) == [Leaf(PrefixOf(ps[0].addr, ps[0].bits), base, n)] + PrefixFieldsOf(ps[1..], base + n)
  {
  }

  lemma {:induction false} PrefixesBack(ps: seq<Prefix>, base: nat)
    requires forall p :: p in ps ==> ValidPrefix(p)
    ensures Prefixes(EncodePrefixes(ps), base) == PrefixFieldsOf(ps, base)
  {
    hide Prefixes, ValidPrefix, EncodePrefix;
    if ps == [] {
      NoFields(base);
    } else {
      PrefixesUnfold(ps, base);
      hide EncodePrefixes, PrefixFieldsOf;
      PrefixFirst(ps[0], EncodePrefixes(ps[1..]), base);
      PrefixesBack(ps[1..], base + 1 + PrefixBytes(ps[0].bits));
    }
  }

  lemma AttrHeaderBack(a: Attr, rest: seq<byte>)
    requires ValidAttr(a)
    ensures var hdr := if Extended(a) then 4 else 3;
            var buf := EncodeAttr(a) + rest;
            && AttributeHeader(buf) == Some((hdr, |a.value|)) && |buf| == hdr + |a.value| + |rest|
            && buf[1] == a.atype && buf[hdr..hdr + |a.value|] == a.value && buf[hdr + |a.value|..] == rest
  {
  }

  lemma AttributeFirst(a: Attr, rest: seq<byte>, base: nat)
    requires ValidAttr(a)
    ensures var n := (if Extended(a) then 4 else 3) + |a.value|;
            Attributes(EncodeAttr(a) + rest, base) == [Leaf(Attribute(a.atype, a.value), base, n)] + Attributes(rest, base + n)
  {
    hide AttributeHeader, EncodeAttr;
    AttrHeaderBack(a, rest);
  }

  lemma AttributesUnfold(xs: seq<Attr>, base: nat)
    requires xs != [] && forall a :: a in xs ==> ValidAttr(a)
    ensures EncodeAttrs(xs) == EncodeAttr(xs[0]) + EncodeAttrs(xs[1..])
    ensures var n := (if Extended(xs[0]) then 4 else 3) + |xs[0].value|;
            AttrFieldsOf(xs, base) == [Leaf(Attribute(xs[0].atype, xs[0].value), base, n)] + AttrFieldsOf(xs[1..], base + n)
  {
  }

  lemma {:induction false} AttributesBack(xs: seq<Attr>, base: nat)
    requires forall a :: a in xs ==> ValidAttr(a)
    ensures Attributes(EncodeAttrs(xs), base) == AttrFieldsOf(xs, base)
  {
    hide Attributes, ValidAttr, EncodeAttr, Extended;
    if xs == [] {
      NoFields(base);
    } else {
      AttributesUnfold(xs, base);
      hide EncodeAttrs, AttrFieldsOf;
      AttributeFirst(xs[0], EncodeAttrs(xs[1..]), base);
      AttributesBack(xs[1..], base + (if Extended(xs[0]) then 4 else 3) + |xs[0].value|);
    }
  }

  lemma TlvBack(t: byte, value: seq<byte>, rest: seq<byte>)
    requires |value| < 256
    ensures Tlv(EncodeTlv(t, value) + rest) == Some((t, value, rest))
  {
  }

  function CapFound(c: Cap, found: nat): nat {
    if c.code == 65 && |c.value| == 4 then Word32(c.value) else found
  }

  lemma CapabilitiesFirst(buf: seq<byte>, base: nat, found: nat, c: Cap, rest: seq<byte>)
    requires Tlv(buf) == Some((c.code, c.value, rest))
    ensures Capabilities(buf, base) == [Leaf(Capability(c.code, c.value), base, 2 + |c.value|)] + Capabilities(rest, base + 2 + |c.value|)
    ensures CapabilityAs(buf, found) == CapabilityAs(rest, CapFound(c, found))
  {
  }

  lemma CapabilitiesUnfold(cs: seq<Cap>, base: nat, found: nat)
    requires cs != [] && forall c :: c in cs ==> ValidCap(c)
    ensures EncodeCaps(cs) == EncodeCap(cs[0]) + EncodeCaps(cs[1..])
    ensures CapFieldsOf(cs, base) ==
            [Leaf(Capability(cs[0].code, cs[0].value), base, 2 + |cs[0].value|)] + CapFieldsOf(cs[1..], base + 2 + |cs[0].value|)
    ensures CapAs(cs, found) == CapAs(cs[1..], CapFound(cs[0], found))
  {
  }

  lemma {:induction false} CapabilitiesBack(cs: seq<Cap>, base: nat, found: nat)
    requires forall c :: c in cs ==> ValidCap(c)
    ensures Capabilities(EncodeCaps(cs), base) == CapFieldsOf(cs, base)
    ensures CapabilityAs(EncodeCaps(cs), found) == CapAs(cs, found)
  {
    hide Tlv, EncodeTlv, CapFound;
    if cs == [] {
      ShortTail([]);
    } else {
      assert ValidCap(cs[0]);
      CapabilitiesUnfold(cs, base, found);
      hide Capabilities, CapabilityAs, EncodeCaps, CapFieldsOf, CapAs;
      var c, rest := cs[0], EncodeCaps(cs[1..]);
      TlvBack(c.code, c.value, rest);
      CapabilitiesFirst(EncodeCap(c) + rest, base, found, c, rest);
      CapabilitiesBack(cs[1..], base + 2 + |c.value|, CapFound(c, found));
    }
  }

  lemma ParameterBack(p: Param, rest: seq<byte>, base: nat, found: nat)
    requires ValidParam(p)
    ensures var value := ParamValue(p);
            && Tlv(EncodeParam(p) + rest) == Some((ParamType(p), value, rest))
            && ParameterFields(ParamType(p), value, base) == ParamFields(p, base)
            && LaterAs(ParamType(p), value, found) == LaterOf(p, found)
  {
    hide Tlv, Capabilities, CapabilityAs, CapAs, CapFieldsOf, EncodeCaps, EncodeTlv;
    TlvBack(ParamType(p), ParamValue(p), rest);
    if p.CapsParam? { CapabilitiesBack(p.caps, base + 2, 0); }
  }

  lemma ParametersFirst(buf: seq<byte>, base: nat, found: nat, ptype: byte, value: seq<byte>, rest: seq<byte>)
    requires Tlv(buf) == Some((ptype, value, rest))
    ensures Parameters(buf, base) == ParameterFields(ptype, value, base) + Parameters(rest, base + 2 + |value|)
    ensures ParameterAs(buf, found) == ParameterAs(rest, LaterAs(ptype, value, found))
  {
    hide Tlv, ParameterFields, LaterAs;
  }

  lemma ParametersUnfold(ps: seq<Param>, base: nat, found: nat)
    requires ps != [] && forall p :: p in ps ==> ValidParam(p)
    ensures EncodeParams(ps) == EncodeParam(ps[0]) + EncodeParams(ps[1..])
    ensures ParamFieldsOf(ps, base) == ParamFields(ps[0], base) + ParamFieldsOf(ps[1..], base + 2 + |ParamValue(ps[0])|)
    ensures RealAs(ps, found) == RealAs(ps[1..], LaterOf(ps[0], found))
  {
  }

  lemma {:induction false} ParametersBack(ps: seq<Param>, base: nat, found: nat)
    requires forall p :: p in ps ==> ValidParam(p)
    ensures Parameters(EncodeParams(ps), base) == ParamFieldsOf(ps, base)
    ensures ParameterAs(EncodeParams(ps), found) == RealAs(ps, found)
  {
    hide Tlv, EncodeParam, ParameterFields, ParamFields, LaterAs, LaterOf, ValidParam, ParamValue, ParamType;
    if ps == [] {
      ShortTail([]);
    } else {
      ParametersUnfold(ps, base, found);
      hide Parameters, ParameterAs, EncodeParams, ParamFieldsOf, RealAs;
      var p, rest := ps[0], EncodeParams(ps[1..]);
      ParameterBack(p, rest, base, found);
      ParametersFirst(EncodeParam(p) + rest, base, found, ParamType(p), ParamValue(p), rest);
      ParametersBack(ps[1..], base + 2 + |ParamValue(p)|, LaterOf(p, found));
    }
  }

  lemma OpenBack(m: Msg, base: nat)
    requires m.OpenMsg? && ValidParts(m)
    ensures OpenBody(EncodeBody(m), base) == ContentOf(m, base)
  {
    hide Parameters, ParameterAs, ParamFieldsOf, RealAs, Word16, ValidParam;
    var body, params := EncodeBody(m), EncodeParams(m.params);
    assert body[..10] == [m.version] + Enc16(m.asn) + Enc16(m.hold) + m.id + [|params| as byte];
    assert body[10..] == params && body[5..9] == m.id && body[10..10 + |params|] == params;
    assert body[1..3] == Enc16(m.asn) && body[3..5] == Enc16(m.hold);
    ParametersBack(m.params, base + 10, 0);
    assert m.params == [] <==> params == [] by { ParamsEmpty(m.params); }
    if m.params == [] { assert RealAs([], 0) == 0 by { NoAs(); } }
  }

  lemma NoAs()
    ensures RealAs([], 0) == 0
  {
  }

  lemma ParamsEmpty(ps: seq<Param>)
    requires forall p :: p in ps ==> ValidParam(p)
    ensures ps == [] <==> EncodeParams(ps) == []
  {
  }

  lemma BlockBack(block: seq<byte>, rest: seq<byte>)
    requires |block| < 65536
    ensures Block(Enc16(|block|) + block + rest) == Some((block, rest))
  {
  }

  lemma UpdateBlocks(w: seq<byte>, a: seq<byte>, n: seq<byte>)
    requires |w| < 65536 && |a| < 65536
    ensures var rest := Enc16(|a|) + a + n;
            Block(Enc16(|w|) + w + Enc16(|a|) + a + n) == Some((w, rest)) && Block(rest) == Some((a, n))
  {
    hide Block;
    assert Enc16(|w|) + w + Enc16(|a|) + a + n == Enc16(|w|) + w + (Enc16(|a|) + a + n);
    BlockBack(w, Enc16(|a|) + a + n);
    BlockBack(a, n);
  }

  lemma UpdateBack(m: Msg, base: nat)
    requires m.UpdateMsg? && ValidParts(m)
    ensures UpdateBody(EncodeBody(m), base) == ContentOf(m, base)
  {
    hide Prefixes, Attributes, EncodePrefixes, EncodeAttrs, PrefixFieldsOf, AttrFieldsOf, Block, ValidPrefix, ValidAttr, Group,
      Enc16, Word16;
    var w, a, n := EncodePrefixes(m.withdrawn), EncodeAttrs(m.attrs), EncodePrefixes(m.nlri);
    PrefixesBack(m.withdrawn, base + 2);
    AttributesBack(m.attrs, base + 4 + |w|);
    PrefixesBack(m.nlri, base + 4 + |w| + |a|);
    EmptyLists(m.withdrawn, m.attrs, base + 2);
    EmptyLists(m.nlri, m.attrs, base + 4 + |w| + |a|);
    UpdateBlocks(w, a, n);
  }

  lemma EmptyLists(ps: seq<Prefix>, xs: seq<Attr>, base: nat)
    requires forall p :: p in ps ==> ValidPrefix(p)
    requires forall a :: a in xs ==> ValidAttr(a)
    ensures PrefixFieldsOf(ps, base) == [] <==> ps == []
    ensures EncodeAttrs(xs) == [] <==> xs == []
  {
  }

  lemma BodyBack(m: Msg, base: nat)
    requires ValidParts(m)
    ensures BodyOf(TypeOf(m), EncodeBody(m), base) == ContentOf(m, base)
  {
    hide OpenBody, UpdateBody;
    match m
    case OpenMsg(_, _, _, _, _) => OpenBack(m, base);
    case UpdateMsg(_, _, _) => UpdateBack(m, base);
    case _ =>
  }

  lemma HeaderBack(k: Kind, length: nat, rest: seq<byte>)
    requires HEADER <= length <= 4096
    ensures |EncodeHeader(k, length)| == HEADER
    ensures Header(EncodeHeader(k, length) + rest) == Some((k, length))
  {
  }

  lemma Parts<T>(x: seq<T>, y: seq<T>, z: seq<T>)
    ensures x + y + z == x + (y + z) && (x + y + z)[|x|..|x| + |y|] == y && (x + y + z)[|x| + |y|..] == z
  {
  }

  lemma MessagesFirst(payload: seq<byte>, pos: nat, first: bool, kind: Kind, length: nat)
    requires |payload| >= HEADER && Header(payload) == Some((kind, length)) && length <= |payload|
    ensures Messages(payload, pos, first) ==
            [MessageAt(kind, payload[HEADER..length], pos, length)] + Messages(payload[length..], pos + length, false)
  {
  }

  lemma EncodeBack(m: Msg, rest: seq<byte>, pos: nat)
    requires ValidMsg(m)
    ensures var payload := Encode(m) + rest;
            var length := HEADER + |EncodeBody(m)|;
            && |payload| >= length && Header(payload) == Some((TypeOf(m), length))
            && payload[length..] == rest && MessageAt(TypeOf(m), payload[HEADER..length], pos, length) == MessageOf(m, pos)
  {
    hide BodyOf, ContentOf, EncodeBody, Header, EncodeHeader, ValidParts;
    var body := EncodeBody(m);
    var length := HEADER + |body|;
    var header := EncodeHeader(TypeOf(m), length);
    HeaderBack(TypeOf(m), length, body + rest);
    Parts(header, body, rest);
    BodyBack(m, pos + HEADER);
  }

  lemma MessagesUnfold(ms: seq<Msg>, pos: nat)
    requires ms != [] && forall m :: m in ms ==> ValidMsg(m)
    ensures EncodeAll(ms) == Encode(ms[0]) + EncodeAll(ms[1..])
    ensures ValidParts(ms[0])
    ensures MessagesOf(ms, pos) == [MessageOf(ms[0], pos)] + MessagesOf(ms[1..], pos + HEADER + |EncodeBody(ms[0])|)
  {
    assert ValidMsg(ms[0]);
    hide Encode, MessageOf, ValidParts, EncodeBody;
  }

  /** Any sequence of valid messages comes back as it was sent. */
  lemma {:induction false} DecodeInvertsEncode(ms: seq<Msg>, pos: nat, first: bool)
    requires forall m :: m in ms ==> ValidMsg(m)
    ensures Messages(EncodeAll(ms), pos, first) == MessagesOf(ms, pos)
  {
    hide Messages, MessageAt, MessageOf, ValidMsg, Encode, EncodeBody, Header, EncodeAll, MessagesOf;
    if ms == [] {
      NoMessages(pos, first);
    } else {
      MessagesUnfold(ms, pos);
      var m, rest := ms[0], EncodeAll(ms[1..]);
      var length := HEADER + |EncodeBody(m)|;
      EncodeBack(m, rest, pos);
      MessagesFirst(Encode(m) + rest, pos, first, TypeOf(m), length);
      DecodeInvertsEncode(ms[1..], pos + length, false);
    }
  }

  lemma NoMessages(pos: nat, first: bool)
    ensures Messages([], pos, first) == [] && EncodeAll([]) == [] && MessagesOf([], pos) == []
  {
  }

  // ---------- AS paths ----------

  function EncodeAsn(n: nat, size: nat): (b: seq<byte>)
    requires (size == 4 && n < 0x1_0000_0000) || (size == 2 && n < 65536)
    ensures |b| == size && Asn(b) == n
  {
    if size == 4 then Enc32(n) else Enc16(n)
  }

  predicate AsnsFit(asns: seq<nat>, size: nat) {
    forall i :: 0 <= i < |asns| ==> asns[i] < if size == 4 then 0x1_0000_0000 else 65536
  }

  predicate ValidSegment(s: Segment, size: nat) {
    |s.asns| < 256 && AsnsFit(s.asns, size)
  }

  function EncodeAsns(asns: seq<nat>, size: nat): (b: seq<byte>)
    requires (size == 2 || size == 4) && AsnsFit(asns, size)
  {
    if asns == [] then [] else EncodeAsn(asns[0], size) + EncodeAsns(asns[1..], size)
  }

  function EncodeSegment(s: Segment, size: nat): seq<byte>
    requires (size == 2 || size == 4) && ValidSegment(s, size)
  {
    [s.stype, |s.asns| as byte] + EncodeAsns(s.asns, size)
  }

  function EncodePath(segs: seq<Segment>, size: nat): seq<byte>
    requires (size == 2 || size == 4) && forall s :: s in segs ==> ValidSegment(s, size)
  {
    if segs == [] then [] else EncodeSegment(segs[0], size) + EncodePath(segs[1..], size)
  }

  lemma {:induction false} AsnsLength(asns: seq<nat>, size: nat)
    requires (size == 2 || size == 4) && AsnsFit(asns, size)
    ensures |EncodeAsns(asns, size)| == |asns| * size
  {
    if asns != [] {
      hide EncodeAsn;
      AsnsLength(asns[1..], size);
      assert |asns| * size == size + (|asns| - 1) * size;
    }
  }

  lemma AsnsFirst(v: seq<byte>, count: nat, size: nat, head: seq<byte>, rest: seq<byte>)
    requires (size == 2 || size == 4) && count > 0 && |head| == size && v == head + rest && |v| >= count * size
    ensures count * size == size + (count - 1) * size && |rest| >= (count - 1) * size
    ensures Asns(v, count, size) == [Asn(head)] + Asns(rest, count - 1, size)
  {
  }

  lemma {:induction false} AsnsBack(asns: seq<nat>, size: nat, rest: seq<byte>)
    requires (size == 2 || size == 4) && AsnsFit(asns, size)
    ensures |EncodeAsns(asns, size)| == |asns| * size
    ensures Asns(EncodeAsns(asns, size) + rest, |asns|, size) == asns
  {
    AsnsLength(asns, size);
    if asns != [] {
      var head, tail := EncodeAsn(asns[0], size), EncodeAsns(asns[1..], size);
      var v := EncodeAsns(asns, size) + rest;
      assert v == head + (tail + rest);
      hide Asn, EncodeAsn, Asns, EncodeAsns, AsnsFit;
      AsnsFirst(v, |asns|, size, head, tail + rest);
      AsnsBack(asns[1..], size, rest);
      assert [asns[0]] + asns[1..] == asns;
    } else {
      NoAsns(EncodeAsns(asns, size) + rest, size);
    }
  }

  lemma SegmentBack(s: Segment, size: nat, rest: seq<byte>)
    requires (size == 2 || size == 4) && ValidSegment(s, size)
    ensures var v := EncodeSegment(s, size) + rest;
            && |v| >= 2 + |s.asns| * size && v[0] == s.stype && v[1] as nat == |s.asns|
            && Asns(v[2..], |s.asns|, size) == s.asns && v[2 + |s.asns| * size..] == rest
  {
    hide Asns, EncodeAsns;
    AsnsBack(s.asns, size, rest);
    var v := EncodeSegment(s, size) + rest;
    assert v[2..] == EncodeAsns(s.asns, size) + rest;
    assert v[2 + |s.asns| * size..] == rest;
  }

  /** AS_PATH segments written with either width come back when read with it. */
  lemma {:induction false} PathBack(segs: seq<Segment>, size: nat)
    requires (size == 2 || size == 4) && forall s :: s in segs ==> ValidSegment(s, size)
    ensures AsPathSized(EncodePath(segs, size), size) == Some(segs)
  {
    if segs != [] {
      hide Asns, EncodeSegment, ValidSegment;
      assert ValidSegment(segs[0], size);
      SegmentBack(segs[0], size, EncodePath(segs[1..], size));
      PathBack(segs[1..], size);
      assert [segs[0]] + segs[1..] == segs;
    }
  }

  lemma FourOctetPathBack(segs: seq<Segment>)
    requires forall s :: s in segs ==> ValidSegment(s, 4)
    ensures AsPath(EncodePath(segs, 4)) == Some(segs)
  {
    PathBack(segs, 4);
  }

  /** A 2-octet path comes back exactly when its bytes make no 4-octet path, or it names no AS at all. */
  lemma TwoOctetPathBackIff(segs: seq<Segment>)
    requires forall s :: s in segs ==> ValidSegment(s, 2)
    ensures AsPath(EncodePath(segs, 2)) == Some(segs) <==>
            AsPathSized(EncodePath(segs, 2), 4) == None || forall s :: s in segs ==> s.asns == []
  {
    hide AsPathSized, EncodePath;
    PathBack(segs, 2);
    if AsPathSized(EncodePath(segs, 2), 4) == Some(segs) {
      WidthsDiffer(segs);
    }
    if forall s :: s in segs ==> s.asns == [] {
      NoAsSameBytes(segs);
      PathBack(segs, 4);
    }
  }

  lemma {:induction false} NoAsSameBytes(segs: seq<Segment>)
    requires forall s :: s in segs ==> s.asns == []
    ensures EncodePath(segs, 2) == EncodePath(segs, 4)
  {
    if segs != [] {
      NoAsSameBytes(segs[1..]);
    }
  }

  lemma {:induction false} PathLength(v: seq<byte>, size: nat)
    requires (size == 2 || size == 4) && AsPathSized(v, size).Some?
    ensures |v| == PathBytes(AsPathSized(v, size).value, size)
    decreases |v|
  {
    if v != [] {
      AsnsCount(v[2..], v[1] as nat, size);
      PathLength(v[2 + v[1] as nat * size..], size);
    }
  }

  lemma {:induction false} AsnsCount(v: seq<byte>, count: nat, size: nat)
    requires (size == 2 || size == 4) && |v| >= count * size
    ensures |Asns(v, count, size)| == count
    decreases count
  {
    if count > 0 {
      assert count * size == size + (count - 1) * size;
      AsnsCount(v[size..], count - 1, size);
    }
  }

  function PathBytes(segs: seq<Segment>, size: nat): nat {
    if segs == [] then 0 else 2 + |segs[0].asns| * size + PathBytes(segs[1..], size)
  }

  /** The same nonempty path cannot be read off the same bytes in both widths unless it names no AS at all. */
  lemma WidthsDiffer(segs: seq<Segment>)
    requires forall s :: s in segs ==> ValidSegment(s, 2)
    requires AsPathSized(EncodePath(segs, 2), 4) == Some(segs)
    ensures forall s :: s in segs ==> s.asns == []
  {
    PathBack(segs, 2);
    PathLength(EncodePath(segs, 2), 2);
    PathLength(EncodePath(segs, 2), 4);
    NoAsIn(segs);
  }

  lemma {:induction false} NoAsIn(segs: seq<Segment>)
    ensures PathBytes(segs, 2) <= PathBytes(segs, 4)
    ensures PathBytes(segs, 2) == PathBytes(segs, 4) ==> forall s :: s in segs ==> s.asns == []
  {
    if segs != [] {
      NoAsIn(segs[1..]);
      assert |segs[0].asns| * 2 <= |segs[0].asns| * 4;
    }
  }

  lemma MisreadBytes(segs: seq<Segment>)
    requires segs == [Segment(2, [1]), Segment(2, [512])]
    ensures EncodePath(segs, 2) == [2, 1, 0, 1, 2, 1, 2, 0]
  {
    assert segs[0].asns[1..] == [] && segs[1].asns[1..] == [] && segs[1..][1..] == [];
    assert EncodeAsns(segs[0].asns, 2) == [0, 1] && EncodeAsns(segs[1].asns, 2) == [2, 0];
    hide EncodeAsns;
    assert EncodePath(segs[1..], 2) == EncodeSegment(segs[1], 2) + [];
  }

  lemma PathFirst(v: seq<byte>, size: nat, asns: seq<byte>, rest: seq<byte>, path: seq<Segment>)
    requires (size == 2 || size == 4) && |v| >= 2 && |asns| == v[1] as nat * size && v[2..] == asns + rest
    requires AsPathSized(rest, size) == Some(path)
    ensures AsPathSized(v, size) == Some([Segment(v[0], Asns(v[2..], v[1] as nat, size))] + path)
  {
    hide Asns;
    assert v[2 + |asns|..] == v[2..][|asns|..] == rest;
  }

  /** For one: the bytes of two segments naming 1 and 512 in two octets read as one naming 66049 in four. */
  lemma TwoOctetPathMisread(segs: seq<Segment>)
    requires segs == [Segment(2, [1]), Segment(2, [512])]
    ensures AsPath(EncodePath(segs, 2)) == Some([Segment(2, [66049]), Segment(2, [])])
  {
    hide EncodePath, Asns, AsPathSized, Asn;
    MisreadBytes(segs);
    var v: seq<byte> := [2, 1, 0, 1, 2, 1, 2, 0];
    var head: seq<byte>, tail: seq<byte> := [0, 1, 2, 1], [2, 0];
    assert v[2..] == head + tail && tail[2..] == [] + [];
    NoAsns(tail, 4);
    NoAsns(tail[2..], 4);
    AsnsFirst(v[2..], 1, 4, head, tail);
    EmptyPath();
    PathFirst(tail, 4, [], [], []);
    assert AsPathSized(tail, 4) == Some([Segment(2, [])] + []);
    PathFirst(v, 4, head, tail, [Segment(2, [])] + []);
    HeadAsn(head);
    assert Asns(v[2..], 1, 4) == [66049] + [] == [66049];
    assert [Segment(2, [66049])] + ([Segment(2, [])] + []) == [Segment(2, [66049]), Segment(2, [])];
  }

  lemma EmptyPath()
    ensures AsPathSized([], 4) == Some([])
  {
  }

  lemma HeadAsn(head: seq<byte>)
    requires head == [0, 1, 2, 1]
    ensures Asn(head) == 66049
  {
  }
}
