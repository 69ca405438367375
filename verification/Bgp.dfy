/**
 The capture viewer's BGP-4 decoder: nested length-prefixed structures, every field with the byte range it came
 from. A field carries the bytes its text is rendered from rather than the text.
 */
module Bgp {
  import opened Wrappers

  newtype byte = x: int | 0 <= x < 256

  datatype Kind = OPEN | UPDATE | NOTIFICATION | KEEPALIVE | ROUTE_REFRESH

  datatype Label =
    | Marker | MessageLength(length: nat) | MessageType(kind: Kind) | CapturedOnly(length: nat, captured: nat)
    | Version(v: byte) | MyAs(asn: nat) | HoldTime(seconds: nat) | RouterId(id: seq<byte>)
    | OptionalParameters | Parameter(ptype: byte, length: nat) | Capability(code: byte, value: seq<byte>)
    | PathAttributes | Nlri | WithdrawnRoutes
    | PrefixOf(addr: seq<byte>, bits: nat) | Attribute(atype: byte, value: seq<byte>)
    | ErrorCode(code: byte) | Subcode(code: byte) | Family(afi: nat, safi: byte)

  /** A field spanning `size` bytes of the payload from `at` on; `Bare` ones have no range. */
  datatype Field = Field(what: Label, at: nat, size: nat, children: seq<Field>) | Bare(what: Label)

  /** What the one-line summary says beyond the type. */
  datatype Summary = Plain | Truncated | OpenWith(asn: nat, hold: nat) | EndOfRib | Withdraws | Announces

  /** `kind` is missing for a header cut short. */
  datatype Message = Message(kind: Option<Kind>, summary: Summary, offset: nat, length: nat, fields: seq<Field>)

  const HEADER := 19

  function Word16(hi: byte, lo: byte): nat {
    hi as nat * 256 + lo as nat
  }

  function Word32(b: seq<byte>): nat
    requires |b| >= 4
  {
    Word16(b[0], b[1]) * 65536 + Word16(b[2], b[3])
  }

  function KindOf(t: byte): Option<Kind> {
    if t == 1 then Some(OPEN) else if t == 2 then Some(UPDATE) else if t == 3 then Some(NOTIFICATION)
    else if t == 4 then Some(KEEPALIVE) else if t == 5 then Some(ROUTE_REFRESH) else None
  }

  function Leaf(what: Label, at: nat, size: nat): Field {
    Field(what, at, size, [])
  }

  // ---------- what each structure holds ----------

  function PrefixBytes(bits: nat): nat {
    (bits + 7) / 8
  }

  function Padded(b: seq<byte>): seq<byte>
    requires |b| <= 4
  {
    b + [0, 0, 0, 0][..4 - |b|]
  }

  function Prefixes(buf: seq<byte>, base: nat): seq<Field> {
    if buf == [] then []
    else
      var bits := buf[0] as nat;
      var n := PrefixBytes(bits);
      if bits > 32 || 1 + n > |buf| then []
      else [Leaf(PrefixOf(Padded(buf[1..1 + n]), bits), base, 1 + n)] + Prefixes(buf[1 + n..], base + 1 + n)
  }

  /** The bytes before an attribute's value, and the value's length; `None` if even they are cut short. */
  function AttributeHeader(buf: seq<byte>): Option<(nat, nat)> {
    if |buf| < 3 then None
    else if buf[0] / 16 % 2 == 1 then if |buf| < 4 then None else Some((4, Word16(buf[2], buf[3])))
    else Some((3, buf[2] as nat))
  }

  function Attributes(buf: seq<byte>, base: nat): seq<Field> {
    match AttributeHeader(buf)
    case None => []
    case Some((hdr, length)) =>
      if |buf| < hdr + length then []
      else
        [Leaf(Attribute(buf[1], buf[hdr..hdr + length]), base, hdr + length)]
        + Attributes(buf[hdr + length..], base + hdr + length)
  }

  /** A type byte, a value behind its length byte, and the rest; `None` if cut short. */
  function Tlv(buf: seq<byte>): (t: Option<(byte, seq<byte>, seq<byte>)>)
    ensures t.Some? ==> |buf| == 2 + |t.value.1| + |t.value.2|
  {
    if |buf| < 2 || 2 + buf[1] as nat > |buf| then None
    else Some((buf[0], buf[2..2 + buf[1] as nat], buf[2 + buf[1] as nat..]))
  }

  function Capabilities(buf: seq<byte>, base: nat): seq<Field>
    decreases |buf|
  {
    match Tlv(buf)
    case None => []
    case Some((code, value, rest)) =>
      [Leaf(Capability(code, value), base, 2 + |value|)] + Capabilities(rest, base + 2 + |value|)
  }

  /** The 4-octet AS of a run of capabilities: the last well-sized one wins, zero if there is none. */
  function CapabilityAs(buf: seq<byte>, found: nat): nat
    decreases |buf|
  {
    match Tlv(buf)
    case None => found
    case Some((code, value, rest)) => CapabilityAs(rest, if code == 65 && |value| == 4 then Word32(value) else found)
  }

  function ParameterFields(ptype: byte, value: seq<byte>, base: nat): seq<Field> {
    if ptype == 2 then Capabilities(value, base + 2) else [Leaf(Parameter(ptype, |value|), base, 2 + |value|)]
  }

  function Parameters(buf: seq<byte>, base: nat): seq<Field>
    decreases |buf|
  {
    match Tlv(buf)
    case None => []
    case Some((ptype, value, rest)) => ParameterFields(ptype, value, base) + Parameters(rest, base + 2 + |value|)
  }

  /** A later nonzero AS replaces an earlier one. */
  function LaterAs(ptype: byte, value: seq<byte>, found: nat): nat {
    var here := if ptype == 2 then CapabilityAs(value, 0) else 0;
    if here != 0 then here else found
  }

  function ParameterAs(buf: seq<byte>, found: nat): nat
    decreases |buf|
  {
    match Tlv(buf)
    case None => found
    case Some((ptype, value, rest)) => ParameterAs(rest, LaterAs(ptype, value, found))
  }

  datatype Body = Body(summary: Summary, fields: seq<Field>)

  function OpenBody(body: seq<byte>, base: nat): Body {
    if |body| < 10 then Body(Truncated, [])
    else
      var asn, hold, optLen := Word16(body[1], body[2]), Word16(body[3], body[4]), body[9] as nat;
      var fixed := [Leaf(Version(body[0]), base, 1), Leaf(MyAs(asn), base + 1, 2), Leaf(HoldTime(hold), base + 3, 2),
                    Leaf(RouterId(body[5..9]), base + 5, 4)];
      if optLen > 0 && |body| >= 10 + optLen then
        var params := body[10..10 + optLen];
        var realAs := ParameterAs(params, 0);
        Body(OpenWith(if realAs != 0 then realAs else asn, hold),
             fixed + [Field(OptionalParameters, base + 10, optLen, Parameters(params, base + 10))])
      else Body(OpenWith(asn, hold), fixed)
  }

  /** A block behind its 2-byte length, and what follows it. */
  function Block(buf: seq<byte>): Option<(seq<byte>, seq<byte>)> {
    if |buf| < 2 then None
    else
      var n := Word16(buf[0], buf[1]);
      if |buf| < 2 + n then None else Some((buf[2..2 + n], buf[2 + n..]))
  }

  function Group(what: Label, at: nat, size: nat, children: seq<Field>): seq<Field> {
    if children == [] then [] else [Field(what, at, size, children)]
  }

  function UpdateBody(body: seq<byte>, base: nat): Body {
    match Block(body)
    case None => Body(Truncated, [])
    case Some((withdrawn, rest)) =>
      match Block(rest)
      case None => Body(Truncated, [])
      case Some((attrs, nlri)) =>
        var attrsBase := base + 2 + |withdrawn| + 2;
        var ws, ns := Prefixes(withdrawn, base + 2), Prefixes(nlri, attrsBase + |attrs|);
        Body(if ns == [] && ws == [] && attrs == [] then EndOfRib else if ws != [] && ns == [] then Withdraws else Announces,
             Group(PathAttributes, attrsBase - 2, 2 + |attrs|, Attributes(attrs, attrsBase))
             + Group(Nlri, attrsBase + |attrs|, |nlri|, ns) + Group(WithdrawnRoutes, base, 2 + |withdrawn|, ws))
  }

  function BodyOf(kind: Kind, body: seq<byte>, base: nat): Body {
    match kind
    case OPEN => OpenBody(body, base)
    case UPDATE => UpdateBody(body, base)
    case NOTIFICATION =>
      if |body| < 2 then Body(Plain, []) else Body(Plain, [Leaf(ErrorCode(body[0]), base, 1), Leaf(Subcode(body[1]), base + 1, 1)])
    case ROUTE_REFRESH =>
      if |body| < 4 then Body(Plain, []) else Body(Plain, [Leaf(Family(Word16(body[0], body[1]), body[3]), base, 4)])
    case KEEPALIVE => Body(Plain, [])
  }

  function HeaderFields(pos: nat, length: nat, kind: Kind): seq<Field> {
    [Leaf(Marker, pos, 16), Leaf(MessageLength(length), pos + 16, 2), Leaf(MessageType(kind), pos + 18, 1)]
  }

  predicate ValidMarker(marker: seq<byte>) {
    forall i :: 0 <= i < |marker| ==> marker[i] == 255
  }

  /** The header's type and length, if it is one a message can start with. */
  function Header(payload: seq<byte>): (h: Option<(Kind, nat)>)
    requires |payload| >= HEADER
    ensures h.Some? ==> HEADER <= h.value.1 <= 4096
  {
    var length := Word16(payload[16], payload[17]);
    if !ValidMarker(payload[..16]) || KindOf(payload[18]).None? || length < HEADER || length > 4096 then None
    else Some((KindOf(payload[18]).value, length))
  }

  function MessageAt(kind: Kind, body: seq<byte>, pos: nat, length: nat): Message {
    var b := BodyOf(kind, body, pos + HEADER);
    Message(Some(kind), b.summary, pos, length, HeaderFields(pos, length, kind) + b.fields)
  }

  /** The messages from `pos` on; a cut-off header counts only when something came before it. */
  function Messages(payload: seq<byte>, pos: nat, first: bool): seq<Message>
    decreases |payload|
  {
    if payload == [] then []
    else if |payload| < HEADER then if first then [] else [Message(None, Truncated, pos, |payload|, [])]
    else
      match Header(payload)
      case None => []
      case Some((kind, length)) =>
        if length > |payload| then
          [Message(Some(kind), Truncated, pos, |payload|, [Bare(CapturedOnly(length, |payload|))])]
        else
          [MessageAt(kind, payload[HEADER..length], pos, length)] + Messages(payload[length..], pos + length, false)
  }

  // ---------- the decoder's loops ----------

  lemma PrefixesAt(buf: seq<byte>, pos: nat, base: nat)
    requires pos < |buf|
    ensures var bits := buf[pos] as nat;
            var n := PrefixBytes(bits);
            Prefixes(buf[pos..], base) ==
            if bits > 32 || pos + 1 + n > |buf| then []
            else [Leaf(PrefixOf(Padded(buf[pos + 1..pos + 1 + n]), bits), base, 1 + n)] + Prefixes(buf[pos + 1 + n..], base + 1 + n)
  {
    var n := PrefixBytes(buf[pos] as nat);
    if pos + 1 + n <= |buf| {
      assert buf[pos..][1..1 + n] == buf[pos + 1..pos + 1 + n] && buf[pos..][1 + n..] == buf[pos + 1 + n..];
    }
  }

  method BgpPrefixFields(buf: seq<byte>, base: nat) returns (out: seq<Field>)
    ensures out == Prefixes(buf, base)
  {
    hide Prefixes, Padded;
    out := [];
    var pos := 0;
    assert buf[0..] == buf;
    while pos < |buf|
      invariant pos <= |buf|
      invariant out + Prefixes(buf[pos..], base + pos) == Prefixes(buf, base)
    {
      PrefixesAt(buf, pos, base + pos);
      var bits := buf[pos] as nat;
      var n := (bits + 7) / 8;
      if bits > 32 || pos + 1 + n > |buf| {
        return;
      }
      out := out + [Leaf(PrefixOf(Padded(buf[pos + 1..pos + 1 + n]), bits), base + pos, 1 + n)];
      pos := pos + 1 + n;
    }
    assert buf[pos..] == [] && Prefixes([], base + pos) == [] by { NoFields(base + pos); }
  }

  lemma NoFields(base: nat)
    ensures Prefixes([], base) == [] && Attributes([], base) == [] && Capabilities([], base) == [] && Parameters([], base) == []
  {
  }

  lemma AttributesAt(buf: seq<byte>, pos: nat, base: nat)
    requires pos <= |buf|
    ensures Attributes(buf[pos..], base) ==
            match AttributeHeader(buf[pos..])
            case None => []
            case Some((hdr, length)) =>
              if |buf| - pos < hdr + length then []
              else [Leaf(Attribute(buf[pos + 1], buf[pos + hdr..pos + hdr + length]), base, hdr + length)]
                   + Attributes(buf[pos + hdr + length..], base + hdr + length)
  {
    match AttributeHeader(buf[pos..])
    case None =>
    case Some((hdr, length)) =>
      if |buf| - pos >= hdr + length {
        assert buf[pos..][hdr..hdr + length] == buf[pos + hdr..pos + hdr + length];
        assert buf[pos..][hdr + length..] == buf[pos + hdr + length..];
      }
  }

  method BgpAttrFields(attrs: seq<byte>, base: nat) returns (fields: seq<Field>)
    ensures fields == Attributes(attrs, base)
  {
    hide Attributes, Word16;
    fields := [];
    var pos := 0;
    assert attrs[0..] == attrs;
    while |attrs| - pos >= 3
      invariant pos <= |attrs|
      invariant fields + Attributes(attrs[pos..], base + pos) == Attributes(attrs, base)
    {
      AttributesAt(attrs, pos, base + pos);
      var flags, typ := attrs[pos], attrs[pos + 1];
      var length, hdr: nat;
      if flags / 16 % 2 == 1 {
        if |attrs| - pos < 4 {
          return;
        }
        length, hdr := Word16(attrs[pos + 2], attrs[pos + 3]), 4;
      } else {
        length, hdr := attrs[pos + 2] as nat, 3;
      }
      if |attrs| - pos < hdr + length {
        return;
      }
      fields := fields + [Leaf(Attribute(typ, attrs[pos + hdr..pos + hdr + length]), base + pos, hdr + length)];
      pos := pos + hdr + length;
    }
    AttributesAt(attrs, pos, base + pos);
  }

  lemma TlvAt(buf: seq<byte>, pos: nat)
    requires pos + 2 <= |buf|
    ensures var n := buf[pos + 1] as nat;
            Tlv(buf[pos..]) == if pos + 2 + n > |buf| then None
                               else Some((buf[pos], buf[pos + 2..pos + 2 + n], buf[pos + 2 + n..]))
  {
    var here, n := buf[pos..], buf[pos + 1] as nat;
    if pos + 2 + n <= |buf| {
      assert here[2..2 + n] == buf[pos + 2..pos + 2 + n];
      assert here[2 + n..] == buf[pos + 2 + n..];
    }
  }

  lemma CapabilitiesNext(buf: seq<byte>, base: nat, found: nat, fields: seq<Field>)
    ensures match Tlv(buf)
            case None => fields + Capabilities(buf, base) == fields && CapabilityAs(buf, found) == found
            case Some((code, value, rest)) =>
              && fields + Capabilities(buf, base)
                 == fields + [Leaf(Capability(code, value), base, 2 + |value|)] + Capabilities(rest, base + 2 + |value|)
              && CapabilityAs(buf, found) == CapabilityAs(rest, if code == 65 && |value| == 4 then Word32(value) else found)
  {
  }

  method BgpCapabilities(buf: seq<byte>, base: nat) returns (fields: seq<Field>, realAs: nat)
    ensures fields == Capabilities(buf, base) && realAs == CapabilityAs(buf, 0)
  {
    hide Capabilities, CapabilityAs, Word32, Tlv;
    fields, realAs := [], 0;
    var pos := 0;
    assert buf[0..] == buf;
    while pos + 2 <= |buf|
      invariant pos <= |buf|
      invariant fields + Capabilities(buf[pos..], base + pos) == Capabilities(buf, base)
      invariant CapabilityAs(buf[pos..], realAs) == CapabilityAs(buf, 0)
    {
      TlvAt(buf, pos);
      CapabilitiesNext(buf[pos..], base + pos, realAs, fields);
      var code, clen := buf[pos], buf[pos + 1] as nat;
      if pos + 2 + clen > |buf| {
        return;
      }
      var value := buf[pos + 2..pos + 2 + clen];
      fields := fields + [Leaf(Capability(code, value), base + pos, 2 + clen)];
      if code == 65 && clen == 4 {
        realAs := Word32(value);
      }
      pos := pos + 2 + clen;
    }
    ShortTail(buf[pos..]);
    CapabilitiesNext(buf[pos..], base + pos, realAs, fields);
  }

  lemma ShortTail(buf: seq<byte>)
    requires |buf| < 2
    ensures Tlv(buf) == None
  {
  }

  lemma ParametersNext(buf: seq<byte>, base: nat, found: nat, fields: seq<Field>)
    ensures match Tlv(buf)
            case None => fields + Parameters(buf, base) == fields && ParameterAs(buf, found) == found
            case Some((ptype, value, rest)) =>
              && fields + Parameters(buf, base)
                 == fields + ParameterFields(ptype, value, base) + Parameters(rest, base + 2 + |value|)
              && ParameterAs(buf, found) == ParameterAs(rest, LaterAs(ptype, value, found))
  {
  }

  method BgpOpenParams(buf: seq<byte>, base: nat) returns (fields: seq<Field>, realAs: nat)
    ensures fields == Parameters(buf, base) && realAs == ParameterAs(buf, 0)
  {
    hide Parameters, ParameterAs, Capabilities, CapabilityAs, Tlv;
    fields, realAs := [], 0;
    var pos := 0;
    assert buf[0..] == buf;
    while pos + 2 <= |buf|
      invariant pos <= |buf|
      invariant fields + Parameters(buf[pos..], base + pos) == Parameters(buf, base)
      invariant ParameterAs(buf[pos..], realAs) == ParameterAs(buf, 0)
    {
      TlvAt(buf, pos);
      ParametersNext(buf[pos..], base + pos, realAs, fields);
      var ptype, plen := buf[pos], buf[pos + 1] as nat;
      if pos + 2 + plen > |buf| {
        return;
      }
      var value := buf[pos + 2..pos + 2 + plen];
      if ptype == 2 {
        var caps, found := BgpCapabilities(value, base + pos + 2);
        fields := fields + caps;
        if found != 0 {
          realAs := found;
        }
      } else {
        fields := fields + [Leaf(Parameter(ptype, plen), base + pos, 2 + plen)];
      }
      pos := pos + 2 + plen;
    }
    ShortTail(buf[pos..]);
    ParametersNext(buf[pos..], base + pos, realAs, fields);
  }

  method DecodeOpen(body: seq<byte>, base: nat) returns (b: Body)
    ensures b == OpenBody(body, base)
  {
    hide Parameters, ParameterAs, Word16;
    if |body| < 10 {
      return Body(Truncated, []);
    }
    var asn, hold, optLen := Word16(body[1], body[2]), Word16(body[3], body[4]), body[9] as nat;
    var fields := [Leaf(Version(body[0]), base, 1), Leaf(MyAs(asn), base + 1, 2), Leaf(HoldTime(hold), base + 3, 2),
                   Leaf(RouterId(body[5..9]), base + 5, 4)];
    var summaryAs := asn;
    if optLen > 0 && |body| >= 10 + optLen {
      var params, realAs := BgpOpenParams(body[10..10 + optLen], base + 10);
      fields := fields + [Field(OptionalParameters, base + 10, optLen, params)];
      if realAs != 0 {
        summaryAs := realAs;
      }
    }
    return Body(OpenWith(summaryAs, hold), fields);
  }

  method DecodeUpdate(body: seq<byte>, base: nat) returns (b: Body)
    ensures b == UpdateBody(body, base)
  {
    hide Prefixes, Attributes, Block;
    var first := Block(body);
    if first.None? {
      return Body(Truncated, []);
    }
    var (withdrawn, rest) := first.value;
    var second := Block(rest);
    if second.None? {
      return Body(Truncated, []);
    }
    var (attrs, nlri) := second.value;
    var attrsBase := base + 2 + |withdrawn| + 2;
    var withdrawnFields := BgpPrefixFields(withdrawn, base + 2);
    var attrFields := BgpAttrFields(attrs, attrsBase);
    var nlriFields := BgpPrefixFields(nlri, attrsBase + |attrs|);
    var fields: seq<Field> := [];
    if |attrFields| > 0 {
      fields := fields + [Field(PathAttributes, attrsBase - 2, 2 + |attrs|, attrFields)];
    }
    if |nlriFields| > 0 {
      fields := fields + [Field(Nlri, attrsBase + |attrs|, |nlri|, nlriFields)];
    }
    if |withdrawnFields| > 0 {
      fields := fields + [Field(WithdrawnRoutes, base, 2 + |withdrawn|, withdrawnFields)];
    }
    var summary := if |nlriFields| == 0 && |withdrawnFields| == 0 && |attrs| == 0 then EndOfRib
                   else if |withdrawnFields| > 0 && |nlriFields| == 0 then Withdraws else Announces;
    return Body(summary, fields);
  }

  method DecodeMessage(kind: Kind, body: seq<byte>, base: nat) returns (b: Body)
    ensures b == BodyOf(kind, body, base)
  {
    match kind
    case OPEN => b := DecodeOpen(body, base);
    case UPDATE => b := DecodeUpdate(body, base);
    case _ => b := BodyOf(kind, body, base);
  }

  method DecodeBgp(payload: seq<byte>) returns (msgs: seq<Message>)
    ensures msgs == Messages(payload, 0, true)
  {
    hide BodyOf, Header, HeaderFields;
    msgs := [];
    var pos := 0;
    var left := payload;
    while |left| > 0
      invariant msgs + Messages(left, pos, msgs == []) == Messages(payload, 0, true)
      decreases |left|
    {
      if |left| < HEADER {
        if |msgs| > 0 {
          msgs := msgs + [Message(None, Truncated, pos, |left|, [])];
        }
        return;
      }
      var header := Header(left);
      if header.None? {
        return;
      }
      var (kind, length) := header.value;
      if length > |left| {
        msgs := msgs + [Message(Some(kind), Truncated, pos, |left|, [Bare(CapturedOnly(length, |left|))])];
        return;
      }
      var b := DecodeMessage(kind, left[HEADER..length], pos + HEADER);
      msgs := msgs + [Message(Some(kind), b.summary, pos, length, HeaderFields(pos, length, kind) + b.fields)];
      left := left[length..];
      pos := pos + length;
    }
  }

  // ---------- AS paths ----------

  datatype Segment = Segment(stype: byte, asns: seq<nat>)

  function Asn(b: seq<byte>): nat
    requires |b| == 2 || |b| == 4
  {
    if |b| == 4 then Word32(b) else Word16(b[0], b[1])
  }

  function Asns(v: seq<byte>, count: nat, size: nat): seq<nat>
    requires (size == 2 || size == 4) && |v| >= count * size
    decreases count
  {
    if count == 0 then []
    else
      assert size <= count * size && |v[size..]| >= (count - 1) * size;
      [Asn(v[..size])] + Asns(v[size..], count - 1, size)
  }

  function AsPathSized(v: seq<byte>, size: nat): Option<seq<Segment>>
    requires size == 2 || size == 4
    decreases |v|
  {
    if v == [] then Some([])
    else if |v| < 2 || |v| < 2 + v[1] as nat * size then None
    else
      match AsPathSized(v[2 + v[1] as nat * size..], size)
      case None => None
      case Some(rest) => Some([Segment(v[0], Asns(v[2..], v[1] as nat, size))] + rest)
  }

  /** 4-octet numbers first, 2-octet ones when the lengths do not fit. */
  function AsPath(v: seq<byte>): Option<seq<Segment>> {
    match AsPathSized(v, 4)
    case Some(path) => Some(path)
    case None => AsPathSized(v, 2)
  }

  function OrNone(path: Option<seq<Segment>>, parts: seq<Segment>): Option<seq<Segment>> {
    match path
    case Some(rest) => Some(parts + rest)
    case None => None
  }

  lemma AsnsAt(v: seq<byte>, i: nat, count: nat, size: nat)
    requires (size == 2 || size == 4) && i < count && |v| >= count * size
    ensures 0 <= i * size && (i + 1) * size == i * size + size <= count * size
    ensures |v[i * size..]| >= (count - i) * size && |v[(i + 1) * size..]| >= (count - i - 1) * size
    ensures Asns(v[i * size..], count - i, size)
            == [Asn(v[i * size..(i + 1) * size])] + Asns(v[(i + 1) * size..], count - i - 1, size)
  {
  }

  method BgpAsns(v: seq<byte>, count: nat, size: nat) returns (asns: seq<nat>)
    requires (size == 2 || size == 4) && |v| >= count * size
    ensures asns == Asns(v, count, size)
  {
    hide Asns, Asn;
    asns := [];
    assert v[0 * size..] == v;
    for i := 0 to count
      invariant 0 <= i * size <= count * size && |v[i * size..]| >= (count - i) * size
      invariant asns + Asns(v[i * size..], count - i, size) == Asns(v, count, size)
    {
      AsnsAt(v, i, count, size);
      asns := asns + [Asn(v[i * size..(i + 1) * size])];
    }
    assert Asns(v[count * size..], 0, size) == [] by { NoAsns(v[count * size..], size); }
  }

  lemma NoAsns(v: seq<byte>, size: nat)
    requires size == 2 || size == 4
    ensures Asns(v, 0, size) == []
  {
  }

  lemma PathStep(left: seq<byte>, size: nat, parts: seq<Segment>)
    requires (size == 2 || size == 4) && |left| >= 2 && |left| >= 2 + left[1] as nat * size
    ensures var seg := Segment(left[0], Asns(left[2..], left[1] as nat, size));
            OrNone(AsPathSized(left, size), parts) == OrNone(AsPathSized(left[2 + left[1] as nat * size..], size), parts + [seg])
  {
    hide Asns;
    var rest := AsPathSized(left[2 + left[1] as nat * size..], size);
    var seg := Segment(left[0], Asns(left[2..], left[1] as nat, size));
    if rest.Some? {
      assert parts + ([seg] + rest.value) == (parts + [seg]) + rest.value;
    }
  }

  method BgpAsPathSized(v: seq<byte>, size: nat) returns (path: Option<seq<Segment>>)
    requires size == 2 || size == 4
    ensures path == AsPathSized(v, size)
  {
    hide Asns;
    var parts: seq<Segment> := [];
    var left := v;
    NoParts(AsPathSized(v, size));
    while |left| > 0
      invariant AsPathSized(v, size) == OrNone(AsPathSized(left, size), parts)
      decreases |left|
    {
      if |left| < 2 {
        return None;
      }
      var segType, count := left[0], left[1] as nat;
      if |left| < 2 + count * size {
        return None;
      }
      PathStep(left, size, parts);
      var asns := BgpAsns(left[2..], count, size);
      parts := parts + [Segment(segType, asns)];
      left := left[2 + count * size..];
    }
    assert parts + [] == parts;
    return Some(parts);
  }

  lemma NoParts(path: Option<seq<Segment>>)
    ensures OrNone(path, []) == path
  {
    if path.Some? { assert [] + path.value == path.value; }
  }
}
