/**
 On arbitrary bytes every decoded field says what the bytes of its range say: a field is read off its own range, with
 the layouts of RFC 4271 section 4 and RFC 5492 section 4 written out on the bytes.
 */
module BgpTruth {
  import opened Wrappers
  import opened Bgp
  import opened BgpRanges

  /** The bytes of a two-byte number, most significant first. */
  predicate Two(b: seq<byte>, n: nat) {
    |b| == 2 && n == 256 * b[0] as nat + b[1] as nat
  }

  /** What a range of bytes must be for a field to say this of it. */
  ghost predicate Says(what: Label, b: seq<byte>) {
    match what
    case Marker => |b| == 16 && forall i :: 0 <= i < 16 ==> b[i] == 255
    case MessageLength(length) => Two(b, length)
    case MessageType(kind) =>
      b == [match kind case OPEN => 1 case UPDATE => 2 case NOTIFICATION => 3 case KEEPALIVE => 4 case ROUTE_REFRESH => 5]
    case Version(v) => b == [v]
    case MyAs(asn) => Two(b, asn)
    case HoldTime(seconds) => Two(b, seconds)
    case RouterId(id) => |b| == 4 && b == id
    case Parameter(ptype, length) => |b| == 2 + length && b[0] == ptype && b[1] as nat == length
    case Capability(code, value) => |b| == 2 + |value| && b[0] == code && b[1] as nat == |value| && b[2..] == value
    case PathAttributes => |b| >= 2 && Two(b[..2], |b| - 2)
    case WithdrawnRoutes => |b| >= 2 && Two(b[..2], |b| - 2)
    case PrefixOf(addr, bits) =>
      && |b| >= 1 && b[0] as nat == bits <= 32 && bits <= 8 * (|b| - 1) < bits + 8
      && |addr| == 4 && (forall i :: 0 <= i < 4 ==> addr[i] == if i + 1 < |b| then b[i + 1] else 0)
    case Attribute(atype, value) =>
      && |b| >= 3 && b[1] == atype
      && (if b[0] as nat / 16 % 2 == 1 then |b| == 4 + |value| && Two(b[2..4], |value|) && b[4..] == value
          else |b| == 3 + |value| && b[2] as nat == |value| && b[3..] == value)
    case ErrorCode(code) => b == [code]
    case Subcode(code) => b == [code]
    case Family(afi, safi) => |b| == 4 && Two(b[..2], afi) && b[3] == safi
    case OptionalParameters => |b| > 0
    case Nlri => |b| > 0
    case CapturedOnly(_, _) => false
  }

  /** A field and everything below it is read off its own range. */
  ghost predicate Shows(f: Field, whole: seq<byte>)
    decreases f
  {
    f.Field? ==>
      && f.at + f.size <= |whole| && Says(f.what, whole[f.at..f.at + f.size])
      && forall i :: 0 <= i < |f.children| ==> Shows(f.children[i], whole)
  }

  ghost predicate AllShow(fields: seq<Field>, whole: seq<byte>) {
    forall i :: 0 <= i < |fields| ==> Shows(fields[i], whole)
  }

  /** A part of the payload. */
  ghost predicate LiesAt(part: seq<byte>, whole: seq<byte>, at: nat) {
    at + |part| <= |whole| && part == whole[at..at + |part|]
  }

  lemma PartOfPart(part: seq<byte>, whole: seq<byte>, at: nat, lo: nat, hi: nat)
    requires LiesAt(part, whole, at) && lo <= hi <= |part|
    ensures LiesAt(part[lo..hi], whole, at + lo)
  {
    forall i | 0 <= i < hi - lo ensures part[lo..hi][i] == whole[at + lo..at + hi][i] {
      assert whole[at..at + |part|][lo + i] == whole[at + lo + i];
    }
    assert part[lo..hi] == whole[at + lo..at + hi];
  }

  lemma LeafShows(what: Label, part: seq<byte>, whole: seq<byte>, at: nat)
    requires LiesAt(part, whole, at) && Says(what, part)
    ensures Shows(Leaf(what, at, |part|), whole)
  {
  }

  lemma ShowConcat(xs: seq<Field>, ys: seq<Field>, whole: seq<byte>)
    requires AllShow(xs, whole) && AllShow(ys, whole)
    ensures AllShow(xs + ys, whole)
  {
    hide Shows;
  }

  lemma OneShows(f: Field, whole: seq<byte>)
    requires Shows(f, whole)
    ensures AllShow([f], whole)
  {
  }

  // ---------- the lists ----------

  lemma PrefixSays(b: seq<byte>)
    requires |b| >= 1 && b[0] as nat <= 32 && |b| == 1 + PrefixBytes(b[0] as nat)
    ensures Says(PrefixOf(Padded(b[1..]), b[0] as nat), b)
  {
  }

  /** The first prefix of a list, and the rest. */
  lemma PrefixParts(buf: seq<byte>, base: nat)
    requires buf != [] && buf[0] as nat <= 32 && 1 + PrefixBytes(buf[0] as nat) <= |buf|
    ensures var n := 1 + PrefixBytes(buf[0] as nat);
            && Says(PrefixOf(Padded(buf[..n][1..]), buf[0] as nat), buf[..n])
            && Prefixes(buf, base) == [Leaf(PrefixOf(Padded(buf[..n][1..]), buf[0] as nat), base, n)] + Prefixes(buf[n..], base + n)
  {
    var n := 1 + PrefixBytes(buf[0] as nat);
    PrefixSays(buf[..n]);
    hide Says, Padded;
    assert buf[..n][1..] == buf[1..n];
  }

  lemma {:induction false} PrefixesShow(buf: seq<byte>, whole: seq<byte>, base: nat)
    requires LiesAt(buf, whole, base)
    ensures AllShow(Prefixes(buf, base), whole)
    decreases |buf|
  {
    hide Says, LiesAt, Padded, Shows;
    if buf == [] || buf[0] as nat > 32 || 1 + PrefixBytes(buf[0] as nat) > |buf| {
      assert Prefixes(buf, base) == [];
    } else {
      var n := 1 + PrefixBytes(buf[0] as nat);
      var f := PrefixOf(Padded(buf[..n][1..]), buf[0] as nat);
      PrefixParts(buf, base);
      PartOfPart(buf, whole, base, 0, n);
      PartOfPart(buf, whole, base, n, |buf|);
      assert buf[n..] == buf[n..|buf|] && buf[..n] == buf[0..n];
      hide Prefixes, AllShow;
      PrefixesShow(buf[n..], whole, base + n);
      LeafShows(f, buf[0..n], whole, base);
      OneShows(Leaf(f, base, n), whole);
      ShowConcat([Leaf(f, base, n)], Prefixes(buf[n..], base + n), whole);
    }
  }

  lemma AttributeSays(b: seq<byte>, hdr: nat, length: nat)
    requires AttributeHeader(b) == Some((hdr, length)) && |b| == hdr + length
    ensures Says(Attribute(b[1], b[hdr..]), b)
  {
  }

  /** The first attribute of a list, and the rest. */
  lemma AttributeParts(buf: seq<byte>, base: nat, hdr: nat, length: nat)
    requires AttributeHeader(buf) == Some((hdr, length)) && hdr + length <= |buf|
    ensures var n := hdr + length;
            && Says(Attribute(buf[1], buf[hdr..n]), buf[..n])
            && Attributes(buf, base) == [Leaf(Attribute(buf[1], buf[hdr..n]), base, n)] + Attributes(buf[n..], base + n)
  {
    var b := buf[..hdr + length];
    assert AttributeHeader(b) == Some((hdr, length)) && b[1] == buf[1];
    AttributeSays(b, hdr, length);
    assert b[hdr..] == buf[hdr..hdr + length];
  }

  lemma {:induction false} AttributesShow(buf: seq<byte>, whole: seq<byte>, base: nat)
    requires LiesAt(buf, whole, base)
    ensures AllShow(Attributes(buf, base), whole)
    decreases |buf|
  {
    hide Says, LiesAt, Shows, AttributeHeader;
    var header := AttributeHeader(buf);
    if header.None? || header.value.0 + header.value.1 > |buf| {
      assert Attributes(buf, base) == [];
    } else {
      var (hdr, length) := header.value;
      var n := hdr + length;
      AttributeParts(buf, base, hdr, length);
      HeaderTakesBytes(buf, hdr, length);
      PartOfPart(buf, whole, base, 0, n);
      PartOfPart(buf, whole, base, n, |buf|);
      assert buf[n..] == buf[n..|buf|] && buf[..n] == buf[0..n];
      hide Attributes, AllShow;
      AttributesShow(buf[n..], whole, base + n);
      LeafShows(Attribute(buf[1], buf[hdr..n]), buf[0..n], whole, base);
      OneShows(Leaf(Attribute(buf[1], buf[hdr..n]), base, n), whole);
      ShowConcat([Leaf(Attribute(buf[1], buf[hdr..n]), base, n)], Attributes(buf[n..], base + n), whole);
    }
  }

  lemma HeaderTakesBytes(buf: seq<byte>, hdr: nat, length: nat)
    requires AttributeHeader(buf) == Some((hdr, length))
    ensures hdr >= 3 && |buf| >= hdr
  {
  }

  /** The first type-length-value of a run of them, and the rest. */
  lemma TlvParts(buf: seq<byte>, whole: seq<byte>, base: nat, t: byte, value: seq<byte>, rest: seq<byte>)
    requires Tlv(buf) == Some((t, value, rest)) && LiesAt(buf, whole, base)
    ensures var b := buf[..2 + |value|];
            && LiesAt(b, whole, base) && b[0] == t && b[1] as nat == |value| && b[2..] == value
    ensures LiesAt(value, whole, base + 2) && LiesAt(rest, whole, base + 2 + |value|)
  {
    PartOfPart(buf, whole, base, 0, 2 + |value|);
    PartOfPart(buf, whole, base, 2, 2 + |value|);
    PartOfPart(buf, whole, base, 2 + |value|, |buf|);
  }

  lemma {:induction false} CapabilitiesShow(buf: seq<byte>, whole: seq<byte>, base: nat)
    requires LiesAt(buf, whole, base)
    ensures AllShow(Capabilities(buf, base), whole)
    decreases |buf|
  {
    match Tlv(buf)
    case None =>
    case Some((code, value, rest)) =>
      TlvParts(buf, whole, base, code, value, rest);
      CapabilitiesShow(rest, whole, base + 2 + |value|);
      var b := buf[..2 + |value|];
      assert Says(Capability(code, value), b);
      hide Says, LiesAt, Tlv;
      LeafShows(Capability(code, value), b, whole, base);
      OneShows(Leaf(Capability(code, value), base, 2 + |value|), whole);
      ShowConcat([Leaf(Capability(code, value), base, 2 + |value|)], Capabilities(rest, base + 2 + |value|), whole);
  }

  lemma ParameterShows(buf: seq<byte>, whole: seq<byte>, base: nat, ptype: byte, value: seq<byte>, rest: seq<byte>)
    requires Tlv(buf) == Some((ptype, value, rest)) && LiesAt(buf, whole, base)
    ensures AllShow(ParameterFields(ptype, value, base), whole)
  {
    TlvParts(buf, whole, base, ptype, value, rest);
    if ptype == 2 {
      CapabilitiesShow(value, whole, base + 2);
    } else {
      LeafShows(Parameter(ptype, |value|), buf[..2 + |value|], whole, base);
      OneShows(Leaf(Parameter(ptype, |value|), base, 2 + |value|), whole);
    }
  }

  lemma ParameterParts(buf: seq<byte>, base: nat, ptype: byte, value: seq<byte>, rest: seq<byte>)
    requires Tlv(buf) == Some((ptype, value, rest))
    ensures Parameters(buf, base) == ParameterFields(ptype, value, base) + Parameters(rest, base + 2 + |value|)
    ensures |rest| < |buf|
  {
    hide ParameterFields;
  }

  lemma TlvRest(buf: seq<byte>, whole: seq<byte>, base: nat, t: byte, value: seq<byte>, rest: seq<byte>)
    requires Tlv(buf) == Some((t, value, rest)) && LiesAt(buf, whole, base)
    ensures LiesAt(rest, whole, base + 2 + |value|)
  {
    hide LiesAt;
    TlvParts(buf, whole, base, t, value, rest);
  }

  lemma NoParameters(buf: seq<byte>, whole: seq<byte>, base: nat)
    requires Tlv(buf) == None
    ensures AllShow(Parameters(buf, base), whole)
  {
    hide Shows;
  }

  lemma {:induction false} ParametersShow(buf: seq<byte>, whole: seq<byte>, base: nat)
    requires LiesAt(buf, whole, base)
    ensures AllShow(Parameters(buf, base), whole)
    decreases |buf|
  {
    hide LiesAt, Tlv, ParameterFields, Shows, Parameters, AllShow;
    if Tlv(buf).None? {
      NoParameters(buf, whole, base);
    } else {
      var (ptype, value, rest) := Tlv(buf).value;
      ParameterParts(buf, base, ptype, value, rest);
      TlvRest(buf, whole, base, ptype, value, rest);
      ParameterShows(buf, whole, base, ptype, value, rest);
      ParametersShow(rest, whole, base + 2 + |value|);
      ShowConcat(ParameterFields(ptype, value, base), Parameters(rest, base + 2 + |value|), whole);
    }
  }

  // ---------- the bodies ----------

  lemma FixedShow(body: seq<byte>, whole: seq<byte>, base: nat)
    requires LiesAt(body, whole, base) && |body| >= 10
    ensures Shows(Leaf(Version(body[0]), base, 1), whole)
    ensures Shows(Leaf(MyAs(Word16(body[1], body[2])), base + 1, 2), whole)
    ensures Shows(Leaf(HoldTime(Word16(body[3], body[4])), base + 3, 2), whole)
    ensures Shows(Leaf(RouterId(body[5..9]), base + 5, 4), whole)
  {
    PartOfPart(body, whole, base, 0, 1);
    LeafShows(Version(body[0]), body[0..1], whole, base);
    PartOfPart(body, whole, base, 1, 3);
    LeafShows(MyAs(Word16(body[1], body[2])), body[1..3], whole, base + 1);
    PartOfPart(body, whole, base, 3, 5);
    LeafShows(HoldTime(Word16(body[3], body[4])), body[3..5], whole, base + 3);
    PartOfPart(body, whole, base, 5, 9);
    LeafShows(RouterId(body[5..9]), body[5..9], whole, base + 5);
  }

  lemma OpenShows(body: seq<byte>, whole: seq<byte>, base: nat)
    requires LiesAt(body, whole, base)
    ensures AllShow(OpenBody(body, base).fields, whole)
  {
    if |body| >= 10 {
      FixedShow(body, whole, base);
      var optLen := body[9] as nat;
      if optLen > 0 && |body| >= 10 + optLen {
        var params := body[10..10 + optLen];
        PartOfPart(body, whole, base, 10, 10 + optLen);
        ParametersShow(params, whole, base + 10);
        ParentShows(OptionalParameters, params, whole, base + 10, Parameters(params, base + 10));
      }
      hide Shows, Parameters, ParameterAs, Word16;
    }
  }

  lemma ParentShows(what: Label, part: seq<byte>, whole: seq<byte>, at: nat, children: seq<Field>)
    requires LiesAt(part, whole, at) && Says(what, part) && AllShow(children, whole)
    ensures Shows(Field(what, at, |part|, children), whole)
  {
  }

  lemma GroupShows(what: Label, part: seq<byte>, whole: seq<byte>, at: nat, children: seq<Field>)
    requires LiesAt(part, whole, at) && AllShow(children, whole) && (children != [] ==> Says(what, part))
    ensures AllShow(Group(what, at, |part|, children), whole)
  {
    if children != [] {
      ParentShows(what, part, whole, at, children);
      OneShows(Field(what, at, |part|, children), whole);
    }
  }

  lemma BlockParts(buf: seq<byte>, whole: seq<byte>, base: nat, block: seq<byte>, rest: seq<byte>)
    requires Block(buf) == Some((block, rest)) && LiesAt(buf, whole, base)
    ensures var b := buf[..2 + |block|]; LiesAt(b, whole, base) && Two(b[..2], |block|)
    ensures LiesAt(block, whole, base + 2) && LiesAt(rest, whole, base + 2 + |block|)
  {
    PartOfPart(buf, whole, base, 0, 2 + |block|);
    PartOfPart(buf, whole, base, 2, 2 + |block|);
    PartOfPart(buf, whole, base, 2 + |block|, |buf|);
  }

  lemma UpdateShows(body: seq<byte>, whole: seq<byte>, base: nat)
    requires LiesAt(body, whole, base)
    ensures AllShow(UpdateBody(body, base).fields, whole)
  {
    hide Shows, Prefixes, Attributes, Block, Group, LiesAt, Two;
    if Block(body).Some? {
      var (withdrawn, rest) := Block(body).value;
      BlockParts(body, whole, base, withdrawn, rest);
      if Block(rest).Some? {
        var (attrs, nlri) := Block(rest).value;
        var at := base + 2 + |withdrawn|;
        BlockParts(rest, whole, at, attrs, nlri);
        BlockSize(body, withdrawn, rest);
        BlockSize(rest, attrs, nlri);
        PrefixesShow(withdrawn, whole, base + 2);
        AttributesShow(attrs, whole, at + 2);
        PrefixesShow(nlri, whole, at + 2 + |attrs|);
        NoneFromNothing(at + 2 + |attrs|);
        var ws, xs, ns := Prefixes(withdrawn, base + 2), Attributes(attrs, at + 2), Prefixes(nlri, at + 2 + |attrs|);
        GroupShows(WithdrawnRoutes, body[..2 + |withdrawn|], whole, base, ws);
        GroupShows(PathAttributes, rest[..2 + |attrs|], whole, at, xs);
        GroupShows(Nlri, nlri, whole, at + 2 + |attrs|, ns);
        ShowConcat(Group(PathAttributes, at, 2 + |attrs|, xs), Group(Nlri, at + 2 + |attrs|, |nlri|, ns), whole);
        ShowConcat(Group(PathAttributes, at, 2 + |attrs|, xs) + Group(Nlri, at + 2 + |attrs|, |nlri|, ns),
                   Group(WithdrawnRoutes, base, 2 + |withdrawn|, ws), whole);
      }
    }
  }

  lemma BlockSize(buf: seq<byte>, block: seq<byte>, rest: seq<byte>)
    requires Block(buf) == Some((block, rest))
    ensures |buf| == 2 + |block| + |rest|
  {
  }

  lemma NoneFromNothing(base: nat)
    ensures Prefixes([], base) == []
  {
  }

  lemma BodyShows(kind: Kind, body: seq<byte>, whole: seq<byte>, base: nat)
    requires LiesAt(body, whole, base)
    ensures AllShow(BodyOf(kind, body, base).fields, whole)
  {
    hide OpenBody, UpdateBody;
    match kind
    case OPEN => OpenShows(body, whole, base);
    case UPDATE => UpdateShows(body, whole, base);
    case NOTIFICATION =>
      if |body| >= 2 {
        PartOfPart(body, whole, base, 0, 1);
        PartOfPart(body, whole, base, 1, 2);
        LeafShows(ErrorCode(body[0]), body[0..1], whole, base);
        LeafShows(Subcode(body[1]), body[1..2], whole, base + 1);
      }
    case ROUTE_REFRESH =>
      if |body| >= 4 {
        PartOfPart(body, whole, base, 0, 4);
        LeafShows(Family(Word16(body[0], body[1]), body[3]), body[0..4], whole, base);
      }
    case KEEPALIVE =>
  }

  // ---------- whole messages ----------

  /** A message starts exactly with sixteen 255s, a length from 19 to 4096, and one of the five types. */
  lemma HeaderIff(payload: seq<byte>)
    requires |payload| >= 19
    ensures Header(payload).Some? <==>
            && (forall i :: 0 <= i < 16 ==> payload[i] == 255)
            && 19 <= 256 * payload[16] as nat + payload[17] as nat <= 4096 && 1 <= payload[18] <= 5
    ensures Header(payload).Some? ==>
              && Two(payload[16..18], Header(payload).value.1) && Says(MessageType(Header(payload).value.0), [payload[18]])
  {
    var marker := payload[..16];
    assert forall i :: 0 <= i < 16 ==> marker[i] == payload[i];
  }

  lemma HeaderShows(left: seq<byte>, whole: seq<byte>, pos: nat, kind: Kind, length: nat)
    requires |left| >= 19 && Header(left) == Some((kind, length)) && LiesAt(left, whole, pos)
    ensures AllShow(HeaderFields(pos, length, kind), whole)
  {
    HeaderIff(left);
    PartOfPart(left, whole, pos, 0, 16);
    PartOfPart(left, whole, pos, 16, 18);
    PartOfPart(left, whole, pos, 18, 19);
    LeafShows(Marker, left[0..16], whole, pos);
    LeafShows(MessageLength(length), left[16..18], whole, pos + 16);
    assert left[18..19] == [left[18]];
    LeafShows(MessageType(kind), left[18..19], whole, pos + 18);
  }

  /** What a message says of itself and of its bytes. */
  ghost predicate Truthful(m: Message, whole: seq<byte>) {
    && m.offset + m.length <= |whole|
    && (if Complete(m) then
          && AllShow(m.fields, whole)
          && m.fields[0] == Leaf(Marker, m.offset, 16) && m.fields[1] == Leaf(MessageLength(m.length), m.offset + 16, 2)
          && m.fields[2] == Leaf(MessageType(m.kind.value), m.offset + 18, 1)
        else
          && m.summary == Truncated && m.offset + m.length == |whole|
          && (if m.kind.None? then m.length < 19 && m.fields == []
              else
                && 19 <= m.length && Says(MessageType(m.kind.value), [whole[m.offset + 18]])
                && |m.fields| == 1 && m.fields[0].Bare? && m.fields[0].what.CapturedOnly?
                && m.fields[0].what.captured == m.length < m.fields[0].what.length
                && Two(whole[m.offset + 16..m.offset + 18], m.fields[0].what.length)))
  }

  ghost predicate AllTruthful(msgs: seq<Message>, whole: seq<byte>) {
    forall i :: 0 <= i < |msgs| ==> Truthful(msgs[i], whole)
  }

  lemma CompleteIsTruthful(left: seq<byte>, whole: seq<byte>, pos: nat, kind: Kind, length: nat)
    requires |left| >= 19 && Header(left) == Some((kind, length)) && length <= |left| && LiesAt(left, whole, pos)
    ensures Truthful(MessageAt(kind, left[HEADER..length], pos, length), whole)
  {
    hide BodyOf, Shows, Header;
    HeaderShows(left, whole, pos, kind, length);
    PartOfPart(left, whole, pos, HEADER, length);
    BodyShows(kind, left[HEADER..length], whole, pos + HEADER);
    ShowConcat(HeaderFields(pos, length, kind), BodyOf(kind, left[HEADER..length], pos + HEADER).fields, whole);
  }

  lemma CutIsTruthful(left: seq<byte>, whole: seq<byte>, pos: nat, kind: Kind, length: nat)
    requires |left| >= 19 && Header(left) == Some((kind, length)) && length > |left|
    requires LiesAt(left, whole, pos) && pos + |left| == |whole|
    ensures Truthful(Message(Some(kind), Truncated, pos, |left|, [Bare(CapturedOnly(length, |left|))]), whole)
  {
    HeaderIff(left);
    hide Header;
    assert whole[pos + 16..pos + 18] == left[16..18] && whole[pos + 18] == left[18];
  }

  /** Every field of every message, on any bytes, is what the bytes of its range say. */
  lemma {:induction false} MessagesAreTruthful(left: seq<byte>, whole: seq<byte>, pos: nat, first: bool)
    requires LiesAt(left, whole, pos) && pos + |left| == |whole|
    ensures AllTruthful(Messages(left, pos, first), whole)
    decreases |left|
  {
    hide Header, MessageAt, Truthful;
    if left == [] {
    } else if |left| < HEADER {
      assert Truthful(Message(None, Truncated, pos, |left|, []), whole) by { ShortIsTruthful(whole, pos, |left|); }
    } else if Header(left).Some? {
      var (kind, length) := Header(left).value;
      if length > |left| {
        CutIsTruthful(left, whole, pos, kind, length);
      } else {
        CompleteIsTruthful(left, whole, pos, kind, length);
        PartOfPart(left, whole, pos, length, |left|);
        MessagesAreTruthful(left[length..], whole, pos + length, false);
      }
    }
  }

  lemma ShortIsTruthful(whole: seq<byte>, pos: nat, n: nat)
    requires pos + n == |whole| && n < 19
    ensures Truthful(Message(None, Truncated, pos, n, []), whole)
  {
  }
}
