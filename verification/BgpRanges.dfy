/**
 What the decoder promises on arbitrary bytes: messages tile a prefix of the payload and stop only where no
 further message starts, and every byte range lies inside the one that encloses it, apart from its siblings.
 */
module BgpRanges {
  import opened Wrappers
  import opened Bgp

  /** Consecutive ranges from `lo` on, each holding its children, ending by `hi`. */
  ghost predicate Ordered(fields: seq<Field>, lo: nat, hi: nat)
    decreases fields
  {
    if fields == [] then lo <= hi
    else
      var f := fields[0];
      f.Field? && lo <= f.at && Ordered(f.children, f.at, f.at + f.size) && Ordered(fields[1..], f.at + f.size, hi)
  }

  lemma {:induction false} OrderedFits(fields: seq<Field>, lo: nat, hi: nat)
    requires Ordered(fields, lo, hi)
    ensures lo <= hi
    decreases fields
  {
    if fields != [] {
      OrderedFits(fields[1..], fields[0].at + fields[0].size, hi);
    }
  }

  lemma {:induction false} OrderedWider(fields: seq<Field>, lo: nat, hi: nat, lo': nat, hi': nat)
    requires Ordered(fields, lo, hi) && lo' <= lo && hi <= hi'
    ensures Ordered(fields, lo', hi')
    decreases fields
  {
    if fields != [] {
      var end := fields[0].at + fields[0].size;
      OrderedWider(fields[1..], end, hi, end, hi');
    }
  }

  lemma {:induction false} OrderedConcat(xs: seq<Field>, ys: seq<Field>, lo: nat, mid: nat, hi: nat)
    requires Ordered(xs, lo, mid) && Ordered(ys, mid, hi)
    ensures Ordered(xs + ys, lo, hi)
    decreases xs
  {
    if xs == [] {
      assert xs + ys == ys;
      OrderedWider(ys, mid, hi, lo, hi);
    } else {
      assert (xs + ys)[1..] == xs[1..] + ys;
      OrderedConcat(xs[1..], ys, xs[0].at + xs[0].size, mid, hi);
    }
  }

  lemma LeafFirst(what: Label, at: nat, size: nat, rest: seq<Field>, hi: nat)
    requires Ordered(rest, at + size, hi)
    ensures Ordered([Leaf(what, at, size)] + rest, at, hi)
  {
  }

  lemma FieldFirst(f: Field, rest: seq<Field>, lo: nat, hi: nat)
    requires f.Field? && f.children == [] && lo <= f.at && Ordered(rest, f.at + f.size, hi)
    ensures Ordered([f] + rest, lo, hi)
  {
  }

  lemma GroupOrdered(what: Label, at: nat, size: nat, children: seq<Field>)
    requires Ordered(children, at, at + size)
    ensures Ordered(Group(what, at, size, children), at, at + size)
  {
  }

  // ---------- the structures ----------

  lemma {:induction false} PrefixesOrdered(buf: seq<byte>, base: nat)
    ensures Ordered(Prefixes(buf, base), base, base + |buf|)
    decreases |buf|
  {
    if buf != [] {
      var bits := buf[0] as nat;
      var n := PrefixBytes(bits);
      if !(bits > 32 || 1 + n > |buf|) {
        PrefixesOrdered(buf[1 + n..], base + 1 + n);
        LeafFirst(PrefixOf(Padded(buf[1..1 + n]), bits), base, 1 + n, Prefixes(buf[1 + n..], base + 1 + n), base + |buf|);
      }
    }
  }

  lemma {:induction false} AttributesOrdered(buf: seq<byte>, base: nat)
    ensures Ordered(Attributes(buf, base), base, base + |buf|)
    decreases |buf|
  {
    match AttributeHeader(buf)
    case None =>
    case Some((hdr, length)) =>
      if |buf| >= hdr + length {
        var rest := Attributes(buf[hdr + length..], base + hdr + length);
        AttributesOrdered(buf[hdr + length..], base + hdr + length);
        LeafFirst(Attribute(buf[1], buf[hdr..hdr + length]), base, hdr + length, rest, base + |buf|);
      }
  }

  lemma {:induction false} CapabilitiesOrdered(buf: seq<byte>, base: nat)
    ensures Ordered(Capabilities(buf, base), base, base + |buf|)
    decreases |buf|
  {
    match Tlv(buf)
    case None =>
    case Some((code, value, rest)) =>
      CapabilitiesOrdered(rest, base + 2 + |value|);
      LeafFirst(Capability(code, value), base, 2 + |value|, Capabilities(rest, base + 2 + |value|), base + |buf|);
  }

  lemma ParameterOrdered(ptype: byte, value: seq<byte>, base: nat)
    ensures Ordered(ParameterFields(ptype, value, base), base, base + 2 + |value|)
  {
    var end := base + 2 + |value|;
    if ptype == 2 {
      CapabilitiesOrdered(value, base + 2);
      OrderedWider(Capabilities(value, base + 2), base + 2, end, base, end);
    } else {
      LeafFirst(Parameter(ptype, |value|), base, 2 + |value|, [], end);
      assert ParameterFields(ptype, value, base) == [Leaf(Parameter(ptype, |value|), base, 2 + |value|)] + [];
    }
  }

  lemma {:induction false} ParametersOrdered(buf: seq<byte>, base: nat)
    ensures Ordered(Parameters(buf, base), base, base + |buf|)
    decreases |buf|
  {
    hide Tlv, ParameterFields;
    match Tlv(buf)
    case None =>
    case Some((ptype, value, rest)) =>
      var end := base + 2 + |value|;
      ParametersOrdered(rest, end);
      ParameterOrdered(ptype, value, base);
      OrderedConcat(ParameterFields(ptype, value, base), Parameters(rest, end), base, end, base + |buf|);
  }

  /** The body's fields are a rearrangement of consecutive ranges inside it. */
  ghost predicate Arranged(fields: seq<Field>, lo: nat, hi: nat) {
    exists front, back :: fields == front + back && Ordered(back + front, lo, hi)
  }

  lemma OrderedIsArranged(fields: seq<Field>, lo: nat, hi: nat)
    requires Ordered(fields, lo, hi)
    ensures Arranged(fields, lo, hi)
  {
    assert fields == fields + [] && [] + fields == fields;
  }

  lemma OpenArranged(body: seq<byte>, base: nat)
    ensures Arranged(OpenBody(body, base).fields, base, base + |body|)
  {
    hide Parameters, ParameterAs, Word16;
    var fields := OpenBody(body, base).fields;
    if |body| < 10 {
      assert fields == [];
      OrderedIsArranged([], base, base + |body|);
      return;
    }
    var fixed := fields[..4];
    FixedOrdered(fixed, base);
    if |fields| == 5 {
      var optLen := body[9] as nat;
      ParametersOrdered(body[10..10 + optLen], base + 10);
      GroupOrdered(OptionalParameters, base + 10, optLen, fields[4].children);
      assert Ordered([fields[4]], base + 10, base + 10 + optLen);
      OrderedWider([fields[4]], base + 10, base + 10 + optLen, base + 10, base + |body|);
      OrderedConcat(fixed, [fields[4]], base, base + 10, base + |body|);
      assert fields == fixed + [fields[4]];
    } else {
      assert fields == fixed;
      OrderedWider(fixed, base, base + 10, base, base + |body|);
    }
    OrderedIsArranged(fields, base, base + |body|);
  }

  lemma FixedOrdered(fixed: seq<Field>, base: nat)
    requires |fixed| == 4 && forall i :: 0 <= i < 4 ==> fixed[i].Field? && fixed[i].children == []
    requires fixed[0].at == base && fixed[0].size == 1 && fixed[1].at == base + 1 && fixed[1].size == 2
    requires fixed[2].at == base + 3 && fixed[2].size == 2 && fixed[3].at == base + 5 && fixed[3].size == 4
    ensures Ordered(fixed, base, base + 10)
  {
    assert Ordered(fixed[1..][1..][1..][1..], base + 9, base + 10);
    assert Ordered(fixed[1..][1..][1..], base + 5, base + 10);
    assert Ordered(fixed[1..][1..], base + 3, base + 10);
    assert Ordered(fixed[1..], base + 1, base + 10);
  }

  /** The three parts of an UPDATE lie one after the other: withdrawn routes, attributes, reachable prefixes. */
  lemma UpdateArranged(body: seq<byte>, base: nat)
    ensures Arranged(UpdateBody(body, base).fields, base, base + |body|)
  {
    hide Prefixes, Attributes, Group;
    if Block(body).None? || Block(Block(body).value.1).None? {
      OrderedIsArranged([], base, base + |body|);
      return;
    }
    var (withdrawn, rest) := Block(body).value;
    var (attrs, nlri) := Block(rest).value;
    var attrsBase := base + 2 + |withdrawn| + 2;
    var w := Group(WithdrawnRoutes, base, 2 + |withdrawn|, Prefixes(withdrawn, base + 2));
    var a := Group(PathAttributes, attrsBase - 2, 2 + |attrs|, Attributes(attrs, attrsBase));
    var n := Group(Nlri, attrsBase + |attrs|, |nlri|, Prefixes(nlri, attrsBase + |attrs|));
    PrefixesOrdered(withdrawn, base + 2);
    OrderedWider(Prefixes(withdrawn, base + 2), base + 2, base + 2 + |withdrawn|, base, base + 2 + |withdrawn|);
    GroupOrdered(WithdrawnRoutes, base, 2 + |withdrawn|, Prefixes(withdrawn, base + 2));
    AttributesOrdered(attrs, attrsBase);
    OrderedWider(Attributes(attrs, attrsBase), attrsBase, attrsBase + |attrs|, attrsBase - 2, attrsBase + |attrs|);
    GroupOrdered(PathAttributes, attrsBase - 2, 2 + |attrs|, Attributes(attrs, attrsBase));
    PrefixesOrdered(nlri, attrsBase + |attrs|);
    GroupOrdered(Nlri, attrsBase + |attrs|, |nlri|, Prefixes(nlri, attrsBase + |attrs|));
    OrderedConcat(a, n, attrsBase - 2, attrsBase + |attrs|, base + |body|);
    OrderedConcat(w, a + n, base, attrsBase - 2, base + |body|);
    assert UpdateBody(body, base).fields == (a + n) + w;
  }

  lemma BodyArranged(kind: Kind, body: seq<byte>, base: nat)
    ensures Arranged(BodyOf(kind, body, base).fields, base, base + |body|)
  {
    hide OpenBody, UpdateBody, Arranged;
    match kind
    case OPEN => OpenArranged(body, base);
    case UPDATE => UpdateArranged(body, base);
    case NOTIFICATION => FewArranged(BodyOf(kind, body, base).fields, base, 1, 1, base + |body|);
    case ROUTE_REFRESH => FewArranged(BodyOf(kind, body, base).fields, base, 4, 0, base + |body|);
    case KEEPALIVE => FewArranged([], base, 0, 0, base + |body|);
  }

  lemma FewArranged(fields: seq<Field>, at: nat, size: nat, next: nat, hi: nat)
    requires |fields| <= 2 && at <= hi && forall i :: 0 <= i < |fields| ==> fields[i].Field? && fields[i].children == []
    requires |fields| > 0 ==> fields[0].at == at && fields[0].size == size && at + size + next <= hi
    requires |fields| > 1 ==> fields[1].at == at + size && fields[1].size == next
    ensures Arranged(fields, at, hi)
  {
    if |fields| == 1 {
      FieldFirst(fields[0], [], at, hi);
      assert fields == [fields[0]] + [];
    } else if |fields| == 2 {
      FieldFirst(fields[1], [], at + size, hi);
      FieldFirst(fields[0], [fields[1]] + [], at, hi);
      assert fields == [fields[0]] + ([fields[1]] + []);
    }
    OrderedIsArranged(fields, at, hi);
  }

  // ---------- ranges, read off ----------

  /** A ranged field lies in `[lo, hi)`, and its children lie in it, all the way down. */
  ghost predicate Inside(f: Field, lo: nat, hi: nat)
    decreases f
  {
    f.Field? ==>
      && lo <= f.at && f.at + f.size <= hi
      && forall i :: 0 <= i < |f.children| ==> Inside(f.children[i], f.at, f.at + f.size)
  }

  predicate Clear(f: Field, g: Field) {
    f.Field? && g.Field? ==> f.at + f.size <= g.at || g.at + g.size <= f.at
  }

  /** No two siblings overlap, at this level and below. */
  ghost predicate Apart(fields: seq<Field>)
    decreases fields
  {
    && (forall i, j :: 0 <= i < j < |fields| ==> Clear(fields[i], fields[j]))
    && forall i :: 0 <= i < |fields| && fields[i].Field? ==> Apart(fields[i].children)
  }

  lemma {:induction false} OrderedInside(fields: seq<Field>, lo: nat, hi: nat)
    requires Ordered(fields, lo, hi)
    ensures forall i :: 0 <= i < |fields| ==> fields[i].Field? && Inside(fields[i], lo, hi)
    ensures Apart(fields)
    decreases fields
  {
    if fields != [] {
      var f, rest := fields[0], fields[1..];
      var end := f.at + f.size;
      OrderedInside(f.children, f.at, end);
      OrderedInside(rest, end, hi);
      OrderedFits(rest, end, hi);
      forall i | 0 <= i < |fields|
        ensures fields[i].Field? && Inside(fields[i], lo, hi) && Apart(fields[i].children)
      {
        if i > 0 { assert fields[i] == rest[i - 1]; }
      }
      forall i, j | 0 <= i < j < |fields|
        ensures Clear(fields[i], fields[j])
      {
        assert fields[j] == rest[j - 1] && Inside(rest[j - 1], end, hi);
        if i > 0 { assert fields[i] == rest[i - 1]; }
      }
    }
  }

  lemma ClearSymmetric(f: Field, g: Field)
    requires Clear(f, g)
    ensures Clear(g, f)
  {
  }

  lemma HeaderOrdered(pos: nat, length: nat, kind: Kind)
    ensures Ordered(HeaderFields(pos, length, kind), pos, pos + HEADER)
  {
    var h := HeaderFields(pos, length, kind);
    assert Ordered(h[1..][1..][1..], pos + 19, pos + 19);
    assert Ordered(h[1..][1..], pos + 18, pos + 19);
    assert Ordered(h[1..], pos + 16, pos + 19);
  }

  ghost predicate FieldsNest(m: Message) {
    && (forall i :: 0 <= i < |m.fields| ==> Inside(m.fields[i], m.offset, m.offset + m.length))
    && Apart(m.fields)
  }

  lemma MessageNests(kind: Kind, body: seq<byte>, pos: nat)
    ensures FieldsNest(MessageAt(kind, body, pos, HEADER + |body|))
  {
    hide BodyOf, HeaderFields;
    var m := MessageAt(kind, body, pos, HEADER + |body|);
    var header := HeaderFields(pos, HEADER + |body|, kind);
    var fields := BodyOf(kind, body, pos + HEADER).fields;
    BodyArranged(kind, body, pos + HEADER);
    HeaderOrdered(pos, HEADER + |body|, kind);
    var front, back :| fields == front + back && Ordered(back + front, pos + HEADER, pos + HEADER + |body|);
    OrderedConcat(header, back + front, pos, pos + HEADER, pos + HEADER + |body|);
    RearrangeTail(header, front, back, pos, pos + HEADER + |body|);
    assert header + fields == header + front + back;
  }

  lemma RearrangeTail(header: seq<Field>, front: seq<Field>, back: seq<Field>, lo: nat, hi: nat)
    requires Ordered(header + (back + front), lo, hi)
    ensures forall i :: 0 <= i < |header + front + back| ==> Inside((header + front + back)[i], lo, hi)
    ensures Apart(header + front + back)
  {
    hide Inside, Clear, Ordered;
    var fs, gs := header + (back + front), header + front + back;
    OrderedInside(fs, lo, hi);
    forall i | 0 <= i < |gs|
      ensures Inside(gs[i], lo, hi) && (gs[i].Field? ==> Apart(gs[i].children))
    {
      assert gs[i] == fs[Moved(|header|, |front|, |back|, i)];
    }
    forall i, j | 0 <= i < j < |gs|
      ensures Clear(gs[i], gs[j])
    {
      var k, l := Moved(|header|, |front|, |back|, i), Moved(|header|, |front|, |back|, j);
      assert gs[i] == fs[k] && gs[j] == fs[l];
      if k < l { assert Clear(fs[k], fs[l]); } else { ClearSymmetric(fs[l], fs[k]); }
    }
  }

  function Moved(h: nat, f: nat, b: nat, i: nat): (k: nat)
    requires i < h + f + b
    ensures k < h + f + b
  {
    if i < h then i else if i < h + f then i + b else i - f
  }

  // ---------- tiling ----------

  /** A message read in full, or one that ends where the capture does. */
  predicate Complete(m: Message) {
    m.kind.Some? && |m.fields| >= 3
  }

  /** Messages one after the other from `pos`; only the last may be cut short, and then it ends at `end`. */
  ghost predicate Tiled(msgs: seq<Message>, pos: nat, end: nat) {
    if msgs == [] then pos <= end
    else
      var m := msgs[0];
      && m.offset == pos && m.length > 0
      && (Complete(m) || (|msgs| == 1 && pos + m.length == end))
      && Tiled(msgs[1..], pos + m.length, end)
  }

  function EndOf(msgs: seq<Message>, pos: nat): nat {
    if msgs == [] then pos else msgs[|msgs| - 1].offset + msgs[|msgs| - 1].length
  }

  /** No message starts here: too little is left to tell, or it is not a header. */
  ghost predicate NothingStarts(rest: seq<byte>, first: bool) {
    rest == [] || (|rest| < HEADER && first) || (|rest| >= HEADER && Header(rest) == None)
  }

  lemma TiledFirst(m: Message, rest: seq<Message>, pos: nat, end: nat)
    requires m.offset == pos && m.length > 0 && Complete(m) && Tiled(rest, pos + m.length, end)
    ensures Tiled([m] + rest, pos, end) && EndOf([m] + rest, pos) == EndOf(rest, pos + m.length)
  {
  }

  lemma DropTwice(payload: seq<byte>, a: nat, b: nat)
    requires a + b <= |payload|
    ensures payload[a..][b..] == payload[a + b..]
  {
  }

  ghost predicate TilesPayload(msgs: seq<Message>, payload: seq<byte>, pos: nat, first: bool) {
    && Tiled(msgs, pos, pos + |payload|)
    && pos <= EndOf(msgs, pos) <= pos + |payload|
    && NothingStarts(payload[EndOf(msgs, pos) - pos..], first && msgs == [])
  }

  lemma TilesNext(m: Message, rest: seq<Message>, payload: seq<byte>, pos: nat, first: bool)
    requires m.offset == pos && 0 < m.length <= |payload| && Complete(m)
    requires TilesPayload(rest, payload[m.length..], pos + m.length, false)
    ensures TilesPayload([m] + rest, payload, pos, first)
  {
    hide Tiled, EndOf, NothingStarts, Complete;
    TiledFirst(m, rest, pos, pos + |payload|);
    DropTwice(payload, m.length, EndOf(rest, pos + m.length) - pos - m.length);
  }

  lemma TilesLast(msgs: seq<Message>, payload: seq<byte>, pos: nat, first: bool)
    requires msgs == [] || (|msgs| == 1 && msgs[0].offset == pos && msgs[0].length == |payload| > 0)
    requires msgs == [] ==> NothingStarts(payload, first)
    ensures TilesPayload(msgs, payload, pos, first)
  {
  }

  /** The messages tile a prefix of the payload, and decoding stops only where no message starts. */
  lemma {:induction false} MessagesTile(payload: seq<byte>, pos: nat, first: bool)
    ensures TilesPayload(Messages(payload, pos, first), payload, pos, first)
    decreases |payload|
  {
    hide BodyOf, Header, TilesPayload;
    var msgs := Messages(payload, pos, first);
    if |payload| >= HEADER && Header(payload).Some? && Header(payload).value.1 <= |payload| {
      var (kind, length) := Header(payload).value;
      MessagesTile(payload[length..], pos + length, false);
      TilesNext(MessageAt(kind, payload[HEADER..length], pos, length), Messages(payload[length..], pos + length, false),
                payload, pos, first);
    } else {
      TilesLast(msgs, payload, pos, first);
    }
  }

  /** Every field of every message, on any bytes, lies inside its message and apart from its siblings. */
  lemma {:induction false} MessagesNest(payload: seq<byte>, pos: nat, first: bool)
    ensures forall i :: 0 <= i < |Messages(payload, pos, first)| ==> FieldsNest(Messages(payload, pos, first)[i])
    decreases |payload|
  {
    hide BodyOf, Header, FieldsNest;
    if |payload| >= HEADER && Header(payload).Some? {
      var (kind, length) := Header(payload).value;
      if length <= |payload| {
        MessagesNest(payload[length..], pos + length, false);
        MessageNests(kind, payload[HEADER..length], pos);
      } else {
        BareNests(Messages(payload, pos, first)[0]);
      }
    } else if |payload| < HEADER && !first && payload != [] {
      EmptyNests(Messages(payload, pos, first)[0]);
    }
  }

  lemma BareNests(m: Message)
    requires |m.fields| == 1 && m.fields[0].Bare?
    ensures FieldsNest(m)
  {
  }

  lemma EmptyNests(m: Message)
    requires m.fields == []
    ensures FieldsNest(m)
  {
  }
}
