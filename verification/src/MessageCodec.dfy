/** The payload chain threaded by Next Payload octets, and the whole message around it
    (sections 3.1 and 3.2 of RFC 7296). */
module MessageCodec {
  import opened Bytes
  import opened IkeMsg
  import opened BodyCodec
  import SaCodec

  const HEADER_LEN := 28
  const VERSION: byte := 0x20
  const GENERIC_HEADER_LEN := 4
  const CRITICAL_BIT := 0x80
  const MAX_BODY := 0xFFFF - GENERIC_HEADER_LEN

  // ----- encoding the chain -----

  /** The type the header in front of the chain announces. */
  function First(ps: seq<Payload>): byte {
    if ps == [] then PAYLOAD_NONE else ps[0].Type()
  }

  /** The Next Payload octet of the first payload of a chain. */
  function Next(ps: seq<Payload>): byte
    requires ps != []
  {
    if |ps| > 1 then ps[1].Type() else if ps[0].SK? then ps[0].innerFirst else PAYLOAD_NONE
  }

  function Fits(b: Result<Bytes>): bool {
    b.Ok? && |b.value| <= MAX_BODY
  }

  function GenericHeader(next: byte, plen: nat): (h: Bytes)
    ensures |h| == GENERIC_HEADER_LEN
  {
    [next, 0, Hi(plen), Lo(plen)]
  }

  function Chain(ps: seq<Payload>): Result<Bytes> {
    if ps == [] then Ok([])
    else if !Fits(Body(ps[0])) then Err
    else
      var b := Body(ps[0]).value;
      Prepend(GenericHeader(Next(ps), GENERIC_HEADER_LEN + |b|) + b, Chain(ps[1..]))
  }

  // ----- decoding the chain -----

  /** The payload length the header at the front of a chain claims, when it is usable. */
  function ClaimedLength(body: Bytes): Option<nat> {
    if |body| < GENERIC_HEADER_LEN then None else
    var plen := U16At(body, 2);
    if plen < GENERIC_HEADER_LEN || plen > |body| then None else Some(plen)
  }

  function ParseChain(first: byte, body: Bytes): Result<seq<Payload>>
    decreases |body|
  {
    if body == [] then Ok([]) else
    match ClaimedLength(body)
    case None => Err
    case Some(plen) =>
      if !Known(first) then
        // An unrecognised payload is skipped, unless it is marked critical.
        if body[1] >= CRITICAL_BIT then Err else ParseChain(body[0], body[plen..])
      else
        match ParseBody(first, body[0], body[GENERIC_HEADER_LEN..plen])
        case Err => Err
        case Ok(p) => Prepend([p], ParseChain(body[0], body[plen..]))
  }

  // ----- messages -----

  function BeforeLength(m: Message, first: byte): (h: Bytes)
    ensures |h| == 24
  {
    Be64(m.initiatorSPI) + Be64(m.responderSPI) + [first, VERSION, m.exchange, m.flags] + Be32(m.messageID)
  }

  function Header(m: Message, first: byte, total: nat): (h: Bytes)
    ensures |h| == HEADER_LEN
  {
    BeforeLength(m, first) + Be(total, 4)
  }

  function Marshal(m: Message): Result<Bytes> {
    match Chain(m.payloads)
    case Err => Err
    case Ok(body) => Ok(Header(m, First(m.payloads), HEADER_LEN + |body|) + body)
  }

  function Parse(raw: Bytes): Result<Message> {
    if |raw| < HEADER_LEN || U32(raw[24..28]) != |raw| then Err else
    match ParseChain(raw[16], raw[HEADER_LEN..])
    case Err => Err
    case Ok(ps) => Ok(Message(U64(raw[..8]), U64(raw[8..16]), raw[18], raw[19], U32(raw[20..24]), ps))
  }

  // ----- well-formed messages -----

  /** An SK payload in front of another payload must name that payload's type: the wire
      has one octet for both. */
  predicate SkLinked(ps: seq<Payload>) {
    forall i :: 0 <= i < |ps| - 1 && ps[i].SK? ==> ps[i].innerFirst == ps[i + 1].Type()
  }

  predicate WellFormedBodies(ps: seq<Payload>) {
    forall i :: 0 <= i < |ps| ==> WellFormedPayload(ps[i]) && Fits(Body(ps[i]))
  }

  predicate WellFormedChain(ps: seq<Payload>) {
    WellFormedBodies(ps) && SkLinked(ps)
  }

  predicate WellFormed(m: Message) {
    WellFormedChain(m.payloads)
    && Chain(m.payloads).Ok? && HEADER_LEN + |Chain(m.payloads).value| < 0x1_0000_0000
  }

  /** Marshalling succeeds and parsing gives the message back. */
  predicate RoundTrips(m: Message) {
    Marshal(m).Ok? && Parse(Marshal(m).value) == Ok(m)
  }

  // ----- the chain round trip -----

  lemma GenericHeaderFields(next: byte, b: Bytes, rest: Bytes)
    requires |b| <= MAX_BODY
    ensures var plen := GENERIC_HEADER_LEN + |b|; var body := GenericHeader(next, plen) + b + rest;
            && ClaimedLength(body) == Some(plen) && body[0] == next && body[1] == 0
            && body[GENERIC_HEADER_LEN..plen] == b && body[plen..] == rest
  {
    var plen := GENERIC_HEADER_LEN + |b|;
    HiLo(plen);
    var h := GenericHeader(next, plen);
    var body := h + b + rest;
    assert forall i :: 0 <= i < 4 ==> body[i] == h[i];
    assert U16At(h, 2) == plen;
  }

  lemma ParseKnown(first: byte, body: Bytes, plen: nat)
    requires Known(first) && body != [] && ClaimedLength(body) == Some(plen)
    ensures ParseChain(first, body) ==
            match ParseBody(first, body[0], body[GENERIC_HEADER_LEN..plen])
            case Err => Err
            case Ok(p) => Prepend([p], ParseChain(body[0], body[plen..]))
  {}

  lemma ParseEncoded(t: byte, next: byte, b: Bytes, rest: Bytes)
    requires Known(t) && |b| <= MAX_BODY
    ensures ParseChain(t, GenericHeader(next, GENERIC_HEADER_LEN + |b|) + b + rest) ==
            match ParseBody(t, next, b)
            case Err => Err
            case Ok(p) => Prepend([p], ParseChain(next, rest))
  {
    hide ParseBody, GenericHeader, ParseChain, ClaimedLength;
    var plen := GENERIC_HEADER_LEN + |b|;
    GenericHeaderFields(next, b, rest);
    ParseKnown(t, GenericHeader(next, plen) + b + rest, plen);
  }

  /** An encoded chain is the first payload's header and body in front of the rest. */
  lemma ChainOf(ps: seq<Payload>, b: Bytes, rest: Bytes)
    requires ps != [] && Body(ps[0]) == Ok(b) && |b| <= MAX_BODY && Chain(ps[1..]) == Ok(rest)
    ensures Chain(ps) == Ok(GenericHeader(Next(ps), GENERIC_HEADER_LEN + |b|) + b + rest)
  {
    hide Body, GenericHeader, Next;
  }

  lemma TailWellFormed(ps: seq<Payload>)
    requires ps != [] && WellFormedChain(ps)
    ensures WellFormedChain(ps[1..]) && WellFormedPayload(ps[0]) && Fits(Body(ps[0]))
    ensures ps[0].SK? ==> ps[0].innerFirst == Next(ps)
  {
    hide WellFormedPayload, Body;
    var t := ps[1..];
    forall i | 0 <= i < |t| - 1 && t[i].SK? ensures t[i].innerFirst == t[i + 1].Type() {
      assert ps[i + 1].SK?;
    }
  }

  lemma {:induction false} ChainRoundTrip(ps: seq<Payload>)
    requires WellFormedChain(ps)
    ensures Chain(ps).Ok? && ParseChain(First(ps), Chain(ps).value) == Ok(ps)
    decreases ps
  {
    if ps != [] {
      hide WellFormedPayload, WellFormedChain, Body, ParseBody, GenericHeader;
      TailWellFormed(ps);
      ChainRoundTrip(ps[1..]);
      var rest, b := Chain(ps[1..]).value, Body(ps[0]).value;
      ChainOf(ps, b, rest);
      ParseEncoded(ps[0].Type(), Next(ps), b, rest);
      BodyRoundTrip(ps[0], Next(ps));
      if |ps| == 1 {
        assert ps[1..] == [] && rest == [];
      }
      assert [ps[0]] + ps[1..] == ps;
    }
  }

  // ----- what the chain decoder yields -----

  predicate AllFewTransforms(ps: seq<Payload>) {
    forall i :: 0 <= i < |ps| ==> FewTransforms(ps[i])
  }

  /** Accepted chains: only the transform count and the SK links can keep the payloads
      from being well formed, and re-encoding takes no more octets. */
  lemma {:induction false} ParseChainYields(first: byte, body: Bytes)
    requires ParseChain(first, body).Ok?
    ensures var ps := ParseChain(first, body).value;
            && (WellFormedBodies(ps) <==> AllFewTransforms(ps))
            && (AllFewTransforms(ps) ==> Chain(ps).Ok? && |Chain(ps).value| <= |body|)
    decreases |body|
  {
    if body != [] {
      var plen := ClaimedLength(body).value;
      ParseChainYields(body[0], body[plen..]);
      if Known(first) {
        hide WellFormedPayload, FewTransforms, Body, ParseBody;
        ParseBodyYields(first, body[0], body[GENERIC_HEADER_LEN..plen]);
        FirstPayload(ParseBody(first, body[0], body[GENERIC_HEADER_LEN..plen]).value,
                     ParseChain(body[0], body[plen..]).value);
      }
    }
  }

  lemma FirstPayload(p: Payload, rest: seq<Payload>)
    ensures WellFormedBodies([p] + rest) <==> WellFormedPayload(p) && Fits(Body(p)) && WellFormedBodies(rest)
    ensures AllFewTransforms([p] + rest) <==> FewTransforms(p) && AllFewTransforms(rest)
    ensures Fits(Body(p)) && Chain(rest).Ok? ==>
              && Chain([p] + rest).Ok?
              && |Chain([p] + rest).value| == GENERIC_HEADER_LEN + |Body(p).value| + |Chain(rest).value|
  {
    hide WellFormedPayload, FewTransforms, Body;
    var ps := [p] + rest;
    assert ps[0] == p && ps[1..] == rest;
    assert forall i :: 0 < i < |ps| ==> ps[i] == rest[i - 1];
    assert forall i :: 0 <= i < |rest| ==> rest[i] == ps[i + 1];
  }

  /** A chain that survives the trip has its SK payloads linked and few transforms. */
  lemma {:induction false} SurvivorIsLinked(ps: seq<Payload>)
    requires Chain(ps).Ok? && ParseChain(First(ps), Chain(ps).value) == Ok(ps)
    ensures SkLinked(ps) && AllFewTransforms(ps)
    decreases ps
  {
    if ps != [] {
      hide FewTransforms, Body, ParseBody, GenericHeader;
      var rest, b := Chain(ps[1..]).value, Body(ps[0]).value;
      ChainOf(ps, b, rest);
      ParseEncoded(ps[0].Type(), Next(ps), b, rest);
      var back := ParseBody(ps[0].Type(), Next(ps), b);
      var tail := ParseChain(Next(ps), rest);
      assert ps == [back.value] + tail.value;
      assert back.value == ps[0] && tail.value == ps[1..];
      ParseBodyYields(ps[0].Type(), Next(ps), b);
      EncodedHasFewTransforms(ps[0]);
      if |ps| > 1 {
        SurvivorIsLinked(ps[1..]);
        forall i | 0 <= i < |ps| - 1 && ps[i].SK? ensures ps[i].innerFirst == ps[i + 1].Type() {
          if i > 0 {
            assert ps[1..][i - 1].SK?;
          }
        }
        forall i | 0 <= i < |ps| ensures FewTransforms(ps[i]) {
          if i > 0 {
            assert ps[i] == ps[1..][i - 1];
          }
        }
      }
    }
  }

  lemma EncodedHasFewTransforms(p: Payload)
    requires Body(p).Ok?
    ensures FewTransforms(p)
  {
    if p.SA? {
      ProposalsHaveFewTransforms(p.proposals);
    }
  }

  lemma {:induction false} ProposalsHaveFewTransforms(ps: seq<Proposal>)
    requires SaCodec.ProposalsBytes(ps).Ok?
    ensures SaCodec.FewTransforms(ps)
    decreases ps
  {
    if ps != [] {
      ProposalsHaveFewTransforms(ps[1..]);
      assert forall i :: 0 < i < |ps| ==> ps[i] == ps[1..][i - 1];
    }
  }

  // ----- the message round trip -----

  lemma HeaderFields(m: Message, first: byte, total: nat, body: Bytes)
    ensures var raw := Header(m, first, total) + body;
            && raw[..8] == Be64(m.initiatorSPI) && raw[8..16] == Be64(m.responderSPI)
            && raw[16] == first && raw[18] == m.exchange && raw[19] == m.flags
            && raw[20..24] == Be32(m.messageID) && raw[24..28] == Be(total, 4) && raw[HEADER_LEN..] == body
  {}

  lemma ParseHeader(m: Message, first: byte, body: Bytes)
    requires HEADER_LEN + |body| < 0x1_0000_0000
    ensures Parse(Header(m, first, HEADER_LEN + |body|) + body) ==
            match ParseChain(first, body) case Err => Err case Ok(ps) => Ok(m.(payloads := ps))
  {
    hide Be;
    var total := HEADER_LEN + |body|;
    HeaderFields(m, first, total, body);
    U64OfBe64(m.initiatorSPI);
    U64OfBe64(m.responderSPI);
    U32OfBe32(m.messageID);
    U32OfBe32(total);
    hide Header, ParseChain;
  }

  /** Parse undoes Marshal on exactly the well-formed messages, with any number of
      payloads, proposals, transforms, attributes and selectors. */
  lemma RoundTripExactly(m: Message)
    ensures RoundTrips(m) <==> WellFormed(m)
  {
    hide WellFormedChain, ParseChain, Header, Chain;
    var ps := m.payloads;
    if Chain(ps).Ok? {
      var body := Chain(ps).value;
      var raw := Header(m, First(ps), HEADER_LEN + |body|) + body;
      if |raw| < 0x1_0000_0000 {
        ParseHeader(m, First(ps), body);
        if WellFormed(m) {
          ChainRoundTrip(ps);
        }
        if RoundTrips(m) {
          SurvivorIsLinked(ps);
          ParseChainYields(First(ps), body);
          ChainFromParts(ps);
        }
      }
    }
  }

  lemma ChainFromParts(ps: seq<Payload>)
    ensures WellFormedBodies(ps) && SkLinked(ps) <==> WellFormedChain(ps)
  {}

  /** Whatever Parse accepts marshals and parses back to the same message exactly when
      no proposal has more than 255 transforms and every SK payload is linked; in
      particular when SK is only ever the last payload. */
  lemma AcceptedRoundTripsExactly(raw: Bytes)
    requires Parse(raw).Ok?
    ensures var m := Parse(raw).value;
            && (RoundTrips(m) <==> AllFewTransforms(m.payloads) && SkLinked(m.payloads))
            && (RoundTrips(m) ==> |Marshal(m).value| <= |raw|)
  {
    hide WellFormedChain, WellFormedBodies, AllFewTransforms, ParseChain, Header, Chain;
    var m := Parse(raw).value;
    var ps := m.payloads;
    ParseChainYields(raw[16], raw[HEADER_LEN..]);
    RoundTripExactly(m);
    ChainFromParts(ps);
  }

  // ----- what may follow well-formed payloads -----

  /** The octets of pre, the last of them announcing type t, in front of others. */
  function Before(pre: seq<Payload>, t: byte, rest: Bytes): Result<Bytes> {
    if pre == [] then Ok(rest)
    else if !Fits(Body(pre[0])) then Err
    else
      var own := Body(pre[0]).value;
      Prepend(GenericHeader(if |pre| > 1 then pre[1].Type() else t, 4 + |own|) + own, Before(pre[1..], t, rest))
  }

  /** An SK payload in last place names the type that follows. */
  predicate LeadsTo(pre: seq<Payload>, t: byte) {
    pre != [] && pre[|pre| - 1].SK? ==> pre[|pre| - 1].innerFirst == t
  }

  /** Whatever follows well-formed payloads is parsed as if it stood alone. */
  lemma {:induction false} ParseBefore(pre: seq<Payload>, t: byte, rest: Bytes)
    requires WellFormedChain(pre) && LeadsTo(pre, t)
    ensures var octets := Before(pre, t, rest);
            octets.Ok? && ParseChain(if pre == [] then t else pre[0].Type(), octets.value) == Prepend(pre, ParseChain(t, rest))
    decreases pre
  {
    hide WellFormedChain, Body, ParseBody, GenericHeader, ParseChain;
    if pre == [] {
      PrependNil(ParseChain(t, rest));
    } else {
      TailWellFormed(pre);
      ParseBefore(pre[1..], t, rest);
      var tail, own := Before(pre[1..], t, rest).value, Body(pre[0]).value;
      var next := if |pre| > 1 then pre[1].Type() else t;
      ParseEncoded(pre[0].Type(), next, own, tail);
      BodyRoundTrip(pre[0], next);
      PrependTwice([pre[0]], pre[1..], ParseChain(t, rest));
      assert [pre[0]] + pre[1..] == pre;
    }
  }

  /** A payload of type u with these flags and this body, and post. */
  function Stranger(flags: byte, b: Bytes, post: seq<Payload>): Result<Bytes> {
    Prepend([First(post), flags, Hi(4 + |b|), Lo(4 + |b|)] + b, Chain(post))
  }

  /** Wherever a payload of unknown type stands among well-formed ones, the chain is
      rejected if its critical bit, the top one, is set; else it alone is left out. */
  lemma UnknownPayload(pre: seq<Payload>, u: byte, flags: byte, b: Bytes, post: seq<Payload>)
    requires !(33 <= u <= 48) && |b| <= MAX_BODY && WellFormedChain(pre) && LeadsTo(pre, u) && WellFormedChain(post)
    ensures Stranger(flags, b, post).Ok?
    ensures var octets := Before(pre, u, Stranger(flags, b, post).value);
            && octets.Ok?
            && ParseChain(if pre == [] then u else pre[0].Type(), octets.value) == if flags >= 128 then Err else Ok(pre + post)
  {
    hide WellFormedChain, Chain, Before, ParseChain;
    ChainRoundTrip(post);
    ParseBefore(pre, u, Stranger(flags, b, post).value);
    Skipped(u, First(post), flags, b, Chain(post).value);
  }

  /** Behind well-formed payloads, fewer than four octets, or a payload whose length field
      is below 4 or beyond what is left, make the chain invalid. */
  lemma BadLengthRejected(pre: seq<Payload>, t: byte, rest: Bytes)
    requires WellFormedChain(pre) && LeadsTo(pre, t) && rest != []
    requires |rest| < 4 || U16At(rest, 2) < 4 || U16At(rest, 2) > |rest|
    ensures Before(pre, t, rest).Ok? && ParseChain(if pre == [] then t else pre[0].Type(), Before(pre, t, rest).value).Err?
  {
    hide WellFormedChain, Before, ParseBody;
    ParseBefore(pre, t, rest);
  }

  lemma Skipped(u: byte, next: byte, flags: byte, b: Bytes, rest: Bytes)
    requires !Known(u) && |b| <= MAX_BODY
    ensures ParseChain(u, [next, flags, Hi(4 + |b|), Lo(4 + |b|)] + b + rest) ==
            if flags >= CRITICAL_BIT then Err else ParseChain(next, rest)
  {
    HiLo(4 + |b|);
    hide Hi, Lo, ParseBody;
    var h := [next, flags, Hi(4 + |b|), Lo(4 + |b|)];
    var body := h + b + rest;
    assert forall i :: 0 <= i < 4 ==> body[i] == h[i];
    assert body[4 + |b|..] == rest;
    ParseUnknown(u, body, 4 + |b|);
  }

  lemma ParseUnknown(u: byte, body: Bytes, plen: nat)
    requires !Known(u) && 4 <= plen <= |body| && U16At(body, 2) == plen
    ensures ParseChain(u, body) == if body[1] >= CRITICAL_BIT then Err else ParseChain(body[0], body[plen..])
  {}

  /** Whatever message is accepted has the length its header says, and the fields are read
      from their places; so the two above hold of whole messages. */
  lemma ParseReads(raw: Bytes)
    ensures Parse(raw).Ok? <==> |raw| >= 28 && U32(raw[24..28]) == |raw| && ParseChain(raw[16], raw[28..]).Ok?
    ensures Parse(raw).Ok? ==>
              var m := Parse(raw).value;
              && m.initiatorSPI == U64(raw[..8]) && m.responderSPI == U64(raw[8..16]) && m.exchange == raw[18] && m.flags == raw[19]
              && m.messageID == U32(raw[20..24]) && ParseChain(raw[16], raw[28..]) == Ok(m.payloads)
  {
    hide ParseChain, U32, U64;
  }

  lemma SkLastIsLinked(ps: seq<Payload>)
    requires forall i :: 0 <= i < |ps| - 1 ==> !ps[i].SK?
    ensures SkLinked(ps)
  {}

  /** An accepted message that does not survive: a skipped payload separates an SK
      payload from the next one it would have to name. */
  lemma SkippedPayloadBreaksLink()
    ensures exists raw :: Parse(raw).Ok? && !RoundTrips(Parse(raw).value)
  {
    var last: Bytes := [PAYLOAD_NONE, 0, 0, 4];
    var tail: Bytes := [PAYLOAD_VENDOR_ID, 0, 0, 4] + last;
    var body: Bytes := [200, 0, 0, 4] + tail;
    assert last[4..] == [] && tail[4..] == last && body[4..] == tail && body[4..4] == [] && last[4..4] == [];
    ParseKnown(PAYLOAD_VENDOR_ID, last, 4);
    assert [VendorID([])] + [] == [VendorID([])];
    assert ParseChain(200, tail) == Ok([VendorID([])]);
    ParseKnown(PAYLOAD_SK, body, 4);
    assert [SK(200, [])] + [VendorID([])] == [SK(200, []), VendorID([])];
    BrokenLink(body);
  }

  lemma BrokenLink(body: Bytes)
    requires |body| < 100 && ParseChain(PAYLOAD_SK, body) == Ok([SK(200, []), VendorID([])])
    ensures exists raw :: Parse(raw).Ok? && !RoundTrips(Parse(raw).value)
  {
    hide ParseChain, Header, Parse, RoundTrips;
    var m := Message(0, 0, 0, 0, 0, []);
    var raw := Header(m, PAYLOAD_SK, HEADER_LEN + |body|) + body;
    ParseHeader(m, PAYLOAD_SK, body);
    AcceptedRoundTripsExactly(raw);
    var ps := [SK(200, []), VendorID([])];
    assert Parse(raw) == Ok(m.(payloads := ps));
    assert ps[0].SK? && ps[0].innerFirst != ps[1].Type();
  }

  // ----- the loops -----

  method MarshalBody(p: Payload) returns (r: Result<Bytes>)
    ensures r == Body(p)
  {
    match p
    case SA(ps) => r := SaCodec.MarshalSa(ps);
    case Delete(proto, spis) => r := MarshalDelete(proto, spis);
    case TSi(sels) => r := MarshalTs(sels);
    case TSr(sels) => r := MarshalTs(sels);
    case CP(t, attrs) =>
      var b := MarshalConfig(t, attrs);
      r := Ok(b);
    case _ => r := Body(p);
  }

  method UnmarshalBody(t: byte, following: byte, body: Bytes) returns (r: Result<Payload>)
    requires Known(t)
    ensures r == ParseBody(t, following, body)
  {
    if t == PAYLOAD_SA {
      var ps := SaCodec.UnmarshalSa(body);
      r := match ps case Ok(v) => Ok(SA(v)) case Err => Err;
    } else if t == PAYLOAD_DELETE {
      r := UnmarshalDelete(body);
    } else if t == PAYLOAD_TSI {
      var sels := UnmarshalTs(body);
      r := match sels case Ok(v) => Ok(TSi(v)) case Err => Err;
    } else if t == PAYLOAD_TSR {
      var sels := UnmarshalTs(body);
      r := match sels case Ok(v) => Ok(TSr(v)) case Err => Err;
    } else if t == PAYLOAD_CP && |body| >= 4 {
      var attrs := UnmarshalConfig(body[4..]);
      r := match attrs case Ok(v) => Ok(CP(body[0], v)) case Err => Err;
    } else {
      r := ParseBody(t, following, body);
    }
  }

  /** Payloads.Marshal. */
  method MarshalChain(ps: seq<Payload>) returns (first: byte, r: Result<Bytes>)
    ensures first == First(ps) && r == Chain(ps)
  {
    hide Body, GenericHeader;
    first := First(ps);
    var buf: Bytes := [];
    PrependNil(Chain(ps));
    assert ps[0..] == ps;
    for i := 0 to |ps|
      invariant Chain(ps) == Prepend(buf, Chain(ps[i..]))
    {
      var body := MarshalBody(ps[i]);
      assert ps[i..][1..] == ps[i + 1..];
      if body.Err? || |body.value| > MAX_BODY {
        return first, Err;
      }
      var next := if i + 1 < |ps| then ps[i + 1].Type()
                  else if ps[i].SK? then ps[i].innerFirst else PAYLOAD_NONE;
      var piece := GenericHeader(next, GENERIC_HEADER_LEN + |body.value|) + body.value;
      assert Chain(ps[i..]) == Prepend(piece, Chain(ps[i + 1..]));
      PrependTwice(buf, piece, Chain(ps[i + 1..]));
      buf := buf + piece;
    }
    r := Ok(buf);
    assert buf + [] == buf;
  }

  /** parseChain: every length is checked before it slices. */
  method UnmarshalChain(first: byte, chain: Bytes) returns (r: Result<seq<Payload>>)
    ensures r == ParseChain(first, chain)
  {
    hide ParseBody;
    var out: seq<Payload> := [];
    var next, body := first, chain;
    PrependNil(ParseChain(first, chain));
    while |body| > 0
      invariant ParseChain(first, chain) == Prepend(out, ParseChain(next, body))
      decreases |body|
    {
      if |body| < GENERIC_HEADER_LEN {
        return Err;
      }
      var following := body[0];
      var critical := body[1] >= CRITICAL_BIT;
      var plen := U16At(body, 2);
      if plen < GENERIC_HEADER_LEN || plen > |body| {
        return Err;
      }
      if !Known(next) {
        if critical {
          return Err;
        }
      } else {
        var p := UnmarshalBody(next, following, body[GENERIC_HEADER_LEN..plen]);
        if p.Err? {
          return Err;
        }
        PrependTwice(out, [p.value], ParseChain(following, body[plen..]));
        out := out + [p.value];
      }
      next := following;
      body := body[plen..];
    }
    r := Ok(out);
    assert out + [] == out;
  }

  /** Message.Marshal: the length is patched in once the size is known. */
  method MarshalMessage(m: Message) returns (r: Result<Bytes>)
    ensures r == Marshal(m)
  {
    var first, body := MarshalChain(m.payloads);
    if body.Err? {
      return Err;
    }
    var out := Header(m, first, 0) + body.value;
    hide Be, BeforeLength;
    assert out[..24] == BeforeLength(m, first) && out[28..] == body.value;
    out := out[..24] + Be(|out|, 4) + out[28..];
    r := Ok(out);
  }

  method ParseMessage(raw: Bytes) returns (r: Result<Message>)
    ensures r == Parse(raw)
  {
    if |raw| < HEADER_LEN {
      return Err;
    }
    var length := U32(raw[24..28]);
    if length < HEADER_LEN || |raw| != length {
      return Err;
    }
    var ps := UnmarshalChain(raw[16], raw[HEADER_LEN..]);
    if ps.Err? {
      return Err;
    }
    r := Ok(Message(U64(raw[..8]), U64(raw[8..16]), raw[18], raw[19], U32(raw[20..24]), ps.value));
  }
}
