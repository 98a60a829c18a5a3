/** The bodies of the sixteen payload types other than their generic headers: Delete,
    Traffic Selector and Configuration with their inner lists, and the flat ones. */
module BodyCodec {
  import opened Bytes
  import opened IkeMsg
  import SaCodec

  const MIN_NONCE_LEN := 16
  const MAX_NONCE_LEN := 256
  const ATTR_TYPE_LIMIT := 0x8000

  // ----- Delete -----

  function Concat(spis: seq<Bytes>): Bytes {
    if spis == [] then [] else spis[0] + Concat(spis[1..])
  }

  /** The common SPI width as the one octet that carries it. */
  function SpiSize(spis: seq<Bytes>): byte {
    if spis == [] then 0 else |spis[0]| % 256
  }

  function DeleteBody(protocol: byte, spis: seq<Bytes>): Result<Bytes> {
    if exists i :: 0 <= i < |spis| && |spis[i]| % 256 != SpiSize(spis) then Err
    else Ok([protocol, SpiSize(spis), Hi(|spis|), Lo(|spis|)] + Concat(spis))
  }

  lemma OneMore(size: nat, count: nat)
    requires count > 0
    ensures size * count == size + size * (count - 1)
  {}

  lemma {:induction false} AtLeastCount(size: nat, count: nat)
    requires size > 0
    ensures count <= size * count
  {
    if count > 0 {
      AtLeastCount(size, count - 1);
      OneMore(size, count);
    }
  }

  function Chop(b: Bytes, size: nat, count: nat): (spis: seq<Bytes>)
    requires size * count <= |b|
    ensures |spis| == count && forall i :: 0 <= i < count ==> |spis[i]| == size
    decreases count
  {
    if count == 0 then [] else
    OneMore(size, count);
    [b[..size]] + Chop(b[size..], size, count - 1)
  }

  function ParseDelete(body: Bytes): Result<Payload> {
    if |body| < 4 then Err else
    var size, count := body[1], U16At(body, 2);
    if (size == 0 && count > 0) || 4 + size * count > |body| then Err
    else Ok(Delete(body[0], Chop(body[4..], size, count)))
  }

  predicate UniformSpis(spis: seq<Bytes>) {
    spis == [] || (0 < |spis[0]| <= 255 && forall i :: 0 <= i < |spis| ==> |spis[i]| == |spis[0]|)
  }

  lemma {:induction false} ConcatLength(spis: seq<Bytes>, size: nat)
    requires forall i :: 0 <= i < |spis| ==> |spis[i]| == size
    ensures |Concat(spis)| == size * |spis|
    decreases spis
  {
    if spis != [] {
      ConcatLength(spis[1..], size);
      OneMore(size, |spis|);
    }
  }

  lemma {:induction false} ChopConcat(spis: seq<Bytes>, size: nat)
    requires forall i :: 0 <= i < |spis| ==> |spis[i]| == size
    ensures |Concat(spis)| == size * |spis| && Chop(Concat(spis), size, |spis|) == spis
    decreases spis
  {
    ConcatLength(spis, size);
    if spis != [] {
      ChopConcat(spis[1..], size);
      OneMore(size, |spis|);
      assert Concat(spis)[size..] == Concat(spis[1..]);
      assert [spis[0]] + spis[1..] == spis;
    }
  }

  lemma DeleteRoundTrip(protocol: byte, spis: seq<Bytes>)
    requires UniformSpis(spis)
    ensures DeleteBody(protocol, spis).Ok?
    ensures |DeleteBody(protocol, spis).value| < 0x1_0000 ==>
              ParseDelete(DeleteBody(protocol, spis).value) == Ok(Delete(protocol, spis))
  {
    var size := SpiSize(spis);
    var body := DeleteBody(protocol, spis).value;
    hide Chop, Concat;
    assert body[4..] == Concat(spis);
    ChopConcat(spis, size);
    if |body| < 0x1_0000 {
      if spis != [] {
        AtLeastCount(size, |spis|);
      }
      CountField(protocol, size, |spis|, body);
    }
  }

  lemma CountField(protocol: byte, size: byte, count: nat, body: Bytes)
    requires count < 0x1_0000 && |body| >= 4 && body[..4] == [protocol, size, Hi(count), Lo(count)]
    ensures U16At(body, 2) == count && body[0] == protocol && body[1] == size
  {
    HiLo(count);
    assert body[2] == body[..4][2] && body[3] == body[..4][3] && body[0] == body[..4][0] && body[1] == body[..4][1];
  }

  lemma ParseDeleteYields(body: Bytes)
    requires ParseDelete(body).Ok?
    ensures var p := ParseDelete(body).value;
            p.Delete? && UniformSpis(p.spis) && DeleteBody(p.protocol, p.spis).Ok?
            && |DeleteBody(p.protocol, p.spis).value| <= |body|
  {
    ConcatLength(ParseDelete(body).value.spis, body[1]);
  }

  // ----- Traffic Selectors -----

  function AddrLen(tsType: byte): nat {
    if tsType == TS_IPV4_ADDR_RANGE then 4 else if tsType == TS_IPV6_ADDR_RANGE then 16 else 0
  }

  predicate WellFormedSelector(ts: TrafficSelector) {
    AddrLen(ts.tsType) != 0 && |ts.startAddr| == |ts.endAddr| == AddrLen(ts.tsType)
  }

  function SelectorHeader(ts: TrafficSelector): (h: Bytes)
    ensures |h| == 8
  {
    var n := 8 + 2 * AddrLen(ts.tsType);
    [ts.tsType, ts.protocol, Hi(n), Lo(n), Hi(ts.startPort), Lo(ts.startPort), Hi(ts.endPort), Lo(ts.endPort)]
  }

  function SelectorsBytes(sels: seq<TrafficSelector>): Result<Bytes> {
    if sels == [] then Ok([])
    else if !WellFormedSelector(sels[0]) then Err
    else Prepend(SelectorHeader(sels[0]) + sels[0].startAddr + sels[0].endAddr, SelectorsBytes(sels[1..]))
  }

  function TsBody(sels: seq<TrafficSelector>): Result<Bytes> {
    if sels == [] then Err else Prepend([|sels| % 256, 0, 0, 0], SelectorsBytes(sels))
  }

  function SelectorAt(rest: Bytes, alen: nat): TrafficSelector
    requires 8 + 2 * alen <= |rest|
  {
    TrafficSelector(rest[0], rest[1], U16At(rest, 4), U16At(rest, 6), rest[8..8 + alen], rest[8 + alen..8 + 2 * alen])
  }

  function ParseSelectors(rest: Bytes, count: nat): Result<seq<TrafficSelector>>
    decreases count
  {
    if count == 0 then (if rest == [] then Ok([]) else Err)
    else if |rest| < 8 then Err else
    var alen := AddrLen(rest[0]);
    var n := 8 + 2 * alen;
    if alen == 0 || U16At(rest, 2) != n || n > |rest| then Err
    else Prepend([SelectorAt(rest, alen)], ParseSelectors(rest[n..], count - 1))
  }

  function ParseTs(body: Bytes): Result<seq<TrafficSelector>> {
    if |body| < 4 || body[0] == 0 then Err else ParseSelectors(body[4..], body[0])
  }

  predicate WellFormedSelectors(sels: seq<TrafficSelector>) {
    forall i :: 0 <= i < |sels| ==> WellFormedSelector(sels[i])
  }

  lemma SelectorFields(ts: TrafficSelector, rest: Bytes)
    requires WellFormedSelector(ts)
    ensures var body := SelectorHeader(ts) + ts.startAddr + ts.endAddr + rest;
            var n := 8 + 2 * AddrLen(ts.tsType);
            && U16At(body, 2) == n && body[n..] == rest
            && SelectorAt(body, AddrLen(ts.tsType)) == ts
  {
    HiLo(8 + 2 * AddrLen(ts.tsType));
    HiLo(ts.startPort);
    HiLo(ts.endPort);
    var h, alen := SelectorHeader(ts), AddrLen(ts.tsType);
    var body := h + ts.startAddr + ts.endAddr + rest;
    assert U16At(h, 4) == ts.startPort && U16At(h, 6) == ts.endPort && U16At(h, 2) == 8 + 2 * alen;
    assert forall i :: 0 <= i < 8 ==> body[i] == h[i];
    assert body[8..8 + alen] == ts.startAddr && body[8 + alen..8 + 2 * alen] == ts.endAddr;
  }

  lemma OneMoreSelector(sels: seq<TrafficSelector>, rest: Bytes)
    requires sels != [] && WellFormedSelector(sels[0])
    requires SelectorsBytes(sels[1..]) == Ok(rest) && ParseSelectors(rest, |sels| - 1) == Ok(sels[1..])
    ensures SelectorsBytes(sels).Ok? && ParseSelectors(SelectorsBytes(sels).value, |sels|) == Ok(sels)
  {
    FirstOctet(sels[0]);
    SelectorFields(sels[0], rest);
    hide SelectorHeader, SelectorAt;
    var body := SelectorHeader(sels[0]) + sels[0].startAddr + sels[0].endAddr + rest;
    assert SelectorsBytes(sels) == Ok(body);
    assert body[0] == sels[0].tsType;
    assert [sels[0]] + sels[1..] == sels;
  }

  lemma FirstOctet(ts: TrafficSelector)
    ensures SelectorHeader(ts)[0] == ts.tsType
  {}

  lemma {:induction false} SelectorsRoundTrip(sels: seq<TrafficSelector>)
    requires WellFormedSelectors(sels)
    ensures SelectorsBytes(sels).Ok? && ParseSelectors(SelectorsBytes(sels).value, |sels|) == Ok(sels)
    decreases sels
  {
    if sels != [] {
      SelectorsRoundTrip(sels[1..]);
      OneMoreSelector(sels, SelectorsBytes(sels[1..]).value);
    }
  }

  lemma {:induction false} ParseSelectorsYields(rest: Bytes, count: nat)
    requires ParseSelectors(rest, count).Ok?
    ensures var sels := ParseSelectors(rest, count).value;
            |sels| == count && WellFormedSelectors(sels) && SelectorsBytes(sels).Ok?
            && |SelectorsBytes(sels).value| == |rest|
    decreases count
  {
    if count > 0 {
      var n := 8 + 2 * AddrLen(rest[0]);
      ParseSelectorsYields(rest[n..], count - 1);
      var sels := ParseSelectors(rest, count).value;
      assert sels[1..] == ParseSelectors(rest[n..], count - 1).value;
      assert forall i :: 0 < i < |sels| ==> sels[i] == sels[1..][i - 1];
    }
  }

  // ----- Configuration -----

  function AttrHeader(a: ConfigAttr): (h: Bytes)
    ensures |h| == 4
  {
    [Hi(a.kind % ATTR_TYPE_LIMIT), Lo(a.kind % ATTR_TYPE_LIMIT), Hi(|a.value|), Lo(|a.value|)]
  }

  function AttrsBytes(attrs: seq<ConfigAttr>): Bytes {
    if attrs == [] then [] else AttrHeader(attrs[0]) + attrs[0].value + AttrsBytes(attrs[1..])
  }

  function ParseAttrs(rest: Bytes): Result<seq<ConfigAttr>>
    decreases |rest|
  {
    if rest == [] then Ok([])
    else if |rest| < 4 then Err else
    var n := U16At(rest, 2);
    if 4 + n > |rest| then Err
    else Prepend([ConfigAttr(U16At(rest, 0) % ATTR_TYPE_LIMIT, rest[4..4 + n])], ParseAttrs(rest[4 + n..]))
  }

  predicate WellFormedAttrs(attrs: seq<ConfigAttr>) {
    forall i :: 0 <= i < |attrs| ==> attrs[i].kind < ATTR_TYPE_LIMIT
  }

  lemma AttrFields(a: ConfigAttr, rest: Bytes)
    requires a.kind < ATTR_TYPE_LIMIT && |a.value| < 0x1_0000
    ensures var body := AttrHeader(a) + a.value + rest;
            && U16At(body, 0) == a.kind && U16At(body, 2) == |a.value|
            && body[4..4 + |a.value|] == a.value && body[4 + |a.value|..] == rest
  {
    HiLo(a.kind);
    HiLo(|a.value|);
    var h := AttrHeader(a);
    var body := h + a.value + rest;
    assert U16At(h, 0) == a.kind && U16At(h, 2) == |a.value|;
    assert forall i :: 0 <= i < 4 ==> body[i] == h[i];
  }

  lemma {:induction false} AttrsRoundTrip(attrs: seq<ConfigAttr>)
    requires WellFormedAttrs(attrs) && |AttrsBytes(attrs)| < 0x1_0000
    ensures ParseAttrs(AttrsBytes(attrs)) == Ok(attrs)
    decreases attrs
  {
    if attrs != [] {
      hide AttrHeader;
      AttrsRoundTrip(attrs[1..]);
      AttrFields(attrs[0], AttrsBytes(attrs[1..]));
      assert [attrs[0]] + attrs[1..] == attrs;
    }
  }

  lemma {:induction false} ParseAttrsYields(rest: Bytes)
    requires ParseAttrs(rest).Ok?
    ensures WellFormedAttrs(ParseAttrs(rest).value) && |AttrsBytes(ParseAttrs(rest).value)| == |rest|
    decreases |rest|
  {
    if rest != [] {
      var n := U16At(rest, 2);
      ParseAttrsYields(rest[4 + n..]);
      var attrs := ParseAttrs(rest).value;
      assert attrs[1..] == ParseAttrs(rest[4 + n..]).value;
      assert forall i :: 0 < i < |attrs| ==> attrs[i] == attrs[1..][i - 1];
    }
  }

  // ----- all bodies -----

  function Body(p: Payload): Result<Bytes> {
    match p
    case SA(ps) => SaCodec.ProposalsBytes(ps)
    case KE(group, data) => Ok([Hi(group), Lo(group), 0, 0] + data)
    case IDi(t, data) => Ok([t, 0, 0, 0] + data)
    case IDr(t, data) => Ok([t, 0, 0, 0] + data)
    case Cert(e, data) => Ok([e] + data)
    case CertReq(e, data) => Ok([e] + data)
    case Auth(m, data) => Ok([m, 0, 0, 0] + data)
    case Nonce(data) => Ok(data)
    case Notify(proto, t, spi, data) => Ok([proto, |spi| % 256, Hi(t), Lo(t)] + spi + data)
    case Delete(proto, spis) => DeleteBody(proto, spis)
    case VendorID(data) => Ok(data)
    case TSi(sels) => TsBody(sels)
    case TSr(sels) => TsBody(sels)
    case SK(_, data) => Ok(data)
    case CP(t, attrs) => Ok([t, 0, 0, 0] + AttrsBytes(attrs))
    case EAP(data) => Ok(data)
  }

  /** The types this codec models. */
  predicate Known(t: byte) {
    PAYLOAD_SA <= t <= PAYLOAD_EAP
  }

  function ParseNotify(body: Bytes): Result<Payload> {
    if |body| < 4 || 4 + body[1] > |body| then Err
    else Ok(Notify(body[0], U16At(body, 2), body[4..4 + body[1]], body[4 + body[1]..]))
  }

  /** following is the Next Payload octet, which an SK payload keeps as the type of its
      first inner payload. */
  function ParseBody(t: byte, following: byte, body: Bytes): Result<Payload>
    requires Known(t)
  {
    if t == PAYLOAD_SA then
      match SaCodec.ParseProposals(body) case Ok(ps) => Ok(SA(ps)) case Err => Err
    else if t == PAYLOAD_KE then
      if |body| < 4 then Err else Ok(KE(U16At(body, 0), body[4..]))
    else if t == PAYLOAD_IDI then
      if |body| < 4 then Err else Ok(IDi(body[0], body[4..]))
    else if t == PAYLOAD_IDR then
      if |body| < 4 then Err else Ok(IDr(body[0], body[4..]))
    else if t == PAYLOAD_CERT then
      if body == [] then Err else Ok(Cert(body[0], body[1..]))
    else if t == PAYLOAD_CERTREQ then
      if body == [] then Err else Ok(CertReq(body[0], body[1..]))
    else if t == PAYLOAD_AUTH then
      if |body| < 4 then Err else Ok(Auth(body[0], body[4..]))
    else if t == PAYLOAD_NONCE then
      if MIN_NONCE_LEN <= |body| <= MAX_NONCE_LEN then Ok(Nonce(body)) else Err
    else if t == PAYLOAD_NOTIFY then ParseNotify(body)
    else if t == PAYLOAD_DELETE then ParseDelete(body)
    else if t == PAYLOAD_VENDOR_ID then Ok(VendorID(body))
    else if t == PAYLOAD_TSI then
      match ParseTs(body) case Ok(sels) => Ok(TSi(sels)) case Err => Err
    else if t == PAYLOAD_TSR then
      match ParseTs(body) case Ok(sels) => Ok(TSr(sels)) case Err => Err
    else if t == PAYLOAD_SK then Ok(SK(following, body))
    else if t == PAYLOAD_CP then
      if |body| < 4 then Err else
      match ParseAttrs(body[4..]) case Ok(attrs) => Ok(CP(body[0], attrs)) case Err => Err
    else Ok(EAP(body))
  }

  predicate WellFormedPayload(p: Payload) {
    match p
    case SA(ps) => SaCodec.WellFormedProposals(ps)
    case Nonce(data) => MIN_NONCE_LEN <= |data| <= MAX_NONCE_LEN
    case Notify(_, _, spi, _) => |spi| <= 255
    case Delete(_, spis) => UniformSpis(spis)
    case TSi(sels) => 1 <= |sels| <= 255 && WellFormedSelectors(sels)
    case TSr(sels) => 1 <= |sels| <= 255 && WellFormedSelectors(sels)
    case CP(_, attrs) => WellFormedAttrs(attrs)
    case _ => true
  }

  lemma TsRoundTrip(sels: seq<TrafficSelector>)
    requires 1 <= |sels| <= 255 && WellFormedSelectors(sels)
    ensures TsBody(sels).Ok? && ParseTs(TsBody(sels).value) == Ok(sels)
  {
    hide SelectorsBytes, ParseSelectors;
    SelectorsRoundTrip(sels);
    assert TsBody(sels).value[4..] == SelectorsBytes(sels).value;
  }

  lemma NotifyRoundTrip(p: Payload)
    requires p.Notify? && |p.spi| <= 255
    ensures ParseNotify(Body(p).value) == Ok(p)
  {
    HiLo(p.notifyType);
    var h: Bytes := [p.protocol, |p.spi|, Hi(p.notifyType), Lo(p.notifyType)];
    var body := h + p.spi + p.data;
    assert U16At(h, 2) == p.notifyType;
    assert forall i :: 0 <= i < 4 ==> body[i] == h[i];
    assert body[4..4 + |p.spi|] == p.spi && body[4 + |p.spi|..] == p.data;
  }

  /** Every well-formed body decodes back, given that it fits the chain's length limit. */
  lemma BodyRoundTrip(p: Payload, following: byte)
    requires WellFormedPayload(p) && (p.SK? ==> p.innerFirst == following)
    ensures Body(p).Ok?
    ensures |Body(p).value| < 0x1_0000 ==> ParseBody(p.Type(), following, Body(p).value) == Ok(p)
  {
    hide DeleteBody, ParseDelete, TsBody, ParseTs, AttrsBytes, ParseAttrs, ParseNotify,
         SaCodec.ProposalsBytes, SaCodec.ParseProposals, Hi, Lo;
    match p
    case SA(ps) => SaCodec.ProposalsRoundTrip(ps);
    case KE(group, data) =>
      HiLo(group);
      assert Body(p).value[4..] == data;
    case IDi(t, data) => assert Body(p).value[4..] == data;
    case IDr(t, data) => assert Body(p).value[4..] == data;
    case Cert(e, data) => assert Body(p).value[1..] == data;
    case CertReq(e, data) => assert Body(p).value[1..] == data;
    case Auth(m, data) => assert Body(p).value[4..] == data;
    case Notify(_, _, _, _) => NotifyRoundTrip(p);
    case Delete(proto, spis) => DeleteRoundTrip(proto, spis);
    case TSi(sels) => TsRoundTrip(sels);
    case TSr(sels) => TsRoundTrip(sels);
    case CP(t, attrs) =>
      assert Body(p).value[4..] == AttrsBytes(attrs);
      if |Body(p).value| < 0x1_0000 {
        AttrsRoundTrip(attrs);
      }
    case _ =>
  }

  predicate FewTransforms(p: Payload) {
    p.SA? ==> SaCodec.FewTransforms(p.proposals)
  }

  /** What any accepted body yields: a payload of that type that is well formed (but for
      oversized proposals) and re-encodes in no more octets. */
  lemma ParseBodyYields(t: byte, following: byte, body: Bytes)
    requires Known(t) && ParseBody(t, following, body).Ok?
    ensures var p := ParseBody(t, following, body).value;
            && p.Type() == t && (p.SK? ==> p.innerFirst == following)
            && (WellFormedPayload(p) <==> FewTransforms(p))
            && (FewTransforms(p) ==> Body(p).Ok? && |Body(p).value| <= |body|)
  {
    hide DeleteBody, ParseDelete, SelectorsBytes, ParseSelectors, AttrsBytes, ParseAttrs,
         SaCodec.ProposalsBytes, SaCodec.ParseProposals, Hi, Lo;
    if t == PAYLOAD_SA {
      SaCodec.ParseProposalsYields(body);
    } else if t == PAYLOAD_DELETE {
      ParseDeleteYields(body);
    } else if t == PAYLOAD_TSI || t == PAYLOAD_TSR {
      ParseSelectorsYields(body[4..], body[0]);
    } else if t == PAYLOAD_CP {
      ParseAttrsYields(body[4..]);
    }
  }

  // ----- the loops -----

  method MarshalDelete(protocol: byte, spis: seq<Bytes>) returns (r: Result<Bytes>)
    ensures r == DeleteBody(protocol, spis)
  {
    var size := SpiSize(spis);
    for i := 0 to |spis|
      invariant forall j :: 0 <= j < i ==> |spis[j]| % 256 == size
    {
      if |spis[i]| % 256 != size {
        return Err;
      }
    }
    var out: Bytes := [protocol, size, Hi(|spis|), Lo(|spis|)];
    ghost var h := out;
    for i := 0 to |spis|
      invariant h + Concat(spis) == out + Concat(spis[i..])
    {
      assert spis[i..][1..] == spis[i + 1..];
      out := out + spis[i];
    }
    assert out + Concat([]) == out;
    r := Ok(out);
  }

  method UnmarshalDelete(body: Bytes) returns (r: Result<Payload>)
    ensures r == ParseDelete(body)
  {
    if |body| < 4 {
      return Err;
    }
    var size, count := body[1], U16At(body, 2);
    if (size == 0 && count > 0) || 4 + size * count > |body| {
      return Err;
    }
    var spis := ChopAt(body, 4, size, count);
    r := Ok(Delete(body[0], spis));
  }

  method ChopAt(body: Bytes, from: nat, size: nat, count: nat) returns (spis: seq<Bytes>)
    requires from <= |body| && size * count <= |body| - from
    ensures spis == Chop(body[from..], size, count)
  {
    spis := [];
    var off, left := from, count;
    while left > 0
      invariant from <= off <= |body| && 0 <= left && size * left <= |body| - off
      invariant Chop(body[from..], size, count) == spis + Chop(body[off..], size, left)
    {
      OneMore(size, left);
      assert body[off..][..size] == body[off..off + size] && body[off..][size..] == body[off + size..];
      spis := spis + [body[off..off + size]];
      off := off + size;
      left := left - 1;
    }
  }

  method MarshalTs(sels: seq<TrafficSelector>) returns (r: Result<Bytes>)
    ensures r == TsBody(sels)
  {
    if sels == [] {
      return Err;
    }
    var out: Bytes := [|sels| % 256, 0, 0, 0];
    assert sels[0..] == sels;
    for i := 0 to |sels|
      invariant TsBody(sels) == Prepend(out, SelectorsBytes(sels[i..]))
    {
      if !WellFormedSelector(sels[i]) {
        return Err;
      }
      var sel := SelectorHeader(sels[i]) + sels[i].startAddr + sels[i].endAddr;
      assert sels[i..][1..] == sels[i + 1..];
      PrependTwice(out, sel, SelectorsBytes(sels[i + 1..]));
      out := out + sel;
    }
    r := Ok(out);
    assert out + [] == out;
  }

  method UnmarshalTs(body: Bytes) returns (r: Result<seq<TrafficSelector>>)
    ensures r == ParseTs(body)
  {
    if |body| < 4 || body[0] == 0 {
      return Err;
    }
    var rest := body[4..];
    var out: seq<TrafficSelector> := [];
    PrependNil(ParseTs(body));
    for k := 0 to body[0]
      invariant ParseTs(body) == Prepend(out, ParseSelectors(rest, body[0] - k))
    {
      if |rest| < 8 {
        return Err;
      }
      var alen := AddrLen(rest[0]);
      var n := 8 + 2 * alen;
      if alen == 0 || U16At(rest, 2) != n || n > |rest| {
        return Err;
      }
      PrependTwice(out, [SelectorAt(rest, alen)], ParseSelectors(rest[n..], body[0] - k - 1));
      out := out + [SelectorAt(rest, alen)];
      rest := rest[n..];
    }
    if rest != [] {
      return Err;
    }
    r := Ok(out);
    assert out + [] == out;
  }

  method MarshalConfig(cfgType: byte, attrs: seq<ConfigAttr>) returns (out: Bytes)
    ensures out == [cfgType, 0, 0, 0] + AttrsBytes(attrs)
  {
    out := [cfgType, 0, 0, 0];
    for i := 0 to |attrs|
      invariant [cfgType, 0, 0, 0] + AttrsBytes(attrs) == out + AttrsBytes(attrs[i..])
    {
      assert attrs[i..][1..] == attrs[i + 1..];
      out := out + AttrHeader(attrs[i]);
      out := out + attrs[i].value;
    }
  }

  method UnmarshalConfig(body: Bytes) returns (r: Result<seq<ConfigAttr>>)
    ensures r == ParseAttrs(body)
  {
    var rest := body;
    var out: seq<ConfigAttr> := [];
    PrependNil(ParseAttrs(body));
    while |rest| > 0
      invariant ParseAttrs(body) == Prepend(out, ParseAttrs(rest))
      decreases |rest|
    {
      if |rest| < 4 {
        return Err;
      }
      var n := U16At(rest, 2);
      if 4 + n > |rest| {
        return Err;
      }
      var a := ConfigAttr(U16At(rest, 0) % ATTR_TYPE_LIMIT, rest[4..4 + n]);
      PrependTwice(out, [a], ParseAttrs(rest[4 + n..]));
      out := out + [a];
      rest := rest[4 + n..];
    }
    r := Ok(out);
    assert out + [] == out;
  }
}
