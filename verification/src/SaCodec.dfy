/** The SA payload body: proposals of transforms of attributes, each level carrying its
    own 16-bit length (sections 3.3.1 to 3.3.5 of RFC 7296). */
module SaCodec {
  import opened Bytes
  import opened IkeMsg

  const ATTR_KEY_LENGTH := 14
  const ATTR_TV := 0x8000

  // ----- encoding -----

  function TransformBytes(t: Transform, more: bool): (r: Result<Bytes>)
    ensures r.Ok? ==> 8 <= |r.value| <= 12
  {
    if t.keyLength != 0 && !t.hasKeyLength then Err else
    var attr := if t.hasKeyLength
                then [Hi(ATTR_TV + ATTR_KEY_LENGTH), Lo(ATTR_TV + ATTR_KEY_LENGTH), Hi(t.keyLength), Lo(t.keyLength)]
                else [];
    Ok([if more then 3 else 0, 0, Hi(8 + |attr|), Lo(8 + |attr|), t.kind, 0, Hi(t.id), Lo(t.id)] + attr)
  }

  function TransformsBytes(ts: seq<Transform>): Result<Bytes> {
    if ts == [] then Ok([]) else
    match TransformBytes(ts[0], |ts| > 1)
    case Err => Err
    case Ok(b) => Prepend(b, TransformsBytes(ts[1..]))
  }

  /** The length field is a uint16 cast: a proposal of 65536 octets or more would carry
      a wrong one. */
  function ProposalBytes(p: Proposal, more: bool): Result<Bytes> {
    if |p.spi| > 255 || |p.transforms| > 255 then Err else
    match TransformsBytes(p.transforms)
    case Err => Err
    case Ok(tb) =>
      Ok(ProposalHeader(p, more, 8 + |p.spi| + |tb|) + p.spi + tb)
  }

  function ProposalHeader(p: Proposal, more: bool, plen: nat): (h: Bytes)
    requires |p.spi| <= 255 && |p.transforms| <= 255
    ensures |h| == 8
  {
    [if more then 2 else 0, 0, Hi(plen), Lo(plen), p.number, p.protocol, |p.spi|, |p.transforms|]
  }

  function ProposalsBytes(ps: seq<Proposal>): Result<Bytes> {
    if ps == [] then Ok([]) else
    match ProposalBytes(ps[0], |ps| > 1)
    case Err => Err
    case Ok(b) => Prepend(b, ProposalsBytes(ps[1..]))
  }

  // ----- decoding -----

  /** Walks the attributes of a transform; only the TV Key Length is surfaced. */
  function ParseAttrs(t: Transform, attrs: Bytes): Result<Transform>
    decreases |attrs|
  {
    if attrs == [] then Ok(t)
    else if |attrs| < 4 then Err else
    var af := U16At(attrs, 0);
    if af >= ATTR_TV then
      ParseAttrs(if af - ATTR_TV == ATTR_KEY_LENGTH
                 then t.(keyLength := U16At(attrs, 2), hasKeyLength := true) else t, attrs[4..])
    else
      var alen := U16At(attrs, 2);
      if 4 + alen > |attrs| then Err else ParseAttrs(t, attrs[4 + alen..])
  }

  function ParseTransforms(body: Bytes): Result<seq<Transform>>
    decreases |body|
  {
    if body == [] then Ok([])
    else if |body| < 8 then Err else
    var tlen := U16At(body, 2);
    if tlen < 8 || tlen > |body| then Err else
    match ParseAttrs(Transform(body[4], U16At(body, 6), 0, false), body[8..tlen])
    case Err => Err
    case Ok(t) => Prepend([t], ParseTransforms(body[tlen..]))
  }

  function ParseProposals(body: Bytes): Result<seq<Proposal>>
    decreases |body|
  {
    if body == [] then Ok([])
    else if |body| < 8 then Err else
    var plen := U16At(body, 2);
    var spiSize := body[6];
    if plen < 8 || plen > |body| || 8 + spiSize > plen then Err else
    match ParseTransforms(body[8 + spiSize..plen])
    case Err => Err
    case Ok(ts) => Prepend([Proposal(body[4], body[5], body[8..8 + spiSize], ts)], ParseProposals(body[plen..]))
  }

  // ----- round trip -----

  predicate WellFormedTransform(t: Transform) {
    t.hasKeyLength || t.keyLength == 0
  }

  predicate WellFormedTransforms(ts: seq<Transform>) {
    forall i :: 0 <= i < |ts| ==> WellFormedTransform(ts[i])
  }

  predicate WellFormedProposals(ps: seq<Proposal>) {
    forall i :: 0 <= i < |ps| ==>
      |ps[i].spi| <= 255 && |ps[i].transforms| <= 255 && WellFormedTransforms(ps[i].transforms)
  }

  lemma ParseOneTransform(t: Transform, more: bool, rest: Bytes)
    requires WellFormedTransform(t)
    ensures TransformBytes(t, more).Ok?
    ensures ParseTransforms(TransformBytes(t, more).value + rest) == Prepend([t], ParseTransforms(rest))
  {
    var b := TransformBytes(t, more).value;
    var body := b + rest;
    HiLo(|b|);
    HiLo(t.id);
    assert U16At(body, 2) == |b| && U16At(body, 6) == t.id && body[|b|..] == rest;
    assert body[8..|b|] == b[8..];
    AttrsRoundTrip(t, more);
  }

  lemma AttrsRoundTrip(t: Transform, more: bool)
    requires WellFormedTransform(t)
    ensures ParseAttrs(Transform(t.kind, t.id, 0, false), TransformBytes(t, more).value[8..]) == Ok(t)
  {
    var attrs := TransformBytes(t, more).value[8..];
    if t.hasKeyLength {
      HiLo(ATTR_TV + ATTR_KEY_LENGTH);
      HiLo(t.keyLength);
      assert attrs[4..] == [];
    }
  }

  lemma {:induction false} TransformsRoundTrip(ts: seq<Transform>)
    requires WellFormedTransforms(ts)
    ensures TransformsBytes(ts).Ok? && ParseTransforms(TransformsBytes(ts).value) == Ok(ts)
    decreases ts
  {
    if ts != [] {
      TransformsRoundTrip(ts[1..]);
      ParseOneTransform(ts[0], |ts| > 1, TransformsBytes(ts[1..]).value);
      assert [ts[0]] + ts[1..] == ts;
    }
  }

  lemma Parts(h: Bytes, spi: Bytes, tb: Bytes, rest: Bytes)
    requires |h| == 8
    ensures var body := h + spi + tb + rest; var n := 8 + |spi| + |tb|;
            && (forall i :: 0 <= i < 8 ==> body[i] == h[i])
            && body[8..8 + |spi|] == spi && body[8 + |spi|..n] == tb && body[n..] == rest
  {}

  lemma ParseOneProposal(p: Proposal, more: bool, tb: Bytes, rest: Bytes)
    requires |p.spi| <= 255 && |p.transforms| <= 255 && 8 + |p.spi| + |tb| < 0x1_0000
    requires ParseTransforms(tb) == Ok(p.transforms)
    ensures ParseProposals(ProposalHeader(p, more, 8 + |p.spi| + |tb|) + p.spi + tb + rest)
            == Prepend([p], ParseProposals(rest))
  {
    var n := 8 + |p.spi| + |tb|;
    var h := ProposalHeader(p, more, n);
    HeaderLength(p, more, n);
    Parts(h, p.spi, tb, rest);
    hide ProposalHeader;
    ParseFirst(h + p.spi + tb + rest, p, n, rest);
  }

  lemma ParseFirst(body: Bytes, p: Proposal, n: nat, rest: Bytes)
    requires 8 + |p.spi| <= n <= |body| && U16At(body, 2) == n && body[n..] == rest
    requires body[4] == p.number && body[5] == p.protocol && body[6] == |p.spi| && body[8..8 + |p.spi|] == p.spi
    requires ParseTransforms(body[8 + |p.spi|..n]) == Ok(p.transforms)
    ensures ParseProposals(body) == Prepend([p], ParseProposals(rest))
  {}

  lemma HeaderLength(p: Proposal, more: bool, n: nat)
    requires |p.spi| <= 255 && |p.transforms| <= 255 && n < 0x1_0000
    ensures var h := ProposalHeader(p, more, n);
            U16At(h, 2) == n && h[4] == p.number && h[5] == p.protocol && h[6] == |p.spi|
  {
    HiLo(n);
  }

  /** A body short enough for the chain's 16-bit guard has no truncated length inside:
      every proposal's length field is its true length. */
  lemma {:induction false} NestedLengthsExact(ps: seq<Proposal>, i: nat)
    requires ProposalsBytes(ps).Ok? && |ProposalsBytes(ps).value| < 0x1_0000 && i < |ps|
    ensures var b := ProposalBytes(ps[i], i + 1 < |ps|); b.Ok? && |b.value| >= 8 && U16At(b.value, 2) == |b.value|
    decreases ps
  {
    if i == 0 {
      var tb := TransformsBytes(ps[0].transforms).value;
      HeaderLength(ps[0], |ps| > 1, 8 + |ps[0].spi| + |tb|);
    } else {
      NestedLengthsExact(ps[1..], i - 1);
    }
  }

  lemma OneMoreProposal(ps: seq<Proposal>, tb: Bytes, rest: Bytes)
    requires ps != [] && |ps[0].spi| <= 255 && |ps[0].transforms| <= 255
    requires TransformsBytes(ps[0].transforms) == Ok(tb) && ParseTransforms(tb) == Ok(ps[0].transforms)
    requires ProposalsBytes(ps[1..]) == Ok(rest)
    requires |rest| < 0x1_0000 ==> ParseProposals(rest) == Ok(ps[1..])
    ensures ProposalsBytes(ps).Ok?
    ensures |ProposalsBytes(ps).value| < 0x1_0000 ==> ParseProposals(ProposalsBytes(ps).value) == Ok(ps)
  {
    hide ProposalHeader, TransformsBytes, ParseTransforms, ParseProposals;
    var b := ProposalHeader(ps[0], |ps| > 1, 8 + |ps[0].spi| + |tb|) + ps[0].spi + tb;
    assert ProposalBytes(ps[0], |ps| > 1) == Ok(b);
    assert ProposalsBytes(ps) == Ok(b + rest);
    if |b + rest| < 0x1_0000 {
      ParseOneProposal(ps[0], |ps| > 1, tb, rest);
      assert [ps[0]] + ps[1..] == ps;
    }
  }

  /** The body length bounds every nested length field, so none was truncated. */
  lemma {:induction false} ProposalsRoundTrip(ps: seq<Proposal>)
    requires WellFormedProposals(ps)
    ensures ProposalsBytes(ps).Ok?
    ensures |ProposalsBytes(ps).value| < 0x1_0000 ==> ParseProposals(ProposalsBytes(ps).value) == Ok(ps)
    decreases ps
  {
    if ps != [] {
      ProposalsRoundTrip(ps[1..]);
      TransformsRoundTrip(ps[0].transforms);
      OneMoreProposal(ps, TransformsBytes(ps[0].transforms).value, ProposalsBytes(ps[1..]).value);
    }
  }

  /** The attribute walk: Key Length, type 14 in the short form, is taken, the last one
      counting; any other short attribute, and any long one with its value, is passed over. */
  lemma AttributeWalk(t: Transform, kind: nat, v: uint16, value: Bytes, rest: Bytes)
    requires kind < 0x8000 && |value| < 0x1_0000
    ensures ParseAttrs(t, [Hi(0x8000 + kind), Lo(0x8000 + kind), Hi(v), Lo(v)] + rest) ==
            ParseAttrs(if kind == 14 then t.(keyLength := v, hasKeyLength := true) else t, rest)
    ensures ParseAttrs(t, [Hi(kind), Lo(kind), Hi(|value|), Lo(|value|)] + value + rest) == ParseAttrs(t, rest)
  {
    HiLo(0x8000 + kind);
    HiLo(kind);
    HiLo(v);
    HiLo(|value|);
    hide Hi, Lo;
    var tv := [Hi(0x8000 + kind), Lo(0x8000 + kind), Hi(v), Lo(v)] + rest;
    assert U16At(tv, 0) == 0x8000 + kind && U16At(tv, 2) == v && tv[4..] == rest;
    var h := [Hi(kind), Lo(kind), Hi(|value|), Lo(|value|)];
    var tlv := h + value + rest;
    assert forall i :: 0 <= i < 4 ==> tlv[i] == h[i];
    assert U16At(tlv, 0) == kind && U16At(tlv, 2) == |value| && tlv[4 + |value|..] == rest;
  }

  // ----- what the decoder yields -----

  lemma {:induction false} ParseAttrsYields(t: Transform, attrs: Bytes)
    requires WellFormedTransform(t)
    ensures ParseAttrs(t, attrs).Ok? ==>
              && WellFormedTransform(ParseAttrs(t, attrs).value)
              && (ParseAttrs(t, attrs).value.hasKeyLength ==> t.hasKeyLength || |attrs| >= 4)
    decreases |attrs|
  {
    if |attrs| >= 4 {
      var af := U16At(attrs, 0);
      if af >= ATTR_TV {
        ParseAttrsYields(if af - ATTR_TV == ATTR_KEY_LENGTH
                         then t.(keyLength := U16At(attrs, 2), hasKeyLength := true) else t, attrs[4..]);
      } else if 4 + U16At(attrs, 2) <= |attrs| {
        ParseAttrsYields(t, attrs[4 + U16At(attrs, 2)..]);
      }
    }
  }

  /** What was parsed is well formed and re-encodes in no more octets. */
  lemma {:induction false} ParseTransformsYields(body: Bytes)
    requires ParseTransforms(body).Ok?
    ensures var ts := ParseTransforms(body).value;
            WellFormedTransforms(ts) && TransformsBytes(ts).Ok? && |TransformsBytes(ts).value| <= |body|
    decreases |body|
  {
    if body != [] {
      var tlen := U16At(body, 2);
      var bare := Transform(body[4], U16At(body, 6), 0, false);
      ParseAttrsYields(bare, body[8..tlen]);
      ParseTransformsYields(body[tlen..]);
      var ts := ParseTransforms(body).value;
      assert ts[1..] == ParseTransforms(body[tlen..]).value;
      TransformsRoundTrip(ts);
    }
  }

  predicate FewTransforms(ps: seq<Proposal>) {
    forall i :: 0 <= i < |ps| ==> |ps[i].transforms| <= 255
  }

  /** Parsed proposals are well formed and re-encode in no more octets, unless some
      proposal has more than 255 transforms. */
  lemma {:induction false} ParseProposalsYields(body: Bytes)
    requires ParseProposals(body).Ok?
    ensures var ps := ParseProposals(body).value;
            && (WellFormedProposals(ps) <==> FewTransforms(ps))
            && (FewTransforms(ps) ==> ProposalsBytes(ps).Ok? && |ProposalsBytes(ps).value| <= |body|)
    decreases |body|
  {
    if body != [] {
      var plen, spiSize := U16At(body, 2), body[6];
      ParseTransformsYields(body[8 + spiSize..plen]);
      ParseProposalsYields(body[plen..]);
      var ts, more := ParseTransforms(body[8 + spiSize..plen]).value, ParseProposals(body[plen..]).value;
      var p := Proposal(body[4], body[5], body[8..8 + spiSize], ts);
      FirstProposal(p, more);
      assert ParseProposals(body).value == [p] + more;
    }
  }

  lemma FirstProposal(p: Proposal, rest: seq<Proposal>)
    requires |p.spi| <= 255 && WellFormedTransforms(p.transforms) && TransformsBytes(p.transforms).Ok?
    ensures WellFormedProposals([p] + rest) <==> |p.transforms| <= 255 && WellFormedProposals(rest)
    ensures FewTransforms([p] + rest) <==> |p.transforms| <= 255 && FewTransforms(rest)
    ensures |p.transforms| <= 255 && ProposalsBytes(rest).Ok? ==>
              && ProposalsBytes([p] + rest).Ok?
              && |ProposalsBytes([p] + rest).value| ==
                 8 + |p.spi| + |TransformsBytes(p.transforms).value| + |ProposalsBytes(rest).value|
  {
    var ps := [p] + rest;
    assert ps[1..] == rest;
    assert forall i :: 0 < i < |ps| ==> ps[i] == rest[i - 1];
    assert ps[0] == p;
    if WellFormedProposals(ps) {
      forall i | 0 <= i < |rest|
        ensures rest[i] == ps[i + 1] && |rest[i].spi| <= 255 && |rest[i].transforms| <= 255 && WellFormedTransforms(rest[i].transforms)
      {}
    }
  }

  // ----- the loops -----

  method MarshalProposal(p: Proposal, more: bool) returns (r: Result<Bytes>)
    ensures r == ProposalBytes(p, more)
  {
    if |p.spi| > 255 || |p.transforms| > 255 {
      return Err;
    }
    var tb: Bytes := [];
    PrependNil(TransformsBytes(p.transforms));
    assert p.transforms[0..] == p.transforms;
    for i := 0 to |p.transforms|
      invariant TransformsBytes(p.transforms) == Prepend(tb, TransformsBytes(p.transforms[i..]))
    {
      var td := TransformBytes(p.transforms[i], i + 1 < |p.transforms|);
      assert p.transforms[i..][1..] == p.transforms[i + 1..];
      if td.Err? {
        return Err;
      }
      PrependTwice(tb, td.value, TransformsBytes(p.transforms[i + 1..]));
      tb := tb + td.value;
    }
    r := Ok(ProposalHeader(p, more, 8 + |p.spi| + |tb|) + p.spi + tb);
    assert tb + [] == tb;
  }

  method MarshalSa(ps: seq<Proposal>) returns (r: Result<Bytes>)
    ensures r == ProposalsBytes(ps)
  {
    var out: Bytes := [];
    PrependNil(ProposalsBytes(ps));
    assert ps[0..] == ps;
    for i := 0 to |ps|
      invariant ProposalsBytes(ps) == Prepend(out, ProposalsBytes(ps[i..]))
    {
      var pd := MarshalProposal(ps[i], i + 1 < |ps|);
      assert ps[i..][1..] == ps[i + 1..];
      if pd.Err? {
        return Err;
      }
      PrependTwice(out, pd.value, ProposalsBytes(ps[i + 1..]));
      out := out + pd.value;
    }
    r := Ok(out);
    assert out + [] == out;
  }

  method UnmarshalAttrs(t0: Transform, body: Bytes) returns (r: Result<Transform>)
    ensures r == ParseAttrs(t0, body)
  {
    var t, attrs := t0, body;
    while |attrs| > 0
      invariant ParseAttrs(t0, body) == ParseAttrs(t, attrs)
      decreases |attrs|
    {
      if |attrs| < 4 {
        return Err;
      }
      var af := U16At(attrs, 0);
      if af >= ATTR_TV {
        if af - ATTR_TV == ATTR_KEY_LENGTH {
          t := t.(keyLength := U16At(attrs, 2), hasKeyLength := true);
        }
        attrs := attrs[4..];
      } else {
        var alen := U16At(attrs, 2);
        if 4 + alen > |attrs| {
          return Err;
        }
        attrs := attrs[4 + alen..];
      }
    }
    r := Ok(t);
  }

  method UnmarshalTransforms(body: Bytes) returns (r: Result<seq<Transform>>)
    ensures r == ParseTransforms(body)
  {
    var out: seq<Transform> := [];
    var rest := body;
    PrependNil(ParseTransforms(body));
    while |rest| > 0
      invariant ParseTransforms(body) == Prepend(out, ParseTransforms(rest))
      decreases |rest|
    {
      if |rest| < 8 {
        return Err;
      }
      var tlen := U16At(rest, 2);
      if tlen < 8 || tlen > |rest| {
        return Err;
      }
      var t := UnmarshalAttrs(Transform(rest[4], U16At(rest, 6), 0, false), rest[8..tlen]);
      if t.Err? {
        return Err;
      }
      PrependTwice(out, [t.value], ParseTransforms(rest[tlen..]));
      out := out + [t.value];
      rest := rest[tlen..];
    }
    r := Ok(out);
    assert out + [] == out;
  }

  method UnmarshalSa(body: Bytes) returns (r: Result<seq<Proposal>>)
    ensures r == ParseProposals(body)
  {
    var out: seq<Proposal> := [];
    var rest := body;
    PrependNil(ParseProposals(body));
    while |rest| > 0
      invariant ParseProposals(body) == Prepend(out, ParseProposals(rest))
      decreases |rest|
    {
      if |rest| < 8 {
        return Err;
      }
      var plen := U16At(rest, 2);
      var spiSize := rest[6];
      if plen < 8 || plen > |rest| || 8 + spiSize > plen {
        return Err;
      }
      var ts := UnmarshalTransforms(rest[8 + spiSize..plen]);
      if ts.Err? {
        return Err;
      }
      var p := Proposal(rest[4], rest[5], rest[8..8 + spiSize], ts.value);
      PrependTwice(out, [p], ParseProposals(rest[plen..]));
      out := out + [p];
      rest := rest[plen..];
    }
    r := Ok(out);
    assert out + [] == out;
  }
}
