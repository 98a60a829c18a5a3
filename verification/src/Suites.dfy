/** Suite negotiation: offering, choosing from an offer, and decoding a choice
    (sections 2.7 and 3.3 of RFC 7296). */
module Suites {
  import opened Bytes
  import opened Crypto
  import opened IkeMsg

  const ENCR_AES_CBC: uint16 := 12
  const ENCR_AES_GCM_16: uint16 := 20
  const ENCR_CHACHA20_POLY1305: uint16 := 28
  const PRF_HMAC_SHA2_256: uint16 := 5
  const AUTH_NONE: uint16 := 0
  const AUTH_HMAC_SHA2_256_128: uint16 := 12
  const ESN_NONE: uint16 := 0
  const DH_MODP2048: uint16 := 14
  const DH_X25519: uint16 := 31
  const KEY_LEN_AES256: uint16 := 256

  datatype Layer = EspLayer | IkeLayer

  /** One negotiable row: the wire transforms it is offered and matched by, and the key
      lengths derived for it.  keyBits 0 means the Key Length attribute is absent, and
      integID 0 that the suite is AEAD. */
  datatype Suite = Suite(
    layer: Layer, id: Cipher, encrID: uint16, keyBits: uint16, encrKeyLen: nat, integID: uint16, integKeyLen: nat)
  {
    function Protocol(): byte { if layer == IkeLayer then PROTOCOL_IKE else PROTOCOL_ESP }
    function SpiLen(): nat { if layer == IkeLayer then 8 else 4 }
    predicate Aead() { integID == 0 }
  }

  /** The full table of a layer in this client's preference order. */
  function Table(layer: Layer): seq<Suite> {
    [Suite(layer, AesGcm256, ENCR_AES_GCM_16, KEY_LEN_AES256, 36, 0, 0),
     Suite(layer, ChaCha20Poly1305, ENCR_CHACHA20_POLY1305, 0, 36, 0, 0),
     Suite(layer, AesCbc256Sha256, ENCR_AES_CBC, KEY_LEN_AES256, 32, AUTH_HMAC_SHA2_256_128, 32)]
  }

  predicate Row(s: Suite) {
    s in Table(s.layer)
  }

  /** A list of rows of one layer, as enabledSuites yields. */
  predicate Rows(layer: Layer, suites: seq<Suite>) {
    forall i :: 0 <= i < |suites| ==> suites[i].layer == layer && Row(suites[i])
  }

  function RowFor(layer: Layer, id: Cipher): (s: Suite)
    ensures Row(s) && s.layer == layer && s.id == id
  {
    match id
    case AesGcm256 => Table(layer)[0]
    case ChaCha20Poly1305 => Table(layer)[1]
    case AesCbc256Sha256 => Table(layer)[2]
  }

  /** enabledSuites: the configured suites in the caller's order, or the whole table. */
  method EnabledSuites(layer: Layer, configured: seq<Cipher>) returns (out: seq<Suite>)
    ensures Rows(layer, out) && out != []
    ensures configured == [] ==> out == Table(layer)
    ensures configured != [] ==> |out| == |configured| && forall i :: 0 <= i < |out| ==> out[i].id == configured[i]
  {
    if configured == [] {
      return Table(layer);
    }
    out := [];
    for i := 0 to |configured|
      invariant |out| == i && Rows(layer, out)
      invariant forall j :: 0 <= j < i ==> out[j].id == configured[j]
    {
      out := out + [RowFor(layer, configured[i])];
    }
  }

  // ----- offering -----

  function ByType(ts: seq<Transform>, kind: byte): seq<Transform> {
    if ts == [] then [] else (if ts[0].kind == kind then [ts[0]] else []) + ByType(ts[1..], kind)
  }

  function Plain(kind: byte, id: uint16): Transform {
    Transform(kind, id, 0, false)
  }

  function Groups(groups: seq<uint16>): seq<Transform> {
    if groups == [] then [] else [Plain(TRANSFORM_DH, groups[0])] + Groups(groups[1..])
  }

  function BuildProposal(number: byte, s: Suite, spi: Bytes, groups: seq<uint16>): Proposal {
    var encr := [Transform(TRANSFORM_ENCR, s.encrID, s.keyBits, s.keyBits != 0)];
    var prf := if s.layer == IkeLayer then [Plain(TRANSFORM_PRF, PRF_HMAC_SHA2_256)] else [];
    var integ := if s.Aead() then [] else [Plain(TRANSFORM_INTEG, s.integID)];
    var esn := if s.layer == EspLayer then [Plain(TRANSFORM_ESN, ESN_NONE)] else [];
    Proposal(number, s.Protocol(), spi, encr + prf + integ + Groups(groups) + esn)
  }

  /** One proposal per suite, numbered from 1 in preference order. */
  function BuildProposals(spi: Bytes, suites: seq<Suite>, groups: seq<uint16>): (ps: seq<Proposal>)
    ensures |ps| == |suites|
    ensures forall i :: 0 <= i < |suites| ==> ps[i] == BuildProposal((i + 1) % 256, suites[i], spi, groups)
  {
    seq(|suites|, (i: nat) =>
      if i < |suites| then BuildProposal((i + 1) % 256, suites[i], spi, groups) else Proposal(0, 0, [], []))
  }

  method MakeProposals(spi: Bytes, suites: seq<Suite>, groups: seq<uint16>) returns (ps: seq<Proposal>)
    ensures ps == BuildProposals(spi, suites, groups)
  {
    ps := [];
    for i := 0 to |suites|
      invariant |ps| == i
      invariant forall j :: 0 <= j < i ==> ps[j] == BuildProposal((j + 1) % 256, suites[j], spi, groups)
    {
      ps := ps + [BuildProposal((i + 1) % 256, suites[i], spi, groups)];
    }
  }

  /** The transforms of an offer in the numbers of the IANA registry: type 1 is encryption
      (12 AES-CBC, 20 AES-GCM, 28 ChaCha20-Poly1305), 2 the PRF (5 HMAC-SHA2-256), 3
      integrity (12 HMAC-SHA2-256-128), 4 the group, 5 extended sequence numbers (0 none). */
  predicate OfferedAs(ts: seq<Transform>, layer: Layer, id: Cipher, groups: seq<uint16>) {
    ts == [match id
           case AesGcm256 => Transform(1, 20, 256, true)
           case ChaCha20Poly1305 => Transform(1, 28, 0, false)
           case AesCbc256Sha256 => Transform(1, 12, 256, true)]
          + (if layer == IkeLayer then [Transform(2, 5, 0, false)] else [])
          + (if id == AesCbc256Sha256 then [Transform(3, 12, 0, false)] else [])
          + (if groups != [] then [Transform(4, groups[0], 0, false)] else [])
          + (if layer == EspLayer then [Transform(5, 0, 0, false)] else [])
  }

  lemma BuiltAs(number: byte, s: Suite, spi: Bytes, groups: seq<uint16>)
    requires Row(s) && |groups| <= 1
    ensures OfferedAs(BuildProposal(number, s, spi, groups).transforms, s.layer, s.id, groups)
  {
    assert Groups(groups) == if groups != [] then [Transform(4, groups[0], 0, false)] else [];
  }

  // ----- matching -----

  /** keyLen Some(0) asks for a transform without the attribute. */
  predicate Fits(t: Transform, id: uint16, keyLen: Option<uint16>) {
    && t.id == id
    && (keyLen.Some? ==> if keyLen.value == 0 then !t.hasKeyLength else t.hasKeyLength && t.keyLength == keyLen.value)
  }

  predicate HasTransform(ts: seq<Transform>, id: uint16, keyLen: Option<uint16>) {
    exists i :: 0 <= i < |ts| && Fits(ts[i], id, keyLen)
  }

  predicate HasGroup(p: Proposal, g: uint16) {
    HasTransform(ByType(p.transforms, TRANSFORM_DH), g, None)
  }

  /** The single DH group of a narrowed proposal, 0 without one. */
  function SelectedGroup(p: Proposal): uint16 {
    var dh := ByType(p.transforms, TRANSFORM_DH);
    if dh == [] then 0 else dh[0].id
  }

  /** The proposal offers the suite, possibly among alternatives. */
  predicate SuiteMatches(s: Suite, p: Proposal) {
    var integs := ByType(p.transforms, TRANSFORM_INTEG);
    && p.protocol == s.Protocol()
    && HasTransform(ByType(p.transforms, TRANSFORM_ENCR), s.encrID, Some(s.keyBits))
    && (s.layer == IkeLayer ==> HasTransform(ByType(p.transforms, TRANSFORM_PRF), PRF_HMAC_SHA2_256, None))
    && (if s.Aead() then integs == [] || HasTransform(integs, AUTH_NONE, None) else HasTransform(integs, s.integID, None))
    && (s.layer == EspLayer ==> HasTransform(ByType(p.transforms, TRANSFORM_ESN), ESN_NONE, None))
  }

  /** The proposal is an unambiguous selection of the suite. */
  predicate IsSelectionFor(s: Suite, p: Proposal) {
    var integs := ByType(p.transforms, TRANSFORM_INTEG);
    && SuiteMatches(s, p)
    && |ByType(p.transforms, TRANSFORM_ENCR)| == 1
    && |ByType(p.transforms, TRANSFORM_DH)| <= 1
    && (s.layer == IkeLayer ==> |ByType(p.transforms, TRANSFORM_PRF)| == 1)
    && (s.layer == EspLayer ==> |ByType(p.transforms, TRANSFORM_ESN)| == 1)
    && (if s.Aead() then |integs| == 0 || (|integs| == 1 && integs[0].id == AUTH_NONE) else |integs| == 1)
  }

  function SelectedSuite(p: Proposal, enabled: seq<Suite>): Option<Suite> {
    if enabled == [] then None
    else if IsSelectionFor(enabled[0], p) then Some(enabled[0])
    else SelectedSuite(p, enabled[1..])
  }

  /** A proposal the chooser can take the suite from. */
  predicate Acceptable(s: Suite, p: Proposal, requireGroup: uint16) {
    SuiteMatches(s, p) && |p.spi| == s.SpiLen() && (requireGroup != 0 ==> HasGroup(p, requireGroup))
  }

  function FirstAcceptable(s: Suite, ps: seq<Proposal>, requireGroup: uint16): Option<Proposal> {
    if ps == [] then None
    else if Acceptable(s, ps[0], requireGroup) then Some(ps[0])
    else FirstAcceptable(s, ps[1..], requireGroup)
  }

  function SelectProposal(ps: seq<Proposal>, enabled: seq<Suite>, requireGroup: uint16): Option<(Proposal, Suite)> {
    if enabled == [] then None else
    match FirstAcceptable(enabled[0], ps, requireGroup)
    case Some(p) => Some((p, enabled[0]))
    case None => SelectProposal(ps, enabled[1..], requireGroup)
  }

  // ----- the loops -----

  method FindSelectedSuite(p: Proposal, enabled: seq<Suite>) returns (r: Option<Suite>)
    ensures r == SelectedSuite(p, enabled)
  {
    assert enabled[0..] == enabled;
    for i := 0 to |enabled|
      invariant SelectedSuite(p, enabled) == SelectedSuite(p, enabled[i..])
    {
      if IsSelectionFor(enabled[i], p) {
        return Some(enabled[i]);
      }
      assert enabled[i..][1..] == enabled[i + 1..];
    }
    return None;
  }

  method FindProposal(ps: seq<Proposal>, enabled: seq<Suite>, requireGroup: uint16) returns (r: Option<(Proposal, Suite)>)
    ensures r == SelectProposal(ps, enabled, requireGroup)
  {
    assert enabled[0..] == enabled;
    for i := 0 to |enabled|
      invariant SelectProposal(ps, enabled, requireGroup) == SelectProposal(ps, enabled[i..], requireGroup)
    {
      var s := enabled[i];
      assert ps[0..] == ps;
      for j := 0 to |ps|
        invariant FirstAcceptable(s, ps, requireGroup) == FirstAcceptable(s, ps[j..], requireGroup)
      {
        if Acceptable(s, ps[j], requireGroup) {
          return Some((ps[j], s));
        }
        assert ps[j..][1..] == ps[j + 1..];
      }
      assert enabled[i..][1..] == enabled[i + 1..];
    }
    return None;
  }

  // ----- a selection is unambiguous -----

  /** Two different rows never both accept a proposal as their selection. */
  lemma AtMostOneSelection(s: Suite, t: Suite, p: Proposal)
    requires Row(s) && Row(t) && IsSelectionFor(s, p) && IsSelectionFor(t, p)
    ensures s == t
  {
    hide ByType;
    var encr := ByType(p.transforms, TRANSFORM_ENCR)[0];
    assert encr.id == s.encrID && encr.id == t.encrID;
    assert s.layer == t.layer;
  }

  /** The suite a narrowed answer selects does not depend on the order of the list. */
  lemma {:induction false} SelectedSuiteIff(p: Proposal, enabled: seq<Suite>, s: Suite)
    requires forall i :: 0 <= i < |enabled| ==> Row(enabled[i])
    ensures SelectedSuite(p, enabled) == Some(s) <==> s in enabled && IsSelectionFor(s, p)
    decreases enabled
  {
    if enabled != [] {
      hide IsSelectionFor;
      SelectedSuiteIff(p, enabled[1..], s);
      assert s in enabled <==> s == enabled[0] || s in enabled[1..];
      if s in enabled && IsSelectionFor(s, p) && IsSelectionFor(enabled[0], p) {
        AtMostOneSelection(s, enabled[0], p);
      }
    }
  }

  // ----- matching, said of the transforms themselves -----

  predicate Encrypts(t: Transform, id: Cipher) {
    match id
    case AesGcm256 => t.id == 20 && t.hasKeyLength && t.keyLength == 256
    case ChaCha20Poly1305 => t.id == 28 && !t.hasKeyLength
    case AesCbc256Sha256 => t.id == 12 && t.hasKeyLength && t.keyLength == 256
  }

  ghost predicate ListsCipher(ts: seq<Transform>, id: Cipher) {
    exists i :: 0 <= i < |ts| && ts[i].kind == 1 && Encrypts(ts[i], id)
  }

  ghost predicate Lists(ts: seq<Transform>, kind: byte, id: uint16) {
    exists i :: 0 <= i < |ts| && ts[i].kind == kind && ts[i].id == id
  }

  /** At most one transform of this type. */
  ghost predicate Narrow(ts: seq<Transform>, kind: byte) {
    forall i, j :: 0 <= i < j < |ts| && ts[i].kind == kind ==> ts[j].kind != kind
  }

  /** Filtering by type keeps what there is of the type, and how many. */
  lemma {:induction false} ByTypeMeans(ts: seq<Transform>, kind: byte)
    ensures forall i :: 0 <= i < |ts| && ts[i].kind == kind ==> ts[i] in ByType(ts, kind)
    ensures forall t :: t in ByType(ts, kind) ==> t in ts && t.kind == kind
    decreases ts
  {
    if ts != [] {
      ByTypeMeans(ts[1..], kind);
      assert ts == [ts[0]] + ts[1..];
    }
  }

  lemma {:induction false} NarrowMeans(ts: seq<Transform>, kind: byte)
    ensures |ByType(ts, kind)| == 0 <==> forall i :: 0 <= i < |ts| ==> ts[i].kind != kind
    ensures |ByType(ts, kind)| <= 1 <==> Narrow(ts, kind)
    decreases ts
  {
    if ts != [] {
      var rest := ts[1..];
      NarrowMeans(rest, kind);
      assert forall i :: 0 < i < |ts| ==> ts[i] == rest[i - 1];
      NarrowStep(ts, kind);
    }
  }

  lemma NarrowStep(ts: seq<Transform>, kind: byte)
    requires ts != []
    ensures Narrow(ts, kind) <==>
            Narrow(ts[1..], kind) && (ts[0].kind == kind ==> forall i :: 0 <= i < |ts[1..]| ==> ts[1..][i].kind != kind)
  {
    var rest := ts[1..];
    assert forall i :: 0 <= i < |rest| ==> rest[i] == ts[i + 1];
    assert forall i :: 0 < i < |ts| ==> ts[i] == rest[i - 1];
  }

  lemma ListsMeans(ts: seq<Transform>, kind: byte, id: uint16)
    ensures HasTransform(ByType(ts, kind), id, None) <==> Lists(ts, kind, id)
  {
    ByTypeMeans(ts, kind);
    hide ByType;
    var some := ByType(ts, kind);
    if i :| 0 <= i < |some| && Fits(some[i], id, None) {
      assert some[i] in ts;
    }
    if i :| 0 <= i < |ts| && ts[i].kind == kind && ts[i].id == id {
      var j :| 0 <= j < |some| && some[j] == ts[i];
      assert Fits(some[j], id, None);
    }
  }

  lemma CipherMeans(layer: Layer, id: Cipher, ts: seq<Transform>)
    ensures var s := RowFor(layer, id); HasTransform(ByType(ts, TRANSFORM_ENCR), s.encrID, Some(s.keyBits)) <==> ListsCipher(ts, id)
  {
    ByTypeMeans(ts, 1);
    hide ByType;
    var some, s := ByType(ts, 1), RowFor(layer, id);
    if i :| 0 <= i < |some| && Fits(some[i], s.encrID, Some(s.keyBits)) {
      assert some[i] in ts && Encrypts(some[i], id);
    }
    if i :| 0 <= i < |ts| && ts[i].kind == 1 && Encrypts(ts[i], id) {
      var j :| 0 <= j < |some| && some[j] == ts[i];
      assert Fits(some[j], s.encrID, Some(s.keyBits));
    }
  }

  /** A proposal offers a suite exactly when it is for the right protocol and lists the
      suite's encryption, with its key length; for IKE the PRF 5; for ESP no extended
      sequence numbers; and integrity 12 for the CBC suite, or none, or 0, for the others. */
  lemma MatchesMeans(layer: Layer, id: Cipher, p: Proposal)
    ensures var ts := p.transforms;
            SuiteMatches(RowFor(layer, id), p) <==>
            && p.protocol == (if layer == IkeLayer then 1 else 3) && ListsCipher(ts, id)
            && (layer == IkeLayer ==> Lists(ts, 2, 5)) && (layer == EspLayer ==> Lists(ts, 5, 0))
            && (if id == AesCbc256Sha256 then Lists(ts, 3, 12)
                else Lists(ts, 3, 0) || forall i :: 0 <= i < |ts| ==> ts[i].kind != 3)
  {
    var ts, s := p.transforms, RowFor(layer, id);
    NarrowMeans(ts, 3);
    hide ByType, HasTransform;
    CipherMeans(layer, id, ts);
    ListsMeans(ts, 2, 5);
    ListsMeans(ts, 3, 0);
    ListsMeans(ts, 3, 12);
    ListsMeans(ts, 5, 0);
  }

  /** And selects it exactly when besides it lists no more than one transform of any type. */
  lemma SelectionMeans(layer: Layer, id: Cipher, p: Proposal)
    ensures var ts := p.transforms;
            IsSelectionFor(RowFor(layer, id), p) <==>
            && SuiteMatches(RowFor(layer, id), p) && Narrow(ts, 1) && Narrow(ts, 4) && Narrow(ts, 3)
            && (layer == IkeLayer ==> Narrow(ts, 2)) && (layer == EspLayer ==> Narrow(ts, 5))
  {
    var ts, s := p.transforms, RowFor(layer, id);
    NarrowMeans(ts, 1);
    NarrowMeans(ts, 2);
    NarrowMeans(ts, 3);
    NarrowMeans(ts, 4);
    NarrowMeans(ts, 5);
    hide ByType, Narrow;
  }

  /** The chooser wants the right SPI length too, and the group if one is asked for. */
  lemma AcceptableMeans(layer: Layer, id: Cipher, p: Proposal, g: uint16)
    ensures Acceptable(RowFor(layer, id), p, g) <==>
            && SuiteMatches(RowFor(layer, id), p) && |p.spi| == (if layer == IkeLayer then 8 else 4)
            && (g != 0 ==> Lists(p.transforms, 4, g))
  {
    hide SuiteMatches, HasTransform, Lists;
    ListsMeans(p.transforms, 4, g);
  }

  /** A selection names no group exactly when it lists none but 0. */
  lemma NoGroupMeans(p: Proposal)
    requires Narrow(p.transforms, 4)
    ensures SelectedGroup(p) == 0 <==> forall i :: 0 <= i < |p.transforms| && p.transforms[i].kind == 4 ==> p.transforms[i].id == 0
  {
    ByTypeMeans(p.transforms, 4);
    NarrowMeans(p.transforms, 4);
    hide ByType, Narrow;
    var some := ByType(p.transforms, 4);
    if some != [] {
      assert some == [some[0]] && some[0] in some;
    }
  }

  // ----- choosing from any offer -----

  /** Exactly when and what selectProposal picks, for any offer: the first suite of the
      chooser's list that some proposal makes acceptable. */
  lemma {:induction false} FirstAcceptableSpec(s: Suite, ps: seq<Proposal>, g: uint16)
    ensures var r := FirstAcceptable(s, ps, g);
            if r.Some? then r.value in ps && Acceptable(s, r.value, g)
            else forall p :: p in ps ==> !Acceptable(s, p, g)
    decreases ps
  {
    if ps != [] {
      hide Acceptable;
      FirstAcceptableSpec(s, ps[1..], g);
      assert ps == [ps[0]] + ps[1..];
    }
  }

  /** s is the first enabled suite that the offer makes acceptable, and p shows it. */
  ghost predicate Picked(ps: seq<Proposal>, enabled: seq<Suite>, g: uint16, p: Proposal, s: Suite) {
    && p in ps && Acceptable(s, p, g)
    && exists i :: 0 <= i < |enabled| && enabled[i] == s && NothingFor(ps, enabled[..i], g)
  }

  ghost predicate NothingFor(ps: seq<Proposal>, enabled: seq<Suite>, g: uint16) {
    forall j, q :: 0 <= j < |enabled| && q in ps ==> !Acceptable(enabled[j], q, g)
  }

  lemma {:induction false} SelectProposalSpec(ps: seq<Proposal>, enabled: seq<Suite>, g: uint16)
    ensures match SelectProposal(ps, enabled, g)
            case Some(r) => Picked(ps, enabled, g, r.0, r.1)
            case None => NothingFor(ps, enabled, g)
    decreases enabled
  {
    if enabled != [] {
      hide Acceptable, FirstAcceptable;
      FirstAcceptableSpec(enabled[0], ps, g);
      var rest := enabled[1..];
      if FirstAcceptable(enabled[0], ps, g).None? {
        SelectProposalSpec(ps, rest, g);
        var r := SelectProposal(ps, rest, g);
        if r.Some? {
          var i :| 0 <= i < |rest| && rest[i] == r.value.1 && NothingFor(ps, rest[..i], g);
          var tried := enabled[..i + 1];
          assert tried == [enabled[0]] + rest[..i] && enabled[i + 1] == r.value.1;
          assert NothingFor(ps, tried, g);
        } else {
          assert forall j :: 0 < j < |enabled| ==> enabled[j] == rest[j - 1];
        }
      } else {
        assert NothingFor(ps, enabled[..0], g);
      }
    }
  }

  // ----- two ends of this code meet -----

  lemma {:induction false} ByTypeConcat(a: seq<Transform>, b: seq<Transform>, kind: byte)
    ensures ByType(a + b, kind) == ByType(a, kind) + ByType(b, kind)
    decreases a
  {
    if a == [] {
      assert a + b == b;
    } else {
      ByTypeConcat(a[1..], b, kind);
      assert (a + b)[0] == a[0] && (a + b)[1..] == a[1..] + b;
      var h, x, y := if a[0].kind == kind then [a[0]] else [], ByType(a[1..], kind), ByType(b, kind);
      assert h + (x + y) == (h + x) + y;
    }
  }

  lemma {:induction false} ByTypeGroups(groups: seq<uint16>, kind: byte)
    ensures ByType(Groups(groups), kind) == if kind == TRANSFORM_DH then Groups(groups) else []
    decreases groups
  {
    if groups != [] {
      ByTypeGroups(groups[1..], kind);
      assert Groups(groups)[1..] == Groups(groups[1..]);
    }
  }

  /** The transforms a built proposal has of one type. */
  function BuiltOf(s: Suite, groups: seq<uint16>, kind: byte): seq<Transform> {
    if kind == TRANSFORM_ENCR then [Transform(TRANSFORM_ENCR, s.encrID, s.keyBits, s.keyBits != 0)]
    else if kind == TRANSFORM_PRF && s.layer == IkeLayer then [Plain(TRANSFORM_PRF, PRF_HMAC_SHA2_256)]
    else if kind == TRANSFORM_INTEG && !s.Aead() then [Plain(TRANSFORM_INTEG, s.integID)]
    else if kind == TRANSFORM_DH then Groups(groups)
    else if kind == TRANSFORM_ESN && s.layer == EspLayer then [Plain(TRANSFORM_ESN, ESN_NONE)]
    else []
  }

  lemma AtMostOne(ts: seq<Transform>, kind: byte)
    requires |ts| <= 1
    ensures ByType(ts, kind) == if ts != [] && ts[0].kind == kind then ts else []
  {}

  lemma ByTypeParts(a: seq<Transform>, b: seq<Transform>, c: seq<Transform>, d: seq<Transform>, e: seq<Transform>, kind: byte)
    ensures ByType(a + b + c + d + e, kind) ==
            ByType(a, kind) + ByType(b, kind) + ByType(c, kind) + ByType(d, kind) + ByType(e, kind)
  {
    hide ByType;
    ByTypeConcat(a, b, kind);
    ByTypeConcat(a + b, c, kind);
    ByTypeConcat(a + b + c, d, kind);
    ByTypeConcat(a + b + c + d, e, kind);
  }

  lemma BuiltOfKind(number: byte, s: Suite, spi: Bytes, groups: seq<uint16>, kind: byte)
    ensures ByType(BuildProposal(number, s, spi, groups).transforms, kind) == BuiltOf(s, groups, kind)
  {
    hide ByType, Groups;
    var encr := [Transform(TRANSFORM_ENCR, s.encrID, s.keyBits, s.keyBits != 0)];
    var prf := if s.layer == IkeLayer then [Plain(TRANSFORM_PRF, PRF_HMAC_SHA2_256)] else [];
    var integ := if s.Aead() then [] else [Plain(TRANSFORM_INTEG, s.integID)];
    var esn := if s.layer == EspLayer then [Plain(TRANSFORM_ESN, ESN_NONE)] else [];
    ByTypeParts(encr, prf, integ, Groups(groups), esn, kind);
    ByTypeGroups(groups, kind);
    AtMostOne(encr, kind);
    AtMostOne(prf, kind);
    AtMostOne(integ, kind);
    AtMostOne(esn, kind);
  }

  lemma BuiltByType(number: byte, s: Suite, spi: Bytes, groups: seq<uint16>)
    ensures forall kind: byte :: ByType(BuildProposal(number, s, spi, groups).transforms, kind) == BuiltOf(s, groups, kind)
  {
    forall kind: byte
      ensures ByType(BuildProposal(number, s, spi, groups).transforms, kind) == BuiltOf(s, groups, kind)
    {
      BuiltOfKind(number, s, spi, groups, kind);
    }
  }

  lemma {:induction false} GroupsHave(groups: seq<uint16>, g: uint16)
    ensures |Groups(groups)| == |groups|
    ensures HasTransform(Groups(groups), g, None) <==> g in groups
    decreases groups
  {
    if groups != [] {
      GroupsHave(groups[1..], g);
      var ts, rest := Groups(groups), Groups(groups[1..]);
      assert ts[1..] == rest;
      if g in groups[1..] {
        var i :| 0 <= i < |rest| && Fits(rest[i], g, None);
        assert Fits(ts[i + 1], g, None);
      } else if g == groups[0] {
        assert Fits(ts[0], g, None);
      } else {
        assert forall i :: 0 < i < |ts| ==> ts[i] == rest[i - 1];
      }
    }
  }

  /** A row matches the proposal built for a row exactly when they are the same row. */
  lemma MatchesOwnProposalOnly(s: Suite, t: Suite, number: byte, spi: Bytes, groups: seq<uint16>)
    requires Row(s) && Row(t) && s.layer == t.layer
    ensures SuiteMatches(s, BuildProposal(number, t, spi, groups)) <==> s == t
  {
    BuiltByType(number, t, spi, groups);
    hide ByType, BuildProposal;
    var ts := BuildProposal(number, t, spi, groups).transforms;
    if s == t {
      var encr, integ := ByType(ts, TRANSFORM_ENCR), ByType(ts, TRANSFORM_INTEG);
      assert Fits(encr[0], s.encrID, Some(s.keyBits));
      assert !s.Aead() ==> Fits(integ[0], s.integID, None);
      assert s.layer == IkeLayer ==> Fits(ByType(ts, TRANSFORM_PRF)[0], PRF_HMAC_SHA2_256, None);
      assert s.layer == EspLayer ==> Fits(ByType(ts, TRANSFORM_ESN)[0], ESN_NONE, None);
      BuiltProtocol(number, t, spi, groups);
    }
  }

  lemma BuiltProtocol(number: byte, t: Suite, spi: Bytes, groups: seq<uint16>)
    ensures BuildProposal(number, t, spi, groups).protocol == t.Protocol()
    ensures BuildProposal(number, t, spi, groups).spi == spi
    ensures BuildProposal(number, t, spi, groups).number == number
  {}

  /** A built proposal with at most one group is a strict selection of its suite. */
  lemma BuiltIsSelection(s: Suite, number: byte, spi: Bytes, groups: seq<uint16>)
    requires Row(s) && |groups| <= 1
    ensures IsSelectionFor(s, BuildProposal(number, s, spi, groups))
    ensures SelectedGroup(BuildProposal(number, s, spi, groups)) == if groups == [] then 0 else groups[0]
  {
    MatchesOwnProposalOnly(s, s, number, spi, groups);
    BuiltByType(number, s, spi, groups);
    GroupsHave(groups, 0);
    hide ByType, BuildProposal, SuiteMatches;
  }

  lemma AcceptableBuilt(s: Suite, t: Suite, number: byte, spi: Bytes, groups: seq<uint16>, g: uint16)
    requires Row(s) && Row(t) && s.layer == t.layer && |spi| == s.SpiLen() && (g == 0 || g in groups)
    ensures Acceptable(s, BuildProposal(number, t, spi, groups), g) <==> s == t
  {
    MatchesOwnProposalOnly(s, t, number, spi, groups);
    BuiltByType(number, t, spi, groups);
    BuiltProtocol(number, t, spi, groups);
    GroupsHave(groups, g);
    hide ByType, BuildProposal, SuiteMatches;
  }

  /** The chooser's most preferred suite that the offer shares: the first of mine in
      theirs. */
  ghost predicate MostPreferredShared(mine: seq<Suite>, theirs: seq<Suite>, s: Suite) {
    exists i :: 0 <= i < |mine| && mine[i] == s && s in theirs && forall j :: 0 <= j < i ==> mine[j] !in theirs
  }

  /** Every narrowed answer for s decodes to s. */
  ghost predicate AnswersDecode(theirs: seq<Suite>, s: Suite) {
    forall n, spi, groups: seq<uint16> :: |groups| <= 1 ==>
      SelectedSuite(BuildProposal(n, s, spi, groups), theirs) == Some(s)
  }

  /** Negotiation is sound and complete for any two enabled lists: the choice is the
      chooser's most preferred shared suite, and there is none exactly when nothing is
      shared; decoding the narrowed answer yields that suite. */
  lemma NegotiationMeets(layer: Layer, theirs: seq<Suite>, mine: seq<Suite>, spi: Bytes, groups: seq<uint16>, g: uint16)
    requires Rows(layer, theirs) && Rows(layer, mine)
    requires |spi| == (if layer == IkeLayer then 8 else 4) && (g == 0 || g in groups)
    ensures match SelectProposal(BuildProposals(spi, theirs, groups), mine, g)
            case Some(r) =>
              && MostPreferredShared(mine, theirs, r.1) && r.1.layer == layer && Row(r.1)
              && r.0 == BuildProposal(r.0.number, r.1, spi, groups)
              && AnswersDecode(theirs, r.1)
            case None => forall s :: s in mine ==> s !in theirs
  {
    var ps := BuildProposals(spi, theirs, groups);
    SelectProposalSpec(ps, mine, g);
    forall i, k | 0 <= i < |mine| && 0 <= k < |theirs|
      ensures Acceptable(mine[i], ps[k], g) <==> mine[i] == theirs[k]
    {
      AcceptableBuilt(mine[i], theirs[k], (k + 1) % 256, spi, groups, g);
    }
    hide Acceptable, SelectProposal, BuildProposal;
    var r := SelectProposal(ps, mine, g);
    if r.Some? {
      var (p, s) := r.value;
      var i :| 0 <= i < |mine| && mine[i] == s && NothingFor(ps, mine[..i], g);
      var k :| 0 <= k < |ps| && ps[k] == p;
      assert s == theirs[k];
      BuiltProtocol((k + 1) % 256, s, spi, groups);
      forall j | 0 <= j < i ensures mine[j] !in theirs {
        assert mine[..i][j] == mine[j];
        forall m | 0 <= m < |theirs| ensures theirs[m] != mine[j] {
          assert ps[m] in ps;
        }
      }
      forall n, answerSpi, answerGroups: seq<uint16> | |answerGroups| <= 1
        ensures SelectedSuite(BuildProposal(n, s, answerSpi, answerGroups), theirs) == Some(s)
      {
        BuiltIsSelection(s, n, answerSpi, answerGroups);
        SelectedSuiteIff(BuildProposal(n, s, answerSpi, answerGroups), theirs, s);
      }
    } else {
      forall s | s in mine ensures s !in theirs {
        var i :| 0 <= i < |mine| && mine[i] == s;
        forall m | 0 <= m < |theirs| ensures theirs[m] != s {
          assert ps[m] in ps;
        }
      }
    }
  }
}
