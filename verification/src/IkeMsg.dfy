/** IKEv2 messages and payloads as values (section 3 of RFC 7296). */
module IkeMsg {
  import opened Bytes

  const PAYLOAD_NONE: byte := 0
  const PAYLOAD_SA: byte := 33
  const PAYLOAD_KE: byte := 34
  const PAYLOAD_IDI: byte := 35
  const PAYLOAD_IDR: byte := 36
  const PAYLOAD_CERT: byte := 37
  const PAYLOAD_CERTREQ: byte := 38
  const PAYLOAD_AUTH: byte := 39
  const PAYLOAD_NONCE: byte := 40
  const PAYLOAD_NOTIFY: byte := 41
  const PAYLOAD_DELETE: byte := 42
  const PAYLOAD_VENDOR_ID: byte := 43
  const PAYLOAD_TSI: byte := 44
  const PAYLOAD_TSR: byte := 45
  const PAYLOAD_SK: byte := 46
  const PAYLOAD_CP: byte := 47
  const PAYLOAD_EAP: byte := 48

  const EXCHANGE_CREATE_CHILD_SA: byte := 36
  const EXCHANGE_INFORMATIONAL: byte := 37

  const PROTOCOL_NONE: byte := 0
  const PROTOCOL_IKE: byte := 1
  const PROTOCOL_ESP: byte := 3

  const TRANSFORM_ENCR: byte := 1
  const TRANSFORM_PRF: byte := 2
  const TRANSFORM_INTEG: byte := 3
  const TRANSFORM_DH: byte := 4
  const TRANSFORM_ESN: byte := 5

  const TS_IPV4_ADDR_RANGE: byte := 7
  const TS_IPV6_ADDR_RANGE: byte := 8

  const NOTIFY_INVALID_SYNTAX: uint16 := 7
  const NOTIFY_NO_PROPOSAL_CHOSEN: uint16 := 14
  const NOTIFY_INVALID_KE_PAYLOAD: uint16 := 17
  const NOTIFY_TEMPORARY_FAILURE: uint16 := 43
  const NOTIFY_CHILD_SA_NOT_FOUND: uint16 := 44
  const NOTIFY_STATUS: uint16 := 16384
  const NOTIFY_REKEY_SA: uint16 := 16393

  datatype Transform = Transform(kind: byte, id: uint16, keyLength: uint16, hasKeyLength: bool)

  datatype Proposal = Proposal(number: byte, protocol: byte, spi: Bytes, transforms: seq<Transform>)

  datatype TrafficSelector = TrafficSelector(
    tsType: byte, protocol: byte, startPort: uint16, endPort: uint16, startAddr: Bytes, endAddr: Bytes)

  datatype ConfigAttr = ConfigAttr(kind: uint16, value: Bytes)

  datatype Payload =
    | SA(proposals: seq<Proposal>)
    | KE(group: uint16, data: Bytes)
    | IDi(idType: byte, data: Bytes)
    | IDr(idType: byte, data: Bytes)
    | Cert(encoding: byte, data: Bytes)
    | CertReq(encoding: byte, data: Bytes)
    | Auth(authMethod: byte, data: Bytes)
    | Nonce(data: Bytes)
    | Notify(protocol: byte, notifyType: uint16, spi: Bytes, data: Bytes)
    | Delete(protocol: byte, spis: seq<Bytes>)
    | VendorID(data: Bytes)
    | TSi(selectors: seq<TrafficSelector>)
    | TSr(selectors: seq<TrafficSelector>)
    | SK(innerFirst: byte, data: Bytes)
    | CP(cfgType: byte, attributes: seq<ConfigAttr>)
    | EAP(data: Bytes)
  {
    function Type(): (t: byte)
      ensures PAYLOAD_SA <= t <= PAYLOAD_EAP
    {
      match this
      case SA(_) => PAYLOAD_SA
      case KE(_, _) => PAYLOAD_KE
      case IDi(_, _) => PAYLOAD_IDI
      case IDr(_, _) => PAYLOAD_IDR
      case Cert(_, _) => PAYLOAD_CERT
      case CertReq(_, _) => PAYLOAD_CERTREQ
      case Auth(_, _) => PAYLOAD_AUTH
      case Nonce(_) => PAYLOAD_NONCE
      case Notify(_, _, _, _) => PAYLOAD_NOTIFY
      case Delete(_, _) => PAYLOAD_DELETE
      case VendorID(_) => PAYLOAD_VENDOR_ID
      case TSi(_) => PAYLOAD_TSI
      case TSr(_) => PAYLOAD_TSR
      case SK(_, _) => PAYLOAD_SK
      case CP(_, _) => PAYLOAD_CP
      case EAP(_) => PAYLOAD_EAP
    }
  }

  datatype Message = Message(
    initiatorSPI: uint64, responderSPI: uint64, exchange: byte, flags: byte, messageID: uint32, payloads: seq<Payload>)

  /** a in front of what r yields. */
  function Prepend<T>(a: seq<T>, r: Result<seq<T>>): Result<seq<T>> {
    match r
    case Ok(b) => Ok(a + b)
    case Err => Err
  }

  lemma PrependNil<T>(r: Result<seq<T>>)
    ensures Prepend([], r) == r
  {
    if r.Ok? {
      assert [] + r.value == r.value;
    }
  }

  lemma PrependTwice<T>(a: seq<T>, b: seq<T>, r: Result<seq<T>>)
    ensures Prepend(a, Prepend(b, r)) == Prepend(a + b, r)
  {
    if r.Ok? {
      assert a + (b + r.value) == (a + b) + r.value;
    }
  }
}
