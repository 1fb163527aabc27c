/**
 Authentication of NATS envelopes: a publisher attaches its client certificate and a
 signature over the canonical envelope bytes. Parsing and cryptography are parameters.
 */
module EnvelopeAuthentication {
  import opened Common

  const SPIFFE_PREFIX := "spiffe://"

  datatype EnvelopeAuth = EnvelopeAuth(scheme: string, certPem: string, signature: string)

  /** The parsed fields of an X.509 certificate that verification looks at. */
  datatype Certificate = Certificate(notBefore: int, notAfter: int, publicKey: Bytes, sanUris: seq<string>)

  /** The one scheme name known to the verifier, and the library functions it calls. */
  datatype Crypto = Crypto(
    schemeV1: string,
    parsePem: string -> Option<Bytes>,
    parseCertificate: Bytes -> Option<Certificate>,
    signedBy: (Certificate, Bytes) -> bool,
    decodeBase64: string -> Option<Bytes>,
    verifyP256: (Bytes, Bytes, Bytes) -> bool)

  datatype AuthFailure =
    | UnknownScheme
    | InvalidPem
    | InvalidCertificate
    | OutsideValidity
    | UnparseableCa
    | NotCaSigned
    | SanMismatch
    | NoSpiffeSan
    | InvalidBase64
    | BadSignature

  datatype AuthCheck = Verified | Unsigned | Failed(reason: AuthFailure)

  /** Built once at startup by `NewPolicy`. */
  datatype NatsAuthPolicy = NatsAuthPolicy(requireSigned: bool, caDer: Option<Bytes>)

  /** Enforcement without a trust root is switched off: log-only mode. */
  function NewPolicy(requireSigned: bool, caDer: Option<Bytes>): NatsAuthPolicy {
    if requireSigned && caDer.None? then NatsAuthPolicy(false, None) else NatsAuthPolicy(requireSigned, caDer)
  }

  /** The first SPIFFE URI among the subject alternative names. */
  function ExtractSpiffeId(sanUris: seq<string>): Option<string> {
    if sanUris == [] then None
    else if SPIFFE_PREFIX <= sanUris[0] then Some(sanUris[0])
    else ExtractSpiffeId(sanUris[1..])
  }

  function CheckEnvelopeAuth(
    crypto: Crypto, caDer: Option<Bytes>, auth: Option<EnvelopeAuth>,
    claimedIdentity: string, canonical: Bytes, nowSecs: int): AuthCheck
  {
    if auth.None? || caDer.None? then Unsigned
    else if auth.value.scheme != crypto.schemeV1 then Failed(UnknownScheme)
    else
      match crypto.parsePem(auth.value.certPem)
      case None => Failed(InvalidPem)
      case Some(leafDer) =>
        match crypto.parseCertificate(leafDer)
        case None => Failed(InvalidCertificate)
        case Some(leaf) => CheckLeaf(crypto, caDer.value, leaf, auth.value, claimedIdentity, canonical, nowSecs)
  }

  function CheckLeaf(
    crypto: Crypto, caDer: Bytes, leaf: Certificate, auth: EnvelopeAuth,
    claimedIdentity: string, canonical: Bytes, nowSecs: int): AuthCheck
  {
    if !(leaf.notBefore <= nowSecs <= leaf.notAfter) then Failed(OutsideValidity)
    else
      match crypto.parseCertificate(caDer)
      case None => Failed(UnparseableCa)
      case Some(ca) =>
        if !crypto.signedBy(leaf, ca.publicKey) then Failed(NotCaSigned)
        else
          match ExtractSpiffeId(leaf.sanUris)
          case None => Failed(NoSpiffeSan)
          case Some(san) =>
            if san != claimedIdentity then Failed(SanMismatch)
            else
              match crypto.decodeBase64(auth.signature)
              case None => Failed(InvalidBase64)
              case Some(sig) =>
                if crypto.verifyP256(leaf.publicKey, canonical, sig) then Verified else Failed(BadSignature)
  }

  predicate AuthAccepts(check: AuthCheck, requireSigned: bool) {
    requireSigned ==> check.Verified?
  }

  /**
   What a verified envelope proves: a certificate inside its validity window, signed by the
   configured CA, carrying the claimed identity as its SPIFFE name, whose key signed the
   canonical bytes.
   */
  ghost predicate Genuine(
    crypto: Crypto, caDer: Option<Bytes>, auth: Option<EnvelopeAuth>,
    claimedIdentity: string, canonical: Bytes, nowSecs: int)
  {
    && caDer.Some? && auth.Some?
    && exists leafDer, leaf, ca, sig ::
      && crypto.parsePem(auth.value.certPem) == Some(leafDer)
      && crypto.parseCertificate(leafDer) == Some(leaf)
      && leaf.notBefore <= nowSecs <= leaf.notAfter
      && crypto.parseCertificate(caDer.value) == Some(ca)
      && crypto.signedBy(leaf, ca.publicKey)
      && FirstSpiffeName(leaf.sanUris, claimedIdentity)
      && crypto.decodeBase64(auth.value.signature) == Some(sig)
      && crypto.verifyP256(leaf.publicKey, canonical, sig)
  }

  /** `name` is a SPIFFE URI of the list and no SPIFFE URI precedes it. */
  ghost predicate FirstSpiffeName(sanUris: seq<string>, name: string) {
    exists i :: 0 <= i < |sanUris| && sanUris[i] == name && "spiffe://" <= name
                && forall j :: 0 <= j < i ==> !("spiffe://" <= sanUris[j])
  }

  lemma {:induction false} ExtractFindsFirst(sanUris: seq<string>, name: string)
    ensures ExtractSpiffeId(sanUris) == Some(name) <==> FirstSpiffeName(sanUris, name)
  {
    if sanUris == [] {
    } else if SPIFFE_PREFIX <= sanUris[0] {
      if name == sanUris[0] {
        assert FirstSpiffeName(sanUris, name);
      }
    } else {
      var rest := sanUris[1..];
      ExtractFindsFirst(rest, name);
      if FirstSpiffeName(rest, name) {
        var i :| 0 <= i < |rest| && rest[i] == name && SPIFFE_PREFIX <= name
                 && forall j :: 0 <= j < i ==> !(SPIFFE_PREFIX <= rest[j]);
        assert sanUris[i + 1] == name;
        forall j | 0 <= j < i + 1 ensures !(SPIFFE_PREFIX <= sanUris[j]) {
          if j > 0 { assert sanUris[j] == rest[j - 1]; }
        }
      }
      if FirstSpiffeName(sanUris, name) {
        var i :| 0 <= i < |sanUris| && sanUris[i] == name && SPIFFE_PREFIX <= name
                 && forall j :: 0 <= j < i ==> !(SPIFFE_PREFIX <= sanUris[j]);
        assert rest[i - 1] == name;
      }
    }
  }

  /** `Verified` is reached exactly for genuine envelopes of the known scheme. */
  lemma VerifiedIffGenuine(
    crypto: Crypto, caDer: Option<Bytes>, auth: Option<EnvelopeAuth>,
    claimedIdentity: string, canonical: Bytes, nowSecs: int)
    ensures CheckEnvelopeAuth(crypto, caDer, auth, claimedIdentity, canonical, nowSecs).Verified?
       <==> Genuine(crypto, caDer, auth, claimedIdentity, canonical, nowSecs)
            && auth.value.scheme == crypto.schemeV1
  {
    if auth.Some? && caDer.Some? {
      var pem := crypto.parsePem(auth.value.certPem);
      if pem.Some? {
        var leaf := crypto.parseCertificate(pem.value);
        if leaf.Some? {
          ExtractFindsFirst(leaf.value.sanUris, claimedIdentity);
        }
      }
    }
  }

  /** Genuine, and of the scheme the verifier knows. */
  ghost predicate Authentic(
    crypto: Crypto, caDer: Option<Bytes>, auth: Option<EnvelopeAuth>,
    claimedIdentity: string, canonical: Bytes, nowSecs: int)
  {
    Genuine(crypto, caDer, auth, claimedIdentity, canonical, nowSecs) && auth.value.scheme == crypto.schemeV1
  }

  /**
   From configuration to decision: an envelope passes if and only if it is authentic or signing is
   not demanded of it. It is demanded when the message kind forces it, or when the configuration
   asks for it and a CA is loaded.
   */
  lemma PassesIff(
    crypto: Crypto, requireSigned: bool, caDer: Option<Bytes>, forced: bool, auth: Option<EnvelopeAuth>,
    claimedIdentity: string, canonical: Bytes, nowSecs: int)
    ensures var policy := NewPolicy(requireSigned, caDer);
      AuthAccepts(CheckEnvelopeAuth(crypto, policy.caDer, auth, claimedIdentity, canonical, nowSecs), forced || policy.requireSigned)
      <==> (forced || (requireSigned && caDer.Some?) ==> Authentic(crypto, caDer, auth, claimedIdentity, canonical, nowSecs))
  {
    VerifiedIffGenuine(crypto, caDer, auth, claimedIdentity, canonical, nowSecs);
  }
}
