/**
 * The proof verification command: the inputs are parsed in a fixed order, then the
 * referent keys of the request, the proof and the ledger objects must agree, and
 * only then is the cryptographic verifier called, whose answer is passed on as is.
 *
 * The cryptographic verifier is a parameter, since its code is not part of this
 * model; the payloads behind the referents are opaque.
 */
module Verifier {
  import opened Wrappers

  type Referent = string

  /** Whatever a referent maps to; only the keys of the maps are inspected here. */
  datatype Entry = Entry(content: seq<int>)

  datatype ProofRequest = ProofRequest(
    requestedAttrs: map<Referent, Entry>,
    requestedPredicates: map<Referent, Entry>)

  /** The part of a proof that says which referent was answered how. */
  datatype RequestedProof = RequestedProof(
    revealedAttrs: map<Referent, Entry>,
    unrevealedAttrs: map<Referent, Entry>,
    selfAttestedAttrs: map<Referent, string>,
    predicates: map<Referent, Entry>)

  datatype FullProof = FullProof(requestedProof: RequestedProof, proof: Entry)

  /** Which input failed to parse, or which consistency check failed. */
  datatype Reason =
    | BadProofRequest | BadSchemas | BadCredentialDefs | BadRevRegDefs | BadRevRegs | BadProof
    | DefsDoNotMatchSchemas | AttributesDoNotMatch | PredicatesDoNotMatch

  datatype IndyError =
    | InvalidStructure(reason: Reason)
    | CryptoError(code: nat)   // an error of the cryptographic verifier, passed on

  type Objects = map<Referent, Entry>

  /** The cryptographic check: proof, request, schemas, credential definitions,
      revocation registry definitions, revocation registries. */
  type CryptoVerify = (FullProof, ProofRequest, Objects, Objects, Objects, Objects) -> Result<bool, IndyError>

  /** The referents the proof answers as attributes, in any of the three ways. */
  function ReceivedAttrs(p: RequestedProof): (r: set<Referent>)
    ensures forall a :: a in r <==> a in p.revealedAttrs || a in p.unrevealedAttrs || a in p.selfAttestedAttrs
  {
    p.revealedAttrs.Keys + p.unrevealedAttrs.Keys + p.selfAttestedAttrs.Keys
  }

  /**
   * The consistency the command demands, stated referent by referent: every schema
   * has a credential definition and back, every requested attribute is answered and
   * nothing else is, and likewise for predicates.
   */
  ghost predicate ShapeConsistent(request: ProofRequest, schemas: Objects, defs: Objects, proof: FullProof) {
    && (forall k :: k in schemas <==> k in defs)
    && (forall a :: a in request.requestedAttrs <==>
          a in proof.requestedProof.revealedAttrs || a in proof.requestedProof.unrevealedAttrs ||
          a in proof.requestedProof.selfAttestedAttrs)
    && (forall p :: p in request.requestedPredicates <==> p in proof.requestedProof.predicates)
  }

  /** The first parse failure in the order the inputs are parsed, if any. */
  function ParseFailure(request: Parsed<ProofRequest>, schemas: Parsed<Objects>, defs: Parsed<Objects>,
                        revRegDefs: Parsed<Objects>, revRegs: Parsed<Objects>, proof: Parsed<FullProof>)
    : (r: Option<Reason>)
    ensures r.None? <==> request.Parsed? && schemas.Parsed? && defs.Parsed? && revRegDefs.Parsed? &&
                         revRegs.Parsed? && proof.Parsed?
    ensures request.Malformed? ==> r == Some(BadProofRequest)
    ensures request.Parsed? && schemas.Malformed? ==> r == Some(BadSchemas)
    ensures request.Parsed? && schemas.Parsed? && defs.Malformed? ==> r == Some(BadCredentialDefs)
    ensures request.Parsed? && schemas.Parsed? && defs.Parsed? && revRegDefs.Malformed? ==> r == Some(BadRevRegDefs)
    ensures request.Parsed? && schemas.Parsed? && defs.Parsed? && revRegDefs.Parsed? && revRegs.Malformed? ==>
              r == Some(BadRevRegs)
    ensures (request.Parsed? && schemas.Parsed? && defs.Parsed? && revRegDefs.Parsed? && revRegs.Parsed? &&
             proof.Malformed?) ==> r == Some(BadProof)
  {
    if request.Malformed? then Some(BadProofRequest)
    else if schemas.Malformed? then Some(BadSchemas)
    else if defs.Malformed? then Some(BadCredentialDefs)
    else if revRegDefs.Malformed? then Some(BadRevRegDefs)
    else if revRegs.Malformed? then Some(BadRevRegs)
    else if proof.Malformed? then Some(BadProof)
    else None
  }

  /**
   * Parse, check the three key-set equalities in order, then verify.  The
   * cryptographic verifier is reached exactly when everything parsed and the shape
   * is consistent, and its result is returned unchanged.
   */
  function VerifyProof(verify: CryptoVerify, request: Parsed<ProofRequest>, proof: Parsed<FullProof>,
                       schemas: Parsed<Objects>, defs: Parsed<Objects>,
                       revRegDefs: Parsed<Objects>, revRegs: Parsed<Objects>): (r: Result<bool, IndyError>)
    ensures var failure := ParseFailure(request, schemas, defs, revRegDefs, revRegs, proof);
            failure.Some? ==> r == Err(InvalidStructure(failure.value))
    ensures ParseFailure(request, schemas, defs, revRegDefs, revRegs, proof).None? ==>
              var (q, p, s, d) := (request.value, proof.value, schemas.value, defs.value);
              && (s.Keys != d.Keys ==> r == Err(InvalidStructure(DefsDoNotMatchSchemas)))
              && (s.Keys == d.Keys && q.requestedAttrs.Keys != ReceivedAttrs(p.requestedProof) ==>
                    r == Err(InvalidStructure(AttributesDoNotMatch)))
              && (s.Keys == d.Keys && q.requestedAttrs.Keys == ReceivedAttrs(p.requestedProof) &&
                  q.requestedPredicates.Keys != p.requestedProof.predicates.Keys ==>
                    r == Err(InvalidStructure(PredicatesDoNotMatch)))
              && (ShapeConsistent(q, s, d, p) ==> r == verify(p, q, s, d, revRegDefs.value, revRegs.value))
              && (!ShapeConsistent(q, s, d, p) ==>
                    r.Err? && r.error.InvalidStructure? &&
                    r.error.reason in {DefsDoNotMatchSchemas, AttributesDoNotMatch, PredicatesDoNotMatch})
  {
    match ParseFailure(request, schemas, defs, revRegDefs, revRegs, proof)
    case Some(reason) => Err(InvalidStructure(reason))
    case None =>
      var (q, p, s, d) := (request.value, proof.value, schemas.value, defs.value);
      if s.Keys != d.Keys then Err(InvalidStructure(DefsDoNotMatchSchemas))
      else if q.requestedAttrs.Keys != ReceivedAttrs(p.requestedProof) then Err(InvalidStructure(AttributesDoNotMatch))
      else if q.requestedPredicates.Keys != p.requestedProof.predicates.Keys then Err(InvalidStructure(PredicatesDoNotMatch))
      else verify(p, q, s, d, revRegDefs.value, revRegs.value)
  }

  /** Answering a referent in several ways still answers it once. */
  lemma ReferentInSeveralCategoriesCountsOnce(a: Referent, e: Entry, text: string)
    ensures var p := RequestedProof(map[a := e], map[a := e], map[a := text], map[]);
            ReceivedAttrs(p) == {a} &&
            ShapeConsistent(ProofRequest(map[a := e], map[]), map[], map[], FullProof(p, e))
  {
  }

  /** The checks look at the keys only: proofs answering the same referents fare alike. */
  lemma ShapeDependsOnKeysOnly(request: ProofRequest, schemas: Objects, defs: Objects, p1: FullProof, p2: FullProof)
    requires ReceivedAttrs(p1.requestedProof) == ReceivedAttrs(p2.requestedProof)
    requires p1.requestedProof.predicates.Keys == p2.requestedProof.predicates.Keys
    ensures ShapeConsistent(request, schemas, defs, p1) <==> ShapeConsistent(request, schemas, defs, p2)
  {
  }
}
