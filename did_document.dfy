/**
 * `DidDoc`: assembles the DID-Document of a Tyron DID from its on-chain DID state, and
 * answers a resolution request with the document or with a resolution-result envelope.
 *
 * Fetching the state and the chain info is done by the caller and passed in; the DID-syntax
 * validator and the base58 encoder are passed in as functions.
 */
module DidDocument {
  import opened Js

  /** The fixed `type` of every verification method. */
  const KeyType := "SchnorrSecp256k1VerificationKey2019"

  /** The two `Accept` values a resolution request may carry. */
  const AcceptDocument := "application/did+json"
  const AcceptResolutionResult := "application/did+json;profile='https://w3c-ccg.github.io/did-resolution'"

  /** The `contentType` written into a resolution result's document metadata. */
  const MetadataContentType := "application/did+json"

  /** The members of `PublicKeyPurpose`, one per verification-method slot. */
  datatype Purpose = General | Auth | Assertion | Agreement | Invocation | Delegation | Xsgd

  /**
   * The tag string of each purpose, as used for the keys of the verification-methods map and
   * after the `#` of a method's id. These spellings stand in for the enum's values, which the
   * model only needs to be distinct.
   */
  function Tag(p: Purpose): string {
    match p
    case General => "general"
    case Auth => "auth"
    case Assertion => "assertion"
    case Agreement => "agreement"
    case Invocation => "invocation"
    case Delegation => "delegation"
    case Xsgd => "xsgd"
  }

  /** The `switch (purpose)` of `read`: the first case whose tag equals `tag`, or none (the `default`). */
  function Classify(tag: string): (p: Option<Purpose>)
    ensures p.Some? ==> Tag(p.value) == tag
    ensures p.None? ==> forall q :: Tag(q) != tag
  {
    if tag == Tag(General) then Some(General)
    else if tag == Tag(Auth) then Some(Auth)
    else if tag == Tag(Assertion) then Some(Assertion)
    else if tag == Tag(Agreement) then Some(Agreement)
    else if tag == Tag(Invocation) then Some(Invocation)
    else if tag == Tag(Delegation) then Some(Delegation)
    else if tag == Tag(Xsgd) then Some(Xsgd)
    else None
  }

  datatype VerificationMethod = VerificationMethod(id: string, keyType: string, publicKeyBase58: string)

  datatype ServiceEndpoint = ServiceEndpoint(id: string, serviceType: string, endpoint: string)

  /** `TyronVerificationMethods`: the optional slot of each purpose. */
  datatype VerificationMethods = VerificationMethods(
    publicKey: Option<VerificationMethod>,
    authentication: Option<VerificationMethod>,
    assertionMethod: Option<VerificationMethod>,
    keyAgreement: Option<VerificationMethod>,
    capabilityInvocation: Option<VerificationMethod>,
    capabilityDelegation: Option<VerificationMethod>,
    xsgdKey: Option<VerificationMethod>)

  const NoVerificationMethods := VerificationMethods(None, None, None, None, None, None, None)

  /** `DidDocScheme`: what `read` hands to the constructor. */
  datatype DidDocScheme = DidDocScheme(id: string, verificationMethods: VerificationMethods, service: seq<ServiceEndpoint>)

  /** A `DidDoc` object; all its fields are read-only. */
  datatype DidDoc = DidDoc(
    id: string,
    publicKey: Option<VerificationMethod>,
    authentication: Option<VerificationMethod>,
    assertionMethod: Option<VerificationMethod>,
    keyAgreement: Option<VerificationMethod>,
    capabilityInvocation: Option<VerificationMethod>,
    capabilityDelegation: Option<VerificationMethod>,
    xsgdKey: Option<VerificationMethod>,
    service: seq<ServiceEndpoint>)

  /** The part of a fetched `DidState` that resolution reads; both maps are JavaScript `Map`s. */
  datatype DidState = DidState(
    decentralizedIdentifier: string,
    verificationMethods: OrderedMap<string>,
    services: OrderedMap<(string, string)>,
    updateKey: string,
    recoveryKey: string)

  datatype DocumentMetadata = DocumentMetadata(contentType: string, updateKey: string, recoveryKey: string)

  datatype ResolutionResult = ResolutionResult(
    id: string,
    resolutionMetadata: Value,
    document: DidDoc,
    metadata: DocumentMetadata)

  /** What `resolution` resolves to, when it resolves to something. */
  datatype Resolved = Document(doc: DidDoc) | Envelope(result: ResolutionResult)

  /* ---------------------------------------------------------------------- */
  /* Specification of read                                                   */
  /* ---------------------------------------------------------------------- */

  /** The verification method built for a key entry of the state. */
  function MethodFor(did: string, purpose: string, key: string, base58: string -> string): VerificationMethod {
    VerificationMethod(did + "#" + purpose, KeyType, base58(key))
  }

  /** The slot of purpose `p` after the `for` loop: the method of the last entry classified as `p`. */
  function Slot(did: string, methods: seq<(string, string)>, p: Purpose, base58: string -> string)
    : Option<VerificationMethod>
    decreases |methods|
  {
    if |methods| == 0 then None
    else
      var n := |methods| - 1;
      if Classify(methods[n].0) == Some(p) then Some(MethodFor(did, methods[n].0, methods[n].1, base58))
      else Slot(did, methods[..n], p, base58)
  }

  /** Reference definition of a slot: look the purpose's tag up in the verification-methods map. */
  function MethodOf(did: string, methods: seq<(string, string)>, p: Purpose, base58: string -> string)
    : Option<VerificationMethod>
  {
    match Get(methods, Tag(p))
    case None => None
    case Some(key) => Some(MethodFor(did, Tag(p), key, base58))
  }

  /** The `SERVICES` list: one endpoint per entry of the services map, in order. */
  function ServiceList(did: string, services: seq<(string, (string, string))>): seq<ServiceEndpoint>
    decreases |services|
  {
    if |services| == 0 then []
    else
      var n := |services| - 1;
      ServiceList(did, services[..n]) + [ServiceEndpoint(did + "#" + services[n].0, services[n].1.0, services[n].1.1)]
  }

  predicate PurposesKnown(methods: seq<(string, string)>) {
    forall i :: 0 <= i < |methods| ==> Classify(methods[i].0).Some?
  }

  /** All seven slots after the loop over the verification-methods map. */
  function SlotsOf(did: string, methods: seq<(string, string)>, base58: string -> string): VerificationMethods {
    VerificationMethods(
      Slot(did, methods, General, base58),
      Slot(did, methods, Auth, base58),
      Slot(did, methods, Assertion, base58),
      Slot(did, methods, Agreement, base58),
      Slot(did, methods, Invocation, base58),
      Slot(did, methods, Delegation, base58),
      Slot(did, methods, Xsgd, base58))
  }

  /** The scheme `read` assembles for the validated DID `did`. */
  function SchemeOf(did: string, state: DidState, base58: string -> string): DidDocScheme {
    DidDocScheme(did, SlotsOf(did, state.verificationMethods, base58), ServiceList(did, state.services))
  }

  /**
   * The private `DidDoc` constructor, as written: it copies the scheme's Delegation method into
   * `capabilityInvocation` and never sets `capabilityDelegation`.
   */
  function FromScheme(scheme: DidDocScheme): (doc: DidDoc)
    ensures doc.id == scheme.id && doc.service == scheme.service
    ensures doc.capabilityInvocation == scheme.verificationMethods.capabilityDelegation
    ensures doc.capabilityDelegation.None?
  {
    var vm := scheme.verificationMethods;
    DidDoc(
      scheme.id,
      vm.publicKey,
      vm.authentication,
      vm.assertionMethod,
      vm.keyAgreement,
      vm.capabilityDelegation,
      None,
      vm.xsgdKey,
      scheme.service)
  }

  /** What `read(state)` resolves to, or the error it rejects with. */
  function ReadSpec(state: DidState, validate: string -> Result<string>, base58: string -> string): Result<DidDoc> {
    match validate(state.decentralizedIdentifier)
    case Err(e) => Err(e)
    case Ok(did) =>
      if PurposesKnown(state.verificationMethods) then Ok(FromScheme(SchemeOf(did, state, base58)))
      else Err(InvalidPurpose)
  }

  /* ---------------------------------------------------------------------- */
  /* read and resolution                                                     */
  /* ---------------------------------------------------------------------- */

  /**
   * The `for` loop of `read` over the verification-methods map: each key's method goes into the
   * slot of its purpose, and a purpose outside `PublicKeyPurpose` throws `InvalidPurpose`.
   */
  method SortKeys(did: string, methods: OrderedMap<string>, base58: string -> string)
    returns (r: Result<VerificationMethods>)
    ensures r == if PurposesKnown(methods) then Ok(SlotsOf(did, methods, base58)) else Err(InvalidPurpose)
  {
    var publicKey, authentication, assertionMethod, keyAgreement: Option<VerificationMethod> := None, None, None, None;
    var capabilityInvocation, capabilityDelegation, xsgdKey: Option<VerificationMethod> := None, None, None;
    var i := 0;
    while i < |methods|
      invariant 0 <= i <= |methods|
      invariant PurposesKnown(methods[..i])
      invariant publicKey == Slot(did, methods[..i], General, base58)
      invariant authentication == Slot(did, methods[..i], Auth, base58)
      invariant assertionMethod == Slot(did, methods[..i], Assertion, base58)
      invariant keyAgreement == Slot(did, methods[..i], Agreement, base58)
      invariant capabilityInvocation == Slot(did, methods[..i], Invocation, base58)
      invariant capabilityDelegation == Slot(did, methods[..i], Delegation, base58)
      invariant xsgdKey == Slot(did, methods[..i], Xsgd, base58)
    {
      var purpose := methods[i].0;
      // for a `Map`, `get` of the current key is the current entry's value
      var verificationMethod := VerificationMethod(did + "#" + purpose, KeyType, base58(methods[i].1));
      assert methods[..i + 1][..i] == methods[..i];
      if purpose == Tag(General) {
        publicKey := Some(verificationMethod);
      } else if purpose == Tag(Auth) {
        authentication := Some(verificationMethod);
      } else if purpose == Tag(Assertion) {
        assertionMethod := Some(verificationMethod);
      } else if purpose == Tag(Agreement) {
        keyAgreement := Some(verificationMethod);
      } else if purpose == Tag(Invocation) {
        capabilityInvocation := Some(verificationMethod);
      } else if purpose == Tag(Delegation) {
        capabilityDelegation := Some(verificationMethod);
      } else if purpose == Tag(Xsgd) {
        xsgdKey := Some(verificationMethod);
      } else {
        assert Classify(methods[i].0).None?;
        return Err(InvalidPurpose);
      }
      i := i + 1;
    }
    assert methods[..i] == methods;
    r := Ok(VerificationMethods(
      publicKey, authentication, assertionMethod, keyAgreement, capabilityInvocation, capabilityDelegation, xsgdKey));
  }

  /** The `for` loop of `read` over the services map, pushing one endpoint per entry. */
  method ListServices(did: string, services: OrderedMap<(string, string)>) returns (serviceList: seq<ServiceEndpoint>)
    ensures serviceList == ServiceList(did, services)
  {
    serviceList := [];
    var j := 0;
    while j < |services|
      invariant 0 <= j <= |services|
      invariant serviceList == ServiceList(did, services[..j])
    {
      assert services[..j + 1][..j] == services[..j];
      var typeUri := services[j].1;
      serviceList := serviceList + [ServiceEndpoint(did + "#" + services[j].0, typeUri.0, typeUri.1)];
      j := j + 1;
    }
    assert services[..j] == services;
  }

  /**
   * `DidDoc.read(state)`: validate the DID, sort the keys into their slots, list the services,
   * copy the present slots and a non-empty service list into the scheme, construct the document.
   */
  method Read(state: DidState, validate: string -> Result<string>, base58: string -> string)
    returns (r: Result<DidDoc>)
    ensures r == ReadSpec(state, validate, base58)
  {
    var validated := validate(state.decentralizedIdentifier);
    if validated.Err? {
      return Err(validated.error);
    }
    var did := validated.value;
    var sorted := SortKeys(did, state.verificationMethods, base58);
    if sorted.Err? {
      return Err(sorted.error);
    }
    var slots := sorted.value;
    var serviceList := ListServices(did, state.services);

    var scheme := DidDocScheme(did, NoVerificationMethods, []);
    if slots.xsgdKey.Some? {
      scheme := scheme.(verificationMethods := scheme.verificationMethods.(xsgdKey := slots.xsgdKey));
    }
    if slots.publicKey.Some? {
      scheme := scheme.(verificationMethods := scheme.verificationMethods.(publicKey := slots.publicKey));
    }
    if slots.authentication.Some? {
      scheme := scheme.(verificationMethods := scheme.verificationMethods.(authentication := slots.authentication));
    }
    if slots.assertionMethod.Some? {
      scheme := scheme.(verificationMethods := scheme.verificationMethods.(assertionMethod := slots.assertionMethod));
    }
    if slots.keyAgreement.Some? {
      scheme := scheme.(verificationMethods := scheme.verificationMethods.(keyAgreement := slots.keyAgreement));
    }
    if slots.capabilityInvocation.Some? {
      scheme := scheme.(verificationMethods :=
        scheme.verificationMethods.(capabilityInvocation := slots.capabilityInvocation));
    }
    if slots.capabilityDelegation.Some? {
      scheme := scheme.(verificationMethods :=
        scheme.verificationMethods.(capabilityDelegation := slots.capabilityDelegation));
    }
    if |serviceList| != 0 {
      scheme := scheme.(service := serviceList);
    }
    r := Ok(FromScheme(scheme));
  }

  /**
   * `DidDoc.resolution`, once the chain info and the DID state are fetched: build the document,
   * then answer according to `accept`; any other `accept` value resolves to nothing.
   */
  method Resolution(
    accept: string, state: DidState, chainInfo: Value,
    validate: string -> Result<string>, base58: string -> string)
    returns (r: Result<Option<Resolved>>)
    ensures ReadSpec(state, validate, base58).Err? ==> r == Err(ReadSpec(state, validate, base58).error)
    ensures ReadSpec(state, validate, base58).Ok? && accept == AcceptDocument ==>
      r == Ok(Some(Document(ReadSpec(state, validate, base58).value)))
    ensures ReadSpec(state, validate, base58).Ok? && accept == AcceptResolutionResult ==>
      var doc := ReadSpec(state, validate, base58).value;
      r == Ok(Some(Envelope(ResolutionResult(
        doc.id, chainInfo, doc, DocumentMetadata(MetadataContentType, state.updateKey, state.recoveryKey)))))
    ensures ReadSpec(state, validate, base58).Ok? && accept != AcceptDocument && accept != AcceptResolutionResult ==>
      r == Ok(None)
  {
    var read := Read(state, validate, base58);
    if read.Err? {
      return Err(read.error);
    }
    var doc := read.value;
    if accept == AcceptDocument {
      r := Ok(Some(Document(doc)));
    } else if accept == AcceptResolutionResult {
      var metadata := DocumentMetadata(MetadataContentType, state.updateKey, state.recoveryKey);
      r := Ok(Some(Envelope(ResolutionResult(doc.id, chainInfo, doc, metadata))));
    } else {
      r := Ok(None);
    }
  }

  /* ---------------------------------------------------------------------- */
  /* Properties                                                              */
  /* ---------------------------------------------------------------------- */

  /** The loop's slot for `p` is the method of the key stored under `p`'s tag; the last such entry wins. */
  lemma {:induction false} SlotIsLookup(did: string, methods: seq<(string, string)>, p: Purpose, base58: string -> string)
    ensures Slot(did, methods, p, base58) == MethodOf(did, methods, p, base58)
    decreases |methods|
  {
    if |methods| > 0 {
      var n := |methods| - 1;
      SlotIsLookup(did, methods[..n], p, base58);
      if Classify(methods[n].0) == Some(p) {
        assert methods[n].0 == Tag(p);
      } else {
        assert methods[n].0 != Tag(p);
      }
    }
  }

  /** A slot is set exactly when the map has a key with that purpose, and holds that key's method. */
  lemma MethodOfSpec(did: string, methods: OrderedMap<string>, p: Purpose, base58: string -> string)
    ensures MethodOf(did, methods, p, base58).Some? <==> HasKey(methods, Tag(p))
    ensures forall i :: 0 <= i < |methods| && methods[i].0 == Tag(p) ==>
      MethodOf(did, methods, p, base58) ==
        Some(VerificationMethod(did + "#" + Tag(p), KeyType, base58(methods[i].1)))
  {
    GetIsLastMatch(methods, Tag(p));
    forall i | 0 <= i < |methods| && methods[i].0 == Tag(p)
      ensures Get(methods, Tag(p)) == Some(methods[i].1)
    {
      GetDistinct(methods, i);
    }
  }

  /** One endpoint per service entry, in order, with id `did#serviceId` and the entry's type and URI. */
  lemma {:induction false} ServiceListSpec(did: string, services: seq<(string, (string, string))>)
    ensures |ServiceList(did, services)| == |services|
    ensures forall i :: 0 <= i < |services| ==>
      ServiceList(did, services)[i] == ServiceEndpoint(did + "#" + services[i].0, services[i].1.0, services[i].1.1)
    decreases |services|
  {
    if |services| > 0 {
      ServiceListSpec(did, services[..|services| - 1]);
    }
  }

  /** `read` rejects with `InvalidPurpose` exactly when some key's purpose is not a `PublicKeyPurpose`. */
  lemma ReadRejectsUnknownPurpose(state: DidState, validate: string -> Result<string>, base58: string -> string)
    requires validate(state.decentralizedIdentifier).Ok?
    ensures ReadSpec(state, validate, base58) == Err(InvalidPurpose) <==>
      exists i :: 0 <= i < |state.verificationMethods| && forall p :: Tag(p) != state.verificationMethods[i].0
  {
    var m := state.verificationMethods;
    if !PurposesKnown(m) {
      var i :| 0 <= i < |m| && Classify(m[i].0).None?;
      assert forall p :: Tag(p) != m[i].0;
    }
  }

  /**
   * The document `read` builds: the validated DID as `id`; `publicKey`, `authentication`,
   * `assertionMethod`, `keyAgreement` and `xsgdKey` from their purposes' keys; the Delegation
   * key under `capabilityInvocation`; no `capabilityDelegation`; the service list.
   */
  lemma ReadDocument(state: DidState, validate: string -> Result<string>, base58: string -> string)
    requires ReadSpec(state, validate, base58).Ok?
    ensures validate(state.decentralizedIdentifier).Ok?
    ensures var did := validate(state.decentralizedIdentifier).value;
      var m := state.verificationMethods;
      var doc := ReadSpec(state, validate, base58).value;
      && doc.id == did
      && doc.publicKey == MethodOf(did, m, General, base58)
      && doc.authentication == MethodOf(did, m, Auth, base58)
      && doc.assertionMethod == MethodOf(did, m, Assertion, base58)
      && doc.keyAgreement == MethodOf(did, m, Agreement, base58)
      && doc.capabilityInvocation == MethodOf(did, m, Delegation, base58)
      && doc.capabilityDelegation == None
      && doc.xsgdKey == MethodOf(did, m, Xsgd, base58)
      && doc.service == ServiceList(did, state.services)
  {
    var did := validate(state.decentralizedIdentifier).value;
    var m := state.verificationMethods;
    SlotIsLookup(did, m, General, base58);
    SlotIsLookup(did, m, Auth, base58);
    SlotIsLookup(did, m, Assertion, base58);
    SlotIsLookup(did, m, Agreement, base58);
    SlotIsLookup(did, m, Delegation, base58);
    SlotIsLookup(did, m, Xsgd, base58);
  }

  /** The scheme, before the constructor, does hold the Invocation key's method. */
  lemma SchemeHoldsInvocation(did: string, state: DidState, base58: string -> string)
    ensures SchemeOf(did, state, base58).verificationMethods.capabilityInvocation ==
      MethodOf(did, state.verificationMethods, Invocation, base58)
  {
    SlotIsLookup(did, state.verificationMethods, Invocation, base58);
  }

  /** `did#a == did#b` only when `a == b`. */
  lemma DidUrlInjective(did: string, a: string, b: string)
    requires did + "#" + a == did + "#" + b
    ensures a == b
  {
    var prefix := |did| + 1;
    assert a == (did + "#" + a)[prefix..];
    assert b == (did + "#" + b)[prefix..];
  }

  /**
   * The constructor quirk: no verification method of the document carries the Invocation
   * key's id, and `capabilityInvocation` carries the Delegation key's id whenever it is set.
   */
  lemma InvocationKeyLost(state: DidState, validate: string -> Result<string>, base58: string -> string)
    requires ReadSpec(state, validate, base58).Ok?
    ensures var did := validate(state.decentralizedIdentifier).value;
      var doc := ReadSpec(state, validate, base58).value;
      var lost := did + "#" + Tag(Invocation);
      && (doc.publicKey.Some? ==> doc.publicKey.value.id != lost)
      && (doc.authentication.Some? ==> doc.authentication.value.id != lost)
      && (doc.assertionMethod.Some? ==> doc.assertionMethod.value.id != lost)
      && (doc.keyAgreement.Some? ==> doc.keyAgreement.value.id != lost)
      && (doc.capabilityInvocation.Some? ==> doc.capabilityInvocation.value.id == did + "#" + Tag(Delegation))
      && doc.capabilityDelegation.None?
      && (doc.xsgdKey.Some? ==> doc.xsgdKey.value.id != lost)
  {
    ReadDocument(state, validate, base58);
    var did := validate(state.decentralizedIdentifier).value;
    var lost := did + "#" + Tag(Invocation);
    forall p | p != Invocation
      ensures did + "#" + Tag(p) != lost
    {
      if did + "#" + Tag(p) == lost {
        DidUrlInjective(did, Tag(p), Tag(Invocation));
      }
    }
  }

  /** The resolution-result envelope names the validated DID and carries the state's keys. */
  lemma EnvelopeNamesDid(
    state: DidState, chainInfo: Value, validate: string -> Result<string>, base58: string -> string,
    doc: DidDoc)
    requires ReadSpec(state, validate, base58) == Ok(doc)
    ensures var metadata := DocumentMetadata(MetadataContentType, state.updateKey, state.recoveryKey);
      var envelope := ResolutionResult(doc.id, chainInfo, doc, metadata);
      envelope.id == envelope.document.id == validate(state.decentralizedIdentifier).value
  {
    ReadDocument(state, validate, base58);
  }
}
