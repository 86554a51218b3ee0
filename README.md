# tyronzil-sdk: DID document resolution and smart-contract helpers

This project models two parts of the tyronZIL SDK in Dafny:

- `DidDoc` (`did-document.ts`) turns a fetched DID state into a DID document.
  - `read` validates the DID.
  - It files every key of the verification-methods `Map` under its public-key purpose.
  - A purpose that is not a `PublicKeyPurpose` raises `InvalidPurpose`.
  - It lists the service endpoints.
  - It hands the resulting scheme to the private constructor.
  - `resolution` answers with the document, a DID resolution result, or nothing, depending on the `accept` value.
- `SmartUtil` (`smart-util.ts`) reads the state of the DID smart contracts.
  - `getValuefromMap`, `getStatus` and `getValue` are field lookups over `Object.entries`.
  - `intoMap` builds a `Map`.
  - `fromServices` builds the services `Map`.
  - `decode` looks up a contract version.

Modules:

- `Js` (`js.dfy`) holds the JavaScript values these helpers see.
  - A plain object is the list of its entries in `Object.entries` order.
  - A `Map` is an insertion-ordered entry list with distinct keys (`OrderedMap`).
  - `Set` is `Map.prototype.set`.
  - `Index` is `v[i]`.
  - `EntriesOf` is `Object.entries`, including the `TypeError` it throws on `undefined` and `null`.
- `SmartUtil` (`smart_util.dfy`) holds the helpers.
  - Each helper is an imperative method with the source's loop.
  - Each is proved against a specification function: `LastValue`, `ToMap` or `KeptServices`.
- `DidDocument` (`did_document.dfy`) holds `read` and `resolution`.
  - They are methods with the source's loops.
  - They are proved against `ReadSpec`, whose properties are lemmas.

Three behaviours of the code are worth stating plainly, because a reader might expect otherwise. The model follows the code:

- The lookups (`getValue`, `getStatus`, `getValuefromMap`, the version lookup in `decode`) overwrite their result at every match, so they keep the LAST entry with the key. `Object.entries` of a real JavaScript object never lists a key twice, so for an actual object that entry is the only match; the model's `Obj` allows repeated keys that no JavaScript object has, and there the last one wins.
- `resolution` has no `default` case. An `accept` value other than the two `Accept` members resolves to `undefined` (`Ok(None)` here) rather than raising an error.
- When `decode` finds no entry for the requested version, it raises no version-not-found error. The blob is `undefined`, so `Buffer.from` throws a `TypeError`.

The private constructor copies the scheme's `capabilityDelegation` into `capabilityInvocation` and never sets `capabilityDelegation`. The model reproduces this as written (`FromScheme`). `InvocationKeyLost` states the consequence: the Invocation key never reaches the document.

## Model

| member | source | states |
|---|---|---|
| Js.GetIsLastMatch | node_modules/tyronzil-sdk/lib/blockchain/smart-contracts/smart-util.ts:86-93 | a forward scan that overwrites on each match finds a value exactly when the key occurs, and that value is the value of the key's last entry |
| Js.LastValue | node_modules/tyronzil-sdk/lib/blockchain/smart-contracts/smart-util.ts:87-93 | the lookup result is `undefined` when the key is absent; otherwise it is the value of the key's last entry |
| Js.Set | node_modules/tyronzil-sdk/lib/blockchain/smart-contracts/smart-util.ts:101 | `Map.set` keeps an existing key in its place and appends a new key, so the keys stay distinct |
| Js.SetGet | node_modules/tyronzil-sdk/lib/blockchain/smart-contracts/smart-util.ts:101 | after `set(k, v)`, `get(k)` is `v` and every other key reads as before |
| Js.Index | node_modules/tyronzil-sdk/lib/blockchain/smart-contracts/smart-util.ts:69 | `v[i]` throws a `TypeError` exactly on `undefined` and `null`; on an array it is the element, or `undefined` past the end |
| Js.EntriesOf | node_modules/tyronzil-sdk/lib/blockchain/smart-contracts/smart-util.ts:113 | `Object.entries` throws a `TypeError` exactly on `undefined` and `null`; on an object it lists the object's own entries |
| SmartUtil.ScanEntries | node_modules/tyronzil-sdk/lib/blockchain/smart-contracts/smart-util.ts:87-93 | the `forEach` that overwrites at every match ends with the value of the key's last entry, or `undefined` |
| SmartUtil.GetValueFromMap | node_modules/tyronzil-sdk/lib/blockchain/smart-contracts/smart-util.ts:85-94 | throws exactly on a nullish object; otherwise returns the value of the last entry keyed `key`, or `undefined` |
| SmartUtil.GetStatus | node_modules/tyronzil-sdk/lib/blockchain/smart-contracts/smart-util.ts:73-82 | throws on a nullish object; for any other value (strings, arrays and other primitives included) the last `"constructor"` entry's value among its `Object.entries`, or `undefined` without one |
| SmartUtil.GetValue | node_modules/tyronzil-sdk/lib/blockchain/smart-contracts/smart-util.ts:61-70 | element 0 of the last `"arguments"` entry's value; a `TypeError` when there is no such entry or the object is nullish |
| SmartUtil.Decode | node_modules/tyronzil-sdk/lib/blockchain/smart-contracts/smart-util.ts:44-54 | a nullish `didc_code`, a missing entry for `contractVersion` or a nullish blob gives a `TypeError`; otherwise, for any value, the blob of the last such entry among its `Object.entries` is decompressed |
| SmartUtil.ToMapGet | node_modules/tyronzil-sdk/lib/blockchain/smart-contracts/smart-util.ts:97-104 | every key of the built `Map` reads back the value of that key's last entry in the object |
| SmartUtil.ToMapKeys | node_modules/tyronzil-sdk/lib/blockchain/smart-contracts/smart-util.ts:97-104 | the `Map`'s keys are a subsequence of the entry keys with the same key set; with distinct keys the `Map` is exactly the entries (`ToMapOfDistinct`) |
| SmartUtil.ToMapOfDistinct | node_modules/tyronzil-sdk/lib/blockchain/smart-contracts/smart-util.ts:97-104 | when the object's keys are distinct, the `Map` holds exactly the object's entries in order |
| SmartUtil.IntoMap | node_modules/tyronzil-sdk/lib/blockchain/smart-contracts/smart-util.ts:97-104 | throws exactly on a nullish object; otherwise the `Map` that `set`-ting every entry in order yields, which agrees with the object on every key |
| SmartUtil.KeptServices | node_modules/tyronzil-sdk/lib/blockchain/smart-contracts/smart-util.ts:107-126 | the services `Map` only holds ids of the input `Map` |
| SmartUtil.ArgumentsOfLast | node_modules/tyronzil-sdk/lib/blockchain/smart-contracts/smart-util.ts:115-122 | one service's scan fails exactly when some `"arguments"` entry is nullish; otherwise it yields a pair exactly when there is an `"arguments"` entry, namely `[args[0], args[1]]` of the last one |
| SmartUtil.ServicePairSpec | node_modules/tyronzil-sdk/lib/blockchain/smart-contracts/smart-util.ts:112-122 | a nullish service value throws; a value without `"arguments"` (including any string or array) contributes nothing; otherwise it contributes its last `"arguments"` pair |
| SmartUtil.KeptServicesErr | node_modules/tyronzil-sdk/lib/blockchain/smart-contracts/smart-util.ts:111-124 | the conversion fails exactly when some service value fails (it is nullish, or one of its `"arguments"` payloads is), always with a `TypeError`; services that only lack `"arguments"` are dropped, never an error |
| SmartUtil.SetArguments | node_modules/tyronzil-sdk/lib/blockchain/smart-contracts/smart-util.ts:115-122 | the inner `forEach` sets the id to the pair of the last `"arguments"` entry, or leaves the `Map` unchanged, or fails with the first error |
| SmartUtil.KeptServicesGet | node_modules/tyronzil-sdk/lib/blockchain/smart-contracts/smart-util.ts:107-126 | each id of the input reads back from the services `Map` exactly its own pair, or nothing when it has no `"arguments"` |
| SmartUtil.KeptServicesInOrder | node_modules/tyronzil-sdk/lib/blockchain/smart-contracts/smart-util.ts:107-126 | the services `Map` keeps the ids in the input order |
| SmartUtil.FromServices | node_modules/tyronzil-sdk/lib/blockchain/smart-contracts/smart-util.ts:107-126 | throws on a nullish object; otherwise equals the reference conversion of `intoMap`'s result; its ids are in order and each reads back its own pair |
| DidDocument.FromScheme | node_modules/tyronzil-sdk/lib/decentralized-identity/did-operations/did-resolve/did-document.ts:42-53 | the constructor keeps the scheme's id and services, puts the scheme's Delegation method under `capabilityInvocation` and leaves `capabilityDelegation` unset; `ReadDocument` and `InvocationKeyLost` state what this means for a read document |
| DidDocument.Classify | node_modules/tyronzil-sdk/lib/decentralized-identity/did-operations/did-resolve/did-document.ts:116-139 | a purpose is found only for its own tag; `default` is reached exactly when no purpose has the tag |
| DidDocument.SortKeys | node_modules/tyronzil-sdk/lib/decentralized-identity/did-operations/did-resolve/did-document.ts:108-141 | the key loop fails with `InvalidPurpose` exactly when some key is not a purpose; otherwise each slot holds the method of the last key of its purpose |
| DidDocument.ListServices | node_modules/tyronzil-sdk/lib/decentralized-identity/did-operations/did-resolve/did-document.ts:146-158 | the service loop yields the reference service list |
| DidDocument.Read | node_modules/tyronzil-sdk/lib/decentralized-identity/did-operations/did-resolve/did-document.ts:92-195 | `read` resolves to the reference result: a validation error, `InvalidPurpose`, or the document built from the scheme |
| DidDocument.Resolution | node_modules/tyronzil-sdk/lib/decentralized-identity/did-operations/did-resolve/did-document.ts:65-86 | a failure of `read` propagates; `contentType` gives the document; `Result` gives the envelope with the document's id, the chain info and the state's keys; any other `accept` gives `undefined` |
| DidDocument.SlotIsLookup | node_modules/tyronzil-sdk/lib/decentralized-identity/did-operations/did-resolve/did-document.ts:108-141 | the slot the loop fills for a purpose is the method built from the key stored under that purpose's tag |
| DidDocument.MethodOfSpec | node_modules/tyronzil-sdk/lib/decentralized-identity/did-operations/did-resolve/did-document.ts:108-115 | a slot is set exactly when the map has a key of that purpose; it has id `did#purpose`, the Schnorr key type and the base58 key |
| DidDocument.ServiceListSpec | node_modules/tyronzil-sdk/lib/decentralized-identity/did-operations/did-resolve/did-document.ts:146-158 | one endpoint per service entry, in order, with id `did#id` and the entry's type and URI |
| DidDocument.ReadRejectsUnknownPurpose | node_modules/tyronzil-sdk/lib/decentralized-identity/did-operations/did-resolve/did-document.ts:138-139 | after validation, `read` fails with `InvalidPurpose` exactly when some key is not a `PublicKeyPurpose` |
| DidDocument.ReadDocument | node_modules/tyronzil-sdk/lib/decentralized-identity/did-operations/did-resolve/did-document.ts:42-53 | every field of the read document: id, the five slots copied straight, the Delegation key under `capabilityInvocation`, no `capabilityDelegation`, the service list |
| DidDocument.SchemeHoldsInvocation | node_modules/tyronzil-sdk/lib/decentralized-identity/did-operations/did-resolve/did-document.ts:181-183 | the scheme handed to the constructor does hold the Invocation key's method |
| DidDocument.InvocationKeyLost | node_modules/tyronzil-sdk/lib/decentralized-identity/did-operations/did-resolve/did-document.ts:50 | no method of the document carries the Invocation key's id; `capabilityInvocation` carries the Delegation key's id; `capabilityDelegation` is never set |
| DidDocument.EnvelopeNamesDid | node_modules/tyronzil-sdk/lib/decentralized-identity/did-operations/did-resolve/did-document.ts:72-81 | corollary of `ReadDocument`: the resolution result's `id` is its document's id, which is the validated DID |

## Left out

- `SmartUtil.encode` is not modelled. It reads a file from disk and gzips it.
- `decode` fetches the contract state over the network. Here the `didc_code` value is a parameter, and so is `unzip`, which stands for base64 decoding plus `zlib.unzip`. Only the version lookup and the `Buffer.from(undefined)` failure are modelled.
- In `resolution`, `ZilliqaInit`, `getBlockChainInfo` and `DidState.fetch` are network calls. The chain info and the fetched state are parameters. The DID network namespace is not modelled.
- `DidUrlScheme.validate` is the parameter `validate`, and `zcrypto.encodeBase58` is the parameter `base58`. Their code is not part of this model.
- `base58` is a total function, so the model assumes the encoder never throws. `read` encodes each key before its `switch`; an encoder that threw on some key would fail `read` before `InvalidPurpose` could, which the "exactly when" of `ReadRejectsUnknownPurpose` does not cover.
- Promises, `async` and the `.catch(err => { throw err })` rethrows are modelled as `Result` values.
- Numbers are integers, because only a value's kind matters to these helpers. Floating point is not modelled.
- The string values of `PublicKeyPurpose` are stand-ins, because the enum's file is not part of this model. The proofs only use the fact that the seven tags are distinct.
- `DidState` keeps only the fields that resolution reads.
- `read` asserts `state.verification_methods!` present and calls `state.services.keys()` directly. The model assumes that a fetched `DidState` carries both maps, so the `TypeError` of a missing map is not modelled.
- Strings: a Dafny `string` is a sequence of Unicode scalar values, whereas JavaScript indexes strings by UTF-16 code unit. `Index` and `EntriesOf` on a string therefore give a whole character where JavaScript gives a lone surrogate, and one entry where JavaScript lists two, for characters outside the Basic Multilingual Plane. This reaches `GetValue`, `ArgumentPair` and `ServicePairSpec` only when a payload is a string.
- `DidState.services` is typed as string pairs (`OrderedMap<(string, string)>`): the read path assumes the pairs `fromServices` produced are strings, so a one-element `"arguments"` array, whose URI is `undefined`, is not modelled on that path.
- The TypeScript casts (`as string`, `as [string, string]`) check nothing at run time. The model keeps the untyped values, for example the `(Value, Value)` pairs of `fromServices`.
