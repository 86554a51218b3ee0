/**
 * `SmartUtil`: helpers that read the state of the DID smart contracts.
 *
 * Each helper scans `Object.entries(object)` front to back and overwrites a variable, or
 * calls `set` on a `Map`, at every matching entry; `Object.entries` throws on `undefined` and `null`.
 */
module SmartUtil {
  import opened Js

  /* ---------------------------------------------------------------------- */
  /* Field lookups                                                           */
  /* ---------------------------------------------------------------------- */

  /**
   * The `forEach` each lookup runs over `Object.entries(object)`: overwrite the result at
   * every entry keyed `key`, starting from `undefined`.
   */
  method ScanEntries(entries: seq<(string, Value)>, key: string) returns (value: Value)
    ensures value == LastValue(entries, key)
  {
    value := Undefined;
    var i := 0;
    while i < |entries|
      invariant 0 <= i <= |entries|
      invariant value == LastValue(entries[..i], key)
    {
      LastValueStep(entries, key, i);
      if entries[i].0 == key {
        value := entries[i].1;
      }
      i := i + 1;
    }
    assert entries[..i] == entries;
  }

  /**
   * `getValuefromMap(object, key)`: the value of the last entry keyed `key`, or `undefined`;
   * `Object.entries` throws on `undefined` and `null`.
   */
  method GetValueFromMap(obj: Value, key: string) returns (r: Result<Value>)
    ensures r.Err? <==> Nullish(obj)
    ensures r.Err? ==> r.error == TypeError
    ensures r.Ok? ==> r.value == LastValue(EntriesOf(obj).value, key)
  {
    var entries := EntriesOf(obj);
    if entries.Err? {
      return Err(entries.error);
    }
    var value := ScanEntries(entries.value, key);
    r := Ok(value);
  }

  /** `getStatus(object)`: the `"constructor"` tag of a contract's option value, or `undefined`. */
  method GetStatus(obj: Value) returns (r: Result<Value>)
    ensures Nullish(obj) ==> r == Err(TypeError)
    ensures !Nullish(obj) ==> r == Ok(LastValue(EntriesOf(obj).value, "constructor"))
    ensures obj.Obj? && !HasKey(obj.fields, "constructor") ==> r == Ok(Undefined)
    ensures obj.Obj? && HasKey(obj.fields, "constructor") ==>
      exists j :: IsLastMatch(obj.fields, "constructor", j) && r == Ok(obj.fields[j].1)
  {
    r := GetValueFromMap(obj, "constructor");
  }

  /**
   * `getValue(object)`: element 0 of the `"arguments"` payload. Indexing the payload throws
   * when there is no `"arguments"` entry (or it holds `undefined` or `null`).
   */
  method GetValue(obj: Value) returns (r: Result<Value>)
    ensures Nullish(obj) ==> r == Err(TypeError)
    ensures !Nullish(obj) ==> r == Index(LastValue(EntriesOf(obj).value, "arguments"), 0)
    ensures obj.Obj? && !HasKey(obj.fields, "arguments") ==> r == Err(TypeError)
    ensures obj.Obj? && HasKey(obj.fields, "arguments") ==>
      exists j :: IsLastMatch(obj.fields, "arguments", j) && r == Index(obj.fields[j].1, 0)
  {
    var args := GetValueFromMap(obj, "arguments");
    if args.Err? {
      return Err(args.error);
    }
    r := Index(args.value, 0);
  }

  /**
   * The version lookup of `decode`: the encoded blob of the last entry keyed `contractVersion`
   * goes to `Buffer.from(_, 'base64')` and `zlib.unzip`, which `unzip` stands for. With no such
   * entry the blob is `undefined` and `Buffer.from` throws.
   */
  method Decode(didcCode: Value, contractVersion: string, unzip: Value -> Result<string>)
    returns (r: Result<string>)
    ensures Nullish(didcCode) ==> r == Err(TypeError)
    ensures !Nullish(didcCode) ==>
      var blob := LastValue(EntriesOf(didcCode).value, contractVersion);
      r == if Nullish(blob) then Err(TypeError) else unzip(blob)
    ensures didcCode.Obj? && !HasKey(didcCode.fields, contractVersion) ==> r == Err(TypeError)
    ensures didcCode.Obj? && HasKey(didcCode.fields, contractVersion) ==>
      exists j :: IsLastMatch(didcCode.fields, contractVersion, j) &&
        r == if Nullish(didcCode.fields[j].1) then Err(TypeError) else unzip(didcCode.fields[j].1)
  {
    var encoded := GetValueFromMap(didcCode, contractVersion);
    if encoded.Err? {
      return Err(encoded.error);
    }
    if Nullish(encoded.value) {
      r := Err(TypeError);
    } else {
      r := unzip(encoded.value);
    }
  }

  /* ---------------------------------------------------------------------- */
  /* intoMap                                                                 */
  /* ---------------------------------------------------------------------- */

  /** The `Map` that `set`-ing every entry in order produces. */
  function ToMap(entries: seq<(string, Value)>): OrderedMap<Value>
    decreases |entries|
  {
    if |entries| == 0 then []
    else
      var n := |entries| - 1;
      Set(ToMap(entries[..n]), entries[n].0, entries[n].1)
  }

  /** Every key reads back from the `Map` what the last entry with that key holds. */
  lemma {:induction false} ToMapGet(entries: seq<(string, Value)>, k: string)
    ensures Get(ToMap(entries), k) == Get(entries, k)
    decreases |entries|
  {
    if |entries| > 0 {
      var n := |entries| - 1;
      ToMapGet(entries[..n], k);
      SetGet(ToMap(entries[..n]), entries[n].0, entries[n].1, k);
    }
  }

  /** The `Map`'s keys are the entries' keys with repeats left out, in order. */
  lemma {:induction false} ToMapKeys(entries: seq<(string, Value)>)
    ensures IsSubsequence(Keys(ToMap(entries)), Keys(entries))
    ensures forall k :: HasKey(ToMap(entries), k) <==> HasKey(entries, k)
    decreases |entries|
  {
    if |entries| > 0 {
      var n := |entries| - 1;
      var prefix := entries[..n];
      ToMapKeys(prefix);
      assert Keys(entries) == Keys(prefix) + [entries[n].0];
      var m := ToMap(prefix);
      if HasKey(m, entries[n].0) {
        SubsequenceExtend(Keys(m), Keys(prefix), entries[n].0);
      } else {
        SubsequenceAppend(Keys(m), Keys(prefix), entries[n].0);
      }
      forall k ensures HasKey(ToMap(entries), k) <==> HasKey(entries, k) {
        ToMapGet(entries, k);
        GetIsLastMatch(ToMap(entries), k);
        GetIsLastMatch(entries, k);
      }
    }
  }

  /** An object's entries never repeat a key, and then the `Map` holds exactly those entries in that order. */
  lemma {:induction false} ToMapOfDistinct(entries: seq<(string, Value)>)
    requires DistinctKeys(entries)
    ensures ToMap(entries) == entries
    decreases |entries|
  {
    if |entries| > 0 {
      var n := |entries| - 1;
      ToMapOfDistinct(entries[..n]);
      assert !HasKey(entries[..n], entries[n].0);
    }
  }

  /** `intoMap(object)`: a `Map` filled by `set`-ing the object's entries in order. */
  method IntoMap(obj: Value) returns (r: Result<OrderedMap<Value>>)
    ensures r.Err? <==> Nullish(obj)
    ensures r.Err? ==> r.error == TypeError
    ensures r.Ok? ==> r.value == ToMap(EntriesOf(obj).value)
    ensures r.Ok? ==> forall k :: Get(r.value, k) == Get(EntriesOf(obj).value, k)
    ensures obj.Obj? && DistinctKeys(obj.fields) ==> r == Ok(obj.fields)
  {
    var listed := EntriesOf(obj);
    if listed.Err? {
      return Err(listed.error);
    }
    var entries := listed.value;
    var m: OrderedMap<Value> := [];
    var i := 0;
    while i < |entries|
      invariant 0 <= i <= |entries|
      invariant m == ToMap(entries[..i])
    {
      assert entries[..i + 1][..i] == entries[..i];
      m := Set(m, entries[i].0, entries[i].1);
      i := i + 1;
    }
    assert entries[..i] == entries;
    forall k ensures Get(m, k) == Get(entries, k) {
      ToMapGet(entries, k);
    }
    if DistinctKeys(entries) {
      ToMapOfDistinct(entries);
    }
    r := Ok(m);
  }

  /* ---------------------------------------------------------------------- */
  /* fromServices                                                            */
  /* ---------------------------------------------------------------------- */

  /** `[args[0], args[1]]`: a service's (type, URI) pair read from its `"arguments"` payload. */
  function ArgumentPair(args: Value): Result<(Value, Value)> {
    match Index(args, 0)
    case Err(e) => Err(e)
    case Ok(serviceType) =>
      match Index(args, 1)
      case Err(e) => Err(e)
      case Ok(uri) => Ok((serviceType, uri))
  }

  /** The inner scan over one service's entries: the pair from its last `"arguments"` entry, if any. */
  function ArgumentsOf(inner: seq<(string, Value)>): Result<Option<(Value, Value)>>
    decreases |inner|
  {
    if |inner| == 0 then Ok(None)
    else
      var n := |inner| - 1;
      match ArgumentsOf(inner[..n])
      case Err(e) => Err(e)
      case Ok(found) =>
        if inner[n].0 == "arguments" then
          match ArgumentPair(inner[n].1)
          case Err(e) => Err(e)
          case Ok(pair) => Ok(Some(pair))
        else Ok(found)
  }

  /** What one service value contributes: `Object.entries` of it, then the inner scan. */
  function ServicePair(service: Value): Result<Option<(Value, Value)>> {
    match EntriesOf(service)
    case Err(e) => Err(e)
    case Ok(inner) => ArgumentsOf(inner)
  }

  /** The services `Map` after one id's scan: unchanged, or that id appended with its pair. */
  function WithPair(before: seq<(string, (Value, Value))>, id: string, found: Option<(Value, Value)>)
    : seq<(string, (Value, Value))>
  {
    match found
    case None => before
    case Some(pair) => before + [(id, pair)]
  }

  /**
   * Reference definition of `fromServices` over the `Map` of services: keep, in order, each
   * id whose value yields an `"arguments"` pair.
   */
  function KeptServices(services: OrderedMap<Value>): (r: Result<OrderedMap<(Value, Value)>>)
    ensures r.Ok? ==> forall k :: HasKey(r.value, k) ==> HasKey(services, k)
    decreases |services|
  {
    if |services| == 0 then Ok([])
    else
      var n := |services| - 1;
      match KeptServices(services[..n])
      case Err(e) => Err(e)
      case Ok(kept) =>
        match ServicePair(services[n].1)
        case Err(e) => Err(e)
        case Ok(None) => Ok(kept)
        case Ok(Some(pair)) =>
          PrefixKeys(services, n);
          AppendKeys(kept, services[n].0, pair);
          assert HasKey(services, services[n].0) by { assert services[n].0 == services[n].0; }
          var extended: OrderedMap<(Value, Value)> := kept + [(services[n].0, pair)];
          Ok(extended)
  }

  /** The inner scan fails on a nullish payload; otherwise it yields the pair of the last `"arguments"` entry. */
  lemma {:induction false} ArgumentsOfLast(inner: seq<(string, Value)>)
    ensures ArgumentsOf(inner).Err? <==>
      exists i :: 0 <= i < |inner| && inner[i].0 == "arguments" && Nullish(inner[i].1)
    ensures ArgumentsOf(inner).Ok? ==>
      (ArgumentsOf(inner).value.Some? <==> HasKey(inner, "arguments"))
    ensures ArgumentsOf(inner).Ok? && ArgumentsOf(inner).value.Some? ==>
      ArgumentPair(LastValue(inner, "arguments")) == Ok(ArgumentsOf(inner).value.value)
    decreases |inner|
  {
    if |inner| > 0 {
      var n := |inner| - 1;
      var prefix := inner[..n];
      ArgumentsOfLast(prefix);
      GetIsLastMatch(inner, "arguments");
      GetIsLastMatch(prefix, "arguments");
      assert forall i :: 0 <= i < n ==> prefix[i] == inner[i];
      if inner[n].0 != "arguments" {
        assert HasKey(prefix, "arguments") <==> HasKey(inner, "arguments") by {
          if HasKey(inner, "arguments") {
            var i :| 0 <= i < |inner| && inner[i].0 == "arguments";
            assert prefix[i].0 == "arguments";
          }
        }
      }
    }
  }

  /** A failure anywhere in the inner scan is the scan's result. */
  lemma {:induction false} ArgumentsOfErrPrefix(inner: seq<(string, Value)>, j: int)
    requires 0 <= j <= |inner| && ArgumentsOf(inner[..j]).Err?
    ensures ArgumentsOf(inner) == ArgumentsOf(inner[..j])
    decreases |inner|
  {
    if j < |inner| {
      var n := |inner| - 1;
      assert inner[..n][..j] == inner[..j];
      ArgumentsOfErrPrefix(inner[..n], j);
    } else {
      assert inner[..j] == inner;
    }
  }

  /** A failure on any service is the result of the whole conversion. */
  lemma {:induction false} KeptServicesErrPrefix(services: OrderedMap<Value>, j: int)
    requires 0 <= j <= |services| && KeptServices(services[..j]).Err?
    ensures KeptServices(services) == KeptServices(services[..j])
    decreases |services|
  {
    if j < |services| {
      var n := |services| - 1;
      assert services[..n][..j] == services[..j];
      KeptServicesErrPrefix(services[..n], j);
    } else {
      assert services[..j] == services;
    }
  }

  /** Every service id reads back exactly its own contribution: nothing when it has no `"arguments"`. */
  lemma {:induction false} KeptServicesGet(services: OrderedMap<Value>, i: int)
    requires KeptServices(services).Ok? && 0 <= i < |services|
    ensures ServicePair(services[i].1) == Ok(Get(KeptServices(services).value, services[i].0))
    decreases |services|
  {
    var n := |services| - 1;
    var prefix := services[..n];
    var kept := KeptServices(prefix).value;
    var all := KeptServices(services).value;
    var id := services[n].0;
    PrefixKeys(services, n);
    assert !HasKey(kept, id);
    var contribution := ServicePair(services[n].1).value;
    assert all == if contribution.None? then kept else kept + [(id, contribution.value)];
    if i == n {
      if contribution.None? {
        GetIsLastMatch(kept, id);
      }
    } else {
      KeptServicesGet(prefix, i);
      assert prefix[i] == services[i];
      if contribution.Some? {
        assert services[i].0 != id;
        assert all[..|kept|] == kept;
      }
    }
  }

  /** One more service id: its contribution is appended to what the earlier ids gave. */
  lemma KeptServicesStep(services: OrderedMap<Value>, i: int, kept: OrderedMap<(Value, Value)>)
    requires 0 <= i < |services| && KeptServices(services[..i]) == Ok(kept)
    ensures !HasKey(kept, services[i].0)
    ensures KeptServices(services[..i + 1]) == match ServicePair(services[i].1)
                                               case Err(e) => Err(e)
                                               case Ok(found) => Ok(WithPair(kept, services[i].0, found))
  {
    assert services[..i + 1][..i] == services[..i];
    PrefixKeys(services[..i + 1], i);
  }

  /** The kept service ids are a subsequence of all service ids. */
  lemma {:induction false} KeptServicesInOrder(services: OrderedMap<Value>)
    requires KeptServices(services).Ok?
    ensures IsSubsequence(Keys(KeptServices(services).value), Keys(services))
    decreases |services|
  {
    if |services| > 0 {
      var n := |services| - 1;
      var prefix := services[..n];
      var id := services[n].0;
      KeptServicesInOrder(prefix);
      var kept := KeptServices(prefix).value;
      assert Keys(services) == Keys(prefix) + [id];
      var contribution := ServicePair(services[n].1).value;
      if contribution.None? {
        SubsequenceExtend(Keys(kept), Keys(prefix), id);
      } else {
        assert Keys(kept + [(id, contribution.value)]) == Keys(kept) + [id];
        SubsequenceAppend(Keys(kept), Keys(prefix), id);
      }
    }
  }

  /** The services `Map` keeps the input's ids in order, and each id reads back its own pair. */
  lemma KeptServicesReadBack(services: OrderedMap<Value>)
    requires KeptServices(services).Ok?
    ensures IsSubsequence(Keys(KeptServices(services).value), Keys(services))
    ensures forall i :: 0 <= i < |services| ==>
      ServicePair(services[i].1) == Ok(Get(KeptServices(services).value, services[i].0))
  {
    KeptServicesInOrder(services);
    forall i | 0 <= i < |services|
      ensures ServicePair(services[i].1) == Ok(Get(KeptServices(services).value, services[i].0))
    {
      KeptServicesGet(services, i);
    }
  }

  /** Every failure of one service's scan is the `TypeError` of indexing a nullish payload. */
  lemma {:induction false} ArgumentsOfErrType(inner: seq<(string, Value)>)
    ensures ArgumentsOf(inner).Err? ==> ArgumentsOf(inner).error == TypeError
    decreases |inner|
  {
    if |inner| > 0 {
      ArgumentsOfErrType(inner[..|inner| - 1]);
    }
  }

  /** A service value fails only with a `TypeError`. */
  lemma ServicePairErrType(service: Value)
    ensures ServicePair(service).Err? ==> ServicePair(service).error == TypeError
  {
    if !Nullish(service) {
      ArgumentsOfErrType(EntriesOf(service).value);
    }
  }

  /**
   * The whole conversion fails exactly when some service fails, and then with a `TypeError`;
   * services that only lack `"arguments"` are dropped, never an error.
   */
  lemma {:induction false} KeptServicesErr(services: OrderedMap<Value>)
    ensures KeptServices(services).Err? <==> exists i :: 0 <= i < |services| && ServicePair(services[i].1).Err?
    ensures KeptServices(services).Err? ==> KeptServices(services).error == TypeError
    decreases |services|
  {
    if |services| > 0 {
      var n := |services| - 1;
      var prefix := services[..n];
      KeptServicesErr(prefix);
      ServicePairErrType(services[n].1);
      assert forall i :: 0 <= i < n ==> prefix[i] == services[i];
      if KeptServices(services).Err? && KeptServices(prefix).Ok? {
        assert ServicePair(services[n].1).Err?;
      }
    }
  }

  /** A service id drops out exactly when its value has no `"arguments"` entry. */
  lemma ServicePairSpec(service: Value)
    ensures Nullish(service) ==> ServicePair(service) == Err(TypeError)
    ensures !Nullish(service) && !HasKey(EntriesOf(service).value, "arguments") ==>
      ServicePair(service) == Ok(None)
    ensures !Nullish(service) && HasKey(EntriesOf(service).value, "arguments") && ServicePair(service).Ok? ==>
      ServicePair(service).value.Some? &&
      ArgumentPair(LastValue(EntriesOf(service).value, "arguments")) == Ok(ServicePair(service).value.value)
    ensures service.Str? || service.Arr? ==> ServicePair(service) == Ok(None)
  {
    if !Nullish(service) {
      ArgumentsOfLast(EntriesOf(service).value);
      if service.Str? || service.Arr? {
        IndexEntriesLackName(service, "arguments", 0);
      }
    }
  }

  /**
   * The `forEach` over one service's entries in `fromServices`: every `"arguments"` entry
   * sets `id -> [args[0], args[1]]` in `services`, where `id` is not yet a key.
   */
  method SetArguments(services: OrderedMap<(Value, Value)>, id: string, inner: seq<(string, Value)>)
    returns (r: Result<OrderedMap<(Value, Value)>>)
    requires !HasKey(services, id)
    ensures r == match ArgumentsOf(inner)
                 case Err(e) => Err(e)
                 case Ok(found) => Ok(WithPair(services, id, found))
  {
    var kept := services;
    var j := 0;
    while j < |inner|
      invariant 0 <= j <= |inner|
      invariant ArgumentsOf(inner[..j]).Ok?
      invariant kept == WithPair(services, id, ArgumentsOf(inner[..j]).value)
    {
      ghost var found := ArgumentsOf(inner[..j]).value;
      assert inner[..j + 1][..j] == inner[..j];
      if inner[j].0 == "arguments" {
        var args := inner[j].1;
        var serviceType := Index(args, 0);
        if serviceType.Err? {
          assert ArgumentsOf(inner[..j + 1]) == Err(serviceType.error);
          ArgumentsOfErrPrefix(inner, j + 1);
          return Err(serviceType.error);
        }
        // `args[1]` cannot throw once `args[0]` did not
        var uri := Index(args, 1).value;
        var pair := (serviceType.value, uri);
        assert ArgumentsOf(inner[..j + 1]) == Ok(Some(pair));
        if found.Some? {
          SetLast(services, id, found.value, pair);
        }
        kept := Set(kept, id, pair);
      } else {
        assert ArgumentsOf(inner[..j + 1]) == Ok(found);
      }
      j := j + 1;
    }
    assert inner[..j] == inner;
    r := Ok(kept);
  }

  /**
   * `fromServices(object)`: `intoMap`, then for each id every `"arguments"` entry of its
   * value sets `id -> [args[0], args[1]]` in a fresh `Map`.
   */
  method FromServices(obj: Value) returns (r: Result<OrderedMap<(Value, Value)>>)
    ensures Nullish(obj) ==> r == Err(TypeError)
    ensures !Nullish(obj) ==> r == KeptServices(ToMap(EntriesOf(obj).value))
    ensures r.Ok? ==> IsSubsequence(Keys(r.value), Keys(ToMap(EntriesOf(obj).value)))
    ensures r.Ok? && obj.Obj? && DistinctKeys(obj.fields) ==>
      forall i :: 0 <= i < |obj.fields| ==> ServicePair(obj.fields[i].1) == Ok(Get(r.value, obj.fields[i].0))
  {
    var converted := IntoMap(obj);
    if converted.Err? {
      return Err(converted.error);
    }
    var services := converted.value;
    var kept: OrderedMap<(Value, Value)> := [];
    var i := 0;
    while i < |services|
      invariant 0 <= i <= |services|
      invariant KeptServices(services[..i]) == Ok(kept)
    {
      var id := services[i].0;
      var service := services[i].1;
      KeptServicesStep(services, i, kept);
      var inner := EntriesOf(service);
      if inner.Err? {
        KeptServicesErrPrefix(services, i + 1);
        return Err(inner.error);
      }
      var scanned := SetArguments(kept, id, inner.value);
      if scanned.Err? {
        KeptServicesErrPrefix(services, i + 1);
        return Err(scanned.error);
      }
      kept := scanned.value;
      i := i + 1;
    }
    assert services[..i] == services;
    r := Ok(kept);
    KeptServicesReadBack(services);
  }
}
