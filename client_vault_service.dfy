/** The client's vault-item service: items travel to the server as an encrypted
    blob plus encryption metadata (the wire form) and come back the same way; the two
    list readers decrypt every item, one dropping the items it cannot decrypt and
    the other keeping them as they came. The HTTP exchange itself is a parameter:
    the server's answer, or the message of the error the request ends in. */
module ClientVaultService {
  import opened Wrappers
  import opened Json
  import opened CryptoService
  import Base64
  import JsStrings

  type JsonObject = map<string, Json>

  const ItemCreatePrefix: string := "아이템 생성 실패: "
  /** Stands for the engine-specific message of the `SyntaxError` `JSON.parse` throws. */
  const ParseError: string := "SyntaxError"

  /** The `encryption` object of the wire form. */
  datatype VaultEncryption = VaultEncryption(algorithm: string, iv: string, salt: string, kdf: string, iterations: int)

  /** A listed item (`VaultItemDto`, timestamps left out), with the `decryptedData`
      property the decrypting reader may add. */
  datatype VaultItemDto = VaultItemDto(
    id: string, itemType: string, title: string, encryptedBlob: string,
    encryption: Option<VaultEncryption>, decryptedData: Option<Json>)

  /** `AddVaultItemRequestDto`. */
  datatype AddVaultItemRequest = AddVaultItemRequest(
    itemType: string, title: string, encryptedBlob: string, encryption: VaultEncryption)

  // ---------------------------------------------------------------------------
  // Envelope and wire form

  function WireEncryption(env: EncryptedData): (e: VaultEncryption)
    ensures e.algorithm == env.metadata.algorithm && e.iv == env.metadata.iv && e.salt == env.metadata.salt
    ensures e.kdf == env.metadata.kdf && e.iterations == env.metadata.iterations
  {
    VaultEncryption(env.metadata.algorithm, env.metadata.iv, env.metadata.salt, env.metadata.kdf, env.metadata.iterations)
  }

  /** The envelope that `getVaultItemsDecrypted` rebuilds from a blob and its metadata. */
  function EnvelopeOf(blob: string, e: VaultEncryption): (env: EncryptedData)
    ensures env.data == blob
    ensures env.metadata.algorithm == e.algorithm && env.metadata.iv == e.iv && env.metadata.salt == e.salt
    ensures env.metadata.kdf == e.kdf && env.metadata.iterations == e.iterations
  {
    EncryptedData(blob, EncryptionMetadata(e.algorithm, e.iv, e.salt, e.kdf, e.iterations))
  }

  lemma EnvelopeOfWire(env: EncryptedData)
    ensures EnvelopeOf(env.data, WireEncryption(env)) == env
  {
  }

  lemma WireOfEnvelope(blob: string, e: VaultEncryption)
    ensures EnvelopeOf(blob, e).data == blob
    ensures WireEncryption(EnvelopeOf(blob, e)) == e
  {
  }

  /** The request `addVaultItemWithEncryption` sends: the envelope in wire form. */
  function AddRequestOf(itemType: string, title: string, env: EncryptedData): (req: AddVaultItemRequest)
    ensures req.itemType == itemType && req.title == title
    ensures EnvelopeOf(req.encryptedBlob, req.encryption) == env
  {
    AddVaultItemRequest(itemType, title, env.data, WireEncryption(env))
  }

  // ---------------------------------------------------------------------------
  // Reading envelopes out of JSON items

  function StringField(o: JsonObject, name: string): Option<string> {
    if name in o && o[name].JString? then Some(o[name].s) else None
  }

  function NumberField(o: JsonObject, name: string): Option<int> {
    if name in o && o[name].JNumber? then Some(o[name].n) else None
  }

  /** The `iterations` metadata field as `decrypt` hands it to `deriveKey`: an absent
      field is `undefined`, which the destructuring default replaces with 3. */
  function IterationsField(m: JsonObject): (it: Option<int>)
    ensures "iterations" !in m ==> it == Some(DefaultIterations)
    ensures "iterations" in m ==> (it.Some? <==> m["iterations"].JNumber?)
    ensures "iterations" in m && it.Some? ==> it.value == m["iterations"].n
  {
    if "iterations" in m then NumberField(m, "iterations") else Some(DefaultIterations)
  }

  /** The `encryptedData` property of a listed item read as an envelope; `None` when
      its shape keeps `decrypt` from getting anywhere. */
  function AsEnvelope(j: Json): Option<EncryptedData> {
    if !j.JObject? then None
    else
      var o := j.fields;
      if !("metadata" in o && o["metadata"].JObject?) then None
      else
        var m := o["metadata"].fields;
        var data, alg, iv, salt, kdf, it :=
          StringField(o, "data"), StringField(m, "algorithm"), StringField(m, "iv"),
          StringField(m, "salt"), StringField(m, "kdf"), IterationsField(m);
        if data.Some? && alg.Some? && iv.Some? && salt.Some? && kdf.Some? && it.Some?
        then Some(EncryptedData(data.value, EncryptionMetadata(alg.value, iv.value, salt.value, kdf.value, it.value)))
        else None
  }

  /** The JSON object an envelope travels as (`{ data, metadata }`). */
  function EnvelopeJson(env: EncryptedData): Json {
    JObject(map["data" := JString(env.data), "metadata" := JObject(MetadataJson(env.metadata))])
  }

  function MetadataJson(md: EncryptionMetadata): JsonObject {
    map["algorithm" := JString(md.algorithm), "iv" := JString(md.iv), "salt" := JString(md.salt),
        "kdf" := JString(md.kdf), "iterations" := JNumber(md.iterations)]
  }

  /** An envelope read back from its JSON object is the envelope itself. */
  lemma AsEnvelopeOfJson(env: EncryptedData)
    ensures AsEnvelope(EnvelopeJson(env)) == Some(env)
  {
  }

  /** An envelope whose metadata has no `iterations` still reads, with the default
      count 3 that `deriveKey` would fill in for the missing value. */
  lemma AbsentIterationsDefault(env: EncryptedData)
    ensures AsEnvelope(JObject(map["data" := JString(env.data),
                                   "metadata" := JObject(MetadataJson(env.metadata) - {"iterations"})]))
      == Some(env.(metadata := env.metadata.(iterations := DefaultIterations)))
  {
    var m := MetadataJson(env.metadata) - {"iterations"};
    assert "iterations" !in m;
    assert IterationsField(m) == Some(DefaultIterations);
  }

  // ---------------------------------------------------------------------------
  // getVaultItems: failing items are dropped

  /** One iteration of `getVaultItems`: the item to push, or `None` when decrypting or
      parsing throws and the item is skipped. */
  function DecryptItem(p: Primitives, codec: Codec, item: JsonObject, secretKey: string): Option<JsonObject> {
    if "encryptedData" in item && Truthy(item["encryptedData"]) then
      match AsEnvelope(item["encryptedData"])
      case None => None
      case Some(env) =>
        match Decrypt(p, env, secretKey)
        case Failure(_) => None
        case Success(text) =>
          match codec.parse(text)
          case None => None
          case Some(parsed) => Some(item["data" := parsed])
    else Some(item)
  }

  /** What `getVaultItems` returns for the fetched list `items`. */
  function KeptItems(p: Primitives, codec: Codec, items: seq<JsonObject>, secretKey: string): seq<JsonObject>
  {
    if items == [] then []
    else
      var last := DecryptItem(p, codec, items[|items| - 1], secretKey);
      KeptItems(p, codec, items[..|items| - 1], secretKey) + (if last.Some? then [last.value] else [])
  }

  /** The positions of the fetched items that survive. */
  function KeptIndices(p: Primitives, codec: Codec, items: seq<JsonObject>, secretKey: string): seq<nat>
  {
    if items == [] then []
    else
      var last := DecryptItem(p, codec, items[|items| - 1], secretKey);
      KeptIndices(p, codec, items[..|items| - 1], secretKey) + (if last.Some? then [|items| - 1] else [])
  }

  /** `getVaultItems` over the fetched list: each item is decrypted (when it carries
      `encryptedData`) and pushed; an item whose decryption or parsing throws is left out. */
  method GetVaultItems(p: Primitives, codec: Codec, response: seq<JsonObject>, secretKey: string)
    returns (decryptedItems: seq<JsonObject>)
    ensures decryptedItems == KeptItems(p, codec, response, secretKey)
    ensures |decryptedItems| <= |response|
  {
    decryptedItems := [];
    for i := 0 to |response|
      invariant decryptedItems == KeptItems(p, codec, response[..i], secretKey)
    {
      assert response[..i + 1][..i] == response[..i];
      var item := response[i];
      if "encryptedData" in item && Truthy(item["encryptedData"]) {
        var envelope := AsEnvelope(item["encryptedData"]);
        if envelope.Some? {
          var decrypted := Decrypt(p, envelope.value, secretKey);
          if decrypted.Success? {
            var parsed := codec.parse(decrypted.value);
            if parsed.Some? {
              decryptedItems := decryptedItems + [item["data" := parsed.value]];
            }
          }
        }
      } else {
        decryptedItems := decryptedItems + [item];
      }
    }
    assert response[..|response|] == response;
    KeptItemsOrder(p, codec, response, secretKey);
  }

  /** The surviving items are a subsequence of the fetched list in its order: they
      are exactly the items at the kept positions, which increase strictly and are
      the positions of the items that decrypt. */
  lemma KeptItemsOrder(p: Primitives, codec: Codec, items: seq<JsonObject>, secretKey: string)
    ensures |KeptIndices(p, codec, items, secretKey)| == |KeptItems(p, codec, items, secretKey)| <= |items|
    ensures forall k :: 0 <= k < |KeptIndices(p, codec, items, secretKey)| ==>
      KeptIndices(p, codec, items, secretKey)[k] < |items| &&
      DecryptItem(p, codec, items[KeptIndices(p, codec, items, secretKey)[k]], secretKey)
        == Some(KeptItems(p, codec, items, secretKey)[k])
    ensures forall k, l :: 0 <= k < l < |KeptIndices(p, codec, items, secretKey)| ==>
      KeptIndices(p, codec, items, secretKey)[k] < KeptIndices(p, codec, items, secretKey)[l]
    ensures forall i :: 0 <= i < |items| ==>
      (i in KeptIndices(p, codec, items, secretKey) <==> DecryptItem(p, codec, items[i], secretKey).Some?)
  {
    KeptAtIndices(p, codec, items, secretKey);
    KeptIndicesIncrease(p, codec, items, secretKey);
    KeptIndicesExact(p, codec, items, secretKey);
  }

  lemma {:induction false} KeptAtIndices(p: Primitives, codec: Codec, items: seq<JsonObject>, secretKey: string)
    ensures |KeptIndices(p, codec, items, secretKey)| == |KeptItems(p, codec, items, secretKey)| <= |items|
    ensures forall k :: 0 <= k < |KeptIndices(p, codec, items, secretKey)| ==>
      KeptIndices(p, codec, items, secretKey)[k] < |items| &&
      DecryptItem(p, codec, items[KeptIndices(p, codec, items, secretKey)[k]], secretKey)
        == Some(KeptItems(p, codec, items, secretKey)[k])
  {
    if items != [] {
      var init := items[..|items| - 1];
      KeptAtIndices(p, codec, init, secretKey);
      var before := KeptIndices(p, codec, init, secretKey);
      var kept := KeptItems(p, codec, init, secretKey);
      var last := DecryptItem(p, codec, items[|items| - 1], secretKey);
      assert KeptIndices(p, codec, items, secretKey) == before + (if last.Some? then [|items| - 1] else []);
      assert KeptItems(p, codec, items, secretKey) == kept + (if last.Some? then [last.value] else []);
      assert forall k :: 0 <= k < |before| ==> items[before[k]] == init[before[k]];
    }
  }

  lemma {:induction false} KeptIndicesBelow(p: Primitives, codec: Codec, items: seq<JsonObject>, secretKey: string)
    ensures forall k :: 0 <= k < |KeptIndices(p, codec, items, secretKey)| ==>
      KeptIndices(p, codec, items, secretKey)[k] < |items|
  {
    if items != [] {
      KeptIndicesBelow(p, codec, items[..|items| - 1], secretKey);
    }
  }

  lemma {:induction false} KeptIndicesIncrease(p: Primitives, codec: Codec, items: seq<JsonObject>, secretKey: string)
    ensures forall k, l :: 0 <= k < l < |KeptIndices(p, codec, items, secretKey)| ==>
      KeptIndices(p, codec, items, secretKey)[k] < KeptIndices(p, codec, items, secretKey)[l]
  {
    if items != [] {
      var init := items[..|items| - 1];
      KeptIndicesIncrease(p, codec, init, secretKey);
      KeptIndicesBelow(p, codec, init, secretKey);
    }
  }

  lemma {:induction false} KeptIndicesExact(p: Primitives, codec: Codec, items: seq<JsonObject>, secretKey: string)
    ensures forall i :: 0 <= i < |items| ==>
      (i in KeptIndices(p, codec, items, secretKey) <==> DecryptItem(p, codec, items[i], secretKey).Some?)
  {
    if items != [] {
      var init := items[..|items| - 1];
      KeptIndicesExact(p, codec, init, secretKey);
      KeptIndicesBelow(p, codec, init, secretKey);
      var before := KeptIndices(p, codec, init, secretKey);
      assert |items| - 1 !in before;
      assert forall i :: 0 <= i < |init| ==> items[i] == init[i];
    }
  }

  /** Items without `encryptedData` pass unchanged; a decrypted item keeps every other
      property and only has `data` replaced by the parsed plaintext. */
  lemma DecryptItemKeepsOtherFields(p: Primitives, codec: Codec, item: JsonObject, secretKey: string)
    ensures !("encryptedData" in item && Truthy(item["encryptedData"])) ==> DecryptItem(p, codec, item, secretKey) == Some(item)
    ensures DecryptItem(p, codec, item, secretKey).Some? ==>
      var out := DecryptItem(p, codec, item, secretKey).value;
      (forall f :: f != "data" ==> (f in out <==> f in item)) &&
      (forall f :: f != "data" && f in item ==> out[f] == item[f])
  {
  }

  /** When an item of `getVaultItems` is dropped, and what a kept encrypted item
      carries: it is dropped exactly when it has truthy `encryptedData` and the
      envelope is malformed, decryption fails or the plaintext does not parse; a
      decrypted item's `data` is the parsed plaintext. */
  lemma DecryptItemCases(p: Primitives, codec: Codec, item: JsonObject, secretKey: string)
    ensures DecryptItem(p, codec, item, secretKey).None? <==>
      "encryptedData" in item && Truthy(item["encryptedData"]) &&
      (AsEnvelope(item["encryptedData"]).None? ||
       Decrypt(p, AsEnvelope(item["encryptedData"]).value, secretKey).Failure? ||
       codec.parse(Decrypt(p, AsEnvelope(item["encryptedData"]).value, secretKey).value).None?)
    ensures "encryptedData" in item && Truthy(item["encryptedData"]) && DecryptItem(p, codec, item, secretKey).Some? ==>
      var out := DecryptItem(p, codec, item, secretKey).value;
      "data" in out &&
      Some(out["data"]) == codec.parse(Decrypt(p, AsEnvelope(item["encryptedData"]).value, secretKey).value)
  {
  }

  // ---------------------------------------------------------------------------
  // getVaultItemsDecrypted: failing items are kept

  /** Whether `getVaultItemsDecrypted` tries to decrypt the item at all. */
  predicate IsEncrypted(item: VaultItemDto) {
    item.encryptedBlob != "" && item.encryption.Some?
  }

  /** Whether a listed item has a blob and metadata that decrypt to parsable JSON. */
  predicate DtoDecrypts(p: Primitives, codec: Codec, item: VaultItemDto, secretKey: string) {
    IsEncrypted(item) &&
    Decrypt(p, EnvelopeOf(item.encryptedBlob, item.encryption.value), secretKey).Success? &&
    codec.parse(Decrypt(p, EnvelopeOf(item.encryptedBlob, item.encryption.value), secretKey).value).Some?
  }

  /** One iteration of `getVaultItemsDecrypted`. */
  function DecryptDto(p: Primitives, codec: Codec, item: VaultItemDto, secretKey: string): VaultItemDto {
    if IsEncrypted(item) then
      match Decrypt(p, EnvelopeOf(item.encryptedBlob, item.encryption.value), secretKey)
      case Failure(_) => item
      case Success(text) =>
        match codec.parse(text)
        case None => item
        case Some(decryptedData) => item.(decryptedData := Some(decryptedData))
    else item
  }

  /** Only the decrypted payload of a listed item can change, and an item without a
      blob or metadata passes through as it came. */
  lemma DecryptDtoKeepsOtherFields(p: Primitives, codec: Codec, item: VaultItemDto, secretKey: string)
    ensures DecryptDto(p, codec, item, secretKey).(decryptedData := item.decryptedData) == item
    ensures !IsEncrypted(item) ==> DecryptDto(p, codec, item, secretKey) == item
  {
  }

  /** The two outcomes of one item of `getVaultItemsDecrypted`: an item that does not
      decrypt to parsable JSON (no blob or metadata, a failed decryption, an
      unparsable plaintext) is kept exactly as it came, and one that does gets the
      parsed plaintext as `decryptedData`. */
  lemma DecryptDtoCases(p: Primitives, codec: Codec, item: VaultItemDto, secretKey: string)
    ensures !DtoDecrypts(p, codec, item, secretKey) ==> DecryptDto(p, codec, item, secretKey) == item
    ensures DtoDecrypts(p, codec, item, secretKey) ==>
      DecryptDto(p, codec, item, secretKey).decryptedData ==
        codec.parse(Decrypt(p, EnvelopeOf(item.encryptedBlob, item.encryption.value), secretKey).value)
  {
  }

  /** `getVaultItemsDecrypted` over the fetched list: exactly one output per input, in
      order; an item that fails to decrypt or parse is pushed as it came. */
  method GetVaultItemsDecrypted(p: Primitives, codec: Codec, response: seq<VaultItemDto>, secretKey: string)
    returns (decryptedItems: seq<VaultItemDto>)
    ensures |decryptedItems| == |response|
    ensures forall i :: 0 <= i < |response| ==> decryptedItems[i] == DecryptDto(p, codec, response[i], secretKey)
    ensures forall i :: 0 <= i < |response| && !DtoDecrypts(p, codec, response[i], secretKey) ==>
      decryptedItems[i] == response[i]
    ensures forall i :: 0 <= i < |response| && DtoDecrypts(p, codec, response[i], secretKey) ==>
      decryptedItems[i] == response[i].(decryptedData :=
        codec.parse(Decrypt(p, EnvelopeOf(response[i].encryptedBlob, response[i].encryption.value), secretKey).value))
  {
    decryptedItems := [];
    for i := 0 to |response|
      invariant |decryptedItems| == i
      invariant forall k :: 0 <= k < i ==> decryptedItems[k] == DecryptDto(p, codec, response[k], secretKey)
    {
      var next := DecryptListed(p, codec, response[i], secretKey);
      decryptedItems := decryptedItems + [next];
    }
  }

  /** One pass of the loop in `getVaultItemsDecrypted`: an item with a blob and
      metadata is decrypted and parsed; on any failure it is kept as it came. */
  method DecryptListed(p: Primitives, codec: Codec, item: VaultItemDto, secretKey: string)
    returns (next: VaultItemDto)
    ensures next == DecryptDto(p, codec, item, secretKey)
    ensures !DtoDecrypts(p, codec, item, secretKey) ==> next == item
    ensures DtoDecrypts(p, codec, item, secretKey) ==>
      next == item.(decryptedData := codec.parse(Decrypt(p, EnvelopeOf(item.encryptedBlob, item.encryption.value), secretKey).value))
  {
    next := item;
    if item.encryptedBlob != "" && item.encryption.Some? {
      var encryptedData := EnvelopeOf(item.encryptedBlob, item.encryption.value);
      var text := Decrypt(p, encryptedData, secretKey);
      if text.Success? {
        var decryptedData := codec.parse(text.value);
        if decryptedData.Some? {
          next := item.(decryptedData := Some(decryptedData.value));
        }
      }
    }
  }

  // ---------------------------------------------------------------------------
  // addVaultItemWithEncryption, createVaultItem, updateVaultItem

  /** The server call `addVaultItem` makes: its answer, or the message of the error. */
  type AddItemCall = (string, AddVaultItemRequest) -> Result<JsonObject, string>

  /** `addVaultItemWithEncryption`: the serialized data is encrypted and sent in wire
      form; a failure of either step is reported with the one fixed prefix. */
  function AddVaultItemWithEncryption(
    p: Primitives, codec: Codec, send: AddItemCall, vaultId: string, itemType: string, title: string,
    data: Json, secretKey: string, options: EncryptionOptions, entropy: Entropy)
    : (r: Result<JsonObject, string>)
    ensures r.Failure? ==> JsStrings.StartsWith(r.error, ItemCreatePrefix)
    ensures r.Success? ==>
      Encrypt(p, codec.stringify(data), secretKey, options, entropy).Success? &&
      send(vaultId, AddRequestOf(itemType, title, Encrypt(p, codec.stringify(data), secretKey, options, entropy).value))
        == Success(r.value)
    ensures Encrypt(p, codec.stringify(data), secretKey, options, entropy).Failure? ==> r.Failure?
    ensures Encrypt(p, codec.stringify(data), secretKey, options, entropy).Success? ==>
      var sent := send(vaultId, AddRequestOf(itemType, title, Encrypt(p, codec.stringify(data), secretKey, options, entropy).value));
      (sent.Success? ==> r == sent) && (sent.Failure? ==> r == Failure(ItemCreatePrefix + sent.error))
  {
    match Encrypt(p, codec.stringify(data), secretKey, options, entropy)
    case Failure(e) => Failure(ItemCreatePrefix + e)
    case Success(env) =>
      match send(vaultId, AddRequestOf(itemType, title, env))
      case Failure(e) => Failure(ItemCreatePrefix + e)
      case Success(response) => Success(response)
  }

  /** AES-GCM output carries its 16-byte authentication tag, so it is never empty. */
  ghost predicate SealsWithTag(p: Primitives) {
    forall k, iv, m :: p.aesGcmEncrypt(k, iv, m).Success? ==> |p.aesGcmEncrypt(k, iv, m).value| >= 16
  }

  /** An item added with encryption, once listed back with the blob and metadata it
      was sent with, is decrypted by `getVaultItemsDecrypted` to the data it was made of. */
  lemma AddedItemReadsBack(
    p: Primitives, codec: Codec, data: Json, secretKey: string, options: EncryptionOptions, entropy: Entropy,
    itemType: string, title: string, id: string)
    requires AeadCorrect(p) && SealsWithTag(p)
    requires RoundTrips(codec, data)
    requires p.utf8Decode(p.utf8Encode(codec.stringify(data))) == codec.stringify(data)
    requires RecoverableOptions(options)
    requires Encrypt(p, codec.stringify(data), secretKey, options, entropy).Success?
    ensures
      var req := AddRequestOf(itemType, title, Encrypt(p, codec.stringify(data), secretKey, options, entropy).value);
      var listed := VaultItemDto(id, itemType, title, req.encryptedBlob, Some(req.encryption), None);
      DecryptDto(p, codec, listed, secretKey).decryptedData == Some(data)
  {
    var text := codec.stringify(data);
    var env := Encrypt(p, text, secretKey, options, entropy).value;
    DecryptEncrypt(p, text, secretKey, options, entropy);
    var salt := GenerateSalt(entropy);
    var key := DeriveKey(p, secretKey, salt, options).value;
    var sealed := EncryptData(p, text, key, GenerateIV(entropy)).value;
    assert |sealed| >= 16;
    assert |Base64.Encode(sealed)| > 0 by {
      assert |Base64.EncodeUnpadded(sealed)| > 0;
    }
  }

  /** `CreateVaultItemRequest`, with its `data` as a JSON value. */
  datatype CreateVaultItemRequest = CreateVaultItemRequest(
    vaultId: string, itemType: string, name: string, data: Json,
    favorite: Option<bool>, folder: Option<string>, notes: Option<string>)

  /** The body `createVaultItem` posts. */
  datatype CreateItemBody = CreateItemBody(
    vaultId: string, itemType: string, name: string, favorite: bool,
    folder: Option<string>, notes: Option<string>, encryptedData: EncryptedData)

  /** A returned item: the server's answer spread, with `data` set over it. */
  datatype ReturnedItem = ReturnedItem(response: JsonObject, data: Option<Json>)

  type PostItemCall = (string, CreateItemBody) -> Result<JsonObject, string>

  function CreateBodyOf(itemData: CreateVaultItemRequest, env: EncryptedData): (body: CreateItemBody)
    ensures body.favorite <==> itemData.favorite == Some(true)
    ensures body.vaultId == itemData.vaultId && body.itemType == itemData.itemType && body.name == itemData.name
    ensures body.folder == itemData.folder && body.notes == itemData.notes && body.encryptedData == env
  {
    CreateItemBody(itemData.vaultId, itemData.itemType, itemData.name, itemData.favorite == Some(true),
                   itemData.folder, itemData.notes, env)
  }

  /** `createVaultItem`: the data is encrypted, the item posted, and the caller's own
      plaintext `data` returned over the server's answer. */
  function CreateVaultItem(
    p: Primitives, codec: Codec, post: PostItemCall, itemData: CreateVaultItemRequest,
    secretKey: string, options: EncryptionOptions, entropy: Entropy)
    : (r: Result<ReturnedItem, string>)
    ensures r.Success? ==> r.value.data == Some(itemData.data)
    ensures r.Success? ==>
      Encrypt(p, codec.stringify(itemData.data), secretKey, options, entropy).Success? &&
      post(itemData.vaultId, CreateBodyOf(itemData, Encrypt(p, codec.stringify(itemData.data), secretKey, options, entropy).value))
        == Success(r.value.response)
    ensures Encrypt(p, codec.stringify(itemData.data), secretKey, options, entropy).Failure? ==>
      r == Failure(Encrypt(p, codec.stringify(itemData.data), secretKey, options, entropy).error)
    ensures Encrypt(p, codec.stringify(itemData.data), secretKey, options, entropy).Success? ==>
      var posted := post(itemData.vaultId, CreateBodyOf(itemData, Encrypt(p, codec.stringify(itemData.data), secretKey, options, entropy).value));
      (posted.Success? ==> r == Success(ReturnedItem(posted.value, Some(itemData.data)))) &&
      (posted.Failure? ==> r == Failure(posted.error))
  {
    match Encrypt(p, codec.stringify(itemData.data), secretKey, options, entropy)
    case Failure(e) => Failure(e)
    case Success(env) =>
      match post(itemData.vaultId, CreateBodyOf(itemData, env))
      case Failure(e) => Failure(e)
      case Success(response) => Success(ReturnedItem(response, Some(itemData.data)))
  }

  /** `UpdateVaultItemRequest`, with its `data` as a JSON value. */
  datatype UpdateVaultItemRequest = UpdateVaultItemRequest(
    id: string, name: Option<string>, data: Option<Json>,
    favorite: Option<bool>, folder: Option<string>, notes: Option<string>)

  /** The body `updateVaultItem` puts; `encryptedData` is set only when data is updated. */
  datatype UpdateItemBody = UpdateItemBody(
    name: Option<string>, favorite: Option<bool>, folder: Option<string>, notes: Option<string>,
    encryptedData: Option<EncryptedData>)

  type PutItemCall = (string, UpdateItemBody) -> Result<JsonObject, string>

  predicate UpdatesData(itemData: UpdateVaultItemRequest) {
    itemData.data.Some? && Truthy(itemData.data.value)
  }

  /** The body of `updateVaultItem`, given the encryption outcome of its data. */
  function UpdateBodyOf(p: Primitives, codec: Codec, itemData: UpdateVaultItemRequest,
                        secretKey: string, options: EncryptionOptions, entropy: Entropy)
    : (r: Result<UpdateItemBody, string>)
    ensures r.Success? ==> (r.value.encryptedData.Some? <==> UpdatesData(itemData))
    ensures r.Success? ==>
      r.value.name == itemData.name && r.value.favorite == itemData.favorite &&
      r.value.folder == itemData.folder && r.value.notes == itemData.notes
    ensures r.Success? && UpdatesData(itemData) ==>
      Encrypt(p, codec.stringify(itemData.data.value), secretKey, options, entropy) == Success(r.value.encryptedData.value)
    ensures !UpdatesData(itemData) ==> r.Success?
  {
    var body := UpdateItemBody(itemData.name, itemData.favorite, itemData.folder, itemData.notes, None);
    if UpdatesData(itemData) then
      match Encrypt(p, codec.stringify(itemData.data.value), secretKey, options, entropy)
      case Failure(e) => Failure(e)
      case Success(env) => Success(body.(encryptedData := Some(env)))
    else Success(body)
  }

  /** `updateVaultItem`: the request is put to the server; when the answer carries an
      envelope it is decrypted and parsed, and the returned `data` is that value when
      truthy and otherwise the caller's own `data`. */
  function UpdateVaultItem(
    p: Primitives, codec: Codec, put: PutItemCall, itemData: UpdateVaultItemRequest,
    secretKey: string, options: EncryptionOptions, entropy: Entropy)
    : (r: Result<ReturnedItem, string>)
    ensures r.Success? ==> UpdateBodyOf(p, codec, itemData, secretKey, options, entropy).Success?
    ensures r.Success? ==>
      put(itemData.id, UpdateBodyOf(p, codec, itemData, secretKey, options, entropy).value) == Success(r.value.response)
    ensures r.Success? && !("encryptedData" in r.value.response && Truthy(r.value.response["encryptedData"])) ==>
      r.value.data == itemData.data
    ensures UpdateBodyOf(p, codec, itemData, secretKey, options, entropy).Failure? ==>
      r == Failure(UpdateBodyOf(p, codec, itemData, secretKey, options, entropy).error)
    ensures UpdateBodyOf(p, codec, itemData, secretKey, options, entropy).Success? ==>
      var answer := put(itemData.id, UpdateBodyOf(p, codec, itemData, secretKey, options, entropy).value);
      (answer.Failure? ==> r == Failure(answer.error)) &&
      (answer.Success? && !("encryptedData" in answer.value && Truthy(answer.value["encryptedData"])) ==>
        r == Success(ReturnedItem(answer.value, itemData.data)))
  {
    match UpdateBodyOf(p, codec, itemData, secretKey, options, entropy)
    case Failure(e) => Failure(e)
    case Success(body) =>
      match put(itemData.id, body)
      case Failure(e) => Failure(e)
      case Success(response) =>
        if "encryptedData" in response && Truthy(response["encryptedData"]) then
          match AsEnvelope(response["encryptedData"])
          case None => Failure(DecryptPrefix + JsStrings.TypeErrorMessage)
          case Some(env) =>
            match Decrypt(p, env, secretKey)
            case Failure(e) => Failure(e)
            case Success(text) =>
              match codec.parse(text)
              case None => Failure(ParseError)
              case Some(decrypted) =>
                Success(ReturnedItem(response, if Truthy(decrypted) then Some(decrypted) else itemData.data))
        else Success(ReturnedItem(response, itemData.data))
  }

  /** The answer's envelope in `updateVaultItem`: when the server's answer carries
      truthy `encryptedData`, a malformed envelope, a failed decryption and an
      unparsable plaintext each fail the call, and otherwise the returned `data` is
      the parsed plaintext when truthy and the caller's own `data` when not. */
  lemma UpdateAnswerCases(
    p: Primitives, codec: Codec, put: PutItemCall, itemData: UpdateVaultItemRequest,
    secretKey: string, options: EncryptionOptions, entropy: Entropy, response: JsonObject)
    requires UpdateBodyOf(p, codec, itemData, secretKey, options, entropy).Success?
    requires put(itemData.id, UpdateBodyOf(p, codec, itemData, secretKey, options, entropy).value) == Success(response)
    requires "encryptedData" in response && Truthy(response["encryptedData"])
    ensures AsEnvelope(response["encryptedData"]).None? ==>
      UpdateVaultItem(p, codec, put, itemData, secretKey, options, entropy) == Failure(DecryptPrefix + JsStrings.TypeErrorMessage)
    ensures AsEnvelope(response["encryptedData"]).Some? ==>
      var text := Decrypt(p, AsEnvelope(response["encryptedData"]).value, secretKey);
      (text.Failure? ==> UpdateVaultItem(p, codec, put, itemData, secretKey, options, entropy) == Failure(text.error)) &&
      (text.Success? && codec.parse(text.value).None? ==>
        UpdateVaultItem(p, codec, put, itemData, secretKey, options, entropy) == Failure(ParseError)) &&
      (text.Success? && codec.parse(text.value).Some? ==>
        var d := codec.parse(text.value).value;
        UpdateVaultItem(p, codec, put, itemData, secretKey, options, entropy) ==
          Success(ReturnedItem(response, if Truthy(d) then Some(d) else itemData.data)))
  {
  }
}
