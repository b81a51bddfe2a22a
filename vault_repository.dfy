/** The API's vault repository over the vault table. Each vault row holds its
    items; every item read back has its `encryption` column normalised (`null`
    stays `null`, an object is taken as it is, a string is parsed, anything else is
    an error), and one failing item fails the whole read. The table stands for the
    Prisma-backed database; ids are handed out by counters, timestamps are not
    modelled, and rows are kept in insertion order. */
module VaultRepository {
  import opened Wrappers
  import opened Json

  /** What a repository call can throw: the normaliser's own error, `JSON.parse`
      failing on a string column, and Prisma's error for an update or a delete whose
      row does not exist. */
  datatype RepoError = InvalidEncryptionFormat | EncryptionParseError | RecordNotFound

  const InvalidEncryptionFormatMessage: string := "Invalid encryption format"

  /** A stored item; `encryption` is the raw JSON column. */
  datatype StoredItem = StoredItem(id: nat, vaultId: nat, itemType: string, title: string, encryptedBlob: string, encryption: Json)
  datatype StoredVault = StoredVault(id: nat, userId: string, name: string, description: Option<string>, items: seq<StoredItem>)

  /** What the repository returns. */
  datatype VaultItem = VaultItem(id: nat, vaultId: nat, itemType: string, title: string, encryptedBlob: string, encryption: Option<Json>)
  datatype Vault = Vault(id: nat, userId: string, name: string, description: Option<string>, items: seq<VaultItem>)

  /** The item data `addItem` takes. */
  datatype NewItem = NewItem(itemType: string, title: string, encryptedBlob: string, encryption: Option<Json>)

  /** A Prisma `where` over vaults: every given field must be equal. */
  datatype VaultFilter = VaultFilter(id: Option<nat>, userId: Option<string>, name: Option<string>)

  predicate Matches(f: VaultFilter, v: StoredVault) {
    (f.id.None? || f.id.value == v.id) &&
    (f.userId.None? || f.userId.value == v.userId) &&
    (f.name.None? || f.name.value == v.name)
  }

  function ById(id: nat): VaultFilter {
    VaultFilter(Some(id), None, None)
  }

  function ByUser(userId: string): VaultFilter {
    VaultFilter(None, Some(userId), None)
  }

  // ---------------------------------------------------------------------------
  // The encryption column

  /** `normalizeEncryption`. `JSON.parse("null")` gives `null` back, so a string
      column can normalise to `null` too. */
  function NormalizeEncryption(codec: Codec, e: Json): (r: Result<Option<Json>, RepoError>)
    ensures r.Failure? <==> e.JBool? || e.JNumber? || (e.JString? && codec.parse(e.s).None?)
    ensures r.Failure? ==> r.error == (if e.JString? then EncryptionParseError else InvalidEncryptionFormat)
    ensures r == Success(None) <==> e == JNull || (e.JString? && codec.parse(e.s) == Some(JNull))
  {
    match e
    case JNull => Success(None)
    case JObject(_) => Success(Some(e))
    case JArray(_) => Success(Some(e))
    case JString(s) =>
      (match codec.parse(s)
       case None => Failure(EncryptionParseError)
       case Some(v) => if v == JNull then Success(None) else Success(Some(v)))
    case _ => Failure(InvalidEncryptionFormat)
  }

  /** What `addItem` writes to the column: the given value, or JSON `null` for a
      missing (falsy) one. */
  function StoredEncryption(encryption: Option<Json>): (e: Json)
    ensures encryption.None? ==> e == JNull
    ensures encryption.Some? && Truthy(encryption.value) ==> e == encryption.value
  {
    if encryption.Some? && Truthy(encryption.value) then encryption.value else JNull
  }

  /** Reading back what `addItem` wrote gives the item's encryption again, for a
      missing one and for an encryption object alike. */
  lemma EncryptionRoundTrip(codec: Codec, encryption: Option<Json>)
    requires encryption.None? || encryption.value.JObject?
    ensures NormalizeEncryption(codec, StoredEncryption(encryption)) == Success(encryption)
  {
  }

  // ---------------------------------------------------------------------------
  // Rows to results

  function MapItem(codec: Codec, it: StoredItem): (r: Result<VaultItem, RepoError>)
    ensures r.Success? <==> NormalizeEncryption(codec, it.encryption).Success?
    ensures r.Success? ==> r.value == VaultItem(it.id, it.vaultId, it.itemType, it.title, it.encryptedBlob,
      NormalizeEncryption(codec, it.encryption).value)
  {
    match NormalizeEncryption(codec, it.encryption)
    case Failure(e) => Failure(e)
    case Success(enc) => Success(VaultItem(it.id, it.vaultId, it.itemType, it.title, it.encryptedBlob, enc))
  }

  /** `items.map(...)`: every item mapped, in order; the first failure fails all. */
  function MapItems(codec: Codec, items: seq<StoredItem>): (r: Result<seq<VaultItem>, RepoError>)
    ensures r.Success? <==> forall k :: 0 <= k < |items| ==> MapItem(codec, items[k]).Success?
    ensures r.Success? ==> |r.value| == |items| && forall k :: 0 <= k < |items| ==> r.value[k] == MapItem(codec, items[k]).value
  {
    if items == [] then Success([])
    else
      match MapItem(codec, items[0])
      case Failure(e) => Failure(e)
      case Success(head) =>
        match MapItems(codec, items[1..])
        case Failure(e) =>
          assert !MapItem(codec, items[1..][IndexOfFailure(codec, items[1..])]).Success?;
          Failure(e)
        case Success(tail) =>
          assert forall k :: 1 <= k < |items| ==> items[k] == items[1..][k - 1];
          Success([head] + tail)
  }

  /** The position of a failing item, where there is one. */
  function IndexOfFailure(codec: Codec, items: seq<StoredItem>): (i: nat)
    requires exists k :: 0 <= k < |items| && !MapItem(codec, items[k]).Success?
    ensures i < |items| && !MapItem(codec, items[i]).Success?
  {
    if !MapItem(codec, items[0]).Success? then 0
    else
      assert exists k :: 1 <= k < |items| && !MapItem(codec, items[k]).Success?;
      assert exists k :: 0 <= k < |items[1..]| && !MapItem(codec, items[1..][k]).Success? by {
        var k :| 1 <= k < |items| && !MapItem(codec, items[k]).Success?;
        assert items[1..][k - 1] == items[k];
      }
      1 + IndexOfFailure(codec, items[1..])
  }

  function ToVault(codec: Codec, v: StoredVault): (r: Result<Vault, RepoError>)
    ensures r.Success? <==> MapItems(codec, v.items).Success?
    ensures r.Success? ==> r.value == Vault(v.id, v.userId, v.name, v.description, MapItems(codec, v.items).value)
  {
    match MapItems(codec, v.items)
    case Failure(e) => Failure(e)
    case Success(items) => Success(Vault(v.id, v.userId, v.name, v.description, items))
  }

  /** Appending an item whose encryption reads back appends its mapped item and
      keeps every earlier one. */
  lemma {:induction false} MapItemsAppend(codec: Codec, items: seq<StoredItem>, it: StoredItem)
    requires MapItems(codec, items).Success? && MapItem(codec, it).Success?
    ensures MapItems(codec, items + [it]) == Success(MapItems(codec, items).value + [MapItem(codec, it).value])
  {
    var all := items + [it];
    assert forall k :: 0 <= k < |items| ==> all[k] == items[k];
    assert all[|items|] == it;
    var r := MapItems(codec, all);
    assert r.Success?;
    assert r.value == MapItems(codec, items).value + [MapItem(codec, it).value];
  }

  /** `addItem` reads back the vault with every earlier item and the new one last,
      whenever the earlier items read back and the new item's encryption is missing
      or an object. */
  lemma AddedItemReadsBack(codec: Codec, v: StoredVault, id: nat, item: NewItem)
    requires MapItems(codec, v.items).Success?
    requires item.encryption.None? || item.encryption.value.JObject?
    ensures var added := StoredItem(id, v.id, item.itemType, item.title, item.encryptedBlob, StoredEncryption(item.encryption));
      ToVault(codec, v.(items := v.items + [added])) ==
        Success(Vault(v.id, v.userId, v.name, v.description,
          MapItems(codec, v.items).value + [VaultItem(id, v.id, item.itemType, item.title, item.encryptedBlob, item.encryption)]))
  {
    var added := StoredItem(id, v.id, item.itemType, item.title, item.encryptedBlob, StoredEncryption(item.encryption));
    EncryptionRoundTrip(codec, item.encryption);
    MapItemsAppend(codec, v.items, added);
  }

  // ---------------------------------------------------------------------------
  // Selections over the table

  /** `findFirst`: the first row the filter matches. */
  function FindFirst(vaults: seq<StoredVault>, f: VaultFilter): (v: Option<StoredVault>)
    ensures v.None? <==> forall k :: 0 <= k < |vaults| ==> !Matches(f, vaults[k])
    ensures v.Some? ==> exists k :: (0 <= k < |vaults| && vaults[k] == v.value && Matches(f, v.value) &&
      forall j :: 0 <= j < k ==> !Matches(f, vaults[j]))
  {
    if vaults == [] then None
    else if Matches(f, vaults[0]) then Some(vaults[0])
    else
      var r := FindFirst(vaults[1..], f);
      assert forall k :: 1 <= k < |vaults| ==> vaults[k] == vaults[1..][k - 1];
      assert r.Some? ==> exists k :: (1 <= k < |vaults| && vaults[k] == r.value && Matches(f, r.value) &&
        forall j :: 0 <= j < k ==> !Matches(f, vaults[j])) by {
        if r.Some? {
          var k :| (0 <= k < |vaults[1..]| && vaults[1..][k] == r.value && Matches(f, r.value) &&
            forall j :: 0 <= j < k ==> !Matches(f, vaults[1..][j]));
          assert vaults[k + 1] == r.value;
          assert forall j :: 1 <= j < k + 1 ==> vaults[j] == vaults[1..][j - 1];
        }
      }
      r
  }

  /** The rows the filter matches, in order (`findMany`). */
  function Matching(vaults: seq<StoredVault>, f: VaultFilter): (r: seq<StoredVault>)
    ensures |r| <= |vaults|
    ensures forall v :: v in r <==> v in vaults && Matches(f, v)
  {
    if vaults == [] then []
    else (if Matches(f, vaults[0]) then [vaults[0]] else []) + Matching(vaults[1..], f)
  }

  /** The rows the filter does not match, in order: what `deleteMany` leaves. */
  function Kept(vaults: seq<StoredVault>, f: VaultFilter): (r: seq<StoredVault>)
    ensures |r| <= |vaults|
    ensures forall v :: v in r <==> v in vaults && !Matches(f, v)
  {
    if vaults == [] then []
    else (if Matches(f, vaults[0]) then [] else [vaults[0]]) + Kept(vaults[1..], f)
  }

  /** Deleting with a filter that matches nothing changes nothing. */
  lemma {:induction false} KeptNoMatch(vaults: seq<StoredVault>, f: VaultFilter)
    requires forall k :: 0 <= k < |vaults| ==> !Matches(f, vaults[k])
    ensures Kept(vaults, f) == vaults
  {
    if vaults != [] {
      assert forall k :: 0 <= k < |vaults[1..]| ==> vaults[1..][k] == vaults[k + 1];
      KeptNoMatch(vaults[1..], f);
    }
  }

  /** The matched and the kept rows split the table: each row is in exactly one. */
  lemma {:induction false} MatchingKeptSplit(vaults: seq<StoredVault>, f: VaultFilter)
    ensures |Matching(vaults, f)| + |Kept(vaults, f)| == |vaults|
  {
    if vaults != [] {
      MatchingKeptSplit(vaults[1..], f);
    }
  }

  /** Every row read back, in order; the first failure fails all. */
  function MapVaults(codec: Codec, vaults: seq<StoredVault>): (r: Result<seq<Vault>, RepoError>)
    ensures r.Success? ==> |r.value| == |vaults| && forall k :: 0 <= k < |vaults| ==> ToVault(codec, vaults[k]) == Success(r.value[k])
    ensures r.Success? <==> forall k :: 0 <= k < |vaults| ==> ToVault(codec, vaults[k]).Success?
  {
    if vaults == [] then Success([])
    else
      match ToVault(codec, vaults[0])
      case Failure(e) => Failure(e)
      case Success(head) =>
        match MapVaults(codec, vaults[1..])
        case Failure(e) => Failure(e)
        case Success(tail) =>
          assert forall k :: 1 <= k < |vaults| ==> vaults[k] == vaults[1..][k - 1];
          Success([head] + tail)
  }

  /** The position of the row with the id, if there is one. */
  function IndexOfId(vaults: seq<StoredVault>, id: nat): (i: nat)
    ensures i <= |vaults|
    ensures i < |vaults| ==> vaults[i].id == id
    ensures i == |vaults| ==> forall k :: 0 <= k < |vaults| ==> vaults[k].id != id
  {
    if vaults == [] then 0
    else if vaults[0].id == id then 0
    else
      assert forall k :: 1 <= k < |vaults| ==> vaults[k] == vaults[1..][k - 1];
      1 + IndexOfId(vaults[1..], id)
  }

  /** With unique ids, the first row with an id is the row at its position. */
  lemma FindFirstById(vaults: seq<StoredVault>, id: nat)
    requires forall i, j :: 0 <= i < j < |vaults| ==> vaults[i].id != vaults[j].id
    ensures IndexOfId(vaults, id) == |vaults| ==> FindFirst(vaults, ById(id)) == None
    ensures IndexOfId(vaults, id) < |vaults| ==> FindFirst(vaults, ById(id)) == Some(vaults[IndexOfId(vaults, id)])
  {
    var i := IndexOfId(vaults, id);
    var v := FindFirst(vaults, ById(id));
    if i < |vaults| {
      assert Matches(ById(id), vaults[i]);
      var k :| 0 <= k < |vaults| && vaults[k] == v.value;
      assert k == i;
    }
  }

  class VaultTable {
    var vaults: seq<StoredVault>
    var nextVaultId: nat
    var nextItemId: nat

    constructor ()
      ensures vaults == [] && nextVaultId == 0 && nextItemId == 0 && Valid()
    {
      vaults := [];
      nextVaultId := 0;
      nextItemId := 0;
    }

    /** Vault ids are unique and below the counter. */
    predicate Valid()
      reads this
    {
      (forall i, j :: 0 <= i < j < |vaults| ==> vaults[i].id != vaults[j].id) &&
      (forall i :: 0 <= i < |vaults| ==> vaults[i].id < nextVaultId)
    }

    /** `create`: a new vault without items. */
    method Create(name: string, userId: string, description: Option<string>) returns (v: Vault)
      requires Valid()
      modifies this
      ensures vaults == old(vaults) + [StoredVault(old(nextVaultId), userId, name, description, [])]
      ensures v == Vault(old(nextVaultId), userId, name, description, [])
      ensures nextVaultId == old(nextVaultId) + 1 && nextItemId == old(nextItemId)
      ensures Valid()
    {
      vaults := vaults + [StoredVault(nextVaultId, userId, name, description, [])];
      v := Vault(nextVaultId, userId, name, description, []);
      nextVaultId := nextVaultId + 1;
    }

    /** `existsBy({ userId, name })`. */
    predicate ExistsBy(userId: string, name: string)
      reads this
    {
      FindFirst(vaults, VaultFilter(None, Some(userId), Some(name))).Some?
    }

    /** `findBy`: `null` when no row matches, else the first match read back. */
    function FindBy(codec: Codec, f: VaultFilter): (r: Result<Option<Vault>, RepoError>)
      reads this
      ensures r == Success(None) <==> forall k :: 0 <= k < |vaults| ==> !Matches(f, vaults[k])
      ensures r.Success? && r.value.Some? ==>
        exists k :: 0 <= k < |vaults| && Matches(f, vaults[k]) && (forall j :: 0 <= j < k ==> !Matches(f, vaults[j])) &&
          ToVault(codec, vaults[k]) == Success(r.value.value)
      ensures r.Failure? <==> FindFirst(vaults, f).Some? && ToVault(codec, FindFirst(vaults, f).value).Failure?
    {
      match FindFirst(vaults, f)
      case None => Success(None)
      case Some(v) =>
        match ToVault(codec, v)
        case Failure(e) => Failure(e)
        case Success(vault) => Success(Some(vault))
    }

    /** `findAllBy`. */
    function FindAllBy(codec: Codec, f: VaultFilter): (r: Result<seq<Vault>, RepoError>)
      reads this
      ensures r.Success? ==> |r.value| == |Matching(vaults, f)|
      ensures r.Success? ==> forall k :: 0 <= k < |r.value| ==> ToVault(codec, Matching(vaults, f)[k]) == Success(r.value[k])
      ensures r.Success? ==> forall k :: 0 <= k < |r.value| ==> exists v :: v in vaults && Matches(f, v) && ToVault(codec, v) == Success(r.value[k])
      ensures r.Success? <==> forall v :: v in Matching(vaults, f) ==> ToVault(codec, v).Success?
    {
      var r := MapVaults(codec, Matching(vaults, f));
      assert r.Success? ==> forall k :: 0 <= k < |r.value| ==> Matching(vaults, f)[k] in Matching(vaults, f);
      r
    }

    /** `delete({ id })`; a missing id is Prisma's not-found error. */
    method Delete(id: nat) returns (r: Result<(), RepoError>)
      requires Valid()
      modifies this
      ensures IndexOfId(old(vaults), id) < |old(vaults)| ==> r.Success? && vaults == Kept(old(vaults), ById(id))
      ensures IndexOfId(old(vaults), id) == |old(vaults)| ==> r == Failure(RecordNotFound) && vaults == old(vaults)
      ensures nextVaultId == old(nextVaultId) && nextItemId == old(nextItemId) && Valid()
    {
      if IndexOfId(vaults, id) == |vaults| {
        return Failure(RecordNotFound);
      }
      KeptPreservesValid(vaults, ById(id), nextVaultId);
      vaults := Kept(vaults, ById(id));
      r := Success(());
    }

    /** `deleteAllBy`. */
    method DeleteAllBy(f: VaultFilter)
      requires Valid()
      modifies this
      ensures vaults == Kept(old(vaults), f)
      ensures nextVaultId == old(nextVaultId) && nextItemId == old(nextItemId) && Valid()
    {
      KeptPreservesValid(vaults, f, nextVaultId);
      vaults := Kept(vaults, f);
    }

    /** `addItem`: the item is appended to the vault's items, and the whole vault is
        read back. A missing vault is Prisma's not-found error. */
    method AddItem(codec: Codec, vaultId: nat, item: NewItem) returns (r: Result<Vault, RepoError>)
      requires Valid()
      modifies this
      ensures IndexOfId(old(vaults), vaultId) == |old(vaults)| ==>
        r == Failure(RecordNotFound) && vaults == old(vaults) && nextItemId == old(nextItemId)
      ensures IndexOfId(old(vaults), vaultId) < |old(vaults)| ==>
        var i := IndexOfId(old(vaults), vaultId);
        var added := StoredItem(old(nextItemId), vaultId, item.itemType, item.title, item.encryptedBlob, StoredEncryption(item.encryption));
        var updated := old(vaults)[i].(items := old(vaults)[i].items + [added]);
        vaults == old(vaults)[i := updated] && nextItemId == old(nextItemId) + 1 &&
        r == ToVault(codec, updated)
      ensures nextVaultId == old(nextVaultId) && Valid()
    {
      var i := IndexOfId(vaults, vaultId);
      if i == |vaults| {
        return Failure(RecordNotFound);
      }
      var added := StoredItem(nextItemId, vaultId, item.itemType, item.title, item.encryptedBlob, StoredEncryption(item.encryption));
      var updated := vaults[i].(items := vaults[i].items + [added]);
      vaults := vaults[i := updated];
      nextItemId := nextItemId + 1;
      r := ToVault(codec, updated);
    }
  }

  lemma KeptPreservesValid(vaults: seq<StoredVault>, f: VaultFilter, next: nat)
    requires forall i, j :: 0 <= i < j < |vaults| ==> vaults[i].id != vaults[j].id
    requires forall i :: 0 <= i < |vaults| ==> vaults[i].id < next
    ensures forall i, j :: 0 <= i < j < |Kept(vaults, f)| ==> Kept(vaults, f)[i].id != Kept(vaults, f)[j].id
    ensures forall i :: 0 <= i < |Kept(vaults, f)| ==> Kept(vaults, f)[i].id < next
  {
    KeptSubsequence(vaults, f);
  }

  /** A kept row keeps its relative order: rows of the kept list come from
      increasing positions of the table. */
  lemma {:induction false} KeptSubsequence(vaults: seq<StoredVault>, f: VaultFilter)
    requires forall i, j :: 0 <= i < j < |vaults| ==> vaults[i].id != vaults[j].id
    ensures forall i, j :: 0 <= i < j < |Kept(vaults, f)| ==> Kept(vaults, f)[i].id != Kept(vaults, f)[j].id
  {
    if vaults != [] {
      var tail := vaults[1..];
      assert forall i, j :: 0 <= i < j < |tail| ==> tail[i].id != tail[j].id by {
        forall i, j | 0 <= i < j < |tail| ensures tail[i].id != tail[j].id {
          assert tail[i] == vaults[i + 1] && tail[j] == vaults[j + 1];
        }
      }
      KeptSubsequence(tail, f);
      var rest := Kept(tail, f);
      if !Matches(f, vaults[0]) {
        var r := [vaults[0]] + rest;
        assert Kept(vaults, f) == r;
        forall j | 0 < j < |r| ensures r[0].id != r[j].id {
          assert r[j] in rest;
          assert r[j] in tail;
          var m :| 0 <= m < |tail| && tail[m] == r[j];
          assert tail[m] == vaults[m + 1];
        }
        assert forall i, j :: 0 < i < j < |r| ==> r[i] == rest[i - 1] && r[j] == rest[j - 1];
      }
    }
  }
}
