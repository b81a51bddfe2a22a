/** The API's vault service over the vault repository: a user's vault names are
    unique, deletion only ever touches the caller's own vaults, and items are added
    to any existing vault (ownership is not checked). */
module ServerVaultService {
  import opened Wrappers
  import opened Json
  import opened VaultRepository

  const VaultAlreadyExistsPrefix: string := "이미 존재하는 Vault 이름입니다: "

  datatype VaultError =
    | VaultAlreadyExists(name: string)
    | VaultNotFound(vaultId: nat)
    | Repository(error: RepoError)

  /** The message `VaultAlreadyExistsError` carries. */
  function VaultAlreadyExistsMessage(name: string): (m: string)
    ensures |m| == |VaultAlreadyExistsPrefix| + |name| && m[|VaultAlreadyExistsPrefix|..] == name
  {
    VaultAlreadyExistsPrefix + name
  }

  /** `description || ''`. */
  function DescriptionOf(description: Option<string>): (d: string)
    ensures description.Some? ==> d == description.value
    ensures description.None? ==> d == ""
  {
    if description.Some? && description.value != "" then description.value else ""
  }

  /** Whether the user owns a vault with the name. */
  predicate Owns(vaults: seq<StoredVault>, userId: string, name: string) {
    exists k :: 0 <= k < |vaults| && vaults[k].userId == userId && vaults[k].name == name
  }

  /** `createVault`: a name the user already has is refused and nothing is created;
      otherwise one vault with that name, user and description is added. */
  method CreateVault(table: VaultTable, userId: string, vaultName: string, description: Option<string>)
    returns (r: Result<Vault, VaultError>)
    requires table.Valid()
    modifies table
    ensures table.Valid()
    ensures old(Owns(table.vaults, userId, vaultName)) ==>
      r == Failure(VaultAlreadyExists(vaultName)) && table.vaults == old(table.vaults)
    ensures !old(Owns(table.vaults, userId, vaultName)) ==>
      table.vaults == old(table.vaults) + [StoredVault(old(table.nextVaultId), userId, vaultName, Some(DescriptionOf(description)), [])] &&
      r == Success(Vault(old(table.nextVaultId), userId, vaultName, Some(DescriptionOf(description)), []))
  {
    if table.ExistsBy(userId, vaultName) {
      return Failure(VaultAlreadyExists(vaultName));
    }
    var v := table.Create(vaultName, userId, Some(DescriptionOf(description)));
    r := Success(v);
  }

  /** A user's vault names stay unique under `createVault`. */
  lemma CreateKeepsNamesUnique(vaults: seq<StoredVault>, row: StoredVault)
    requires forall i, j :: 0 <= i < j < |vaults| && vaults[i].userId == vaults[j].userId ==> vaults[i].name != vaults[j].name
    requires !Owns(vaults, row.userId, row.name)
    ensures var after := vaults + [row];
      forall i, j :: 0 <= i < j < |after| && after[i].userId == after[j].userId ==> after[i].name != after[j].name
  {
    var after := vaults + [row];
    forall i, j | 0 <= i < j < |after| && after[i].userId == after[j].userId
      ensures after[i].name != after[j].name
    {
      if j == |vaults| {
        assert after[i] == vaults[i];
      }
    }
  }

  /** `getVaults`: exactly the user's vaults, read back. */
  function GetVaults(table: VaultTable, codec: Codec, userId: string): (r: Result<seq<Vault>, VaultError>)
    reads table
    ensures r.Success? ==> |r.value| == |Matching(table.vaults, ByUser(userId))|
    ensures r.Success? ==> forall k :: 0 <= k < |r.value| ==> r.value[k].userId == userId
    ensures r.Success? ==> forall k :: 0 <= k < |r.value| ==>
      ToVault(codec, Matching(table.vaults, ByUser(userId))[k]) == Success(r.value[k])
    ensures r.Success? <==> forall v :: v in Matching(table.vaults, ByUser(userId)) ==> ToVault(codec, v).Success?
  {
    match table.FindAllBy(codec, ByUser(userId))
    case Failure(e) => Failure(Repository(e))
    case Success(vaults) =>
      assert forall k :: 0 <= k < |vaults| ==> vaults[k].userId == userId by {
        forall k | 0 <= k < |vaults| ensures vaults[k].userId == userId {
          var v :| v in table.vaults && Matches(ByUser(userId), v) && ToVault(codec, v) == Success(vaults[k]);
        }
      }
      Success(vaults)
  }

  /** The filter `deleteValut` looks the vault up with. */
  function Owned(vaultId: nat, userId: string): VaultFilter {
    VaultFilter(Some(vaultId), Some(userId), None)
  }

  /** `deleteValut`: the vault is deleted only when it has that id and belongs to
      that user; another user's vault and an unknown id change nothing. */
  method DeleteVault(table: VaultTable, codec: Codec, vaultId: nat, userId: string) returns (r: Result<(), VaultError>)
    requires table.Valid()
    modifies table
    ensures table.Valid()
    ensures r.Failure? ==> r.error.Repository? && table.vaults == old(table.vaults)
    ensures FindFirst(old(table.vaults), Owned(vaultId, userId)).None? ==>
      r.Success? && table.vaults == old(table.vaults)
    ensures r.Success? && FindFirst(old(table.vaults), Owned(vaultId, userId)).Some? ==>
      table.vaults == Kept(old(table.vaults), ById(vaultId))
    ensures r.Failure? <==>
      FindFirst(old(table.vaults), Owned(vaultId, userId)).Some? &&
      ToVault(codec, FindFirst(old(table.vaults), Owned(vaultId, userId)).value).Failure?
  {
    var found := table.FindBy(codec, Owned(vaultId, userId));
    if found.Failure? {
      return Failure(Repository(found.error));
    }
    if found.value.None? {
      return Success(());
    }
    var v := FindFirst(table.vaults, Owned(vaultId, userId)).value;
    assert v in table.vaults && v.id == vaultId;
    var deleted := table.Delete(vaultId);
    r := Success(());
  }

  /** With unique ids, the lookup `deleteValut` makes finds nothing when the vault
      with that id belongs to someone else or does not exist. */
  lemma OwnedLookup(vaults: seq<StoredVault>, vaultId: nat, userId: string)
    requires forall i, j :: 0 <= i < j < |vaults| ==> vaults[i].id != vaults[j].id
    ensures FindFirst(vaults, Owned(vaultId, userId)).None? <==>
      IndexOfId(vaults, vaultId) == |vaults| || vaults[IndexOfId(vaults, vaultId)].userId != userId
  {
    var i := IndexOfId(vaults, vaultId);
    var v := FindFirst(vaults, Owned(vaultId, userId));
    if v.Some? {
      var k :| 0 <= k < |vaults| && vaults[k] == v.value;
      assert k == i;
    } else if i < |vaults| {
      assert !Matches(Owned(vaultId, userId), vaults[i]);
    }
  }

  /** Deleting by id removes exactly the vault with that id, which is then gone,
      and no other vault. */
  lemma DeleteByIdRemovesOnlyIt(vaults: seq<StoredVault>, vaultId: nat)
    ensures forall v :: v in Kept(vaults, ById(vaultId)) <==> v in vaults && v.id != vaultId
  {
  }

  /** `deleteAllVaults`: a user without vaults causes no delete at all; otherwise
      every vault of the user goes and every other vault stays. */
  method DeleteAllVaults(table: VaultTable, codec: Codec, userId: string) returns (r: Result<(), VaultError>)
    requires table.Valid()
    modifies table
    ensures table.Valid()
    ensures r.Failure? ==> r.error.Repository? && table.vaults == old(table.vaults)
    ensures r.Success? ==> table.vaults == Kept(old(table.vaults), ByUser(userId))
    ensures Matching(old(table.vaults), ByUser(userId)) == [] ==> r.Success? && table.vaults == old(table.vaults)
    ensures r.Failure? <==> MapVaults(codec, Matching(old(table.vaults), ByUser(userId))).Failure?
  {
    var found := table.FindAllBy(codec, ByUser(userId));
    if found.Failure? {
      return Failure(Repository(found.error));
    }
    if |found.value| == 0 {
      assert forall k :: 0 <= k < |table.vaults| ==> !Matches(ByUser(userId), table.vaults[k]) by {
        forall k | 0 <= k < |table.vaults| ensures !Matches(ByUser(userId), table.vaults[k]) {
          assert table.vaults[k] in table.vaults;
        }
      }
      KeptNoMatch(table.vaults, ByUser(userId));
      return Success(());
    }
    table.DeleteAllBy(ByUser(userId));
    r := Success(());
  }

  /** The item data passed on: only type, title, blob and encryption. */
  function ItemOf(itemType: string, title: string, encryptedBlob: string, encryption: Option<Json>): NewItem {
    NewItem(itemType, title, encryptedBlob, encryption)
  }

  /** `addVaultItem`: an unknown vault id is `VaultNotFoundError` and nothing
      changes; otherwise the item goes to that vault, whoever owns it. */
  method AddVaultItem(table: VaultTable, codec: Codec, vaultId: nat, item: NewItem) returns (r: Result<Vault, VaultError>)
    requires table.Valid()
    modifies table
    ensures table.Valid()
    ensures IndexOfId(old(table.vaults), vaultId) == |old(table.vaults)| ==>
      r == Failure(VaultNotFound(vaultId)) && table.vaults == old(table.vaults)
    ensures IndexOfId(old(table.vaults), vaultId) < |old(table.vaults)| ==>
      var i := IndexOfId(old(table.vaults), vaultId);
      var before := ToVault(codec, old(table.vaults)[i]);
      var added := StoredItem(old(table.nextItemId), vaultId, item.itemType, item.title, item.encryptedBlob, StoredEncryption(item.encryption));
      (before.Failure? ==> r == Failure(Repository(before.error)) && table.vaults == old(table.vaults)) &&
      (before.Success? ==>
        table.vaults == old(table.vaults)[i := old(table.vaults)[i].(items := old(table.vaults)[i].items + [added])] &&
        r == (match ToVault(codec, table.vaults[i]) case Success(v) => Success(v) case Failure(e) => Failure(Repository(e))))
  {
    FindFirstById(table.vaults, vaultId);
    var found := table.FindBy(codec, ById(vaultId));
    if found.Failure? {
      return Failure(Repository(found.error));
    }
    if found.value.None? {
      return Failure(VaultNotFound(vaultId));
    }
    var added := table.AddItem(codec, vaultId, ItemOf(item.itemType, item.title, item.encryptedBlob, item.encryption));
    if added.Failure? {
      return Failure(Repository(added.error));
    }
    r := Success(added.value);
  }
}
