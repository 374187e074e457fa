/** The `config/vault` endpoint: the token and address the backend uses to
    reach the Vault API, and the client built from them. */
module VaultConfigStore {
  import opened Results
  import opened Records
  import Storage

  const VaultConfigPath := "config/vault"

  /** `nonLockedVaultConfigEntry`: the stored config, or `None`. */
  function LoadVaultConfig(s: Storage.Store): (r: Result<Option<VaultConfig>>)
    ensures s.fault.Some? ==> r == Err(StorageError(s.fault.value))
    ensures s.fault.None? ==> r.Ok? && (r.value.None? <==> VaultConfigPath !in s.entries)
    ensures r.Ok? && r.value.Some? ==> r.value.value == AsVaultConfig(s.entries[VaultConfigPath])
  {
    var entry :- Storage.Get(s, VaultConfigPath);
    match entry
    case None => Ok(None)
    case Some(e) => Ok(Some(AsVaultConfig(e)))
  }

  /** `pathVaultClientRead`: an absent config reads as no response. */
  function Read(s: Storage.Store): (r: Result<Response>)
    ensures s.fault.Some? ==> r == Err(StorageError(s.fault.value))
    ensures s.fault.None? && VaultConfigPath !in s.entries ==> r == Ok(NoResponse)
    ensures s.fault.None? && VaultConfigPath in s.entries ==>
              var c := AsVaultConfig(s.entries[VaultConfigPath]);
              r == Ok(DataResponse(map["token" := c.token, "address" := c.address]))
  {
    var c :- LoadVaultConfig(s);
    match c
    case None => Ok(NoResponse)
    case Some(c) => Ok(DataResponse(map["token" := c.token, "address" := c.address]))
  }

  /** A handler's result together with the store it leaves behind. */
  datatype Reply = Reply(store: Storage.Store, result: Result<Response>)

  /** `pathVaultClientDelete`: removes `config/vault` and nothing else. */
  function Delete(s: Storage.Store): (r: Reply)
    ensures s.fault.Some? ==> r == Reply(s, Err(StorageError(s.fault.value)))
    ensures s.fault.None? ==>
              r.result == Ok(NoResponse) && r.store.fault == s.fault &&
              r.store.entries == s.entries - {VaultConfigPath}
  {
    match Storage.Delete(s, VaultConfigPath)
    case Err(e) => Reply(s, Err(e))
    case Ok(s') => Reply(s', Ok(NoResponse))
  }

  /** The body of a create/update: `None` is a field the request did not
      supply (`GetOk` reports it missing); `Some("")` was supplied empty. */
  datatype VaultConfigRequest = VaultConfigRequest(token: Option<string>, address: Option<string>)

  /** A supplied field replaces the stored one, even when it is empty; an
      omitted field keeps its value. */
  function Merge(c: VaultConfig, req: VaultConfigRequest): (m: VaultConfig)
    ensures req.token.Some? ==> m.token == req.token.value
    ensures req.token.None? ==> m.token == c.token
    ensures req.address.Some? ==> m.address == req.address.value
    ensures req.address.None? ==> m.address == c.address
  {
    VaultConfig(req.token.GetOr(c.token), req.address.GetOr(c.address))
  }

  /** The config a create/update starts from: the stored one, or the zero
      config when there is none. */
  function Prior(s: Storage.Store): VaultConfig {
    if VaultConfigPath in s.entries then AsVaultConfig(s.entries[VaultConfigPath]) else ZeroVaultConfig
  }

  /** `pathVaultClientCreateUpdate`: a read-modify-write of `config/vault`. */
  function CreateUpdate(s: Storage.Store, req: VaultConfigRequest): (r: Reply)
    ensures s.fault.Some? ==> r == Reply(s, Err(StorageError(s.fault.value)))
    ensures s.fault.None? ==>
              r.result == Ok(NoResponse) && r.store.fault == s.fault &&
              r.store.entries == s.entries[VaultConfigPath := VaultEntry(Merge(Prior(s), req))]
  {
    match LoadVaultConfig(s)
    case Err(e) => Reply(s, Err(e))
    case Ok(prior) =>
      var c := Merge(prior.GetOr(ZeroVaultConfig), req);
      match Storage.Put(s, VaultConfigPath, VaultEntry(c))
      case Err(e) => Reply(s, Err(e))
      case Ok(s') => Reply(s', Ok(NoResponse))
  }

  /** A Vault API client, configured with a token and an address. */
  datatype VaultClient = VaultClient(token: string, address: string)

  /** `GetVaultClient`. `newClientError` is the outcome of `api.NewClient`
      on the default configuration, which comes from the environment. The
      code dereferences the stored config without a nil check, so a missing
      `config/vault` is excluded whenever the call gets that far. */
  function GetVaultClient(s: Storage.Store, newClientError: Option<Error>): (r: Result<VaultClient>)
    requires newClientError.None? && s.fault.None? ==> VaultConfigPath in s.entries
    ensures newClientError.Some? ==> r == Err(newClientError.value)
    ensures newClientError.None? && s.fault.Some? ==> r == Err(StorageError(s.fault.value))
    ensures newClientError.None? && s.fault.None? ==>
              var c := AsVaultConfig(s.entries[VaultConfigPath]);
              r == if c.token == "" then Err(MissingVaultToken)
                   else if c.address == "" then Err(MissingVaultAddress)
                   else Ok(VaultClient(c.token, c.address))
  {
    if newClientError.Some? then Err(newClientError.value)
    else
      var stored :- LoadVaultConfig(s);
      var c := stored.value;
      if c.token == "" then Err(MissingVaultToken)
      else if c.address == "" then Err(MissingVaultAddress)
      else Ok(VaultClient(c.token, c.address))
  }

  /** Round trip: after a create/update, the stored config is the merge of
      the prior one with the request, and reading returns exactly its token
      and address. */
  lemma CreateUpdateThenRead(s: Storage.Store, req: VaultConfigRequest)
    requires s.fault.None?
    ensures var m := Merge(Prior(s), req);
            Read(CreateUpdate(s, req).store) == Ok(DataResponse(map["token" := m.token, "address" := m.address]))
  {
  }

  /** A create with no config stored starts from empty token and address. */
  lemma CreateStartsFromZero(s: Storage.Store, req: VaultConfigRequest)
    requires s.fault.None? && VaultConfigPath !in s.entries
    ensures CreateUpdate(s, req).store.entries[VaultConfigPath]
            == VaultEntry(VaultConfig(req.token.GetOr(""), req.address.GetOr("")))
  {
  }

  /** After a delete, reading finds nothing. */
  lemma DeleteThenRead(s: Storage.Store)
    requires s.fault.None?
    ensures Read(Delete(s).store) == Ok(NoResponse)
  {
  }

  /** A client built right after a create/update that supplied both fields
      non-empty carries exactly those values. */
  lemma ClientAfterCreateUpdate(s: Storage.Store, token: string, address: string)
    requires s.fault.None? && token != "" && address != ""
    ensures var s' := CreateUpdate(s, VaultConfigRequest(Some(token), Some(address))).store;
            GetVaultClient(s', None) == Ok(VaultClient(token, address))
  {
  }

  /** Supplying an empty token clears it, and no client can then be built,
      whatever the address. */
  lemma EmptyTokenBlocksClient(s: Storage.Store, address: Option<string>)
    requires s.fault.None?
    ensures var s' := CreateUpdate(s, VaultConfigRequest(Some(""), address)).store;
            GetVaultClient(s', None) == Err(MissingVaultToken)
  {
  }

  /** A request that supplies no field leaves the config as it was. */
  lemma MergeOfNothing(c: VaultConfig)
    ensures Merge(c, VaultConfigRequest(None, None)) == c
  {
  }

  /** A request that supplies both fields, empty or not, does not depend on
      the prior config. */
  lemma MergeOfBoth(c1: VaultConfig, c2: VaultConfig, token: string, address: string)
    ensures Merge(c1, VaultConfigRequest(Some(token), Some(address)))
            == Merge(c2, VaultConfigRequest(Some(token), Some(address)))
            == VaultConfig(token, address)
  {
  }
}
