# Templated AWS auth backend: template store, vault config and render pass

This project models the sequential core of a Vault auth plugin. An EC2
instance logs in, and the plugin renders per-role templates into Vault
policies and generic secrets. Three parts are modelled:

- **Template store** (`awsauth/path_template.go`). Templates are kept at
  `template/{role}/{templateName}`. Handlers: read, create/update, delete,
  list, and the existence probe.
- **Vault connection config** (`awsauth/path_config_vault.go`). A single
  `{token, address}` record is kept at `config/vault`. Handlers: read,
  create/update, delete, plus `GetVaultClient`.
- **Render pass** (`awsauth/template.go`, `renderTemplates`). It builds the
  `Values` from the instance, lists the role's templates and gets one client.
  Then it renders and writes each template in listing order.

The model is functional. Storage is a `Store`: a `map<string, Entry>` of
typed records plus an optional fault. While the fault is set, every storage
call fails with it, which models the handlers' storage-error paths. Each
handler is a pure function from a store to a response and a new store. The
Vault writes of a render pass are appended to a `seq<Write>` log. A pass
that fails keeps the writes it already made.

Modules, one per component:

- `Results`: `Option`, `Result`, the error kinds and their messages.
- `Records`: the stored records and the handler responses.
- `StringOrder`: lexicographic order on strings, proved a strict total
  order, and the sorted enumeration of a set. The model assumes storage
  lists names in this order.
- `Storage`: get, put, delete and list over the store.
- `TemplateStore`, `VaultConfigStore`, `Render`: the three parts above.
- `Invariants`: well-formedness of the store, kept by every handler, and the
  independence of the two stores.

The code's guards do not always test what their messages say, and the model
follows the code:

- The "missing templateName" guards of the read, delete, create/update and
  existence handlers test `roleName` a second time, so they never fire.
- An empty template name is rejected only by the lookup
  (`nonLockedTemplateEntry`), with a Go error rather than an error response.
- Delete does no lookup, so it does not reject an empty template name. It
  deletes the key `template/{role}/`.
- An empty role is an error response in read, delete and create/update, but
  a Go error in list.
- Artifact names use the stored record's `TemplateName` field, not the
  listed name. The two agree in a well-formed store
  (`Invariants.StoredTemplateMatchesKey`).

## Model

| member | source | states |
|---|---|---|
| `TemplateStore.TemplatePathInjective` | awsauth/path_template.go:104-106 | The template key is the role's list prefix `template/{role}/` followed by the name. For '/'-free roles, two keys are equal exactly when role and name are both equal. |
| `TemplateStore.LoadTemplate` | awsauth/path_template.go:108-130 | An empty role fails with "missing role name", then an empty name with "missing template name", whatever the storage state, so no storage read happens. A storage error propagates. An absent key reads as `None`, otherwise the stored template. |
| `TemplateStore.Exists` | awsauth/path_template.go:79-95 | An empty role is an error. Otherwise a failing lookup's own error is returned. If the lookup succeeds, the result is true exactly when the template key is stored. |
| `TemplateStore.List` | awsauth/path_template.go:132-143 | An empty role is an error, and so is a storage fault. Otherwise the result is the immediate children of `template/{role}/`, each once, in the storage order (assumed ascending, see Left out). It may be empty. |
| `TemplateStore.Read` | awsauth/path_template.go:145-174 | An empty role gives the error response "missing role". Any failing lookup, including one with an empty name or a storage fault, returns that lookup's own Go error. An absent key gives no response and no error. A stored template gives its path, template_name, role, type and template. |
| `TemplateStore.Delete` | awsauth/path_template.go:176-195 | An empty role gives an error response with the store unchanged. Otherwise, barring a storage fault, exactly the key `TemplatePath(role, name)` is removed, including when the name is empty. |
| `TemplateStore.MergeIdempotent` | awsauth/path_template.go:219-235 | Merging the same request twice gives the same record as merging it once. |
| `TemplateStore.MergeOfEmptyBody` | awsauth/path_template.go:222-235 | A request with empty template, type and path changes only role and name. |
| `TemplateStore.MergeOfFullBody` | awsauth/path_template.go:222-235 | A request with non-empty template, type and path gives a record that does not depend on the prior one. |
| `TemplateStore.CreateUpdate` | awsauth/path_template.go:197-247 | An empty role gives an error response, and an empty name a Go error, with the store unchanged. A storage fault is a Go error. Otherwise the only change is at the template's key, which gets the prior record (zero if absent) merged with the request. |
| `TemplateStore.CreateUpdateThenRead` | awsauth/path_template.go:237-244 | After a successful create/update, a read of the same (role, name) returns the merged record, whose role and name are the request's. |
| `TemplateStore.CreateStartsFromZero` | awsauth/path_template.go:211-220 | A create on an absent key starts from the zero record, so body fields left empty are stored empty. |
| `TemplateStore.EmptyUpdateKeepsFields` | awsauth/path_template.go:222-235 | An update with empty template, type and path keeps those three stored fields. |
| `TemplateStore.CreateUpdateIdempotent` | awsauth/path_template.go:211-247 | Repeating a create/update gives the same store and response. |
| `TemplateStore.DeleteThenRead` | awsauth/path_template.go:190-194 | After a successful delete, read gives no response and the existence probe reports false. |
| `TemplateStore.CreatedIsListed` | awsauth/path_template.go:138-142 | After a successful create/update of a '/'-free name, listing the role includes that name. |
| `TemplateStore.DeletedIsNotListed` | awsauth/path_template.go:138-142 | After a successful delete of a '/'-free name, listing the role no longer includes it. |
| `Storage.List` | awsauth/template.go:46-49 | The storage listing fails with the store's fault. Otherwise it returns each immediate child of the prefix exactly once. The model's order (strictly ascending) is an assumption about the backend. |
| `VaultConfigStore.LoadVaultConfig` | awsauth/path_config_vault.go:60-74 | A storage error propagates. An absent `config/vault` reads as `None`, otherwise the stored config. |
| `VaultConfigStore.Read` | awsauth/path_config_vault.go:76-92 | An absent config gives no response and no error. A stored one gives exactly its token and address. |
| `VaultConfigStore.Delete` | awsauth/path_config_vault.go:94-103 | Barring a storage fault, exactly the key `config/vault` is removed. |
| `VaultConfigStore.MergeOfNothing` | awsauth/path_config_vault.go:117-125 | A request that supplies no field leaves the config unchanged. |
| `VaultConfigStore.MergeOfBoth` | awsauth/path_config_vault.go:117-125 | A request that supplies both fields, even as empty strings, gives exactly those two values whatever was stored. |
| `VaultConfigStore.CreateUpdate` | awsauth/path_config_vault.go:105-137 | Barring a storage fault, the only change is at `config/vault`, which gets the prior config (zero if absent) merged with the request. |
| `VaultConfigStore.CreateUpdateThenRead` | awsauth/path_config_vault.go:127-135 | After a create/update, read returns exactly the merged token and address. |
| `VaultConfigStore.CreateStartsFromZero` | awsauth/path_config_vault.go:109-115 | With no config stored, the result holds the supplied fields and "" for the omitted ones. |
| `VaultConfigStore.DeleteThenRead` | awsauth/path_config_vault.go:98-102 | After a delete, read gives no response. |
| `VaultConfigStore.GetVaultClient` | awsauth/path_config_vault.go:139-162 | A client-construction error comes first, then a storage error. Then an empty token fails with "missing vault token" before the address is looked at, and an empty address fails with "missing vault API address". Otherwise the client carries exactly the stored token and address. |
| `VaultConfigStore.ClientAfterCreateUpdate` | awsauth/path_config_vault.go:154-161 | After a create/update supplying a non-empty token and address, the client built carries exactly those two values. |
| `VaultConfigStore.EmptyTokenBlocksClient` | awsauth/path_config_vault.go:151-153 | Supplying an empty token overwrites the stored one, and no client can then be built. |
| `Render.JoinEndsWithLast` | awsauth/template.go:78 | The joined path ends with its last non-empty segment, preceded by '/' unless nothing comes before it. |
| `Render.ArtifactNameOfNonEmpty` | awsauth/template.go:97 | With a non-empty base path and output path, the artifact name is `{basePath}/{outputPath}/{templateName}-{instanceHash}`. |
| `Render.ArtifactLeafFromInstance` | awsauth/template.go:32-78 | With the values built from an instance, a successful step writes at `Join(role base path, template path, templateName-instanceId)`. A nil id gives an empty hash. The DNS name and IP never enter the name. |
| `Render.ArtifactNameEndsWithLeaf` | awsauth/template.go:78 | Every artifact name, policy or secret, ends with `{templateName}-{instanceHash}` as its own path segment. |
| `Render.RenderOne` | awsauth/template.go:65-107 | Parse and execute errors abort. If parse and execute succeed, a policy always succeeds, and a generic succeeds when its text decodes. A success writes at the shared artifact name. A policy writes `{"policy": text}` and adds that name. A generic writes the decoded map and adds nothing. A generic whose text does not decode fails. Any other type fails with an error naming it. |
| `Render.Step` | awsauth/template.go:57-104 | A lookup error propagates. A successful step rendered the stored template with `OutputPath` set to the template's `Path`, and its write succeeded. |
| `Render.StepSuccess` | awsauth/template.go:76-103 | When a stored template renders and its write passes, the step succeeds with that artifact. |
| `Render.StepFailure` | awsauth/template.go:82-103 | A rendering error, or a failed write, fails the step with that error. |
| `Render.RenderEach` | awsauth/template.go:57-110 | The loop only appends to the log, at most one write per template. On success it has written once per template and extended the policy list. |
| `Render.RenderEachSucceeds` | awsauth/template.go:76-110 | The loop succeeds exactly when every template's step does. It then has appended every write in order, and returned exactly the artifact names of the `policy`-typed templates, in order, by a reference definition read off the stored records. |
| `Render.RenderEachAbortsAt` | awsauth/template.go:58-107 | If template i is the first to fail, the loop returns its error. The log holds exactly the writes of the templates before i, and later templates are not processed. With `Render.RunsLoopOverListing` this holds for the whole pass. |
| `Render.RenderTemplates` | awsauth/template.go:23-54 | A nil instance is rejected before any listing, client construction or write. A listing error or a client error aborts with the log unchanged. The log is only ever extended. |
| `Render.RunsLoopOverListing` | awsauth/template.go:46-57 | Once a client is obtained, every listed name resolves. The pass is then the loop over the listing in ascending order, from the given log and an empty policy list. |
| `Render.RenderTemplatesSucceeds` | awsauth/template.go:44-110 | Once a client is obtained, the pass visits the role's templates in listing order (ascending). It succeeds exactly when all succeed, and then returns the policy names only. |
| `Invariants.KeysDisjoint` | awsauth/path_template.go:104-106 | Template keys start with `template/`, and `config/vault` is never one of them. |
| `Invariants.TemplateCreateUpdatePreserves` | awsauth/path_template.go:219-242 | Create/update stores a template under the key of its own role and name, so the store stays well-formed. |
| `Invariants.TemplateDeletePreserves` | awsauth/path_template.go:190 | Delete keeps the store well-formed. |
| `Invariants.VaultCreateUpdatePreserves` | awsauth/path_config_vault.go:127-132 | A vault config update keeps the store well-formed. |
| `Invariants.VaultDeletePreserves` | awsauth/path_config_vault.go:98 | A vault config delete keeps the store well-formed. |
| `Invariants.StoredTemplateMatchesKey` | awsauth/template.go:58-78 | In a well-formed store, the template found for a '/'-free role carries the role and name it was looked up by. The artifact name therefore uses the listed name. |
| `Invariants.TemplateHandlersKeepVaultConfig` | awsauth/path_template.go:190-242 | Template create/update and delete never change what `config/vault` reads as. |
| `Invariants.VaultHandlersKeepTemplates` | awsauth/path_config_vault.go:98-132 | Vault config create/update and delete never change what any template reads as. |

## Left out

- Locking (`templateMutex`, `configMutex`): each handler is one atomic step.
- The `framework.Path` definitions, route patterns, field schemas and help text.
- The route patterns admit no '/' in a role name. The model accepts any string. Where a property needs '/'-free names, it says so in its requires.
- JSON encoding of storage entries: the store holds typed records. An entry of the other kind decodes to the zero record, as Go's decoder does.
- `text/template`, `json.Unmarshal`, `api.NewClient` and `Logical().Write` are uninterpreted collaborators (fields of `Render.Collaborators`). `filepath.Join` is modelled without its `Clean` step.
- Logger calls and cancellation contexts.
- The EC2 lookup: instance attributes are optional string inputs. Of the role entry, only `BasePath` is modelled.
- The role entry cannot be nil in the model. In the code, `role.BasePath` is read before the instance check, so a nil role would panic first.
- `Storage.List`: the backend's listing order is not fixed by the code. The model assumes ascending lexicographic order, which Vault's storage backends return, and the render pass visits templates in that order.
- `pathConfigClientExistenceCheck` / `lockedClientConfigEntry`, the engine client config (`config/client`) and its cache invalidation: these are not part of this model.
- Storage faults are all-or-nothing per store. A backend that fails for some keys and not others is not modelled.
- A failed `Logical().Write` is not recorded in the log.
- `Render.RenderTemplates`: the nil dereferences are excluded by the requires `NoNilDereference`, not modelled as errors. These are a missing `config/vault` in `GetVaultClient`, and a listed name whose key is absent. The requires demands that every listed name resolve, even when an earlier template would abort the pass before a missing one is reached.
- `VaultConfigStore.GetVaultClient`: requires `config/vault` to be present whenever the code would dereference it.
