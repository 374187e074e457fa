/** The records the backend persists and the responses its handlers return. */
module Records {

  /** A stored template, keyed by `template/{role}/{templateName}`.
      `templateType` is the JSON field `type`, `template` the raw template text. */
  datatype Template = Template(
    role: string,
    templateName: string,
    templateType: string,
    path: string,
    template: string)

  /** The credentials used to reach the Vault API, stored at `config/vault`. */
  datatype VaultConfig = VaultConfig(token: string, address: string)

  const ZeroTemplate := Template("", "", "", "", "")
  const ZeroVaultConfig := VaultConfig("", "")

  /** A decoded storage entry. The Go code stores JSON; the model keeps the
      typed record that was encoded. */
  datatype Entry = TemplateEntry(t: Template) | VaultEntry(c: VaultConfig)

  /** Decoding an entry as a template. JSON of the other record kind shares no
      field name with `template`, and Go's decoder ignores unknown fields, so
      it decodes to the zero record. */
  function AsTemplate(e: Entry): Template {
    match e
    case TemplateEntry(t) => t
    case VaultEntry(_) => ZeroTemplate
  }

  /** Decoding an entry as a vault config, by the same rule. */
  function AsVaultConfig(e: Entry): VaultConfig {
    match e
    case VaultEntry(c) => c
    case TemplateEntry(_) => ZeroVaultConfig
  }

  /** What a handler hands back to the framework when it returns no Go error:
      `nil`, `logical.ErrorResponse(msg)`, a response with a data map, or
      `logical.ListResponse(keys)`. */
  datatype Response =
    | NoResponse
    | ErrorResponse(msg: string)
    | DataResponse(data: map<string, string>)
    | ListResponse(keys: seq<string>)
}
