/** Option, error and result types shared by the whole model.
    `Result` is failure-compatible, so `:-` propagates an error the way the
    Go code's `if err != nil { return nil, err }` does. */
module Results {

  datatype Option<+T> = None | Some(value: T) {
    function GetOr(default: T): T {
      match this
      case Some(v) => v
      case None => default
    }
  }

  /** The errors the handlers and the render pass can return. */
  datatype Error =
    | MissingRole                // list handler: "missing role"
    | MissingRoleName            // template lookup: "missing role name"
    | MissingTemplateName        // template lookup: "missing template name"
    | StorageError(msg: string)  // the storage backend failed
    | MissingVaultToken          // "error: missing vault token"
    | MissingVaultAddress        // "error: missing vault API address"
    | ClientError(msg: string)   // the Vault API client failed
    | NilInstance                // "instance cannot be nil"
    | TemplateError(msg: string) // text/template parse or execute failed
    | DecodeError(msg: string)   // a generic template's output is not JSON
    | UnsupportedType(templateType: string)

  /** The text of each error as the Go code formats it. */
  function Message(e: Error): string {
    match e
    case MissingRole => "missing role"
    case MissingRoleName => "missing role name"
    case MissingTemplateName => "missing template name"
    case StorageError(m) => m
    case MissingVaultToken => "error: missing vault token"
    case MissingVaultAddress => "error: missing vault API address"
    case ClientError(m) => m
    case NilInstance => "instance cannot be nil"
    case TemplateError(m) => m
    case DecodeError(m) => m
    case UnsupportedType(t) => "not a supported template type: " + t
  }

  datatype Result<+T> = Ok(value: T) | Err(error: Error) {
    predicate IsFailure() {
      Err?
    }

    function PropagateFailure<U>(): Result<U>
      requires Err?
    {
      Err(error)
    }

    function Extract(): T
      requires Ok?
    {
      value
    }
  }

  /** The result of a collaborator call that returns only an error. */
  datatype Outcome = Pass | Fail(error: Error)
}
