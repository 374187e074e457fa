/** The per-role template store: the `template/{role}/{templateName}` and
    `template/{role}/` endpoints. Each handler is one atomic step over the
    store; the read-write lock that makes it atomic is not modelled.

    The handlers test `roleName` a second time where they mean to test
    `templateName`, so their own "missing templateName" branch can never be
    taken. The model leaves those dead branches out: an empty template name
    is rejected only by `LoadTemplate`, and `Delete` does not reject it. */
module TemplateStore {
  import opened Results
  import opened Records
  import Storage
  import StringOrder

  /** The storage key of a template. */
  function TemplatePath(roleName: string, templateName: string): string {
    "template/" + roleName + "/" + templateName
  }

  /** The storage prefix under which a role's templates are listed. */
  function TemplatePrefix(roleName: string): string {
    "template/" + roleName + "/"
  }

  /** The key is the role's listing prefix followed by the template name;
      with '/'-free role names, distinct (role, name) pairs get distinct
      keys. */
  lemma {:induction false} TemplatePathInjective(r1: string, n1: string, r2: string, n2: string)
    requires '/' !in r1 && '/' !in r2
    ensures TemplatePath(r1, n1) == TemplatePrefix(r1) + n1
    ensures TemplatePath(r1, n1) == TemplatePath(r2, n2) <==> r1 == r2 && n1 == n2
  {
    var p1, p2 := TemplatePath(r1, n1), TemplatePath(r2, n2);
    if p1 == p2 {
      var rest1, rest2 := r1 + "/" + n1, r2 + "/" + n2;
      assert p1 == "template/" + rest1 && p2 == "template/" + rest2;
      assert rest1 == p1[9..] == p2[9..] == rest2;
      SlashAfter(r1, n1);
      SlashAfter(r2, n2);
      assert r1 == rest1[..Storage.SlashIndex(rest1)];
      assert r2 == rest2[..Storage.SlashIndex(rest2)];
      assert n1 == rest1[|r1| + 1..];
    }
  }

  /** In `r + "/" + n` with a '/'-free `r`, the first '/' ends `r`. */
  lemma {:induction false} SlashAfter(r: string, n: string)
    requires '/' !in r
    ensures Storage.SlashIndex(r + "/" + n) == |r|
    decreases |r|
  {
    var x := r + "/" + n;
    if |r| > 0 {
      assert x[1..] == r[1..] + "/" + n;
      SlashAfter(r[1..], n);
    } else {
      assert x[0] == '/';
    }
  }

  /** `nonLockedTemplateEntry`: validates both names before touching
      storage, then reads the template; an absent key reads as `None`. */
  function LoadTemplate(s: Storage.Store, roleName: string, templateName: string): (r: Result<Option<Template>>)
    ensures roleName == "" ==> r == Err(MissingRoleName)
    ensures roleName != "" && templateName == "" ==> r == Err(MissingTemplateName)
    ensures roleName != "" && templateName != "" && s.fault.Some? ==> r == Err(StorageError(s.fault.value))
    ensures roleName != "" && templateName != "" && s.fault.None? ==>
              r.Ok? && (r.value.None? <==> TemplatePath(roleName, templateName) !in s.entries)
    ensures r.Ok? && r.value.Some? ==>
              r.value.value == AsTemplate(s.entries[TemplatePath(roleName, templateName)])
  {
    if roleName == "" then Err(MissingRoleName)
    else if templateName == "" then Err(MissingTemplateName)
    else
      var entry :- Storage.Get(s, TemplatePath(roleName, templateName));
      match entry
      case None => Ok(None)
      case Some(e) => Ok(Some(AsTemplate(e)))
  }

  /** The lookup of (roleName, templateName) does not find an absent entry:
      it fails, or finds a stored template. The render pass relies on this
      for every name it lists. */
  predicate Resolvable(s: Storage.Store, roleName: string, templateName: string) {
    roleName == "" || templateName == "" || s.fault.Some? ||
    TemplatePath(roleName, templateName) in s.entries
  }

  /** `pathTemplateExistenceCheck`: whether a write is an update. */
  function Exists(s: Storage.Store, roleName: string, templateName: string): (r: Result<bool>)
    ensures roleName == "" ==> r == Err(MissingRole)
    ensures roleName != "" ==> (r.Err? <==> LoadTemplate(s, roleName, templateName).Err?)
    ensures roleName != "" && LoadTemplate(s, roleName, templateName).Err? ==>
              r == Err(LoadTemplate(s, roleName, templateName).error)
    ensures roleName != "" && templateName != "" && s.fault.None? ==>
              r == Ok(TemplatePath(roleName, templateName) in s.entries)
  {
    if roleName == "" then Err(MissingRole)
    else
      var entry :- LoadTemplate(s, roleName, templateName);
      Ok(entry.Some?)
  }

  /** `pathTemplateList`: the names under the role's prefix, in storage order. */
  function List(s: Storage.Store, roleName: string): (r: Result<Response>)
    ensures roleName == "" ==> r == Err(MissingRole)
    ensures roleName != "" && s.fault.Some? ==> r == Err(StorageError(s.fault.value))
    ensures roleName != "" && s.fault.None? ==> r.Ok? && r.value.ListResponse?
    ensures r.Ok? ==> StringOrder.StrictlySorted(r.value.keys)
    ensures r.Ok? ==> forall n :: n in r.value.keys <==> n in Storage.Children(s.entries, TemplatePrefix(roleName))
  {
    if roleName == "" then Err(MissingRole)
    else
      var keys :- Storage.List(s, TemplatePrefix(roleName));
      Ok(ListResponse(keys))
  }

  /** The data map `pathTemplateRead` returns for a template. */
  function TemplateData(t: Template): map<string, string> {
    map["path" := t.path, "template_name" := t.templateName, "role" := t.role,
        "type" := t.templateType, "template" := t.template]
  }

  /** `pathTemplateRead`. */
  function Read(s: Storage.Store, roleName: string, templateName: string): (r: Result<Response>)
    ensures roleName == "" ==> r == Ok(ErrorResponse("missing role"))
    ensures roleName != "" ==> (r.Err? <==> LoadTemplate(s, roleName, templateName).Err?)
    ensures roleName != "" && LoadTemplate(s, roleName, templateName).Err? ==>
              r == Err(LoadTemplate(s, roleName, templateName).error)
    ensures roleName != "" && templateName == "" ==> r == Err(MissingTemplateName)
    ensures roleName != "" && templateName != "" && s.fault.None? ==>
              var key := TemplatePath(roleName, templateName);
              r == if key in s.entries then Ok(DataResponse(TemplateData(AsTemplate(s.entries[key]))))
                   else Ok(NoResponse)
  {
    if roleName == "" then Ok(ErrorResponse("missing role"))
    else
      var t :- LoadTemplate(s, roleName, templateName);
      match t
      case None => Ok(NoResponse)
      case Some(t) => Ok(DataResponse(TemplateData(t)))
  }

  /** A handler's result together with the store it leaves behind. */
  datatype Reply = Reply(store: Storage.Store, result: Result<Response>)

  /** `pathTemplateDelete`: an empty template name is not rejected; it
      deletes the key `template/{role}/`. */
  function Delete(s: Storage.Store, roleName: string, templateName: string): (r: Reply)
    ensures roleName == "" ==> r == Reply(s, Ok(ErrorResponse("missing role")))
    ensures roleName != "" && s.fault.Some? ==> r == Reply(s, Err(StorageError(s.fault.value)))
    ensures roleName != "" && s.fault.None? ==>
              r.result == Ok(NoResponse) && r.store.fault == s.fault &&
              r.store.entries == s.entries - {TemplatePath(roleName, templateName)}
  {
    if roleName == "" then Reply(s, Ok(ErrorResponse("missing role")))
    else
      match Storage.Delete(s, TemplatePath(roleName, templateName))
      case Err(e) => Reply(s, Err(e))
      case Ok(s') => Reply(s', Ok(NoResponse))
  }

  /** The fields of a create/update request. Role and name come from the
      request path; an omitted body field reads as "". */
  datatype TemplateRequest = TemplateRequest(
    role: string,
    templateName: string,
    template: string,
    templateType: string,
    path: string)

  /** The record after a create/update: role and name always come from the
      request; template, type and path are replaced only by a non-empty
      request value. */
  function Merge(t: Template, req: TemplateRequest): (m: Template)
    ensures m.role == req.role && m.templateName == req.templateName
    ensures m.template == (if req.template != "" then req.template else t.template)
    ensures m.templateType == (if req.templateType != "" then req.templateType else t.templateType)
    ensures m.path == (if req.path != "" then req.path else t.path)
  {
    Template(
      req.role,
      req.templateName,
      if req.templateType != "" then req.templateType else t.templateType,
      if req.path != "" then req.path else t.path,
      if req.template != "" then req.template else t.template)
  }

  /** The record a create/update starts from: the stored one, or the zero
      record when there is none. */
  function Prior(s: Storage.Store, roleName: string, templateName: string): Template {
    var key := TemplatePath(roleName, templateName);
    if key in s.entries then AsTemplate(s.entries[key]) else ZeroTemplate
  }

  /** `pathTemplateCreateUpdate`: a read-modify-write of one key. */
  function CreateUpdate(s: Storage.Store, req: TemplateRequest): (r: Reply)
    ensures req.role == "" ==> r == Reply(s, Ok(ErrorResponse("missing role")))
    ensures req.role != "" && req.templateName == "" ==> r == Reply(s, Err(MissingTemplateName))
    ensures req.role != "" && req.templateName != "" && s.fault.Some? ==>
              r == Reply(s, Err(StorageError(s.fault.value)))
    ensures req.role != "" && req.templateName != "" && s.fault.None? ==>
              r.result == Ok(NoResponse) && r.store.fault == s.fault &&
              r.store.entries == s.entries[TemplatePath(req.role, req.templateName) :=
                                           TemplateEntry(Merge(Prior(s, req.role, req.templateName), req))]
  {
    if req.role == "" then Reply(s, Ok(ErrorResponse("missing role")))
    else
      match LoadTemplate(s, req.role, req.templateName)
      case Err(e) => Reply(s, Err(e))
      case Ok(prior) =>
        var t := Merge(prior.GetOr(ZeroTemplate), req);
        match Storage.Put(s, TemplatePath(req.role, req.templateName), TemplateEntry(t))
        case Err(e) => Reply(s, Err(e))
        case Ok(s') => Reply(s', Ok(NoResponse))
  }

  /** Round trip: after a successful create/update, reading the same
      (role, name) returns the merged record, whose role and name are the
      request's. */
  lemma CreateUpdateThenRead(s: Storage.Store, req: TemplateRequest)
    requires CreateUpdate(s, req).result == Ok(NoResponse)
    ensures var m := Merge(Prior(s, req.role, req.templateName), req);
            Read(CreateUpdate(s, req).store, req.role, req.templateName) == Ok(DataResponse(TemplateData(m)))
    ensures var m := Merge(Prior(s, req.role, req.templateName), req);
            m.role == req.role && m.templateName == req.templateName
  {
  }

  /** A create on an absent key starts from the zero record: a body field
      left empty stays empty. */
  lemma CreateStartsFromZero(s: Storage.Store, req: TemplateRequest)
    requires TemplatePath(req.role, req.templateName) !in s.entries
    requires CreateUpdate(s, req).result == Ok(NoResponse)
    ensures CreateUpdate(s, req).store.entries[TemplatePath(req.role, req.templateName)]
            == TemplateEntry(Template(req.role, req.templateName, req.templateType, req.path, req.template))
  {
  }

  /** An update whose template, type and path are all empty keeps those
      three stored fields. */
  lemma EmptyUpdateKeepsFields(s: Storage.Store, req: TemplateRequest)
    requires req.template == "" && req.templateType == "" && req.path == ""
    requires CreateUpdate(s, req).result == Ok(NoResponse)
    ensures var p := Prior(s, req.role, req.templateName);
            CreateUpdate(s, req).store.entries[TemplatePath(req.role, req.templateName)]
            == TemplateEntry(p.(role := req.role, templateName := req.templateName))
  {
  }

  /** Repeating a create/update changes nothing further. */
  lemma CreateUpdateIdempotent(s: Storage.Store, req: TemplateRequest)
    ensures var r := CreateUpdate(s, req);
            CreateUpdate(r.store, req) == r
  {
  }

  /** After a successful delete of a named template, reading it finds nothing
      and the existence check reports it absent. */
  lemma DeleteThenRead(s: Storage.Store, roleName: string, templateName: string)
    requires roleName != "" && templateName != ""
    requires Delete(s, roleName, templateName).result == Ok(NoResponse)
    ensures Read(Delete(s, roleName, templateName).store, roleName, templateName) == Ok(NoResponse)
    ensures Exists(Delete(s, roleName, templateName).store, roleName, templateName) == Ok(false)
  {
  }

  /** A template created under a '/'-free name is listed under its role. */
  lemma CreatedIsListed(s: Storage.Store, req: TemplateRequest)
    requires '/' !in req.templateName
    requires CreateUpdate(s, req).result == Ok(NoResponse)
    ensures var l := List(CreateUpdate(s, req).store, req.role);
            l.Ok? && req.templateName in l.value.keys
  {
  }

  /** A template deleted under a '/'-free name is no longer listed. */
  lemma DeletedIsNotListed(s: Storage.Store, roleName: string, templateName: string)
    requires '/' !in templateName
    requires Delete(s, roleName, templateName).result == Ok(NoResponse)
    ensures var l := List(Delete(s, roleName, templateName).store, roleName);
            l.Ok? && templateName !in l.value.keys
  {
    var s' := Delete(s, roleName, templateName).store;
    assert TemplatePath(roleName, templateName) == TemplatePrefix(roleName) + templateName;
    if templateName in Storage.Children(s'.entries, TemplatePrefix(roleName)) {
      Storage.ListedLeafIsKey(s'.entries, TemplatePrefix(roleName), templateName);
      assert false;
    }
  }

  /** Merging the same request twice is merging it once. */
  lemma MergeIdempotent(t: Template, req: TemplateRequest)
    ensures Merge(Merge(t, req), req) == Merge(t, req)
  {
  }

  /** A request with template, type and path all empty changes only role
      and name. */
  lemma MergeOfEmptyBody(t: Template, req: TemplateRequest)
    requires req.template == "" && req.templateType == "" && req.path == ""
    ensures Merge(t, req) == t.(role := req.role, templateName := req.templateName)
  {
  }

  /** A request with template, type and path all non-empty does not depend
      on the prior record. */
  lemma MergeOfFullBody(t1: Template, t2: Template, req: TemplateRequest)
    requires req.template != "" && req.templateType != "" && req.path != ""
    ensures Merge(t1, req) == Merge(t2, req)
  {
  }
}
