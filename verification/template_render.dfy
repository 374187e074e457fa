/** The render pass (`renderTemplates`): after an instance logs in, every
    template of its role is rendered against the instance's values and
    written to Vault, as a policy or as a generic secret.

    The Go libraries the pass calls are collaborators whose behaviour the
    model does not fix: `text/template` parsing and execution, JSON
    decoding of a generic template's output, `api.NewClient`, and the
    client's `Logical().Write`. Writes that succeed are appended to a log;
    nothing ever removes an entry from it. */
module Render {
  import opened Results
  import opened Records
  import Storage
  import StringOrder
  import TemplateStore
  import VaultConfigStore

  /** The attributes of the EC2 instance the pass reads; each may be nil. */
  datatype Instance = Instance(
    instanceId: Option<string>,
    privateDnsName: Option<string>,
    privateIpAddress: Option<string>)

  /** The part of the role entry the pass reads. */
  datatype RoleEntry = RoleEntry(basePath: string)

  /** The values a template is executed against (`Values`). */
  datatype Values = Values(
    instanceHash: string,
    fqdn: string,
    internalIPv4: string,
    basePath: string,
    outputPath: string)

  /** A JSON value, as `json.Unmarshal` produces it. */
  datatype Json =
    | JNull
    | JBool(b: bool)
    | JNumber(literal: string)
    | JString(s: string)
    | JArray(items: seq<Json>)
    | JObject(fields: map<string, Json>)

  /** One `Logical().Write(path, data)` call. */
  datatype Write = Write(path: string, data: map<string, Json>)

  /** The collaborators of the pass. */
  datatype Collaborators = Collaborators(
    newClientError: Option<Error>,                          // api.NewClient
    parse: string -> Outcome,                               // texttemplate.Parse
    execute: (string, Values) -> Result<string>,            // tmpl.Execute
    decode: string -> Result<map<string, Json>>,            // json.Unmarshal
    write: (VaultConfigStore.VaultClient, Write) -> Outcome) // Logical().Write

  /** `filepath.Join` without its `Clean` step: the non-empty segments, in
      order, separated by '/'. */
  function Join(parts: seq<string>): string
    decreases |parts|
  {
    if parts == [] then ""
    else if parts[0] == "" then Join(parts[1..])
    else
      var rest := Join(parts[1..]);
      if rest == "" then parts[0] else parts[0] + "/" + rest
  }

  /** Join ends with its last segment, behind a '/' when anything precedes
      it. */
  lemma {:induction false} JoinEndsWithLast(parts: seq<string>)
    requires |parts| > 0 && parts[|parts| - 1] != ""
    ensures var j := Join(parts);
            var last := parts[|parts| - 1];
            |last| <= |j| && j[|j| - |last|..] == last &&
            (|j| == |last| || j[|j| - |last| - 1] == '/')
    decreases |parts|
  {
    if |parts| > 1 {
      var tail := parts[1..];
      assert tail[|tail| - 1] == parts[|parts| - 1];
      JoinEndsWithLast(tail);
    }
  }

  /** The name of the artifact a template renders to, policy or secret:
      `{basePath}/{outputPath}/{templateName}-{instanceHash}`. */
  function ArtifactName(v: Values, templateName: string): string {
    Join([v.basePath, v.outputPath, templateName + "-" + v.instanceHash])
  }

  /** With a non-empty base path and output path, the artifact name is
      `{basePath}/{outputPath}/{templateName}-{instanceHash}`. */
  lemma ArtifactNameOfNonEmpty(v: Values, templateName: string)
    requires v.basePath != "" && v.outputPath != ""
    ensures ArtifactName(v, templateName)
            == v.basePath + "/" + v.outputPath + "/" + templateName + "-" + v.instanceHash
  {
    var leaf := templateName + "-" + v.instanceHash;
    var parts := [v.basePath, v.outputPath, leaf];
    assert parts[1..] == [v.outputPath, leaf];
    assert parts[1..][1..] == [leaf];
    assert [leaf][1..] == [];
    assert Join([leaf]) == leaf;
    assert Join([v.outputPath, leaf]) == v.outputPath + "/" + leaf;
  }

  /** An artifact name ends with the template name and instance hash, as a
      path segment of its own. */
  lemma ArtifactNameEndsWithLeaf(v: Values, templateName: string)
    ensures var n := ArtifactName(v, templateName);
            var leaf := templateName + "-" + v.instanceHash;
            |leaf| <= |n| && n[|n| - |leaf|..] == leaf &&
            (|n| == |leaf| || n[|n| - |leaf| - 1] == '/')
  {
    var parts := [v.basePath, v.outputPath, templateName + "-" + v.instanceHash];
    JoinEndsWithLast(parts);
  }

  /** The values before any template is chosen: absent instance attributes
      read as "", and the base path is the role's. */
  function BuildValues(role: RoleEntry, instance: Instance): (v: Values)
    ensures v.basePath == role.basePath && v.outputPath == ""
    ensures v.instanceHash == instance.instanceId.GetOr("")
    ensures v.fqdn == instance.privateDnsName.GetOr("")
    ensures v.internalIPv4 == instance.privateIpAddress.GetOr("")
  {
    Values(
      instance.instanceId.GetOr(""),
      instance.privateDnsName.GetOr(""),
      instance.privateIpAddress.GetOr(""),
      role.basePath,
      "")
  }

  /** The values built for an instance name each artifact of the pass after
      the instance id, or after nothing when the id is nil: a successful
      step writes under `{...}/{templateName}-{instanceId}`, and the DNS
      name and IP never enter the name. */
  lemma ArtifactLeafFromInstance(env: Collaborators, client: VaultConfigStore.VaultClient,
                                 s: Storage.Store, roleName: string, role: RoleEntry,
                                 instance: Instance, name: string)
    requires TemplateStore.Resolvable(s, roleName, name)
    requires Step(env, client, s, roleName, BuildValues(role, instance), name).Ok?
    ensures var t := Stored(s, roleName, name);
            var path := Step(env, client, s, roleName, BuildValues(role, instance), name).value.write.path;
            var leaf := t.templateName + "-" + instance.instanceId.GetOr("");
            path == Join([role.basePath, t.path, leaf]) &&
            |leaf| <= |path| && path[|path| - |leaf|..] == leaf
  {
    var t := Stored(s, roleName, name);
    var v := BuildValues(role, instance).(outputPath := t.path);
    ArtifactNameEndsWithLeaf(v, t.templateName);
  }

  /** What one template contributes: the write it makes, and for a policy
      the name added to the result list. */
  datatype Artifact = Artifact(write: Write, policy: Option<string>)

  /** Renders one template against values whose output path is already the
      template's, and dispatches on its type. */
  function RenderOne(env: Collaborators, v: Values, t: Template): (r: Result<Artifact>)
    ensures env.parse(t.template).Fail? ==> r == Err(env.parse(t.template).error)
    ensures env.parse(t.template).Pass? && env.execute(t.template, v).Err? ==>
              r == Err(env.execute(t.template, v).error)
    ensures r.Ok? ==> r.value.write.path == ArtifactName(v, t.templateName)
    ensures r.Ok? ==> t.templateType == "policy" || t.templateType == "generic"
    ensures r.Ok? ==> (r.value.policy.Some? <==> t.templateType == "policy")
    ensures r.Ok? && r.value.policy.Some? ==>
              r.value.policy.value == r.value.write.path &&
              r.value.write.data == map["policy" := JString(env.execute(t.template, v).value)]
    ensures r.Ok? && t.templateType == "generic" ==>
              env.decode(env.execute(t.template, v).value) == Ok(r.value.write.data)
    ensures env.parse(t.template).Pass? && env.execute(t.template, v).Ok? ==>
              var text := env.execute(t.template, v).value;
              (t.templateType == "generic" && env.decode(text).Err? ==> r == Err(env.decode(text).error)) &&
              (t.templateType != "policy" && t.templateType != "generic" ==> r == Err(UnsupportedType(t.templateType))) &&
              (t.templateType == "policy" || (t.templateType == "generic" && env.decode(text).Ok?) ==> r.Ok?)
  {
    match env.parse(t.template)
    case Fail(e) => Err(e)
    case Pass =>
      var text :- env.execute(t.template, v);
      var name := ArtifactName(v, t.templateName);
      if t.templateType == "policy" then
        Ok(Artifact(Write(name, map["policy" := JString(text)]), Some(name)))
      else if t.templateType == "generic" then
        var m :- env.decode(text);
        Ok(Artifact(Write(name, m), None))
      else
        Err(UnsupportedType(t.templateType))
  }

  /** The template stored for a listed name, once it is known to be there. */
  function Stored(s: Storage.Store, roleName: string, name: string): Template
    requires TemplateStore.TemplatePath(roleName, name) in s.entries
  {
    AsTemplate(s.entries[TemplateStore.TemplatePath(roleName, name)])
  }

  /** One iteration of the loop: look the template up, point the output path
      at it, render it and write the artifact. */
  function Step(env: Collaborators, client: VaultConfigStore.VaultClient, s: Storage.Store,
                roleName: string, base: Values, name: string): (r: Result<Artifact>)
    requires TemplateStore.Resolvable(s, roleName, name)
    ensures TemplateStore.LoadTemplate(s, roleName, name).Err? ==>
              r == Err(TemplateStore.LoadTemplate(s, roleName, name).error)
    ensures r.Ok? ==> TemplateStore.TemplatePath(roleName, name) in s.entries
    ensures r.Ok? ==>
              var t := Stored(s, roleName, name);
              Ok(r.value) == RenderOne(env, base.(outputPath := t.path), t) &&
              env.write(client, r.value.write) == Pass
  {
    var found :- TemplateStore.LoadTemplate(s, roleName, name);
    match found
    case None => assert false; Err(MissingTemplateName)
    case Some(t) =>
      var a :- RenderOne(env, base.(outputPath := t.path), t);
      match env.write(client, a.write)
      case Fail(e) => Err(e)
      case Pass => Ok(a)
  }

  /** A stored template that fails to render, or whose write fails, fails
      its step with that error. */
  lemma StepFailure(env: Collaborators, client: VaultConfigStore.VaultClient, s: Storage.Store,
                    roleName: string, base: Values, name: string)
    requires roleName != "" && name != "" && s.fault.None?
    requires TemplateStore.TemplatePath(roleName, name) in s.entries
    ensures var t := Stored(s, roleName, name);
            var a := RenderOne(env, base.(outputPath := t.path), t);
            var r := Step(env, client, s, roleName, base, name);
            (a.Err? ==> r == Err(a.error)) &&
            (a.Ok? && env.write(client, a.value.write).Fail? ==> r == Err(env.write(client, a.value.write).error))
  {
  }

  /** A stored template that renders, and whose write passes, passes its
      step with that artifact. */
  lemma StepSuccess(env: Collaborators, client: VaultConfigStore.VaultClient, s: Storage.Store,
                    roleName: string, base: Values, name: string)
    requires roleName != "" && name != "" && s.fault.None?
    requires TemplateStore.TemplatePath(roleName, name) in s.entries
    ensures var t := Stored(s, roleName, name);
            var a := RenderOne(env, base.(outputPath := t.path), t);
            a.Ok? && env.write(client, a.value.write) == Pass ==>
              Step(env, client, s, roleName, base, name) == Ok(a.value)
  {
  }

  function PolicyList(a: Artifact): seq<string> {
    match a.policy
    case Some(p) => [p]
    case None => []
  }

  /** The outcome of a pass: the write log, and the policy names or the
      error that stopped it. */
  datatype RenderResult = RenderResult(log: seq<Write>, result: Result<seq<string>>)

  /** The loop over the listed names, from the log and policy list built so
      far. The first failing template ends the pass; its error is returned
      and the writes already made stay. */
  function RenderEach(env: Collaborators, client: VaultConfigStore.VaultClient, s: Storage.Store,
                      roleName: string, base: Values, names: seq<string>,
                      log: seq<Write>, policies: seq<string>): (r: RenderResult)
    requires forall i :: 0 <= i < |names| ==> TemplateStore.Resolvable(s, roleName, names[i])
    ensures log <= r.log && |r.log| <= |log| + |names|
    ensures r.result.Ok? ==> policies <= r.result.value
    ensures r.result.Ok? ==> |r.log| - |log| == |names|
    decreases |names|
  {
    if names == [] then RenderResult(log, Ok(policies))
    else
      match Step(env, client, s, roleName, base, names[0])
      case Err(e) => RenderResult(log, Err(e))
      case Ok(a) => RenderEach(env, client, s, roleName, base, names[1..], log + [a.write], policies + PolicyList(a))
  }

  /** Every name in `names` passes its step. */
  predicate AllSucceed(env: Collaborators, client: VaultConfigStore.VaultClient, s: Storage.Store,
                       roleName: string, base: Values, names: seq<string>)
    requires forall i :: 0 <= i < |names| ==> TemplateStore.Resolvable(s, roleName, names[i])
  {
    forall i :: 0 <= i < |names| ==> Step(env, client, s, roleName, base, names[i]).Ok?
  }

  /** The writes of a sequence of successful steps, in order. */
  function Writes(env: Collaborators, client: VaultConfigStore.VaultClient, s: Storage.Store,
                  roleName: string, base: Values, names: seq<string>): (ws: seq<Write>)
    requires forall i :: 0 <= i < |names| ==> TemplateStore.Resolvable(s, roleName, names[i])
    requires AllSucceed(env, client, s, roleName, base, names)
    ensures |ws| == |names|
    decreases |names|
  {
    if names == [] then []
    else [Step(env, client, s, roleName, base, names[0]).value.write]
         + Writes(env, client, s, roleName, base, names[1..])
  }

  /** Reference list of policy names, read off the stored templates alone:
      for each name whose template has type `policy`, in order, its
      artifact name. */
  function PolicyNames(s: Storage.Store, roleName: string, base: Values, names: seq<string>): seq<string>
    requires forall i :: 0 <= i < |names| ==> TemplateStore.TemplatePath(roleName, names[i]) in s.entries
    decreases |names|
  {
    if names == [] then []
    else
      var t := Stored(s, roleName, names[0]);
      (if t.templateType == "policy" then [ArtifactName(base.(outputPath := t.path), t.templateName)] else [])
      + PolicyNames(s, roleName, base, names[1..])
  }

  /** The loop succeeds exactly when every step does; it then appends every
      write in order and returns the names of exactly the policy templates,
      in order. */
  lemma {:induction false} RenderEachSucceeds(env: Collaborators, client: VaultConfigStore.VaultClient,
                                             s: Storage.Store, roleName: string, base: Values,
                                             names: seq<string>, log: seq<Write>, policies: seq<string>)
    requires forall i :: 0 <= i < |names| ==> TemplateStore.Resolvable(s, roleName, names[i])
    ensures RenderEach(env, client, s, roleName, base, names, log, policies).result.Ok?
            <==> AllSucceed(env, client, s, roleName, base, names)
    ensures AllSucceed(env, client, s, roleName, base, names) ==>
              RenderEach(env, client, s, roleName, base, names, log, policies)
              == RenderResult(log + Writes(env, client, s, roleName, base, names),
                              Ok(policies + PolicyNames(s, roleName, base, names)))
    decreases |names|
  {
    if names == [] {
      assert log + [] == log && policies + [] == policies;
    } else {
      var tail := names[1..];
      assert forall i :: 0 <= i < |tail| ==> tail[i] == names[i + 1];
      var step := Step(env, client, s, roleName, base, names[0]);
      if step.Ok? {
        var a := step.value;
        RenderEachSucceeds(env, client, s, roleName, base, tail, log + [a.write], policies + PolicyList(a));
        if AllSucceed(env, client, s, roleName, base, names) {
          var t := Stored(s, roleName, names[0]);
          assert PolicyList(a) == if t.templateType == "policy"
                                  then [ArtifactName(base.(outputPath := t.path), t.templateName)] else [];
          assert log + [a.write] + Writes(env, client, s, roleName, base, tail)
                 == log + Writes(env, client, s, roleName, base, names);
          assert policies + PolicyList(a) + PolicyNames(s, roleName, base, tail)
                 == policies + PolicyNames(s, roleName, base, names);
        }
      }
    }
  }

  /** When step `i` is the first to fail, the pass returns its error, and the
      log holds exactly the writes of the steps before it. Later templates
      are not processed. */
  lemma {:induction false} RenderEachAbortsAt(env: Collaborators, client: VaultConfigStore.VaultClient,
                                              s: Storage.Store, roleName: string, base: Values,
                                              names: seq<string>, log: seq<Write>, policies: seq<string>, i: nat)
    requires forall j :: 0 <= j < |names| ==> TemplateStore.Resolvable(s, roleName, names[j])
    requires i < |names|
    requires AllSucceed(env, client, s, roleName, base, names[..i])
    requires Step(env, client, s, roleName, base, names[i]).Err?
    ensures RenderEach(env, client, s, roleName, base, names, log, policies)
            == RenderResult(log + Writes(env, client, s, roleName, base, names[..i]),
                            Err(Step(env, client, s, roleName, base, names[i]).error))
    decreases |names|
  {
    if i > 0 {
      var tail := names[1..];
      assert names[..i][0] == names[0];
      var a := Step(env, client, s, roleName, base, names[0]).value;
      assert tail[..i - 1] == names[..i][1..];
      assert tail[i - 1] == names[i];
      RenderEachAbortsAt(env, client, s, roleName, base, tail, log + [a.write], policies + PolicyList(a), i - 1);
      assert log + [a.write] + Writes(env, client, s, roleName, base, tail[..i - 1])
             == log + Writes(env, client, s, roleName, base, names[..i]);
    }
  }

  /** What the pass needs in order not to panic on a nil dereference: once a
      client is to be built, `config/vault` exists, and once the loop is
      reached, every listed name resolves. */
  predicate NoNilDereference(env: Collaborators, s: Storage.Store, instance: Option<Instance>, roleName: string) {
    instance.Some? && s.fault.None? && env.newClientError.None? ==>
      VaultConfigStore.VaultConfigPath in s.entries &&
      (VaultConfigStore.GetVaultClient(s, None).Ok? ==>
         forall n :: n in Storage.Children(s.entries, TemplateStore.TemplatePrefix(roleName)) ==>
           TemplateStore.Resolvable(s, roleName, n))
  }

  /** `renderTemplates`: checks the instance, builds the values, lists the
      role's templates, builds one client, and runs the loop. */
  function RenderTemplates(env: Collaborators, s: Storage.Store, instance: Option<Instance>,
                           roleName: string, role: RoleEntry, log: seq<Write>): (r: RenderResult)
    requires NoNilDereference(env, s, instance, roleName)
    ensures instance.None? ==> r == RenderResult(log, Err(NilInstance))
    ensures instance.Some? && s.fault.Some? ==> r == RenderResult(log, Err(StorageError(s.fault.value)))
    ensures instance.Some? && s.fault.None? ==>
              var c := VaultConfigStore.GetVaultClient(s, env.newClientError);
              c.Err? ==> r == RenderResult(log, Err(c.error))
    ensures log <= r.log
  {
    match instance
    case None => RenderResult(log, Err(NilInstance))
    case Some(inst) =>
      var values := BuildValues(role, inst);
      match Storage.List(s, TemplateStore.TemplatePrefix(roleName))
      case Err(e) => RenderResult(log, Err(e))
      case Ok(names) =>
        match VaultConfigStore.GetVaultClient(s, env.newClientError)
        case Err(e) => RenderResult(log, Err(e))
        case Ok(client) => RenderEach(env, client, s, roleName, values, names, log, [])
  }

  /** The names the pass lists for a role, in listing order. */
  function Listing(s: Storage.Store, roleName: string): seq<string> {
    StringOrder.Sorted(Storage.Children(s.entries, TemplateStore.TemplatePrefix(roleName)))
  }

  /** Every name listed under the role's prefix resolves. */
  predicate ListedResolve(s: Storage.Store, roleName: string) {
    forall n :: n in Storage.Children(s.entries, TemplateStore.TemplatePrefix(roleName)) ==>
      TemplateStore.Resolvable(s, roleName, n)
  }

  /** Once a client is obtained, the pass is the loop over the listing,
      starting from the given log and an empty policy list. */
  lemma RunsLoopOverListing(env: Collaborators, s: Storage.Store, instance: Instance,
                            roleName: string, role: RoleEntry, log: seq<Write>,
                            client: VaultConfigStore.VaultClient)
    requires s.fault.None? && VaultConfigStore.VaultConfigPath in s.entries
    requires VaultConfigStore.GetVaultClient(s, env.newClientError) == Ok(client)
    requires ListedResolve(s, roleName)
    ensures forall i :: 0 <= i < |Listing(s, roleName)| ==>
              TemplateStore.Resolvable(s, roleName, Listing(s, roleName)[i])
    ensures RenderTemplates(env, s, Some(instance), roleName, role, log)
            == RenderEach(env, client, s, roleName, BuildValues(role, instance), Listing(s, roleName), log, [])
  {
  }

  /** A pass that gets past the client runs the loop over the role's
      templates in listing order: it succeeds exactly when every template
      does, and then has written every artifact in order and returns the
      artifact names of exactly the `policy` templates, in order. */
  lemma RenderTemplatesSucceeds(env: Collaborators, s: Storage.Store, instance: Instance,
                                roleName: string, role: RoleEntry, log: seq<Write>,
                                client: VaultConfigStore.VaultClient)
    requires s.fault.None? && VaultConfigStore.VaultConfigPath in s.entries
    requires VaultConfigStore.GetVaultClient(s, env.newClientError) == Ok(client)
    requires ListedResolve(s, roleName)
    ensures var names := Listing(s, roleName);
            var v := BuildValues(role, instance);
            var r := RenderTemplates(env, s, Some(instance), roleName, role, log);
            (r.result.Ok? <==> AllSucceed(env, client, s, roleName, v, names)) &&
            (r.result.Ok? ==>
               r == RenderResult(log + Writes(env, client, s, roleName, v, names),
                                 Ok(PolicyNames(s, roleName, v, names))))
  {
    var names := Listing(s, roleName);
    var v := BuildValues(role, instance);
    RunsLoopOverListing(env, s, instance, roleName, role, log, client);
    RenderEachSucceeds(env, client, s, roleName, v, names, log, []);
    if AllSucceed(env, client, s, roleName, v, names) {
      assert [] + PolicyNames(s, roleName, v, names) == PolicyNames(s, roleName, v, names);
    }
  }
}
