/** Invariants of the store that every handler keeps, and the independence
    of the template store from the vault config. */
module Invariants {
  import opened Results
  import opened Records
  import Storage
  import TemplateStore
  import VaultConfigStore

  predicate IsTemplateKey(k: string) {
    "template/" <= k
  }

  /** Every key under `template/` holds a template stored under its own role
      and name, with a '/'-free role, and `config/vault` holds a vault
      config. */
  predicate WellFormed(s: Storage.Store) {
    forall k :: k in s.entries ==>
      (IsTemplateKey(k) ==>
         s.entries[k].TemplateEntry? && '/' !in s.entries[k].t.role &&
         k == TemplateStore.TemplatePath(s.entries[k].t.role, s.entries[k].t.templateName)) &&
      (k == VaultConfigStore.VaultConfigPath ==> s.entries[k].VaultEntry?)
  }

  /** Template keys and the vault config key never collide. */
  lemma KeysDisjoint(roleName: string, templateName: string)
    ensures IsTemplateKey(TemplateStore.TemplatePath(roleName, templateName))
    ensures !IsTemplateKey(VaultConfigStore.VaultConfigPath)
    ensures TemplateStore.TemplatePath(roleName, templateName) != VaultConfigStore.VaultConfigPath
  {
    assert TemplateStore.TemplatePath(roleName, templateName)[0] == 't';
  }

  /** The router only accepts role names matching a name pattern without
      '/', so a create/update sees a '/'-free role. */
  lemma TemplateCreateUpdatePreserves(s: Storage.Store, req: TemplateStore.TemplateRequest)
    requires WellFormed(s)
    requires '/' !in req.role
    ensures WellFormed(TemplateStore.CreateUpdate(s, req).store)
  {
    KeysDisjoint(req.role, req.templateName);
  }

  lemma TemplateDeletePreserves(s: Storage.Store, roleName: string, templateName: string)
    requires WellFormed(s)
    ensures WellFormed(TemplateStore.Delete(s, roleName, templateName).store)
  {
  }

  lemma VaultCreateUpdatePreserves(s: Storage.Store, req: VaultConfigStore.VaultConfigRequest)
    requires WellFormed(s)
    ensures WellFormed(VaultConfigStore.CreateUpdate(s, req).store)
  {
    KeysDisjoint("", "");
  }

  lemma VaultDeletePreserves(s: Storage.Store)
    requires WellFormed(s)
    ensures WellFormed(VaultConfigStore.Delete(s).store)
  {
  }

  /** In a well-formed store, a template looked up under a '/'-free role
      carries the role and name it was looked up by. */
  lemma StoredTemplateMatchesKey(s: Storage.Store, roleName: string, templateName: string)
    requires WellFormed(s)
    requires '/' !in roleName
    requires TemplateStore.TemplatePath(roleName, templateName) in s.entries
    ensures var t := AsTemplate(s.entries[TemplateStore.TemplatePath(roleName, templateName)]);
            t.role == roleName && t.templateName == templateName
  {
    var key := TemplateStore.TemplatePath(roleName, templateName);
    KeysDisjoint(roleName, templateName);
    var t := s.entries[key].t;
    assert key == TemplateStore.TemplatePath(t.role, t.templateName);
    TemplateStore.TemplatePathInjective(roleName, templateName, t.role, t.templateName);
  }

  /** The template handlers never change what the vault config reads as. */
  lemma TemplateHandlersKeepVaultConfig(s: Storage.Store, req: TemplateStore.TemplateRequest,
                                        roleName: string, templateName: string)
    ensures VaultConfigStore.LoadVaultConfig(TemplateStore.CreateUpdate(s, req).store)
            == VaultConfigStore.LoadVaultConfig(s)
    ensures VaultConfigStore.LoadVaultConfig(TemplateStore.Delete(s, roleName, templateName).store)
            == VaultConfigStore.LoadVaultConfig(s)
  {
    KeysDisjoint(req.role, req.templateName);
    KeysDisjoint(roleName, templateName);
  }

  /** The vault config handlers never change what a template reads as. */
  lemma VaultHandlersKeepTemplates(s: Storage.Store, req: VaultConfigStore.VaultConfigRequest,
                                   roleName: string, templateName: string)
    ensures TemplateStore.LoadTemplate(VaultConfigStore.CreateUpdate(s, req).store, roleName, templateName)
            == TemplateStore.LoadTemplate(s, roleName, templateName)
    ensures TemplateStore.LoadTemplate(VaultConfigStore.Delete(s).store, roleName, templateName)
            == TemplateStore.LoadTemplate(s, roleName, templateName)
  {
    KeysDisjoint(roleName, templateName);
  }
}
