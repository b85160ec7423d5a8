/** The decision `main` takes once both documents are parsed: the template
    alone picks the merge (`merge_mcp` when it has `mcpServers`, otherwise
    `merge_settings`), and the user file is backed up and rewritten only
    when that merge reported a change. Files, parsing, timestamps and
    printing stay outside: the action names what would be written. */
module Upgrade {
  import opened Values
  import opened Containers
  import opened Settings
  import opened SettingsLemmas

  /** The two document shapes. */
  datatype Policy = McpPolicy | SettingsPolicy

  /** The template decides the shape, whatever the user document holds. */
  function PolicyFor(template: Object): (p: Policy)
    ensures p == McpPolicy <==> HasKey(template, McpKey)
  {
    if HasKey(template, McpKey) then McpPolicy else SettingsPolicy
  }

  /** The top-level keys a merge of that shape may change. */
  function PolicyKeys(p: Policy): set<string>
  {
    match p
    case McpPolicy => {McpKey}
    case SettingsPolicy => {PluginsKey, PermissionsKey, HooksKey}
  }

  predicate Mergeable(template: Object, user: Object)
  {
    match PolicyFor(template)
    case McpPolicy => McpMergeable(template, user)
    case SettingsPolicy => SettingsMergeable(template, user)
  }

  /** The merge `main` runs on the two documents. */
  function MergeFor(template: Object, user: Object): (m: Merged)
    requires Mergeable(template, user)
    ensures ValidObject(m.user) && ChangesOnly(user, m.user, PolicyKeys(PolicyFor(template)))
  {
    match PolicyFor(template)
    case McpPolicy => McpMerge(template, user)
    case SettingsPolicy => SettingsMerge(template, user)
  }

  /** The user document already holds everything the template would add. */
  ghost predicate Covered(template: Object, user: Object)
  {
    match PolicyFor(template)
    case McpPolicy => RegistryCovered(template, user, McpKey)
    case SettingsPolicy => SettingsCovered(template, user)
  }

  /** What `main` does with the user file. */
  datatype Action =
    | AlreadyUpToDate
    | BackupAndWrite(document: Object, changes: seq<string>)

  /** Back up and rewrite exactly when the merge reported a change, writing
      the merged document; it differs from the original only under the keys
      of the chosen shape. */
  function Decide(template: Object, user: Object): (a: Action)
    requires Mergeable(template, user)
    ensures a.BackupAndWrite? <==> MergeFor(template, user).changes != []
    ensures a.BackupAndWrite? ==>
      && a.document == MergeFor(template, user).user
      && a.changes == MergeFor(template, user).changes
      && ValidObject(a.document)
      && ChangesOnly(user, a.document, PolicyKeys(PolicyFor(template)))
  {
    var m := MergeFor(template, user);
    if m.changes == [] then AlreadyUpToDate else BackupAndWrite(m.user, m.changes)
  }

  /** The file is rewritten exactly when the user document lacks something
      the template has. */
  lemma DecideWritesIffMissing(template: Object, user: Object)
    requires Mergeable(template, user)
    ensures Decide(template, user).BackupAndWrite? <==> !Covered(template, user)
  {
    if HasKey(template, McpKey) {
      McpUpToDate(template, user);
    } else {
      SettingsUpToDate(template, user);
    }
  }

  /** Upgrading the rewritten file with the same template finds it up to
      date. */
  lemma DecideIdempotent(template: Object, user: Object)
    requires Mergeable(template, user)
    ensures var a := Decide(template, user);
      a.BackupAndWrite? ==> Mergeable(template, a.document) && Decide(template, a.document) == AlreadyUpToDate
  {
    if HasKey(template, McpKey) {
      McpIdempotent(template, user);
    } else {
      SettingsIdempotent(template, user);
    }
  }

  /** A user file identical to the template is already up to date, and the
      merge leaves it as it is. */
  lemma DecideIdentical(template: Object)
    requires Mergeable(template, template)
    ensures MergeFor(template, template) == Merged(template, [])
    ensures Decide(template, template) == AlreadyUpToDate
  {
    if HasKey(template, McpKey) {
      RegistryNoop(template, template, McpKey, McpLabel);
    } else {
      assert PermissionsSaturated(template, template);
      SettingsNoop(template, template);
    }
  }

  /** Lines 130-144 of `main` on the parsed user dict: merge in place, then
      decide. As in the script, the in-memory dict holds the merged document
      even when nothing is written. */
  method MergeAndDecide(template: Object, user: JsonDict) returns (action: Action)
    requires Mergeable(template, user.entries)
    modifies user
    ensures user.entries == MergeFor(template, old(user.entries)).user
    ensures action == Decide(template, old(user.entries))
  {
    var changes;
    if HasKey(template, McpKey) {
      changes := MergeMcp(template, user);
    } else {
      changes := MergeSettings(template, user);
    }
    if changes == [] {
      action := AlreadyUpToDate;
    } else {
      action := BackupAndWrite(user.entries, changes);
    }
  }

  /** An empty container the merge creates is not written: the user file
      stays as it was when nothing was added. */
  lemma ExampleEmptyContainerNotWritten()
    ensures var template := [(HooksKey, Obj([]))];
      && Mergeable(template, [])
      && MergeFor(template, []).user != []
      && Decide(template, []) == AlreadyUpToDate
  {
    var template := [(HooksKey, Obj([]))];
    assert Keys(template) == [HooksKey];
    ExampleCreatesEmptyHooks();
  }
}
