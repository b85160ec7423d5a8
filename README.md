# Additive settings merge, modelled in Dafny

`scripts/merge-settings.py` upgrades a user's JSON settings file (or `.mcp.json`
file) from a template. It only ever adds things and never removes or overwrites
them:

- a template dict (`enabledPlugins`, `hooks`, `mcpServers`) contributes the keys
  the user's dict lacks;
- a template permission list (`permissions.allow`, `deny`, `ask`) contributes
  the items the user's list lacks;
- every sub-merge that added something reports one change line;
- the user file is backed up and rewritten only when some line was reported.

This project models that merge on already-parsed JSON documents. It proves:

- what the user document looks like afterwards;
- which change lines are reported;
- that nothing else changes;
- that a second run finds nothing to do.

Modules:

- `Values` — JSON values (`Json`) and Python's dict as an ordered sequence of
  key/value pairs with unique keys. `Put` is `d[k] = v`: an existing key keeps
  its position and gets the new value, a new key goes at the end.
- `Containers` — the mutable list and dict the script updates in place
  (`JsonList`, `JsonDict`).
- `Merge` — `merge_arrays` and `merge_objects`. Each is a method over a
  `JsonList`/`JsonDict` with a loop, proved equal to a specification function
  (`ArrayAdded`, `ObjectAdded`). Lemmas about those functions state what the
  script promises.
- `Settings` — `merge_settings` and `merge_mcp`. The stages (plugins,
  permissions lists, hooks, MCP servers) are specification functions on the
  user document, and in-place methods are proved to match them. A missing
  container is first created empty and is then merged into.
- `SettingsLemmas` — the whole merge stated against the user's original
  containers:
  - each dict becomes the user's pairs followed by the template pairs it
    lacked, in template order;
  - each list becomes the user's items followed by the new template items,
    each once;
  - change lines come in the order plugins, `allow`, `deny`, `ask`, hooks;
  - no change lines means nothing was missing;
  - merging a second time is a no-op.
- `Upgrade` — the decision `main` takes:
  - the template alone picks the MCP or settings merge;
  - the file is rewritten exactly when the merge reported changes, which is
    when the user lacked something the template has.

## Model

| member | source | states |
|---|---|---|
| Values.HasKeyAt | scripts/merge-settings.py:38 | `k in d` holds if and only if some pair of the dict has key `k` |
| Values.LookupIn | scripts/merge-settings.py:52 | `d[k]` is the value of a pair of the dict whose key is `k` |
| Values.Put | scripts/merge-settings.py:39 | assigning `d[k] = v` replaces the value of an existing key at its position and appends an absent key at the end, so the length grows only for a new key |
| Values.PutValid | scripts/merge-settings.py:39 | after `d[k] = v` there is still one pair per key, `d[k]` is `v`, and no other key's pair changes |
| Containers.JsonList.Append | scripts/merge-settings.py:29 | `user_arr.append(item)` puts the item at the end of the list and changes nothing else |
| Containers.JsonDict.Set | scripts/merge-settings.py:39 | `user_obj[key] = value` changes the dict as `Put` describes |
| Merge.ArrayAdded | scripts/merge-settings.py:24-31 | every item `merge_arrays` returns comes from the template and was not in the user's original list |
| Merge.MergeArrays | scripts/merge-settings.py:24-31 | the user list ends as its original items followed by exactly the returned items, and those are `ArrayAdded` of the original list |
| Merge.ArrayAddedExactly | scripts/merge-settings.py:27-30 | an item is returned if and only if it is in the template and not in the user's original list |
| Merge.ArrayAddedDistinct | scripts/merge-settings.py:27-30 | the returned items have no duplicates even when the template repeats an item, because membership is tested against the growing list |
| Merge.ArrayMergeCovers | scripts/merge-settings.py:27-30 | afterwards every template item is in the user list |
| Merge.ArrayAddedNone | scripts/merge-settings.py:27-31 | when the user list already holds every template item, nothing is added |
| Merge.ArrayMergeIdempotent | scripts/merge-settings.py:24-31 | merging the same template into the merged list adds nothing |
| Merge.ArrayAddedSnoc | scripts/merge-settings.py:27-30 | one more template item at the end is appended if and only if neither the user list nor the items added so far hold it |
| Merge.ArrayAddedInTemplateOrder | scripts/merge-settings.py:27-30 | the returned items are the template items absent from the user list, each at its first occurrence, in template order (independent reference definition `FirstNew`) |
| Merge.ObjectAdded | scripts/merge-settings.py:34-41 | every pair `merge_objects` inserts is a pair of the template |
| Merge.MergeObjects | scripts/merge-settings.py:34-41 | the user dict ends as its original pairs followed by the inserted pairs, and the returned keys are exactly their keys |
| Merge.ObjectAddedExactly | scripts/merge-settings.py:37-41 | a key is returned if and only if the template has it and the user did not, and each key is returned once |
| Merge.ObjectMergeValid | scripts/merge-settings.py:37-40 | the merged user dict still holds each key once |
| Merge.ObjectMergeKeepsUser | scripts/merge-settings.py:37-40 | every key the user had keeps its value and its position |
| Merge.ObjectMergeTakesTemplate | scripts/merge-settings.py:37-40 | afterwards every template key is present, and each newly inserted key carries the template's value |
| Merge.ObjectAddedNone | scripts/merge-settings.py:37-41 | when the user already has every template key, nothing is inserted |
| Merge.ObjectMergeIdempotent | scripts/merge-settings.py:34-41 | merging the same template into the merged dict inserts nothing |
| Merge.ObjectAddedIsMissing | scripts/merge-settings.py:37-41 | the inserted pairs are the template pairs whose keys the user's original dict lacks, in template order (independent reference definition `Missing`) |
| Settings.PermissionLabel | scripts/merge-settings.py:66 | the permission heading is the fixed prefix `  Added permissions.`, then the key, then `: `, so the key can be read back and distinct keys give distinct headings |
| Settings.Join | scripts/merge-settings.py:54 | `', '.join(added)` starts with the first part and is at least as long as all the parts together |
| Settings.JoinSnoc | scripts/merge-settings.py:54 | joining one more part appends the separator and the part (just the part when there was none) |
| Settings.Entry | scripts/merge-settings.py:53-54 | a sub-merge reports at most one line, and none if and only if it added nothing |
| Settings.EntryLine | scripts/merge-settings.py:53-54 | the line of a sub-merge that added something starts with its heading followed by the first added name, and a single added name gives exactly heading plus that name |
| Settings.RegistryMerge | scripts/merge-settings.py:49-54 | a dict block (`enabledPlugins`, `hooks`, `mcpServers`) changes only its own top-level key, every other key keeps its value, and keys stay unique |
| Settings.MergeRegistry | scripts/merge-settings.py:49-54 | the in-place block creates the container when it is missing, merges into it, and leaves the user dict and change lines as `RegistryMerge` says |
| Settings.ListMerge | scripts/merge-settings.py:61-66 | one permission list block changes only its own sub-key of `permissions` |
| Settings.MergeList | scripts/merge-settings.py:61-66 | the in-place block creates the list when it is missing, merges into it, and ends as `ListMerge` says |
| Settings.ListsMerge | scripts/merge-settings.py:60-66 | the loop over the permission keys changes only those sub-keys of `permissions` and keeps every list mergeable |
| Settings.MergeLists | scripts/merge-settings.py:60-66 | the in-place loop over `allow`, `deny`, `ask` ends as `ListsMerge` says |
| Settings.PermissionsMerge | scripts/merge-settings.py:57-66 | the permissions block changes only the `permissions` key and every other key keeps its value |
| Settings.MergePermissions | scripts/merge-settings.py:57-66 | the in-place permissions block ends as `PermissionsMerge` says |
| Settings.SettingsMerge | scripts/merge-settings.py:44-76 | `merge_settings` changes only `enabledPlugins`, `permissions` and `hooks`: every other pair of the user document stays, unchanged and at its position |
| Settings.MergeSettings | scripts/merge-settings.py:44-76 | the in-place run of the three blocks ends as `SettingsMerge` says |
| Settings.McpMerge | scripts/merge-settings.py:79-90 | `merge_mcp` changes only `mcpServers` |
| Settings.MergeMcp | scripts/merge-settings.py:79-90 | the in-place `merge_mcp` ends as `McpMerge` says |
| SettingsLemmas.RegistryMergeSpec | scripts/merge-settings.py:49-54 | when the template has the dict, the user's dict becomes its own pairs followed by the template pairs it lacked; when the template has none, the document is untouched; the change line lists exactly the inserted keys |
| SettingsLemmas.RegistryEntryEmpty | scripts/merge-settings.py:52-54 | a dict block reports no line if and only if the user's dict already has every template key |
| SettingsLemmas.RegistryMergeCovers | scripts/merge-settings.py:49-52 | the expected dict holds every key of the template's dict |
| SettingsLemmas.RegistryNoop | scripts/merge-settings.py:49-54 | when the container exists and has every template key, the block changes nothing and reports nothing |
| SettingsLemmas.ListMergeSpec | scripts/merge-settings.py:61-66 | when the template has the list, the user's list becomes its items followed by the new template items, each once; otherwise nothing changes; the change line lists exactly those items |
| SettingsLemmas.ListsMergeSpec | scripts/merge-settings.py:60-66 | after the loop every listed key the template has holds its expected list, every other sub-key is unchanged, and the lines come in key order |
| SettingsLemmas.PermissionsMergeSpec | scripts/merge-settings.py:57-66 | the permissions dict ends with each of `allow`/`deny`/`ask` the template has set to its expected list, other sub-keys untouched, and the lines come in the order `allow`, `deny`, `ask` |
| SettingsLemmas.SettingsPluginsResult | scripts/merge-settings.py:49-54 | after the whole merge, `enabledPlugins` holds the user's original plugins followed by the template plugins it lacked |
| SettingsLemmas.SettingsPermissionsResult | scripts/merge-settings.py:57-66 | after the whole merge, `permissions` holds the expected lists computed from the user's original lists |
| SettingsLemmas.SettingsHooksResult | scripts/merge-settings.py:69-74 | after the whole merge, `hooks` holds the user's original hook events followed by the template events it lacked |
| SettingsLemmas.SettingsMergeContents | scripts/merge-settings.py:44-76 | the merged document holds the expected plugins, permissions and hooks, all stated against the user's original document |
| SettingsLemmas.SettingsChangeLog | scripts/merge-settings.py:46-76 | the change lines are the plugins line, then the `allow`, `deny`, `ask` lines, then the hooks line, each present only when its sub-merge added something |
| SettingsLemmas.ListEntryEmpty | scripts/merge-settings.py:64-66 | a permission list reports no line if and only if the user's list already holds every template item |
| SettingsLemmas.ListEntriesEmpty | scripts/merge-settings.py:60-66 | the list loop reports nothing if and only if every listed user list already holds its template items |
| SettingsLemmas.PermissionEntriesEmpty | scripts/merge-settings.py:57-66 | the permissions block reports nothing if and only if each of `allow`/`deny`/`ask` is already covered |
| SettingsLemmas.SettingsUpToDate | scripts/merge-settings.py:46-76 | `merge_settings` returns no lines if and only if the user document already has every template plugin, permission item and hook event, even when it had to create empty containers |
| SettingsLemmas.ListNoop | scripts/merge-settings.py:61-66 | a list that exists and holds every template item is left unchanged, with no line |
| SettingsLemmas.ListsNoop | scripts/merge-settings.py:60-66 | when every listed list exists and is covered, the loop changes nothing |
| SettingsLemmas.PermissionsNoop | scripts/merge-settings.py:57-66 | when the permissions dict and its lists exist and are covered, the block changes nothing |
| SettingsLemmas.SettingsNoop | scripts/merge-settings.py:44-76 | when every container exists and is covered, `merge_settings` leaves the document as it is and returns no lines |
| SettingsLemmas.RegistrySaturates | scripts/merge-settings.py:49-52 | after a dict block the container exists and holds every template key |
| SettingsLemmas.ListMergeCovers | scripts/merge-settings.py:61-64 | the expected list holds every template item |
| SettingsLemmas.PermissionsSaturates | scripts/merge-settings.py:57-64 | after the permissions block the dict and its template lists exist and are covered |
| SettingsLemmas.SettingsSaturates | scripts/merge-settings.py:44-76 | after `merge_settings` every container the template has exists and is covered |
| SettingsLemmas.SettingsIdempotent | scripts/merge-settings.py:44-76 | a second `merge_settings` with the same template leaves the merged document unchanged and returns no lines |
| SettingsLemmas.McpMergeContents | scripts/merge-settings.py:79-90 | `mcpServers` becomes the user's servers followed by the template servers it lacked, and the single line lists exactly those |
| SettingsLemmas.McpUpToDate | scripts/merge-settings.py:83-90 | `merge_mcp` returns no lines if and only if the user already has every template server |
| SettingsLemmas.McpIdempotent | scripts/merge-settings.py:79-90 | a second `merge_mcp` leaves the merged document unchanged and returns no lines |
| SettingsLemmas.ExampleKeepsUserPlugin | scripts/merge-settings.py:49-54 | a user plugin whose value differs from the template's keeps the user's value, and the missing plugin is added and reported as `  Added plugins: b` |
| SettingsLemmas.ExampleCreatesEmptyHooks | scripts/merge-settings.py:69-74 | a template with an empty `hooks` dict gives an empty user document an empty `hooks` dict and reports nothing |
| Upgrade.PolicyFor | scripts/merge-settings.py:130-133 | the MCP merge is chosen if and only if the template has `mcpServers`, whatever the user document holds |
| Upgrade.MergeFor | scripts/merge-settings.py:130-133 | the chosen merge changes only the keys of its document shape |
| Upgrade.Decide | scripts/merge-settings.py:135-144 | the file is backed up and rewritten if and only if the change list is non-empty; what is written is the merged document with those changes, and it differs from the user's only under the keys of the chosen shape |
| Upgrade.DecideWritesIffMissing | scripts/merge-settings.py:130-144 | the file is backed up and rewritten if and only if the user document lacks something the template has |
| Upgrade.DecideIdempotent | scripts/merge-settings.py:130-144 | upgrading the rewritten file with the same template finds it already up to date |
| Upgrade.DecideIdentical | scripts/merge-settings.py:130-137 | a user file identical to the template is left as it is and reported as already up to date |
| Upgrade.MergeAndDecide | scripts/merge-settings.py:130-144 | merging the parsed user dict in place and then deciding yields the chosen merge's document and the action `Decide` gives |
| Upgrade.ExampleEmptyContainerNotWritten | scripts/merge-settings.py:130-137 | an empty container created in memory is not written out: no change is reported, so the file stays as it was |

## Left out

- File-system access in `main` is not modelled (lines 94-109 and 139-144). That covers the check of the argument count, the check that the template exists, copying the template over a missing user file, the backup copy and the write. An `Action` names what would be written.
- JSON parsing and serialisation (lines 111-127 and 144) are not modelled, and neither is recovery from a corrupt user file. The model starts from already-parsed documents, and a number keeps its literal text.
- Timestamps and backup file names (lines 123 and 140) are not modelled. They depend on the clock and on the path library's suffix rules.
- Console output and exit codes (lines 95-148) are not modelled. The change lines are returned, but not printed.
- Values.Put: a JSON object with a repeated key is outside the model. Documents are dicts with one pair per key (`ValidObject`), because the parser keeps only one value per key.
- Settings.SettingsMerge: every ill-typed container is excluded by the preconditions (`SettingsMergeable`, `McpMergeable`), not modelled as an error path. They require JSON-object roots (the type `Object` has no other shape), a dict under each of the template's dict keys, a dict under the user's key wherever the template has that key, a list under the user's `allow`/`deny`/`ask` wherever the template has that list, and string items in the template's permission lists. This excludes more than the script needs: some ill-typed inputs run without error in the script, e.g. a user `hooks` of `5` under an empty template `hooks`, a user `enabledPlugins` list or string that already `in`-contains every template key, or a template root that is a JSON list holding none of the strings `mcpServers`, `enabledPlugins`, `permissions`, `hooks` (every `in` test is false and the run reports "already up to date"; a list such as `["hooks"]` instead raises `TypeError` at `template["hooks"]`, line 72). Other ill-typed inputs raise at different points: `AttributeError` at `template_obj.items()` when the template's `enabledPlugins`, `hooks` or `mcpServers` is not a dict (line 37), `TypeError` at the `key in`/`[key] =` steps on a user value that is not a dict (lines 38-39), `AttributeError` at `.append` on a non-list (line 29), and `TypeError` from `', '.join` on a non-string permission item (line 66 only: the keys joined at lines 54, 74 and 88 come from a parsed dict and are always strings). The partial update before such an exception is not modelled.
- Settings.ListMerge: every template item under a permission key must be a string. The script fails only when a non-string item is actually added, because `', '.join` then fails.
- Merge.ArrayAdded: list membership is structural equality of JSON values. Python's `==` also equates some values with different text, such as `1`, `1.0` and `true`. Likewise Python's dict equality ignores key order, while `Obj` equality is order-sensitive. The settings merge applies the list merge only to string items, and there the two agree.
- Settings.MergeRegistry, Settings.MergeList and Settings.MergePermissions: the script merges into the nested dict or list in place through an alias. These methods copy the nested container into a fresh `JsonDict` or `JsonList`, merge it and store it back. A parsed document shares no containers, so the result is the same, but aliasing itself is not modelled.
