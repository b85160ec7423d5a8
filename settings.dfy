/** `merge_settings` and `merge_mcp`: the additive merge applied to the two
    document shapes. A settings document has an `enabledPlugins` dict, a
    `permissions` dict of `allow`/`deny`/`ask` lists and a `hooks` dict; an
    MCP document has an `mcpServers` dict. Each stage is a function on the
    user document (the specification) and a method that updates the user
    dict in place; the lemmas state what the whole merge does in terms of the
    user's original containers. */
module Settings {
  import opened Values
  import opened Containers
  import opened Merge

  const PluginsKey := "enabledPlugins"
  const PermissionsKey := "permissions"
  const HooksKey := "hooks"
  const McpKey := "mcpServers"

  /** The permission lists, in the order they are merged. */
  const PermissionKeys: seq<string> := ["allow", "deny", "ask"]

  const PluginsLabel := "  Added plugins: "
  const HooksLabel := "  Added hook events: "
  const McpLabel := "  Added MCP servers: "

  /** The heading of permission list `key`; the key can be read back from it. */
  function PermissionLabel(key: string): (heading: string)
    ensures |heading| == |key| + 22 && heading[20..|heading| - 2] == key
    ensures heading[..20] == "  Added permissions." && heading[|heading| - 2..] == ": "
  {
    "  Added permissions." + key + ": "
  }

  /** The total length of some strings. */
  function TotalLength(parts: seq<string>): nat
    decreases |parts|
  {
    if parts == [] then 0 else |parts[0]| + TotalLength(parts[1..])
  }

  /** `sep.join(parts)`: the parts in order, one separator between any two. */
  function Join(parts: seq<string>, sep: string): (r: string)
    ensures TotalLength(parts) <= |r|
    ensures parts != [] ==> parts[0] <= r
    decreases |parts|
  {
    if parts == [] then ""
    else if |parts| == 1 then parts[0]
    else parts[0] + sep + Join(parts[1..], sep)
  }

  /** Joining one more part appends a separator and the part. */
  lemma {:induction false} JoinSnoc(parts: seq<string>, x: string, sep: string)
    ensures Join(parts + [x], sep) == if parts == [] then x else Join(parts, sep) + sep + x
    decreases |parts|
  {
    if |parts| > 1 {
      assert (parts + [x])[1..] == parts[1..] + [x];
      JoinSnoc(parts[1..], x, sep);
    } else if |parts| == 1 {
      assert (parts + [x])[1..] == [x];
    }
  }

  /** The change entry of one sub-merge: none when it added nothing, else one
      line. */
  function Entry(heading: string, added: seq<string>): (r: seq<string>)
    ensures |r| <= 1 && (r == [] <==> added == [])
  {
    if added == [] then [] else [heading + Join(added, ", ")]
  }

  /** The line of a sub-merge that added something starts with its heading
      and then names the first addition; a single addition is named alone. */
  lemma EntryLine(heading: string, added: seq<string>)
    requires added != []
    ensures heading + added[0] <= Entry(heading, added)[0]
    ensures |added| == 1 ==> Entry(heading, added) == [heading + added[0]]
  {
  }

  predicate AllStrings(xs: seq<Json>)
  {
    forall x :: x in xs ==> x.Str?
  }

  /** The texts of a list of JSON strings. */
  function Texts(xs: seq<Json>): (ts: seq<string>)
    requires AllStrings(xs)
    ensures |ts| == |xs|
  {
    seq(|xs|, i requires 0 <= i < |xs| => xs[i].s)
  }

  /** The user document after a merge, and the change entries it reported. */
  datatype Merged = Merged(user: Object, changes: seq<string>)

  // ------------------------------------------------------ container access

  /** The dict stored under `key`; the empty dict when there is none. */
  function ObjectAt(o: Object, key: string): Object
  {
    if HasKey(o, key) && Lookup(o, key).Obj? then Lookup(o, key).entries else []
  }

  /** The list stored under `key`; the empty list when there is none. */
  function ArrayAt(o: Object, key: string): seq<Json>
  {
    if HasKey(o, key) && Lookup(o, key).Arr? then Lookup(o, key).items else []
  }

  /** `o[key]`, when present, is a dict. */
  predicate DictOrAbsent(o: Object, key: string)
  {
    HasKey(o, key) ==> Lookup(o, key).Obj? && ValidObject(Lookup(o, key).entries)
  }

  /** `o[key]`, when present, is a list. */
  predicate ListOrAbsent(o: Object, key: string)
  {
    HasKey(o, key) ==> Lookup(o, key).Arr?
  }

  /** `o[key]`, when present, is a list of strings. */
  predicate StringsOrAbsent(o: Object, key: string)
  {
    HasKey(o, key) ==> Lookup(o, key).Arr? && AllStrings(Lookup(o, key).items)
  }

  /** The object union of `key` runs without a type error: the template's
      value is a dict and, when the template has one, so is the user's. */
  predicate ObjectMergeable(template: Object, user: Object, key: string)
  {
    DictOrAbsent(template, key) && (HasKey(template, key) ==> DictOrAbsent(user, key))
  }

  /** The list union of permission `key` runs without a type error, and its
      change entry can be joined: the template's value is a list of strings
      and, when the template has one, the user's value is a list. */
  predicate ListMergeable(tperms: Object, uperms: Object, key: string)
  {
    StringsOrAbsent(tperms, key) && (HasKey(tperms, key) ==> ListOrAbsent(uperms, key))
  }

  predicate PermissionsMergeable(template: Object, user: Object)
  {
    && ObjectMergeable(template, user, PermissionsKey)
    && forall key :: key in PermissionKeys ==>
         ListMergeable(ObjectAt(template, PermissionsKey), ObjectAt(user, PermissionsKey), key)
  }

  /** What `merge_settings` needs of its arguments to finish without
      raising. */
  predicate SettingsMergeable(template: Object, user: Object)
  {
    && ValidObject(template) && ValidObject(user)
    && ObjectMergeable(template, user, PluginsKey)
    && PermissionsMergeable(template, user)
    && ObjectMergeable(template, user, HooksKey)
  }

  /** What `merge_mcp` needs of its arguments to finish without raising. */
  predicate McpMergeable(template: Object, user: Object)
  {
    ValidObject(template) && ValidObject(user) && ObjectMergeable(template, user, McpKey)
  }

  /** Whether a key can be merged depends only on the value under it. */
  lemma MergeableSame(template: Object, a: Object, b: Object, key: string)
    requires SameAt(a, b, key)
    ensures ObjectMergeable(template, a, key) ==> ObjectMergeable(template, b, key)
    ensures key == PermissionsKey && PermissionsMergeable(template, a) ==> PermissionsMergeable(template, b)
  {
    assert ObjectAt(a, key) == ObjectAt(b, key);
  }

  // -------------------------------------------------------- specification

  /** One object-union block: create `user[key]` when missing, merge the
      template's dict under `key` into it, report the inserted keys. */
  function RegistryMerge(template: Object, user: Object, key: string, heading: string): (r: Merged)
    requires ValidObject(user) && ObjectMergeable(template, user, key)
    ensures ValidObject(r.user) && ChangesOnly(user, r.user, {key})
    ensures forall k {:trigger HasKey(r.user, k)} {:trigger SameAt(user, r.user, k)} ::
      k != key ==> SameAt(user, r.user, k)
    ensures ObjectMergeable(template, r.user, key)
  {
    if !HasKey(template, key) then Merged(user, [])
    else
      var target := ObjectAt(user, key);
      var added := ObjectAdded(ObjectAt(template, key), target);
      ObjectMergeValid(ObjectAt(template, key), target);
      PutValid(user, key, Obj(target + added));
      SameOutside(user, Put(user, key, Obj(target + added)), {key});
      Merged(Put(user, key, Obj(target + added)), Entry(heading, Keys(added)))
  }

  /** One permission list: create `perms[key]` when missing, append the
      template's items it lacks, report them. */
  function ListMerge(tperms: Object, uperms: Object, key: string): (r: Merged)
    requires ValidObject(uperms) && ListMergeable(tperms, uperms, key)
    ensures ValidObject(r.user) && ChangesOnly(uperms, r.user, {key})
    ensures ListMergeable(tperms, r.user, key)
  {
    if !HasKey(tperms, key) then Merged(uperms, [])
    else
      var target := ArrayAt(uperms, key);
      var added := ArrayAdded(ArrayAt(tperms, key), target);
      PutValid(uperms, key, Arr(target + added));
      Merged(Put(uperms, key, Arr(target + added)), Entry(PermissionLabel(key), Texts(added)))
  }

  /** Merging one permission list keeps every list mergeable that was. */
  lemma ListMergePreserves(tperms: Object, uperms: Object, key: string)
    requires ValidObject(uperms) && ListMergeable(tperms, uperms, key)
    ensures forall k :: ListMergeable(tperms, uperms, k) ==>
      ListMergeable(tperms, ListMerge(tperms, uperms, key).user, k)
  {
    SameOutside(uperms, ListMerge(tperms, uperms, key).user, {key});
  }

  /** The permission lists `keys`, one after the other. */
  function ListsMerge(tperms: Object, uperms: Object, keys: seq<string>): (r: Merged)
    requires ValidObject(uperms)
    requires forall key :: key in keys ==> ListMergeable(tperms, uperms, key)
    ensures ValidObject(r.user) && ChangesOnly(uperms, r.user, set key | key in keys)
    ensures forall key :: ListMergeable(tperms, uperms, key) ==> ListMergeable(tperms, r.user, key)
    decreases |keys|
  {
    if keys == [] then Merged(uperms, [])
    else
      var init, last := keys[..|keys| - 1], keys[|keys| - 1];
      assert forall key :: key in init ==> key in keys;
      var done := ListsMerge(tperms, uperms, init);
      ListMergePreserves(tperms, done.user, last);
      var step := ListMerge(tperms, done.user, last);
      ChangesOnlyTrans(uperms, done.user, step.user, set key | key in init, {last});
      assert (set key | key in keys) == (set key | key in init) + {last};
      Merged(step.user, done.changes + step.changes)
  }

  /** The permissions block: create `user["permissions"]` when missing, then
      merge `allow`, `deny` and `ask`. */
  function PermissionsMerge(template: Object, user: Object): (r: Merged)
    requires ValidObject(user) && PermissionsMergeable(template, user)
    ensures ValidObject(r.user) && ChangesOnly(user, r.user, {PermissionsKey})
    ensures forall k {:trigger HasKey(r.user, k)} {:trigger SameAt(user, r.user, k)} ::
      k != PermissionsKey ==> SameAt(user, r.user, k)
    ensures PermissionsMergeable(template, r.user)
  {
    if !HasKey(template, PermissionsKey) then Merged(user, [])
    else
      var lists := ListsMerge(ObjectAt(template, PermissionsKey), ObjectAt(user, PermissionsKey), PermissionKeys);
      PutValid(user, PermissionsKey, Obj(lists.user));
      SameOutside(user, Put(user, PermissionsKey, Obj(lists.user)), {PermissionsKey});
      Merged(Put(user, PermissionsKey, Obj(lists.user)), lists.changes)
  }

  /** `merge_settings(template, user)`: the resulting document and change
      entries. Only `enabledPlugins`, `permissions` and `hooks` may change;
      every other pair of the user document stays, unchanged and in place. */
  function SettingsMerge(template: Object, user: Object): (r: Merged)
    requires SettingsMergeable(template, user)
    ensures ValidObject(r.user) && ChangesOnly(user, r.user, {PluginsKey, PermissionsKey, HooksKey})
  {
    var plugins := RegistryMerge(template, user, PluginsKey, PluginsLabel);
    MergeableSame(template, user, plugins.user, PermissionsKey);
    MergeableSame(template, user, plugins.user, HooksKey);
    var permissions := PermissionsMerge(template, plugins.user);
    MergeableSame(template, plugins.user, permissions.user, HooksKey);
    var hooks := RegistryMerge(template, permissions.user, HooksKey, HooksLabel);
    ChangesOnlyTrans(user, plugins.user, permissions.user, {PluginsKey}, {PermissionsKey});
    ChangesOnlyTrans(user, permissions.user, hooks.user, {PluginsKey, PermissionsKey}, {HooksKey});
    Merged(hooks.user, plugins.changes + permissions.changes + hooks.changes)
  }

  /** `merge_mcp(template, user)`: only `mcpServers` may change. */
  function McpMerge(template: Object, user: Object): (r: Merged)
    requires McpMergeable(template, user)
    ensures ValidObject(r.user) && ChangesOnly(user, r.user, {McpKey})
  {
    RegistryMerge(template, user, McpKey, McpLabel)
  }

  // ---------------------------------------------------- in-place versions

  /** An object-union block of `merge_settings` or `merge_mcp`, on the user
      dict in place. */
  method MergeRegistry(template: Object, user: JsonDict, key: string, heading: string)
    returns (changes: seq<string>)
    requires ValidObject(user.entries) && ObjectMergeable(template, user.entries, key)
    modifies user
    ensures Merged(user.entries, changes) == RegistryMerge(template, old(user.entries), key, heading)
  {
    changes := [];
    if HasKey(template, key) {
      ghost var before := user.entries;
      if !user.Contains(key) {
        user.Set(key, Obj([]));
        PutValid(before, key, Obj([]));
      }
      var target := new JsonDict(user.Get(key).entries);
      var added := MergeObjects(Lookup(template, key).entries, target);
      user.Set(key, Obj(target.entries));
      PutPut(before, key, Obj([]), Obj(target.entries));
      if added != [] {
        changes := changes + [heading + Join(added, ", ")];
      }
    }
  }

  /** One pass of the permissions loop of `merge_settings`, on the
      permissions dict in place. */
  method MergeList(tperms: Object, perms: JsonDict, key: string) returns (changes: seq<string>)
    requires ValidObject(perms.entries) && ListMergeable(tperms, perms.entries, key)
    modifies perms
    ensures Merged(perms.entries, changes) == ListMerge(tperms, old(perms.entries), key)
  {
    changes := [];
    if HasKey(tperms, key) {
      ghost var before := perms.entries;
      if !perms.Contains(key) {
        perms.Set(key, Arr([]));
        PutValid(before, key, Arr([]));
      }
      var list := new JsonList(perms.Get(key).items);
      var added := MergeArrays(Lookup(tperms, key).items, list);
      perms.Set(key, Arr(list.items));
      PutPut(before, key, Arr([]), Arr(list.items));
      if added != [] {
        changes := changes + [PermissionLabel(key) + Join(Texts(added), ", ")];
      }
    }
  }

  /** The permissions loop of `merge_settings`, on the permissions dict in
      place. */
  method MergeLists(tperms: Object, perms: JsonDict, keys: seq<string>) returns (changes: seq<string>)
    requires ValidObject(perms.entries)
    requires forall key :: key in keys ==> ListMergeable(tperms, perms.entries, key)
    modifies perms
    ensures Merged(perms.entries, changes) == ListsMerge(tperms, old(perms.entries), keys)
  {
    changes := [];
    for i := 0 to |keys|
      invariant Merged(perms.entries, changes) == ListsMerge(tperms, old(perms.entries), keys[..i])
    {
      assert keys[..i + 1][..i] == keys[..i];
      assert keys[i] in keys;
      var c := MergeList(tperms, perms, keys[i]);
      changes := changes + c;
    }
    assert keys[..|keys|] == keys;
  }

  /** The permissions block of `merge_settings`, on the user dict in place. */
  method MergePermissions(template: Object, user: JsonDict) returns (changes: seq<string>)
    requires ValidObject(user.entries) && PermissionsMergeable(template, user.entries)
    modifies user
    ensures Merged(user.entries, changes) == PermissionsMerge(template, old(user.entries))
  {
    changes := [];
    if HasKey(template, PermissionsKey) {
      ghost var before := user.entries;
      if !user.Contains(PermissionsKey) {
        user.Set(PermissionsKey, Obj([]));
        PutValid(before, PermissionsKey, Obj([]));
      }
      var perms := new JsonDict(user.Get(PermissionsKey).entries);
      changes := MergeLists(Lookup(template, PermissionsKey).entries, perms, PermissionKeys);
      user.Set(PermissionsKey, Obj(perms.entries));
      PutPut(before, PermissionsKey, Obj([]), Obj(perms.entries));
    }
  }

  /** `merge_settings(template, user)`, on the user dict in place. */
  method MergeSettings(template: Object, user: JsonDict) returns (changes: seq<string>)
    requires SettingsMergeable(template, user.entries)
    modifies user
    ensures Merged(user.entries, changes) == SettingsMerge(template, old(user.entries))
  {
    ghost var u0 := user.entries;
    var plugins := MergeRegistry(template, user, PluginsKey, PluginsLabel);
    MergeableSame(template, u0, user.entries, PermissionsKey);
    MergeableSame(template, u0, user.entries, HooksKey);
    ghost var u1 := user.entries;
    var permissions := MergePermissions(template, user);
    MergeableSame(template, u1, user.entries, HooksKey);
    var hooks := MergeRegistry(template, user, HooksKey, HooksLabel);
    changes := plugins + permissions + hooks;
  }

  /** `merge_mcp(template, user)`, on the user dict in place. */
  method MergeMcp(template: Object, user: JsonDict) returns (changes: seq<string>)
    requires McpMergeable(template, user.entries)
    modifies user
    ensures Merged(user.entries, changes) == McpMerge(template, old(user.entries))
  {
    changes := MergeRegistry(template, user, McpKey, McpLabel);
  }
}
