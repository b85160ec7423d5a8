/** What `merge_settings` and `merge_mcp` do, stated against the user's
    original containers: each registry ends as the user's pairs followed by
    the template pairs it lacked, each permission list as the user's items
    followed by the template items it lacked, nothing else changes, the
    change entries come in the fixed order plugins, `allow`, `deny`, `ask`,
    hooks, and a second merge finds nothing to do. */
module SettingsLemmas {
  import opened Values
  import opened Merge
  import opened Settings

  // ------------------------------------------------- reference results

  /** The registry under `key` after the merge: the user's pairs, then the
      template's pairs whose keys the user lacked, in template order. */
  function ExpectedRegistry(template: Object, user: Object, key: string): Object
  {
    ObjectAt(user, key) + Missing(ObjectAt(template, key), ObjectAt(user, key))
  }

  /** The change entry of a registry: the keys the user lacked. */
  function RegistryEntry(template: Object, user: Object, key: string, heading: string): seq<string>
  {
    Entry(heading, Keys(Missing(ObjectAt(template, key), ObjectAt(user, key))))
  }

  /** Permission list `key` after the merge: the user's items, then the
      template items the user lacked, each once, in template order. */
  ghost function ExpectedList(tperms: Object, uperms: Object, key: string): seq<Json>
  {
    ArrayAt(uperms, key) + FirstNew(ArrayAt(tperms, key), ArrayAt(uperms, key))
  }

  /** The change entry of permission list `key`. */
  ghost function ListEntry(tperms: Object, uperms: Object, key: string): seq<string>
    requires StringsOrAbsent(tperms, key)
  {
    ArrayAddedInTemplateOrder(ArrayAt(tperms, key), ArrayAt(uperms, key));
    Entry(PermissionLabel(key), Texts(FirstNew(ArrayAt(tperms, key), ArrayAt(uperms, key))))
  }

  /** The change entries of permission lists `keys`, in that order. */
  ghost function ListEntries(tperms: Object, uperms: Object, keys: seq<string>): seq<string>
    requires forall key :: key in keys ==> StringsOrAbsent(tperms, key)
    decreases |keys|
  {
    if keys == [] then []
    else ListEntries(tperms, uperms, keys[..|keys| - 1]) + ListEntry(tperms, uperms, keys[|keys| - 1])
  }

  /** The change entries of the permissions block. */
  ghost function PermissionEntries(template: Object, user: Object): seq<string>
    requires PermissionsMergeable(template, user)
  {
    if HasKey(template, PermissionsKey)
    then ListEntries(ObjectAt(template, PermissionsKey), ObjectAt(user, PermissionsKey), PermissionKeys)
    else []
  }

  /** `after` holds the expected registry under `key` when the template has
      one, and the user's own value (or nothing) when it has none. */
  ghost predicate RegistryResult(template: Object, user: Object, after: Object, key: string)
  {
    if HasKey(template, key)
    then HasKey(after, key) && Lookup(after, key) == Obj(ExpectedRegistry(template, user, key))
    else SameAt(user, after, key)
  }

  /** The permissions dict `after` is `uperms` with each list the template
      has set to its expected value, every other sub-key unchanged and in
      place. */
  ghost predicate ListsResult(tperms: Object, uperms: Object, after: Object)
  {
    && ValidObject(after)
    && ChangesOnly(uperms, after, set key | key in PermissionKeys)
    && (forall key :: key in PermissionKeys && HasKey(tperms, key) ==>
          HasKey(after, key) && Lookup(after, key) == Arr(ExpectedList(tperms, uperms, key)))
    && (forall key :: key !in PermissionKeys || !HasKey(tperms, key) ==> SameAt(uperms, after, key))
  }

  /** `after` holds the expected permissions dict when the template has one,
      and the user's own value (or nothing) when it has none. */
  ghost predicate PermissionsResult(template: Object, user: Object, after: Object)
  {
    if HasKey(template, PermissionsKey)
    then
      && HasKey(after, PermissionsKey) && Lookup(after, PermissionsKey).Obj?
      && ListsResult(ObjectAt(template, PermissionsKey), ObjectAt(user, PermissionsKey), ObjectAt(after, PermissionsKey))
    else SameAt(user, after, PermissionsKey)
  }

  /** `RegistryResult` and `PermissionsResult` look only at their key. */
  lemma ResultsTransfer(template: Object, u1: Object, u2: Object, a1: Object, a2: Object, key: string)
    requires SameAt(u1, u2, key) && SameAt(a1, a2, key)
    ensures RegistryResult(template, u1, a1, key) ==> RegistryResult(template, u2, a2, key)
    ensures key == PermissionsKey && PermissionsResult(template, u1, a1) ==> PermissionsResult(template, u2, a2)
  {
    assert ObjectAt(u1, key) == ObjectAt(u2, key);
    assert ObjectAt(a1, key) == ObjectAt(a2, key);
  }

  /** The entries of a key that holds the same value in two documents agree. */
  lemma EntriesSame(template: Object, a: Object, b: Object, key: string, heading: string)
    requires SameAt(a, b, key)
    ensures RegistryEntry(template, a, key, heading) == RegistryEntry(template, b, key, heading)
    ensures key == PermissionsKey && PermissionsMergeable(template, a) ==>
      PermissionsMergeable(template, b) && PermissionEntries(template, a) == PermissionEntries(template, b)
  {
    assert ObjectAt(a, key) == ObjectAt(b, key);
  }

  /** Every key of the template's registry is already in the user's. */
  ghost predicate RegistryCovered(template: Object, user: Object, key: string)
  {
    forall k :: HasKey(ObjectAt(template, key), k) ==> HasKey(ObjectAt(user, key), k)
  }

  /** Every item of the template's list is already in the user's. */
  predicate ListCovered(tperms: Object, uperms: Object, key: string)
  {
    forall x :: x in ArrayAt(tperms, key) ==> x in ArrayAt(uperms, key)
  }

  /** The user document already holds everything the settings template
      would add. */
  ghost predicate SettingsCovered(template: Object, user: Object)
  {
    && RegistryCovered(template, user, PluginsKey)
    && (forall key :: key in PermissionKeys ==>
          ListCovered(ObjectAt(template, PermissionsKey), ObjectAt(user, PermissionsKey), key))
    && RegistryCovered(template, user, HooksKey)
  }

  /** Covered, and every container the template has already exists. */
  ghost predicate RegistrySaturated(template: Object, user: Object, key: string)
  {
    HasKey(template, key) ==> HasKey(user, key) && RegistryCovered(template, user, key)
  }

  predicate ListSaturated(tperms: Object, uperms: Object, key: string)
  {
    HasKey(tperms, key) ==> HasKey(uperms, key) && ListCovered(tperms, uperms, key)
  }

  predicate PermissionsSaturated(template: Object, user: Object)
  {
    HasKey(template, PermissionsKey) ==>
      && HasKey(user, PermissionsKey)
      && forall key :: key in PermissionKeys ==>
           ListSaturated(ObjectAt(template, PermissionsKey), ObjectAt(user, PermissionsKey), key)
  }

  ghost predicate SettingsSaturated(template: Object, user: Object)
  {
    && RegistrySaturated(template, user, PluginsKey)
    && PermissionsSaturated(template, user)
    && RegistrySaturated(template, user, HooksKey)
  }

  // ------------------------------------------------------ one registry

  /** An object-union block stores the expected registry under `key` when
      the template has one, leaves the document alone when it has none, and
      reports the keys it inserted. */
  lemma RegistryMergeSpec(template: Object, user: Object, key: string, heading: string)
    requires ValidObject(user) && ObjectMergeable(template, user, key)
    ensures var r := RegistryMerge(template, user, key, heading);
      && (HasKey(template, key) ==>
            HasKey(r.user, key) && Lookup(r.user, key) == Obj(ExpectedRegistry(template, user, key)))
      && (!HasKey(template, key) ==> r.user == user)
      && r.changes == RegistryEntry(template, user, key, heading)
  {
    var target := ObjectAt(user, key);
    ObjectAddedIsMissing(ObjectAt(template, key), target);
    if HasKey(template, key) {
      PutValid(user, key, Obj(target + ObjectAdded(ObjectAt(template, key), target)));
    }
  }

  /** The entry of a registry is empty exactly when it is covered. */
  lemma RegistryEntryEmpty(template: Object, user: Object, key: string, heading: string)
    requires DictOrAbsent(template, key)
    ensures RegistryEntry(template, user, key, heading) == [] <==> RegistryCovered(template, user, key)
  {
    var t, u := ObjectAt(template, key), ObjectAt(user, key);
    ObjectAddedIsMissing(t, u);
    ObjectAddedExactly(t, u);
    if RegistryCovered(template, user, key) {
      ObjectAddedNone(t, u);
    } else {
      var k :| HasKey(t, k) && !HasKey(u, k);
      assert k in Keys(ObjectAdded(t, u));
    }
  }

  /** After the merge the registry covers the template's. */
  lemma RegistryMergeCovers(template: Object, user: Object, key: string)
    requires DictOrAbsent(template, key) && DictOrAbsent(user, key)
    ensures forall k :: HasKey(ObjectAt(template, key), k) ==> HasKey(ExpectedRegistry(template, user, key), k)
  {
    var t, u := ObjectAt(template, key), ObjectAt(user, key);
    ObjectAddedIsMissing(t, u);
    ObjectMergeTakesTemplate(t, u);
  }

  /** A saturated registry is left exactly as it is. */
  lemma RegistryNoop(template: Object, user: Object, key: string, heading: string)
    requires ValidObject(user) && ObjectMergeable(template, user, key)
    requires RegistrySaturated(template, user, key)
    ensures RegistryMerge(template, user, key, heading) == Merged(user, [])
  {
    if HasKey(template, key) {
      var target := ObjectAt(user, key);
      ObjectAddedNone(ObjectAt(template, key), target);
      assert target + [] == target;
      PutSame(user, key);
    }
  }

  // ------------------------------------------------- permission lists

  lemma ListMergeSpec(tperms: Object, uperms: Object, key: string)
    requires ValidObject(uperms) && ListMergeable(tperms, uperms, key)
    ensures var r := ListMerge(tperms, uperms, key);
      && (HasKey(tperms, key) ==>
            HasKey(r.user, key) && Lookup(r.user, key) == Arr(ExpectedList(tperms, uperms, key)))
      && (!HasKey(tperms, key) ==> r.user == uperms)
      && r.changes == ListEntry(tperms, uperms, key)
  {
    var target := ArrayAt(uperms, key);
    ArrayAddedInTemplateOrder(ArrayAt(tperms, key), target);
    if HasKey(tperms, key) {
      PutValid(uperms, key, Arr(target + ArrayAdded(ArrayAt(tperms, key), target)));
    }
  }

  /** The entries of lists that hold the same values in two documents agree. */
  lemma {:induction false} ListEntriesSame(tperms: Object, a: Object, b: Object, keys: seq<string>)
    requires forall key :: key in keys ==> StringsOrAbsent(tperms, key)
    requires forall key :: key in keys ==> SameAt(a, b, key)
    ensures ListEntries(tperms, a, keys) == ListEntries(tperms, b, keys)
    decreases |keys|
  {
    if keys != [] {
      var last := keys[|keys| - 1];
      assert last in keys && SameAt(a, b, last);
      ListEntriesSame(tperms, a, b, keys[..|keys| - 1]);
    }
  }

  /** Merging distinct lists one after the other: each list the template has
      ends as its expected value, every other key is untouched, and the
      entries come in the order of `keys`. */
  lemma {:induction false} ListsMergeSpec(tperms: Object, uperms: Object, keys: seq<string>)
    requires ValidObject(uperms) && Distinct(keys)
    requires forall key :: key in keys ==> ListMergeable(tperms, uperms, key)
    ensures var r := ListsMerge(tperms, uperms, keys);
      && (forall key :: key in keys && HasKey(tperms, key) ==>
            HasKey(r.user, key) && Lookup(r.user, key) == Arr(ExpectedList(tperms, uperms, key)))
      && (forall key :: key !in keys || !HasKey(tperms, key) ==> SameAt(uperms, r.user, key))
      && r.changes == ListEntries(tperms, uperms, keys)
    decreases |keys|
  {
    if keys != [] {
      var init, last := keys[..|keys| - 1], keys[|keys| - 1];
      assert forall key :: key in keys <==> key in init || key == last;
      assert Distinct(init) && last !in init by {
        forall i | 0 <= i < |init| ensures init[i] != last {
          assert keys[i] != keys[|keys| - 1];
        }
      }
      ListsMergeSpec(tperms, uperms, init);
      var done := ListsMerge(tperms, uperms, init);
      var step := ListMerge(tperms, done.user, last);
      ListMergeSpec(tperms, done.user, last);
      SameOutside(done.user, step.user, {last});
      assert SameAt(uperms, done.user, last);
      forall key | key in init
        ensures SameAt(done.user, step.user, key)
      {
        assert key != last;
      }
      ListEntriesSame(tperms, uperms, done.user, [last]);
      assert ListEntry(tperms, done.user, last) == ListEntry(tperms, uperms, last);
      forall key | key !in keys || !HasKey(tperms, key)
        ensures SameAt(uperms, step.user, key)
      {
        assert SameAt(uperms, done.user, key);
        assert SameAt(done.user, step.user, key);
      }
    }
  }

  lemma PermissionKeysDistinct()
    ensures Distinct(PermissionKeys)
  {
  }

  /** The permissions block: when the template has one, every permission
      list the template has ends as its expected value and every other
      sub-key of the user's permissions stays, unchanged and in place; when
      it has none, the document is left alone. */
  lemma PermissionsMergeSpec(template: Object, user: Object)
    requires ValidObject(user) && PermissionsMergeable(template, user)
    ensures var r := PermissionsMerge(template, user);
      && PermissionsResult(template, user, r.user)
      && (!HasKey(template, PermissionsKey) ==> r.user == user)
      && r.changes == PermissionEntries(template, user)
  {
    if HasKey(template, PermissionsKey) {
      var tperms, uperms := ObjectAt(template, PermissionsKey), ObjectAt(user, PermissionsKey);
      PermissionKeysDistinct();
      ListsMergeSpec(tperms, uperms, PermissionKeys);
      PutValid(user, PermissionsKey, Obj(ListsMerge(tperms, uperms, PermissionKeys).user));
    }
  }

  // ------------------------------------------------------ merge_settings

  /** `SettingsMerge` runs its three stages one after the other. */
  lemma SettingsMergeSteps(template: Object, user: Object)
    requires SettingsMergeable(template, user)
    ensures var p := RegistryMerge(template, user, PluginsKey, PluginsLabel);
      var q := PermissionsMerge(template, p.user);
      var h := RegistryMerge(template, q.user, HooksKey, HooksLabel);
      SettingsMerge(template, user) == Merged(h.user, p.changes + q.changes + h.changes)
  {
  }

  /** The plugins registry after `merge_settings`: the hooks and permissions
      stages leave it alone. */
  lemma SettingsPluginsResult(template: Object, user: Object)
    requires SettingsMergeable(template, user)
    ensures RegistryResult(template, user, SettingsMerge(template, user).user, PluginsKey)
  {
    SettingsMergeSteps(template, user);
    var plugins := RegistryMerge(template, user, PluginsKey, PluginsLabel);
    RegistryMergeSpec(template, user, PluginsKey, PluginsLabel);
    var permissions := PermissionsMerge(template, plugins.user);
    var hooks := RegistryMerge(template, permissions.user, HooksKey, HooksLabel);
    assert RegistryResult(template, user, plugins.user, PluginsKey);
    ResultsTransfer(template, user, user, plugins.user, permissions.user, PluginsKey);
    ResultsTransfer(template, user, user, permissions.user, hooks.user, PluginsKey);
  }

  /** The permissions dict after `merge_settings`: the plugins stage before
      it and the hooks stage after it leave it alone. */
  lemma SettingsPermissionsResult(template: Object, user: Object)
    requires SettingsMergeable(template, user)
    ensures PermissionsResult(template, user, SettingsMerge(template, user).user)
  {
    SettingsMergeSteps(template, user);
    var plugins := RegistryMerge(template, user, PluginsKey, PluginsLabel);
    var permissions := PermissionsMerge(template, plugins.user);
    PermissionsMergeSpec(template, plugins.user);
    var hooks := RegistryMerge(template, permissions.user, HooksKey, HooksLabel);
    ResultsTransfer(template, plugins.user, user, permissions.user, hooks.user, PermissionsKey);
  }

  /** The hooks registry after `merge_settings`: the stages before it leave
      the user's hooks alone. */
  lemma SettingsHooksResult(template: Object, user: Object)
    requires SettingsMergeable(template, user)
    ensures RegistryResult(template, user, SettingsMerge(template, user).user, HooksKey)
  {
    SettingsMergeSteps(template, user);
    var plugins := RegistryMerge(template, user, PluginsKey, PluginsLabel);
    var permissions := PermissionsMerge(template, plugins.user);
    var hooks := RegistryMerge(template, permissions.user, HooksKey, HooksLabel);
    RegistryMergeSpec(template, permissions.user, HooksKey, HooksLabel);
    assert RegistryResult(template, permissions.user, hooks.user, HooksKey);
    ResultsTransfer(template, permissions.user, user, hooks.user, hooks.user, HooksKey);
  }

  /** `merge_settings` in terms of the user's original document: each
      registry and the permissions dict end as their expected values when
      the template has them and are left alone when it has not. */
  lemma SettingsMergeContents(template: Object, user: Object)
    requires SettingsMergeable(template, user)
    ensures var m := SettingsMerge(template, user);
      && RegistryResult(template, user, m.user, PluginsKey)
      && PermissionsResult(template, user, m.user)
      && RegistryResult(template, user, m.user, HooksKey)
  {
    SettingsPluginsResult(template, user);
    SettingsPermissionsResult(template, user);
    SettingsHooksResult(template, user);
  }

  /** The change entries of `merge_settings` come in the fixed order
      plugins, `allow`, `deny`, `ask`, hooks, one per sub-merge that added
      something, each computed from the user's original containers. */
  lemma SettingsChangeLog(template: Object, user: Object)
    requires SettingsMergeable(template, user)
    ensures SettingsMerge(template, user).changes
         == RegistryEntry(template, user, PluginsKey, PluginsLabel)
          + PermissionEntries(template, user)
          + RegistryEntry(template, user, HooksKey, HooksLabel)
  {
    SettingsMergeSteps(template, user);
    var plugins := RegistryMerge(template, user, PluginsKey, PluginsLabel);
    RegistryMergeSpec(template, user, PluginsKey, PluginsLabel);
    var permissions := PermissionsMerge(template, plugins.user);
    PermissionsMergeSpec(template, plugins.user);
    RegistryMergeSpec(template, permissions.user, HooksKey, HooksLabel);
    EntriesSame(template, user, plugins.user, PermissionsKey, "");
    EntriesSame(template, user, permissions.user, HooksKey, HooksLabel);

  }

  // ------------------------------------------------------- up to date

  /** The entry of a permission list is empty exactly when it is covered. */
  lemma ListEntryEmpty(tperms: Object, uperms: Object, key: string)
    requires StringsOrAbsent(tperms, key)
    ensures ListEntry(tperms, uperms, key) == [] <==> ListCovered(tperms, uperms, key)
  {
    var t, u := ArrayAt(tperms, key), ArrayAt(uperms, key);
    ArrayAddedInTemplateOrder(t, u);
    ArrayAddedExactly(t, u);
    if ListCovered(tperms, uperms, key) {
      ArrayAddedNone(t, u);
    } else {
      var x :| x in t && x !in u;
      assert x in ArrayAdded(t, u);
    }
  }

  lemma {:induction false} ListEntriesEmpty(tperms: Object, uperms: Object, keys: seq<string>)
    requires forall key :: key in keys ==> StringsOrAbsent(tperms, key)
    ensures ListEntries(tperms, uperms, keys) == [] <==>
      forall key :: key in keys ==> ListCovered(tperms, uperms, key)
    decreases |keys|
  {
    if keys != [] {
      var init, last := keys[..|keys| - 1], keys[|keys| - 1];
      assert keys == init + [last];
      assert forall key :: key in init ==> key in keys;
      ListEntryEmpty(tperms, uperms, last);
      ListEntriesEmpty(tperms, uperms, init);
      assert ListEntries(tperms, uperms, keys)
          == ListEntries(tperms, uperms, init) + ListEntry(tperms, uperms, last);
      if !forall key :: key in keys ==> ListCovered(tperms, uperms, key) {
        var key :| key in keys && !ListCovered(tperms, uperms, key);
        if key != last {
          assert key in init;
        }
      }
    }
  }

  lemma PermissionEntriesEmpty(template: Object, user: Object)
    requires PermissionsMergeable(template, user)
    ensures PermissionEntries(template, user) == [] <==>
      forall key :: key in PermissionKeys ==>
        ListCovered(ObjectAt(template, PermissionsKey), ObjectAt(user, PermissionsKey), key)
  {
    var tperms, uperms := ObjectAt(template, PermissionsKey), ObjectAt(user, PermissionsKey);
    ListEntriesEmpty(tperms, uperms, PermissionKeys);
    if !HasKey(template, PermissionsKey) {
      assert forall key :: ArrayAt(tperms, key) == [];
    }
  }

  /** `merge_settings` reports no change exactly when the user document
      already holds every plugin, permission item and hook event of the
      template. */
  lemma SettingsUpToDate(template: Object, user: Object)
    requires SettingsMergeable(template, user)
    ensures SettingsMerge(template, user).changes == [] <==> SettingsCovered(template, user)
  {
    SettingsChangeLog(template, user);
    RegistryEntryEmpty(template, user, PluginsKey, PluginsLabel);
    RegistryEntryEmpty(template, user, HooksKey, HooksLabel);
    PermissionEntriesEmpty(template, user);
  }

  // ------------------------------------------------------- idempotence

  lemma ListNoop(tperms: Object, uperms: Object, key: string)
    requires ValidObject(uperms) && ListMergeable(tperms, uperms, key)
    requires ListSaturated(tperms, uperms, key)
    ensures ListMerge(tperms, uperms, key) == Merged(uperms, [])
  {
    if HasKey(tperms, key) {
      var target := ArrayAt(uperms, key);
      ArrayAddedNone(ArrayAt(tperms, key), target);
      assert target + [] == target;
      PutSame(uperms, key);
    }
  }

  lemma {:induction false} ListsNoop(tperms: Object, uperms: Object, keys: seq<string>)
    requires ValidObject(uperms)
    requires forall key :: key in keys ==> ListMergeable(tperms, uperms, key) && ListSaturated(tperms, uperms, key)
    ensures ListsMerge(tperms, uperms, keys) == Merged(uperms, [])
    decreases |keys|
  {
    if keys != [] {
      var init, last := keys[..|keys| - 1], keys[|keys| - 1];
      assert forall key :: key in init ==> key in keys;
      ListsNoop(tperms, uperms, init);
      ListNoop(tperms, uperms, last);
    }
  }

  lemma PermissionsNoop(template: Object, user: Object)
    requires ValidObject(user) && PermissionsMergeable(template, user)
    requires PermissionsSaturated(template, user)
    ensures PermissionsMerge(template, user) == Merged(user, [])
  {
    if HasKey(template, PermissionsKey) {
      ListsNoop(ObjectAt(template, PermissionsKey), ObjectAt(user, PermissionsKey), PermissionKeys);
      PutSame(user, PermissionsKey);
    }
  }

  /** A user document that already holds every container and every entry
      of the template is left exactly as it is, with no change entry. */
  lemma SettingsNoop(template: Object, user: Object)
    requires SettingsMergeable(template, user) && SettingsSaturated(template, user)
    ensures SettingsMerge(template, user) == Merged(user, [])
  {
    SettingsMergeSteps(template, user);
    RegistryNoop(template, user, PluginsKey, PluginsLabel);
    PermissionsNoop(template, user);
    RegistryNoop(template, user, HooksKey, HooksLabel);
  }

  /** After the merge a registry covers the template's and can be merged
      again. */
  lemma RegistrySaturates(template: Object, user: Object, after: Object, key: string)
    requires ValidObject(user) && ObjectMergeable(template, user, key)
    requires RegistryResult(template, user, after, key)
    ensures ObjectMergeable(template, after, key) && RegistrySaturated(template, after, key)
  {
    if HasKey(template, key) {
      var t, u := ObjectAt(template, key), ObjectAt(user, key);
      RegistryMergeCovers(template, user, key);
      ObjectAddedIsMissing(t, u);
      ObjectMergeValid(t, u);
      assert ObjectAt(after, key) == ExpectedRegistry(template, user, key);
    }
  }

  /** After the merge a permission list covers the template's. */
  lemma ListMergeCovers(tperms: Object, uperms: Object, key: string)
    ensures forall x :: x in ArrayAt(tperms, key) ==> x in ExpectedList(tperms, uperms, key)
  {
    ArrayMergeCovers(ArrayAt(tperms, key), ArrayAt(uperms, key));
    ArrayAddedInTemplateOrder(ArrayAt(tperms, key), ArrayAt(uperms, key));
  }

  lemma PermissionsSaturates(template: Object, user: Object, after: Object)
    requires PermissionsMergeable(template, user)
    requires PermissionsResult(template, user, after)
    ensures PermissionsMergeable(template, after) && PermissionsSaturated(template, after)
  {
    if HasKey(template, PermissionsKey) {
      var tperms, uperms, a := ObjectAt(template, PermissionsKey), ObjectAt(user, PermissionsKey), ObjectAt(after, PermissionsKey);
      forall key | key in PermissionKeys
        ensures ListMergeable(tperms, a, key) && ListSaturated(tperms, a, key)
      {
        ListMergeCovers(tperms, uperms, key);
      }
    } else {
      EntriesSame(template, user, after, PermissionsKey, "");
    }
  }

  /** After `merge_settings` the user document can be merged again and
      holds everything the template has. */
  lemma SettingsSaturates(template: Object, user: Object)
    requires SettingsMergeable(template, user)
    ensures var m := SettingsMerge(template, user);
      SettingsMergeable(template, m.user) && SettingsSaturated(template, m.user)
  {
    var m := SettingsMerge(template, user);
    SettingsMergeContents(template, user);
    RegistrySaturates(template, user, m.user, PluginsKey);
    PermissionsSaturates(template, user, m.user);
    RegistrySaturates(template, user, m.user, HooksKey);
  }

  /** Running `merge_settings` a second time with the same template changes
      nothing and reports nothing. */
  lemma SettingsIdempotent(template: Object, user: Object)
    requires SettingsMergeable(template, user)
    ensures var m := SettingsMerge(template, user);
      SettingsMergeable(template, m.user) && SettingsMerge(template, m.user) == Merged(m.user, [])
  {
    SettingsSaturates(template, user);
    SettingsNoop(template, SettingsMerge(template, user).user);
  }

  // --------------------------------------------------------- merge_mcp

  /** `merge_mcp` stores the expected `mcpServers` registry, or leaves the
      document alone when the template has none, and reports the servers it
      inserted. */
  lemma McpMergeContents(template: Object, user: Object)
    requires McpMergeable(template, user)
    ensures var m := McpMerge(template, user);
      && RegistryResult(template, user, m.user, McpKey)
      && m.changes == RegistryEntry(template, user, McpKey, McpLabel)
  {
    RegistryMergeSpec(template, user, McpKey, McpLabel);
  }

  /** `merge_mcp` reports no change exactly when the user document already
      has every server of the template. */
  lemma McpUpToDate(template: Object, user: Object)
    requires McpMergeable(template, user)
    ensures McpMerge(template, user).changes == [] <==> RegistryCovered(template, user, McpKey)
  {
    RegistryMergeSpec(template, user, McpKey, McpLabel);
    RegistryEntryEmpty(template, user, McpKey, McpLabel);
  }

  /** Running `merge_mcp` a second time with the same template changes
      nothing and reports nothing. */
  lemma McpIdempotent(template: Object, user: Object)
    requires McpMergeable(template, user)
    ensures var m := McpMerge(template, user);
      McpMergeable(template, m.user) && McpMerge(template, m.user) == Merged(m.user, [])
  {
    var m := McpMerge(template, user);
    McpMergeContents(template, user);
    RegistrySaturates(template, user, m.user, McpKey);
    RegistryNoop(template, m.user, McpKey, McpLabel);
  }

  // ----------------------------------------------------------- examples

  /** A plugin the user already has keeps the user's value; only the new
      plugin is added and reported. */
  lemma ExampleKeepsUserPlugin()
    ensures var template := [(PluginsKey, Obj([("a", Obj([("x", Num("1"))])), ("b", Obj([]))]))];
      var user := [(PluginsKey, Obj([("a", Obj([]))]))];
      SettingsMergeable(template, user)
      && SettingsMerge(template, user)
         == Merged([(PluginsKey, Obj([("a", Obj([])), ("b", Obj([]))]))], ["  Added plugins: b"])
  {
    var tp: Object := [("a", Obj([("x", Num("1"))])), ("b", Obj([]))];
    var up: Object := [("a", Obj([]))];
    var template, user := [(PluginsKey, Obj(tp))], [(PluginsKey, Obj(up))];
    assert Keys(template) == [PluginsKey] && Keys(user) == [PluginsKey];
    assert Keys(tp) == ["a", "b"] && Keys(up) == ["a"];
    assert Lookup(template, PluginsKey) == Obj(tp) && Lookup(user, PluginsKey) == Obj(up);
    assert ValidObject(tp) && ValidObject(up);
    assert ObjectMergeable(template, user, PluginsKey);
    assert PermissionsMergeable(template, user);
    assert SettingsMergeable(template, user);
    assert Keys(up + [tp[1]]) == ["a", "b"];
    assert ObjectAdded(tp, up) == [tp[1]];
    var plugins := RegistryMerge(template, user, PluginsKey, PluginsLabel);
    assert plugins.user == [(PluginsKey, Obj(up + [tp[1]]))];
    assert Keys([tp[1]]) == ["b"];
    assert Join(["b"], ", ") == "b";
    assert PluginsLabel + "b" == "  Added plugins: b";
    assert plugins.changes == ["  Added plugins: b"];
    SettingsMergeSteps(template, user);
    assert up + [tp[1]] == [("a", Obj([])), ("b", Obj([]))];
    assert Keys(plugins.user) == [PluginsKey];
    assert PermissionsMerge(template, plugins.user) == Merged(plugins.user, []);
    assert RegistryMerge(template, plugins.user, HooksKey, HooksLabel) == Merged(plugins.user, []);
    assert plugins.changes + [] + [] == plugins.changes;
  }

  /** A missing container is created even when nothing is added to it, and
      no entry reports it. */
  lemma ExampleCreatesEmptyHooks()
    ensures var template := [(HooksKey, Obj([]))];
      SettingsMergeable(template, [])
      && SettingsMerge(template, []) == Merged(template, [])
  {
    var template, none: Object := [(HooksKey, Obj([]))], [];
    SettingsMergeSteps(template, none);
    assert Keys(template) == [HooksKey];
    assert RegistryMerge(template, none, PluginsKey, PluginsLabel) == Merged(none, []);
    assert PermissionsMerge(template, none) == Merged(none, []);
    assert ObjectAt(template, HooksKey) == [] && ObjectAt(none, HooksKey) == [] && Keys(none) == [];
    assert none + ObjectAdded(none, none) == none;
    assert RegistryMerge(template, none, HooksKey, HooksLabel) == Merged(template, []);
  }
}
