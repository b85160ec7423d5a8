/** The two additive merge primitives: `merge_arrays` appends the template
    items a list lacks, `merge_objects` inserts the template keys a dict
    lacks. Each is a method that updates its container in place, proved
    against a function that gives what it appends. */
module Merge {
  import opened Values
  import opened Containers

  // ---------------------------------------------------------------- arrays

  /** The items `merge_arrays` appends, in the order it appends them: each
      template item that is not yet in the (growing) user array. */
  function ArrayAdded(template: seq<Json>, user: seq<Json>): (added: seq<Json>)
    ensures forall x :: x in added ==> x in template && x !in user
    decreases |template|
  {
    if template == [] then []
    else if template[0] in user then ArrayAdded(template[1..], user)
    else [template[0]] + ArrayAdded(template[1..], user + [template[0]])
  }

  /** `merge_arrays(template_arr, user_arr)`: appends to `user` the template
      items it lacks and returns them. */
  method MergeArrays(template: seq<Json>, user: JsonList) returns (added: seq<Json>)
    modifies user
    ensures user.items == old(user.items) + added
    ensures added == ArrayAdded(template, old(user.items))
  {
    added := [];
    for i := 0 to |template|
      invariant user.items == old(user.items) + added
      invariant added + ArrayAdded(template[i..], user.items) == ArrayAdded(template, old(user.items))
    {
      var item := template[i];
      assert template[i..][1..] == template[i + 1..];
      if item !in user.items {
        user.Append(item);
        added := added + [item];
      }
    }
    assert template[|template|..] == [];
  }

  /** An item is appended exactly when the template has it and the user
      array does not. */
  lemma {:induction false} ArrayAddedExactly(template: seq<Json>, user: seq<Json>)
    ensures forall x :: x in ArrayAdded(template, user) <==> x in template && x !in user
  {
    if template != [] {
      assert template == [template[0]] + template[1..];
      if template[0] in user {
        ArrayAddedExactly(template[1..], user);
      } else {
        ArrayAddedExactly(template[1..], user + [template[0]]);
      }
    }
  }

  /** Nothing is appended twice, even when the template repeats an item. */
  lemma {:induction false} ArrayAddedDistinct(template: seq<Json>, user: seq<Json>)
    ensures Distinct(ArrayAdded(template, user))
  {
    if template != [] {
      if template[0] in user {
        ArrayAddedDistinct(template[1..], user);
      } else {
        ArrayAddedDistinct(template[1..], user + [template[0]]);
        DistinctConcat([template[0]], ArrayAdded(template[1..], user + [template[0]]));
      }
    }
  }

  /** After the merge the user array holds every template item. */
  lemma ArrayMergeCovers(template: seq<Json>, user: seq<Json>)
    ensures forall x :: x in template ==> x in user + ArrayAdded(template, user)
  {
    ArrayAddedExactly(template, user);
  }

  /** Nothing is appended when the user array already holds every template item. */
  lemma {:induction false} ArrayAddedNone(template: seq<Json>, user: seq<Json>)
    requires forall x :: x in template ==> x in user
    ensures ArrayAdded(template, user) == []
    decreases |template|
  {
    if template != [] {
      assert template[0] in template;
      assert forall x :: x in template[1..] ==> x in template;
      ArrayAddedNone(template[1..], user);
    }
  }

  /** A second merge with the same template appends nothing. */
  lemma ArrayMergeIdempotent(template: seq<Json>, user: seq<Json>)
    ensures ArrayAdded(template, user + ArrayAdded(template, user)) == []
  {
    ArrayMergeCovers(template, user);
    ArrayAddedNone(template, user + ArrayAdded(template, user));
  }

  /** The template items absent from `user`, each taken at its first
      occurrence, in template order. */
  ghost function FirstNew(template: seq<Json>, user: seq<Json>): seq<Json>
    decreases |template|
  {
    if template == [] then []
    else
      var init, last := template[..|template| - 1], template[|template| - 1];
      FirstNew(init, user) + (if last in user || last in init then [] else [last])
  }

  /** Extending the template by one item appends that item at most. */
  lemma {:induction false} ArrayAddedSnoc(template: seq<Json>, x: Json, user: seq<Json>)
    ensures ArrayAdded(template + [x], user)
         == ArrayAdded(template, user) + (if x in user + ArrayAdded(template, user) then [] else [x])
    decreases |template|
  {
    if template == [] {
      assert [x][1..] == [];
    } else {
      var t0, rest := template[0], template[1..];
      assert (template + [x])[0] == t0;
      assert (template + [x])[1..] == rest + [x];
      if t0 in user {
        ArrayAddedSnoc(rest, x, user);
      } else {
        var grown := user + [t0];
        var added := ArrayAdded(rest, grown);
        var last := if x in grown + added then [] else [x];
        ArrayAddedSnoc(rest, x, grown);
        assert ArrayAdded(template + [x], user) == [t0] + (added + last);
        assert ArrayAdded(template, user) == [t0] + added;
        assert user + ([t0] + added) == grown + added;
        assert [t0] + (added + last) == ([t0] + added) + last;
      }
    }
  }

  /** `merge_arrays` appends exactly the template items the user array lacks,
      each once, at its first occurrence, in template order. */
  lemma {:induction false} ArrayAddedInTemplateOrder(template: seq<Json>, user: seq<Json>)
    ensures ArrayAdded(template, user) == FirstNew(template, user)
    decreases |template|
  {
    if template != [] {
      var init, last := template[..|template| - 1], template[|template| - 1];
      assert template == init + [last];
      ArrayAddedSnoc(init, last, user);
      ArrayAddedInTemplateOrder(init, user);
      ArrayAddedExactly(init, user);
    }
  }

  // --------------------------------------------------------------- objects

  /** The pairs `merge_objects` inserts, in the order it inserts them: each
      template pair whose key is not yet in the (growing) user dict. */
  function ObjectAdded(template: Object, user: Object): (added: Object)
    ensures forall e :: e in added ==> e in template
    decreases |template|
  {
    if template == [] then []
    else if HasKey(user, template[0].0) then ObjectAdded(template[1..], user)
    else [template[0]] + ObjectAdded(template[1..], user + [template[0]])
  }

  /** `merge_objects(template_obj, user_obj)`: inserts into `user` the
      template pairs whose keys it lacks and returns those keys. */
  method MergeObjects(template: Object, user: JsonDict) returns (added: seq<string>)
    modifies user
    ensures user.entries == old(user.entries) + ObjectAdded(template, old(user.entries))
    ensures added == Keys(ObjectAdded(template, old(user.entries)))
  {
    added := [];
    ghost var inserted: Object := [];
    for i := 0 to |template|
      invariant user.entries == old(user.entries) + inserted
      invariant added == Keys(inserted)
      invariant inserted + ObjectAdded(template[i..], user.entries) == ObjectAdded(template, old(user.entries))
    {
      var (key, value) := template[i];
      assert template[i..][1..] == template[i + 1..];
      if !user.Contains(key) {
        user.Set(key, value);
        added := added + [key];
        inserted := inserted + [(key, value)];
      }
    }
    assert template[|template|..] == [];
  }

  /** A key is inserted exactly when the template has it and the user dict
      does not; no key is inserted twice. */
  lemma {:induction false} ObjectAddedExactly(template: Object, user: Object)
    ensures forall k :: k in Keys(ObjectAdded(template, user)) <==> HasKey(template, k) && !HasKey(user, k)
    ensures Distinct(Keys(ObjectAdded(template, user)))
    decreases |template|
  {
    if template != [] {
      var t0, rest := template[0], template[1..];
      assert template == [t0] + rest;
      KeysAppend([t0], rest);
      if HasKey(user, t0.0) {
        ObjectAddedExactly(rest, user);
      } else {
        var grown := user + [t0];
        KeysAppend(user, [t0]);
        ObjectAddedExactly(rest, grown);
        KeysAppend([t0], ObjectAdded(rest, grown));
        DistinctConcat(Keys([t0]), Keys(ObjectAdded(rest, grown)));
      }
    }
  }

  /** Merging keeps the user dict a dict. */
  lemma ObjectMergeValid(template: Object, user: Object)
    requires ValidObject(user)
    ensures ValidObject(user + ObjectAdded(template, user))
  {
    ObjectAddedExactly(template, user);
    KeysAppend(user, ObjectAdded(template, user));
    DistinctConcat(Keys(user), Keys(ObjectAdded(template, user)));
  }

  /** No user value is overwritten: every key the user dict had keeps its
      value, and its position. */
  lemma ObjectMergeKeepsUser(template: Object, user: Object)
    requires ValidObject(user)
    ensures forall k :: HasKey(user, k) ==>
      HasKey(user + ObjectAdded(template, user), k) &&
      Lookup(user + ObjectAdded(template, user), k) == Lookup(user, k) &&
      IndexOf(user + ObjectAdded(template, user), k) == IndexOf(user, k)
  {
    var merged := user + ObjectAdded(template, user);
    ObjectMergeValid(template, user);
    forall k | HasKey(user, k)
      ensures HasKey(merged, k) && Lookup(merged, k) == Lookup(user, k) && IndexOf(merged, k) == IndexOf(user, k)
    {
      var i := IndexOf(user, k);
      assert merged[i] == user[i];
      LookupAt(user, i);
      LookupAt(merged, i);
      assert Keys(merged)[IndexOf(merged, k)] == k;
      assert Keys(merged)[i] == k;
    }
  }

  /** After the merge every template key is present, and each key that was
      inserted carries the template's value. */
  lemma ObjectMergeTakesTemplate(template: Object, user: Object)
    requires ValidObject(template) && ValidObject(user)
    ensures forall k :: HasKey(template, k) ==> HasKey(user + ObjectAdded(template, user), k)
    ensures forall k :: HasKey(template, k) && !HasKey(user, k) ==>
      Lookup(user + ObjectAdded(template, user), k) == Lookup(template, k)
  {
    var added := ObjectAdded(template, user);
    var merged := user + added;
    ObjectAddedExactly(template, user);
    ObjectMergeValid(template, user);
    KeysAppend(user, added);
    forall k | HasKey(template, k) && !HasKey(user, k)
      ensures Lookup(merged, k) == Lookup(template, k)
    {
      assert k in Keys(added);
      var j := IndexOf(added, k);
      assert added[j] in template;
      var m :| 0 <= m < |template| && template[m] == added[j];
      LookupAt(template, m);
      assert merged[|user| + j] == added[j];
      LookupAt(merged, |user| + j);
    }
  }

  /** Nothing is inserted when the user dict already has every template key. */
  lemma {:induction false} ObjectAddedNone(template: Object, user: Object)
    requires forall k :: HasKey(template, k) ==> HasKey(user, k)
    ensures ObjectAdded(template, user) == []
    decreases |template|
  {
    if template != [] {
      KeysAppend([template[0]], template[1..]);
      assert template == [template[0]] + template[1..];
      assert Keys([template[0]]) == [template[0].0];
      ObjectAddedNone(template[1..], user);
    }
  }

  /** A second merge with the same template inserts nothing. */
  lemma ObjectMergeIdempotent(template: Object, user: Object)
    ensures ObjectAdded(template, user + ObjectAdded(template, user)) == []
  {
    var merged := user + ObjectAdded(template, user);
    ObjectAddedExactly(template, user);
    KeysAppend(user, ObjectAdded(template, user));
    ObjectAddedNone(template, merged);
  }

  /** The template pairs whose keys the user dict lacks, in template order. */
  function Missing(template: Object, user: Object): Object
    decreases |template|
  {
    if template == [] then []
    else (if HasKey(user, template[0].0) then [] else [template[0]]) + Missing(template[1..], user)
  }

  /** A key the template does not mention makes no difference to `Missing`. */
  lemma {:induction false} MissingIgnores(template: Object, user: Object, e: (string, Json))
    requires !HasKey(template, e.0)
    ensures Missing(template, user + [e]) == Missing(template, user)
    decreases |template|
  {
    if template != [] {
      assert Keys(template)[0] == template[0].0;
      KeysAppend(user, [e]);
      KeysAppend([template[0]], template[1..]);
      assert template == [template[0]] + template[1..];
      MissingIgnores(template[1..], user, e);
    }
  }

  /** `merge_objects` inserts exactly the template pairs whose keys the user
      dict lacks, in template order. */
  lemma {:induction false} ObjectAddedIsMissing(template: Object, user: Object)
    requires ValidObject(template)
    ensures ObjectAdded(template, user) == Missing(template, user)
    decreases |template|
  {
    if template != [] {
      ValidTail(template);
      if HasKey(user, template[0].0) {
        ObjectAddedIsMissing(template[1..], user);
      } else {
        ObjectAddedIsMissing(template[1..], user + [template[0]]);
        MissingIgnores(template[1..], user, template[0]);
      }
    }
  }
}
