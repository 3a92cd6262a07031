/**
  Organization-settings overrides: the recursive update in which an explicit null deletes
  a key, and the flat diff that is recorded for it.
*/
module SettingsMerge {
  import opened Common

  /** A stored value: null, a leaf (any scalar or list), or a section. */
  datatype Json = Null | Leaf(value: string) | Section(entries: map<string, Json>)

  type Path = seq<string>

  const EMPTY: Json := Section(map[])

  /* ---- the merge ---- */

  /** `merge_settings_update`: null deletes, sections merge, anything else overwrites. */
  function Merged(stored: Json, update: Json): Json
    decreases update
  {
    if !stored.Section? || !update.Section? then update
    else
      Section(map k
        | k in stored.entries.Keys + update.entries.Keys && (k in update.entries ==> update.entries[k] != Null) ::
        if k !in update.entries then stored.entries[k]
        else if !update.entries[k].Section? then update.entries[k]
        else if k in stored.entries && stored.entries[k].Section? then Merged(stored.entries[k], update.entries[k])
        else Merged(EMPTY, update.entries[k]))
  }

  method MergeSettingsUpdate(stored: Json, update: Json) returns (out: Json)
    ensures out == Merged(stored, update)
    decreases update
  {
    if !stored.Section? || !update.Section? {
      return update;
    }
    var entries := stored.entries;
    var todo := update.entries.Keys;
    while todo != {}
      invariant todo <= update.entries.Keys
      invariant forall k :: k in entries <==>
        if k in todo || k !in update.entries then k in stored.entries else update.entries[k] != Null
      invariant forall k :: k in entries ==>
        entries[k] == if k in todo || k !in update.entries then stored.entries[k] else Merged(stored, update).entries[k]
    {
      var k :| k in todo;
      var v := update.entries[k];
      if v == Null {
        entries := entries - {k};
      } else if v.Section? && k in entries && entries[k].Section? {
        var merged := MergeSettingsUpdate(entries[k], v);
        entries := entries[k := merged];
      } else if v.Section? {
        var merged := MergeSettingsUpdate(EMPTY, v);
        entries := entries[k := merged];
      } else {
        entries := entries[k := v];
      }
      todo := todo - {k};
    }
    out := Section(entries);
    assert entries == Merged(stored, update).entries;
  }

  ghost predicate NullFree(j: Json) {
    match j
    case Null => false
    case Leaf(_) => true
    case Section(entries) => forall k :: k in entries ==> NullFree(entries[k])
  }

  /** An update of a null-free store is null-free, whatever nulls the update carries. */
  lemma {:induction false} MergeKeepsNullFree(stored: Json, update: Json)
    requires stored.Section? && update.Section? && NullFree(stored)
    ensures Merged(stored, update).Section? && NullFree(Merged(stored, update))
    decreases update
  {
    var m := Merged(stored, update).entries;
    forall k | k in m
      ensures NullFree(m[k])
    {
      if k in update.entries && update.entries[k].Section? {
        if k in stored.entries && stored.entries[k].Section? {
          MergeKeepsNullFree(stored.entries[k], update.entries[k]);
        } else {
          MergeKeepsNullFree(EMPTY, update.entries[k]);
        }
      }
    }
  }

  ghost function StoreAfter(updates: seq<Json>): Json {
    if updates == [] then EMPTY else Merged(StoreAfter(updates[..|updates| - 1]), updates[|updates| - 1])
  }

  /** No sequence of updates ever stores a null. */
  lemma {:induction false} StoreIsNullFree(updates: seq<Json>)
    requires forall i :: 0 <= i < |updates| ==> updates[i].Section?
    ensures StoreAfter(updates).Section? && NullFree(StoreAfter(updates))
  {
    if updates != [] {
      var rest := updates[..|updates| - 1];
      StoreIsNullFree(rest);
      MergeKeepsNullFree(StoreAfter(rest), updates[|updates| - 1]);
    }
  }

  /* ---- applying an update twice ---- */

  lemma {:induction false} MergeIntoSelf(u: Json)
    requires u.Section?
    ensures Merged(u, u) == u <==> NullFree(u)
  {
    var m := Merged(u, u).entries;
    forall k | k in u.entries && u.entries[k].Section?
      ensures Merged(u.entries[k], u.entries[k]) == u.entries[k] <==> NullFree(u.entries[k])
    {
      MergeIntoSelf(u.entries[k]);
    }
    if NullFree(u) {
      assert forall k :: k in u.entries ==> NullFree(u.entries[k]) && u.entries[k] != Null;
      assert m == u.entries;
    } else {
      var k :| k in u.entries && !NullFree(u.entries[k]);
      assert k !in m || m[k] != u.entries[k];
    }
  }

  lemma {:induction false} MergeTwiceInSection(stored: Json, update: Json)
    requires stored.Section? && update.Section?
    ensures Merged(Merged(stored, update), update) == Merged(stored, update)
    decreases update
  {
    var once := Merged(stored, update);
    forall k | k in update.entries && update.entries[k].Section?
      ensures k in once.entries && once.entries[k].Section?
      ensures Merged(once.entries[k], update.entries[k]) == once.entries[k]
    {
      if k in stored.entries && stored.entries[k].Section? {
        MergeTwiceInSection(stored.entries[k], update.entries[k]);
      } else {
        MergeTwiceInSection(EMPTY, update.entries[k]);
      }
    }
    assert Merged(once, update).entries == once.entries;
  }

  /**
    Applying an update twice is applying it once, unless a section with nulls in it replaces a non-section
    wholesale.
  */
  lemma {:induction false} IdempotentIff(stored: Json, update: Json)
    ensures Merged(Merged(stored, update), update) == Merged(stored, update)
       <==> stored.Section? || !update.Section? || NullFree(update)
  {
    if stored.Section? && update.Section? {
      MergeTwiceInSection(stored, update);
    } else if update.Section? {
      MergeIntoSelf(update);
    }
  }

  /** The null is stored the first time, and deletes its key the second. */
  lemma NotIdempotent(k: string, x: string)
    ensures var stored, update := Leaf(x), Section(map[k := Null]);
      Merged(Merged(stored, update), update) != Merged(stored, update)
  {
    var update := Section(map[k := Null]);
    assert k in update.entries && !NullFree(update.entries[k]);
    IdempotentIff(Leaf(x), update);
  }

  /* ---- the display merge ---- */

  /** `deep_merge`: like the update, but a null is stored as a value. */
  function DeepMerged(stored: Json, update: Json): Json
    decreases update
  {
    if !stored.Section? || !update.Section? then update
    else
      Section(map k | k in stored.entries.Keys + update.entries.Keys ::
        if k !in update.entries then stored.entries[k]
        else if update.entries[k].Section? && k in stored.entries && stored.entries[k].Section?
        then DeepMerged(stored.entries[k], update.entries[k])
        else update.entries[k])
  }

  lemma {:induction false} MergeIntoEmpty(u: Json)
    requires u.Section?
    ensures Merged(EMPTY, u) == u <==> NullFree(u)
  {
    var m := Merged(EMPTY, u).entries;
    forall k | k in u.entries && u.entries[k].Section?
      ensures Merged(EMPTY, u.entries[k]) == u.entries[k] <==> NullFree(u.entries[k])
    {
      MergeIntoEmpty(u.entries[k]);
    }
    if NullFree(u) {
      assert forall k :: k in u.entries ==> NullFree(u.entries[k]) && u.entries[k] != Null;
      assert m == u.entries;
    } else {
      var k :| k in u.entries && !NullFree(u.entries[k]);
      assert k !in m || m[k] != u.entries[k];
    }
  }

  /** The write path and the display merge differ exactly on updates that carry a null. */
  lemma {:induction false} MergesAgreeIff(stored: Json, update: Json)
    requires stored.Section? && update.Section?
    ensures Merged(stored, update) == DeepMerged(stored, update) <==> NullFree(update)
    decreases update
  {
    var m, d := Merged(stored, update).entries, DeepMerged(stored, update).entries;
    forall k | k in update.entries && update.entries[k].Section?
      ensures k in m && k in d && (m[k] == d[k] <==> NullFree(update.entries[k]))
    {
      if k in stored.entries && stored.entries[k].Section? {
        MergesAgreeIff(stored.entries[k], update.entries[k]);
      } else {
        MergeIntoEmpty(update.entries[k]);
      }
    }
    if NullFree(update) {
      assert forall k :: k in update.entries ==> NullFree(update.entries[k]) && update.entries[k] != Null;
      assert m == d;
    } else {
      var k :| k in update.entries && !NullFree(update.entries[k]);
      assert k in d && (k !in m || m[k] != d[k]);
    }
  }

  /* ---- the flat view and the recorded diff ---- */

  /** The leaf (or stored null) at a path. */
  function LeafAt(j: Json, p: Path): Option<Json>
    decreases p
  {
    if p == [] then (if j.Section? then None else Some(j))
    else if j.Section? && p[0] in j.entries then LeafAt(j.entries[p[0]], p[1..])
    else None
  }

  /** One recorded change; an absent old value is recorded as null. */
  datatype Change = Change(was: Json, now: Json)

  function Get(j: Json, k: string): Json {
    if j.Section? && k in j.entries then j.entries[k] else Null
  }

  function SectionOr(j: Json): Json {
    if j.Section? then j else EMPTY
  }

  /** What `diff_settings` records at a path. */
  function DiffAt(stored: Json, update: Json, p: Path): Option<Change>
    decreases p
  {
    if p == [] || !update.Section? || p[0] !in update.entries then None
    else
      var v, was := update.entries[p[0]], Get(stored, p[0]);
      if v.Section? then DiffAt(SectionOr(was), v, p[1..])
      else if |p| == 1 && v != was then Some(Change(was, v))
      else None
  }

  /** The value at a path, section or not; null when there is none. */
  function ValueAt(j: Json, p: Path): Json
    decreases p
  {
    if p == [] then j else if j.Section? && p[0] in j.entries then ValueAt(j.entries[p[0]], p[1..]) else Null
  }

  /** A path is recorded if and only if the update has a leaf or null there that the store has not. */
  lemma {:induction false} DiffIff(stored: Json, update: Json, p: Path)
    requires update.Section?
    ensures DiffAt(stored, update, p).Some? <==>
      LeafAt(update, p).Some? && LeafAt(update, p).value != ValueAt(stored, p)
    ensures DiffAt(stored, update, p).Some? ==>
      DiffAt(stored, update, p).value == Change(ValueAt(stored, p), LeafAt(update, p).value)
    decreases p
  {
    if p != [] && p[0] in update.entries {
      var v, was := update.entries[p[0]], Get(stored, p[0]);
      if v.Section? {
        DiffIff(SectionOr(was), v, p[1..]);
        if !was.Section? {
          NothingBelow(was, p[1..], v);
        }
      } else if |p| > 1 {
        assert p[1..] != [];
      }
    }
  }

  lemma NothingBelow(j: Json, p: Path, v: Json)
    requires !j.Section? && v.Section?
    ensures LeafAt(v, p).Some? ==> ValueAt(EMPTY, p) == Null && ValueAt(j, p) == Null
  {
  }

  /** The flat view with the diff's new values written over it, null meaning delete. */
  function PatchedAt(stored: Json, update: Json, p: Path): Option<Json> {
    match DiffAt(stored, update, p)
    case Some(c) => if c.now == Null then None else Some(c.now)
    case None => LeafAt(stored, p)
  }

  /** The updated flat view with the diff's old values written back. */
  function UndoneAt(stored: Json, update: Json, p: Path): Option<Json> {
    match DiffAt(stored, update, p)
    case Some(c) => if c.was.Leaf? then Some(c.was) else None
    case None => LeafAt(Merged(stored, update), p)
  }

  ghost predicate Leafless(j: Json) {
    j.Section? && forall k :: k in j.entries ==> Leafless(j.entries[k])
  }

  /** The update keeps sections sections and leaves leaves, and deletes nothing but leaves. */
  ghost predicate Agrees(stored: Json, update: Json)
    requires stored.Section? && update.Section?
    decreases update
  {
    forall k :: k in stored.entries && k in update.entries ==>
      var s, u := stored.entries[k], update.entries[k];
      if u.Section? then s.Section? && Agrees(s, u)
      else if s.Section? then Leafless(s)
      else s == Null ==> u != Null
  }

  ghost predicate Faithful(stored: Json, update: Json) {
    forall p :: LeafAt(Merged(stored, update), p) == PatchedAt(stored, update, p)
  }

  lemma {:induction false} LeaflessHasNoLeaf(j: Json, p: Path)
    requires Leafless(j)
    ensures LeafAt(j, p) == None
    decreases p
  {
    if p != [] && p[0] in j.entries {
      LeaflessHasNoLeaf(j.entries[p[0]], p[1..]);
    }
  }

  lemma {:induction false} LeafBelow(j: Json) returns (p: Path)
    requires !Leafless(j)
    ensures LeafAt(j, p) != None
  {
    if !j.Section? {
      p := [];
    } else {
      var k :| k in j.entries && !Leafless(j.entries[k]);
      var q := LeafBelow(j.entries[k]);
      p := [k] + q;
      assert p[1..] == q;
    }
  }

  /** The two flat views one key down. */
  lemma FirstStep(stored: Json, update: Json, p: Path)
    requires stored.Section? && update.Section? && p != []
    ensures var m := Merged(stored, update).entries;
      LeafAt(Merged(stored, update), p) == if p[0] in m then LeafAt(m[p[0]], p[1..]) else None
    ensures LeafAt(stored, p) == if p[0] in stored.entries then LeafAt(stored.entries[p[0]], p[1..]) else None
  {
  }

  lemma LeafOfLeaf(j: Json, q: Path)
    requires !j.Section?
    ensures LeafAt(j, q) == if q == [] then Some(j) else None
  {
  }

  /** An update that agrees with the store is faithfully described by its diff. */
  lemma {:induction false} AgreeingPatch(stored: Json, update: Json, p: Path)
    requires stored.Section? && update.Section? && Agrees(stored, update)
    ensures LeafAt(Merged(stored, update), p) == PatchedAt(stored, update, p)
    decreases update, p
  {
    if p != [] && p[0] in update.entries {
      var k, q := p[0], p[1..];
      var u := update.entries[k];
      if u.Section? {
        if k in stored.entries {
          AgreeingPatch(stored.entries[k], u, q);
        } else {
          AgreeingPatch(EMPTY, u, q);
        }
      } else {
        assert q == [] <==> |p| == 1;
        FirstStep(stored, update, p);
        LeafOfLeaf(u, q);
        if k in stored.entries {
          if stored.entries[k].Section? {
            LeaflessHasNoLeaf(stored.entries[k], q);
          } else {
            LeafOfLeaf(stored.entries[k], q);
          }
        }
      }
    }
  }

  /** An update that does not agree with the store leaves a path its diff gets wrong. */
  lemma {:induction false} DisagreeingPatch(stored: Json, update: Json) returns (p: Path)
    requires stored.Section? && update.Section? && !Agrees(stored, update)
    ensures LeafAt(Merged(stored, update), p) != PatchedAt(stored, update, p)
    decreases update
  {
    var k :| k in stored.entries && k in update.entries &&
      !(var s, u := stored.entries[k], update.entries[k];
        if u.Section? then s.Section? && Agrees(s, u)
        else if s.Section? then Leafless(s)
        else s == Null ==> u != Null);
    var s, u := stored.entries[k], update.entries[k];
    var q: Path := [];
    if u.Section? && s.Section? {
      q := DisagreeingPatch(s, u);
    } else if !u.Section? && s.Section? {
      q := LeafBelow(s);
    }
    p := [k] + q;
    assert p[1..] == q;
    FirstStep(stored, update, p);
    if u.Section? {
      assert DiffAt(stored, update, p) == DiffAt(SectionOr(s), u, q);
      if !s.Section? {
        LeafOfLeaf(s, q);
        assert Merged(stored, update).entries[k].Section? && LeafAt(Merged(stored, update).entries[k], q) == None;
      }
    } else {
      LeafOfLeaf(u, q);
      if s.Section? {
        assert q != [] && DiffAt(stored, update, p) == None;
      } else {
        LeafOfLeaf(s, q);
      }
    }
  }

  /** The diff is a faithful patch if and only if the update agrees with the store. */
  lemma {:induction false} FaithfulIff(stored: Json, update: Json)
    requires stored.Section? && update.Section?
    ensures Faithful(stored, update) <==> Agrees(stored, update)
  {
    if Agrees(stored, update) {
      forall p
        ensures LeafAt(Merged(stored, update), p) == PatchedAt(stored, update, p)
      {
        AgreeingPatch(stored, update, p);
      }
    } else {
      var p := DisagreeingPatch(stored, update);
    }
  }

  /** The recorded old values undo an agreeing update of a null-free store. */
  lemma {:induction false} DiffUndoes(stored: Json, update: Json, p: Path)
    requires stored.Section? && update.Section? && Agrees(stored, update) && NullFree(stored)
    ensures UndoneAt(stored, update, p) == LeafAt(stored, p)
    decreases update, p
  {
    if p != [] && p[0] in update.entries {
      var k, q := p[0], p[1..];
      var u := update.entries[k];
      assert q == [] <==> |p| == 1;
      if u.Section? {
        if k in stored.entries {
          DiffUndoes(stored.entries[k], u, q);
        } else {
          DiffUndoes(EMPTY, u, q);
        }
      } else {
        FirstStep(stored, update, p);
        LeafOfLeaf(u, q);
        if k in stored.entries {
          assert NullFree(stored.entries[k]);
          if stored.entries[k].Section? {
            LeaflessHasNoLeaf(stored.entries[k], q);
          } else {
            LeafOfLeaf(stored.entries[k], q);
          }
        }
      }
    }
  }

  /** A section's diff, moved under its key. */
  function Under(k: string, sub: map<Path, Change>): (r: map<Path, Change>)
    ensures forall p :: p in r <==> p != [] && p[0] == k && p[1..] in sub
    ensures forall p :: p in r ==> r[p] == sub[p[1..]]
  {
    assert forall q: Path :: ([k] + q)[1..] == q;
    assert forall p: Path :: p != [] && p[0] == k ==> [k] + p[1..] == p;
    map q | q in sub :: [k] + q := sub[q]
  }

  /** `diff_settings`: one pass over the update's keys, recursing into its sections even when the store has none. */
  method DiffSettings(stored: Json, update: Json) returns (out: map<Path, Change>)
    ensures forall p :: p in out <==> DiffAt(stored, update, p).Some?
    ensures forall p :: p in out ==> out[p] == DiffAt(stored, update, p).value
    ensures update.Section? ==> forall p :: p in out <==>
      LeafAt(update, p).Some? && LeafAt(update, p).value != ValueAt(stored, p)
    ensures update.Section? ==> forall p :: p in out ==>
      out[p] == Change(ValueAt(stored, p), LeafAt(update, p).value) && out[p].was != out[p].now
    decreases update
  {
    if update.Section? {
      forall p {
        DiffIff(stored, update, p);
      }
    }
    out := map[];
    if !update.Section? {
      return;
    }
    var todo := update.entries.Keys;
    while todo != {}
      invariant todo <= update.entries.Keys
      invariant forall p :: p in out <==> DiffAt(stored, update, p).Some? && p[0] !in todo
      invariant forall p :: p in out ==> out[p] == DiffAt(stored, update, p).value
    {
      var k :| k in todo;
      todo := todo - {k};
      var v, was := update.entries[k], Get(stored, k);
      assert forall p: Path :: |p| == 1 && p[0] == k ==> p == [k];
      if v.Section? {
        var sub := DiffSettings(SectionOr(was), v);
        out := out + Under(k, sub);
      } else if v != was {
        out := out[[k] := Change(was, v)];
      }
    }
  }

  /** Overwriting a section with a leaf deletes the leaves below it, which the diff does not record. */
  lemma DiffMissesALeaf(k: string, l: string, x: string, y: string)
    ensures !Faithful(Section(map[k := Section(map[l := Leaf(x)])]), Section(map[k := Leaf(y)]))
  {
    var inner := Section(map[l := Leaf(x)]);
    var stored, update := Section(map[k := inner]), Section(map[k := Leaf(y)]);
    assert l in inner.entries && !Leafless(inner.entries[l]);
    assert k in stored.entries && k in update.entries && stored.entries[k] == inner && !Leafless(inner);
    assert !Agrees(stored, update);
    FaithfulIff(stored, update);
  }
}
