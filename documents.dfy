/**
 * The content of `file.json` as a value: the document `save` builds from the registry and the merge
 * `reload` performs with it.
 */
module Documents {
  import opened Outcomes
  import opened OrderedDicts
  import opened Timestamps
  import opened Values
  import opened Entities
  import opened Oracles

  /** Registry key to `to_dict` record, in insertion order. */
  type Document = ODict<Record>

  /** The registry seen as values: key to instance, in insertion order. */
  type Registry = ODict<Entity>

  /** Every instance sits under its own `"<Class>.<id>"` key, as `new` puts it. */
  ghost predicate SelfKeyed(r: Registry)
  {
    forall k :: k in r.vals ==> k == Key(r.vals[k])
  }

  /**
   * Lines 41-45: one entry per object, under the key recomputed from its class and id, holding its
   * `to_dict`; a later object with the same key overwrites an earlier one.
   */
  function DocumentOf(objs: seq<Entity>): (d: Document)
    ensures forall i :: 0 <= i < |objs| ==> Key(objs[i]) in d.vals
  {
    PutAll(objs, Key, ToDict)
  }

  /** Every entry of the document is the `to_dict` of an object whose key it is. */
  lemma DocumentEntries(objs: seq<Entity>, k: string)
    requires k in DocumentOf(objs).vals
    ensures exists i :: 0 <= i < |objs| && Key(objs[i]) == k && DocumentOf(objs).vals[k] == ToDict(objs[i])
  {
    PutAllEntries(objs, Key, ToDict, k);
  }

  /**
   * Saving a self-keyed registry: the document has exactly the registry's keys, in the same order,
   * and each key holds the `to_dict` of its object.
   */
  lemma SavedDocument(r: Registry)
    requires SelfKeyed(r)
    ensures DocumentOf(r.Values()).keys == r.keys
    ensures forall k :: k in r.vals ==> DocumentOf(r.Values()).vals[k] == ToDict(r.vals[k])
  {
    var vs := r.Values();
    SelfKeyedValues(r);
    PutAllDistinct(vs, Key, ToDict);
    var d := DocumentOf(vs);
    assert d.keys == r.keys;
    forall k | k in r.vals ensures d.vals[k] == ToDict(r.vals[k]) {
      var i :| 0 <= i < |r.keys| && r.keys[i] == k;
      SavedEntry(r, vs, d, i);
    }
  }

  lemma SavedEntry(r: Registry, vs: seq<Entity>, d: Document, i: nat)
    requires vs == r.Values() && i < |r.keys| && Key(vs[i]) == r.keys[i]
    requires Key(vs[i]) in d.vals && d.vals[Key(vs[i])] == ToDict(vs[i])
    ensures d.vals[r.keys[i]] == ToDict(r.vals[r.keys[i]])
  {
    assert vs[i] == r.vals[r.keys[i]];
  }

  lemma SelfKeyedValues(r: Registry)
    requires SelfKeyed(r)
    ensures forall i :: 0 <= i < |r.keys| ==> Key(r.Values()[i]) == r.keys[i]
    ensures forall i, j :: 0 <= i < j < |r.keys| ==> Key(r.Values()[i]) != Key(r.Values()[j])
  {
    var vs := r.Values();
    assert forall i :: 0 <= i < |vs| ==> Key(vs[i]) == r.keys[i];
  }

  /**
   * Line 60: the class the record's `__class__` entry names, built from the whole record. A missing
   * or unknown name is a `KeyError`, an unhashable one a `TypeError`.
   */
  function Rebuild(rec: Record, g: Fresh): (r: Result<Entity>)
    ensures "__class__" !in rec.vals ==> r == Err(KeyError)
    ensures r.Ok? ==> rec.vals["__class__"].Str? && ClassNamed(rec.vals["__class__"].s) == Some(r.value.cls)
  {
    if "__class__" !in rec.vals then Err(KeyError)
    else
      match rec.vals["__class__"]
      case Str(s) =>
        (match ClassNamed(s)
         case Some(c) => FromKwargs(c, rec, g)
         case None => Err(KeyError))
      case Compound(_) => Err(TypeError)
      case _ => Err(KeyError)
  }

  /** A record naming a known class that holds a `self` entry raises `TypeError`: the call cannot bind it. */
  lemma RebuildSelf(rec: Record, g: Fresh)
    requires "__class__" in rec.vals && rec.vals["__class__"].Str? && ClassNamed(rec.vals["__class__"].s).Some?
    requires "self" in rec.vals
    ensures Rebuild(rec, g) == Err(TypeError)
  {
  }

  /**
   * Instances that survive the text round trip: timestamps that are valid, with a nonzero fraction
   * of a second, and no attribute named `self`, which the call at line 60 could not bind.
   */
  predicate Restorable(e: Entity)
  {
    && ValidStamp(e.updatedAt) && e.updatedAt.micro != 0 && ValidStamp(e.createdAt) && e.createdAt.micro != 0
    && "self" !in e.extra.vals
  }

  /** Rebuilding a saved record gives an instance with the same `to_dict`. */
  lemma RebuildRoundTrip(e: Entity, g: Fresh)
    requires Restorable(e)
    ensures Rebuild(ToDict(e), g) == Ok(Tagged(e))
    ensures ToDict(Tagged(e)) == ToDict(e)
  {
    assert ToDict(e).vals["__class__"] == Str(Name(e.cls));
    ClassNamedName(e.cls);
    KwargsRoundTrip(e, g);
  }

  /** What lines 23-26 draw for the `j`-th rebuilt record: one identifier and two clock readings. */
  function FreshAt(ids0: nat, ticks0: nat, reading: nat -> Timestamp, j: nat): (g: Fresh)
    ensures forall n :: ids0 <= n < ids0 + j ==> IdAt(n) != g.id
  {
    EarlierIdsDiffer(ids0, j);
    Fresh(IdAt(ids0 + j), reading(ticks0 + 2 * j), reading(ticks0 + 2 * j + 1))
  }

  /** The identifier drawn for the `j`-th record differs from those drawn before it. */
  lemma EarlierIdsDiffer(ids0: nat, j: nat)
    ensures forall n :: ids0 <= n < ids0 + j ==> IdAt(n) != IdAt(ids0 + j)
  {
    forall n | ids0 <= n < ids0 + j {
      IdsDistinct(n, ids0 + j);
    }
  }

  /** Line 60 for the `j`-th record of the file: rebuilt with the `j`-th draws. */
  function RebuildAt(ids0: nat, ticks0: nat, reading: nat -> Timestamp): (Record, nat) -> Result<Entity>
  {
    (rec: Record, j: nat) => Rebuild(rec, FreshAt(ids0, ticks0, reading, j))
  }

  /**
   * Lines 59-60: every record of the file, in file order, is rebuilt and placed in the registry under
   * its file key, replacing what was there; the first failure stops the loop and keeps what was
   * merged before it.
   */
  function Reloaded(reg: Registry, doc: Document, ids0: nat, ticks0: nat, reading: nat -> Timestamp): Merged<Entity>
  {
    MergeAll(reg, doc, |doc.keys|, RebuildAt(ids0, ticks0, reading))
  }

  /** A record that rebuilds joins the registry under its file key, and the merge goes on. */
  lemma ReloadNext(reg: Registry, doc: Document, i: nat, ids0: nat, ticks0: nat, reading: nat -> Timestamp, e: Entity)
    requires i < |doc.keys|
    requires MergeAll(reg, doc, i, RebuildAt(ids0, ticks0, reading)).error.None?
    requires Rebuild(doc.vals[doc.keys[i]], FreshAt(ids0, ticks0, reading, i)) == Ok(e)
    ensures MergeAll(reg, doc, i + 1, RebuildAt(ids0, ticks0, reading))
         == Merged(MergeAll(reg, doc, i, RebuildAt(ids0, ticks0, reading)).dict.Put(doc.keys[i], e), None)
  {
    MergeAllNext(reg, doc, i, RebuildAt(ids0, ticks0, reading), e);
  }

  /** The first record that fails to rebuild ends the reload with its error and what was merged before it. */
  lemma ReloadFails(reg: Registry, doc: Document, i: nat, ids0: nat, ticks0: nat, reading: nat -> Timestamp, x: PyError)
    requires i < |doc.keys|
    requires MergeAll(reg, doc, i, RebuildAt(ids0, ticks0, reading)).error.None?
    requires Rebuild(doc.vals[doc.keys[i]], FreshAt(ids0, ticks0, reading, i)) == Err(x)
    ensures Reloaded(reg, doc, ids0, ticks0, reading) == Merged(MergeAll(reg, doc, i, RebuildAt(ids0, ticks0, reading)).dict, Some(x))
  {
    var f := RebuildAt(ids0, ticks0, reading);
    MergeAllFail(reg, doc, i, f, x);
    MergeAllStops(reg, doc, i + 1, |doc.keys|, f);
  }

  /** A reload fails exactly when some record of the file cannot be rebuilt. */
  lemma ReloadSucceeds(reg: Registry, doc: Document, ids0: nat, ticks0: nat, reading: nat -> Timestamp)
    ensures Reloaded(reg, doc, ids0, ticks0, reading).error.None?
        <==> forall i :: 0 <= i < |doc.keys| ==> Rebuild(doc.vals[doc.keys[i]], FreshAt(ids0, ticks0, reading, i)).Ok?
  {
    MergeAllSucceeds(reg, doc, |doc.keys|, RebuildAt(ids0, ticks0, reading));
  }

  /**
   * A reload merges rather than replaces: objects under keys the file lacks stay, and no key comes
   * from anywhere but the registry and the file.
   */
  lemma ReloadKeeps(reg: Registry, doc: Document, ids0: nat, ticks0: nat, reading: nat -> Timestamp, k: string)
    ensures k in reg.vals && k !in doc.vals ==>
      k in Reloaded(reg, doc, ids0, ticks0, reading).dict.vals && Reloaded(reg, doc, ids0, ticks0, reading).dict.vals[k] == reg.vals[k]
    ensures k in Reloaded(reg, doc, ids0, ticks0, reading).dict.vals ==> k in reg.vals || k in doc.vals
  {
    MergeAllKeeps(reg, doc, |doc.keys|, RebuildAt(ids0, ticks0, reading), k);
  }

  /** A reload that does not fail holds every record of the file, rebuilt, under the record's key. */
  lemma ReloadInserts(reg: Registry, doc: Document, ids0: nat, ticks0: nat, reading: nat -> Timestamp, i: nat)
    requires i < |doc.keys|
    requires Reloaded(reg, doc, ids0, ticks0, reading).error.None?
    ensures doc.keys[i] in Reloaded(reg, doc, ids0, ticks0, reading).dict.vals
    ensures Rebuild(doc.vals[doc.keys[i]], FreshAt(ids0, ticks0, reading, i))
         == Ok(Reloaded(reg, doc, ids0, ticks0, reading).dict.vals[doc.keys[i]])
  {
    MergeAllInserts(reg, doc, |doc.keys|, RebuildAt(ids0, ticks0, reading), i);
  }

  /** Saving a self-keyed registry of restorable objects and reloading the file never fails. */
  lemma SaveReloadSucceeds(r: Registry, ids0: nat, ticks0: nat, reading: nat -> Timestamp)
    requires SelfKeyed(r)
    requires forall k :: k in r.vals ==> Restorable(r.vals[k])
    ensures Reloaded(Empty(), DocumentOf(r.Values()), ids0, ticks0, reading).error.None?
  {
    var doc := DocumentOf(r.Values());
    forall i | 0 <= i < |doc.keys|
      ensures Rebuild(doc.vals[doc.keys[i]], FreshAt(ids0, ticks0, reading, i)).Ok?
    {
      SavedRecordRebuilds(r, FreshAt(ids0, ticks0, reading, i), i);
    }
    ReloadSucceeds(Empty(), doc, ids0, ticks0, reading);
  }

  /** Reloading that file into an empty registry gives back the registry's keys in the same order. */
  lemma SaveReloadKeys(r: Registry, ids0: nat, ticks0: nat, reading: nat -> Timestamp)
    requires SelfKeyed(r)
    requires forall k :: k in r.vals ==> Restorable(r.vals[k])
    ensures Reloaded(Empty(), DocumentOf(r.Values()), ids0, ticks0, reading).dict.keys == r.keys
  {
    var doc := DocumentOf(r.Values());
    SaveReloadSucceeds(r, ids0, ticks0, reading);
    MergeAllFromEmpty(doc, |doc.keys|, RebuildAt(ids0, ticks0, reading));
    SavedDocument(r);
    WholePrefix(doc.keys);
  }

  /** Every record of the saved file can be rebuilt, whatever the draws. */
  lemma SavedRecordRebuilds(r: Registry, g: Fresh, i: nat)
    requires SelfKeyed(r)
    requires forall k :: k in r.vals ==> Restorable(r.vals[k])
    requires i < |DocumentOf(r.Values()).keys|
    ensures Rebuild(DocumentOf(r.Values()).vals[DocumentOf(r.Values()).keys[i]], g).Ok?
  {
    SavedDocument(r);
    var k := r.keys[i];
    assert k in r.vals;
    RebuildRoundTrip(r.vals[k], g);
  }

  /**
   * After that round trip each object comes back with its attributes, `__class__` now recorded in
   * its dictionary, and with the same `to_dict`.
   */
  lemma SaveReloadObjects(r: Registry, ids0: nat, ticks0: nat, reading: nat -> Timestamp, k: string)
    requires SelfKeyed(r)
    requires forall k :: k in r.vals ==> Restorable(r.vals[k])
    requires k in r.vals
    ensures k in Reloaded(Empty(), DocumentOf(r.Values()), ids0, ticks0, reading).dict.vals
    ensures Reloaded(Empty(), DocumentOf(r.Values()), ids0, ticks0, reading).dict.vals[k] == Tagged(r.vals[k])
    ensures ToDict(Reloaded(Empty(), DocumentOf(r.Values()), ids0, ticks0, reading).dict.vals[k]) == ToDict(r.vals[k])
  {
    var doc := DocumentOf(r.Values());
    SaveReloadSucceeds(r, ids0, ticks0, reading);
    SavedDocument(r);
    var i :| 0 <= i < |doc.keys| && doc.keys[i] == k;
    ReloadInserts(Empty(), doc, ids0, ticks0, reading, i);
    RebuildRoundTrip(r.vals[k], FreshAt(ids0, ticks0, reading, i));
  }
}
