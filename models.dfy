/**
 * The objects themselves: `BaseModel` instances, whose attributes are updated in place, and the
 * `FileStorage` engine, whose registry holds references to them.
 */
module Models {
  import opened Outcomes
  import opened OrderedDicts
  import opened Timestamps
  import opened Values
  import opened Entities
  import opened Documents
  import opened Oracles

  /** An instance of `BaseModel` or of one of its six subclasses. */
  class BaseModel {
    const cls: ClassName
    var id: string
    var updatedAt: Timestamp
    var createdAt: Timestamp
    var extra: Bag

    /** The instance as a value: its class and the contents of its `__dict__`. */
    function Snapshot(): Entity
      reads this
    {
      Entity(cls, id, updatedAt, createdAt, extra)
    }

    /**
     * Lines 23-26: a fresh identifier, then two readings of the clock; these are the draws of the
     * `j`-th construction counted from `ids0` identifiers and `ticks0` readings.
     */
    constructor Generate(cls: ClassName, ids: IdSupply, clock: Clock, ghost ids0: nat, ghost ticks0: nat, ghost j: nat)
      requires ids.drawn == ids0 + j && clock.ticks == ticks0 + 2 * j
      modifies ids, clock
      ensures Snapshot() == Generated(cls, FreshAt(ids0, ticks0, clock.reading, j))
      ensures ids.drawn == old(ids.drawn) + 1 && clock.ticks == old(clock.ticks) + 2
    {
      var i := ids.Uuid4();
      var u := clock.Today();
      var c := clock.Today();
      this.cls := cls;
      id, updatedAt, createdAt, extra := i, u, c, EmptyBag();
    }

    /**
     * Lines 29-33: every keyword argument in order, timestamps parsed, everything else stored as
     * given; the first argument that cannot be stored stops the loop with its error.
     */
    method Populate(kw: Record) returns (err: Option<PyError>)
      modifies this
      ensures Populated(old(Snapshot()), kw, |kw.keys|).Ok? ==>
        err == None && Snapshot() == Populated(old(Snapshot()), kw, |kw.keys|).value
      ensures Populated(old(Snapshot()), kw, |kw.keys|).Err? ==>
        err == Some(Populated(old(Snapshot()), kw, |kw.keys|).error)
    {
      ghost var e0 := Snapshot();
      var i := 0;
      err := None;
      while i < |kw.keys| && err.None?
        invariant i <= |kw.keys|
        invariant err.None? ==> Populated(e0, kw, i) == Ok(Snapshot())
        invariant err.Some? ==> Populated(e0, kw, |kw.keys|) == Err(err.value)
        decreases |kw.keys| - i
      {
        err := StoreAt(kw, i, e0);
        i := i + 1;
      }
      if err.None? {
        assert i == |kw.keys|;
      }
    }

    /** One turn of that loop, for the `i`-th keyword argument. */
    method StoreAt(kw: Record, i: nat, ghost e0: Entity) returns (err: Option<PyError>)
      requires i < |kw.keys| && Populated(e0, kw, i) == Ok(Snapshot())
      modifies this
      ensures err.None? ==> Populated(e0, kw, i + 1) == Ok(Snapshot())
      ensures err.Some? ==> Populated(e0, kw, |kw.keys|) == Err(err.value)
    {
      var k := kw.keys[i];
      err := Store(k, kw.vals[k]);
      if err.Some? {
        PopulatedStops(e0, kw, i + 1, |kw.keys|);
      }
    }

    /** One pass of that loop: `__dict__[k] = v`, with the two timestamps parsed first. */
    method Store(k: string, v: Value) returns (err: Option<PyError>)
      modifies this
      ensures Assign(old(Snapshot()), k, v).Ok? ==> err == None && Snapshot() == Assign(old(Snapshot()), k, v).value
      ensures Assign(old(Snapshot()), k, v).Err? ==> err == Some(Assign(old(Snapshot()), k, v).error)
    {
      err := None;
      if k == "created_at" || k == "updated_at" {
        var t := ParseTime(v);
        if t.Err? {
          return Some(t.error);
        }
        if k == "created_at" {
          createdAt := t.value;
        } else {
          updatedAt := t.value;
        }
      } else if k == "id" {
        if !v.Str? {
          return Some(TypeError);
        }
        id := v.s;
      } else {
        extra := BagPut(extra, k, v);
      }
    }

    /** Lines 42-43: `updated_at` becomes the clock's next reading, then the whole registry is written. */
    method Save(clock: Clock, storage: FileStorage)
      modifies this`updatedAt, clock, storage`disk
      ensures updatedAt == clock.reading(old(clock.ticks)) && clock.ticks == old(clock.ticks) + 1
      ensures Snapshot() == old(Snapshot()).(updatedAt := updatedAt)
      ensures storage.disk == Some(DocumentOf(storage.View().Values()))
    {
      Touch(clock);
      ghost var now := storage.View();
      storage.Save();
      assert storage.View() == now;
    }

    /**
     * Line 42. A monotone clock never moves `updated_at` before a reading it gave earlier; an
     * advancing clock moves it strictly later.
     */
    method Touch(clock: Clock)
      modifies this`updatedAt, clock
      ensures updatedAt == clock.reading(old(clock.ticks)) && clock.ticks == old(clock.ticks) + 1
      ensures forall j: nat :: j < old(clock.ticks) && clock.reading(j) == old(updatedAt) ==>
        (Monotone(clock.reading) ==> !Before(updatedAt, old(updatedAt)))
        && (Advancing(clock.reading) ==> Before(old(updatedAt), updatedAt))
    {
      ghost var t0 := clock.ticks;
      updatedAt := clock.Today();
      forall j: nat | j < t0 && clock.reading(j) == old(updatedAt)
        ensures (Monotone(clock.reading) ==> !Before(updatedAt, old(updatedAt)))
          && (Advancing(clock.reading) ==> Before(old(updatedAt), updatedAt))
      {
        if Monotone(clock.reading) {
          MonotoneOver(clock.reading, j, t0);
        }
        if Advancing(clock.reading) {
          AdvancingOver(clock.reading, j, t0);
        }
      }
    }
  }

  /** Once a pass of the keyword loop fails, the later passes change nothing. */
  lemma {:induction false} PopulatedStops(e: Entity, kw: Record, n: nat, m: nat)
    requires n <= m <= |kw.keys|
    requires Populated(e, kw, n).Err?
    ensures Populated(e, kw, m) == Populated(e, kw, n)
    decreases m
  {
    if m > n {
      PopulatedStops(e, kw, n, m - 1);
    }
  }

  /** The engine: the registry of live objects and the content `file.json` holds. */
  class FileStorage {
    var objects: ODict<BaseModel>
    var disk: Option<Document>

    /** Lines 20-25, with `file` whatever `file.json` holds when the engine is made. */
    constructor (file: Option<Document>)
      ensures objects == Empty() && disk == file
    {
      objects := Empty();
      disk := file;
    }

    /** The registry as values: each key with the current state of the object it holds. */
    function View(): Registry
      reads this`objects, objects.vals.Values
    {
      RegistryOf(objects)
    }

    /** Lines 27-30: the live registry itself; the callers that delete from it change the engine. */
    function All(): ODict<BaseModel>
      reads this`objects
    {
      objects
    }

    /** Lines 32-36: the object goes in under its own key, replacing whatever was there. */
    method New(o: BaseModel)
      modifies this`objects
      ensures objects == old(objects).Put(Key(o.Snapshot()), o)
    {
      objects := objects.Put(Key(o.Snapshot()), o);
    }

    /** Lines 41-46: the document of every registered object, in registry order, becomes the file. */
    method Save()
      modifies this`disk
      ensures disk == Some(DocumentOf(old(View()).Values()))
    {
      ghost var vs := View().Values();
      var d: Document := Empty();
      for i := 0 to |objects.keys|
        invariant d == PutAll(vs[..i], Key, ToDict)
      {
        var o := objects.vals[objects.keys[i]];
        assert vs[i] == o.Snapshot();
        PutAllSnoc(vs, i, Key, ToDict);
        d := d.Put(Key(o.Snapshot()), ToDict(o.Snapshot()));
      }
      WholePrefixOf(vs);
      disk := Some(d);
    }

    /**
     * Lines 56-62: without a file nothing happens; otherwise every record of the file, in file
     * order, is rebuilt and placed in the registry under its file key, and the first failure is
     * raised with the records before it already merged.
     */
    method Reload(ids: IdSupply, clock: Clock) returns (err: Option<PyError>)
      modifies this`objects, ids, clock
      ensures disk.None? ==> err == None && objects == old(objects)
      ensures disk.None? ==> ids.drawn == old(ids.drawn) && clock.ticks == old(clock.ticks)
      ensures disk.Some? ==> View() == Reloaded(old(View()), disk.value, old(ids.drawn), old(clock.ticks), clock.reading).dict
      ensures disk.Some? ==> err == Reloaded(old(View()), disk.value, old(ids.drawn), old(clock.ticks), clock.reading).error
    {
      if disk.None? {
        return None;
      }
      err := Merge(disk.value, ids, clock);
    }

    /** Lines 58-60: the records of `doc` merged into the registry, one after the other. */
    method Merge(doc: Document, ids: IdSupply, clock: Clock) returns (err: Option<PyError>)
      modifies this`objects, ids, clock
      ensures Reloaded(old(View()), doc, old(ids.drawn), old(clock.ticks), clock.reading) == Merged(View(), err)
    {
      ghost var v0 := View();
      ghost var ids0, ticks0 := ids.drawn, clock.ticks;
      var i := 0;
      err := None;
      while i < |doc.keys| && err.None?
        invariant err.None? ==> Merging(doc, i, ids, clock, v0, ids0, ticks0)
        invariant err.Some? ==> Reloaded(v0, doc, ids0, ticks0, clock.reading) == Merged(View(), err)
        invariant i <= |doc.keys|
        decreases |doc.keys| - i
      {
        err := Absorb(doc, i, ids, clock, v0, ids0, ticks0);
        i := i + 1;
      }
      if err.None? {
        assert i == |doc.keys|;
      }
    }

    /**
     * The registry after the first `i` records of `doc` merged into `v0` without a failure, with
     * one identifier and two clock readings drawn for each.
     */
    ghost predicate Merging(doc: Document, i: nat, ids: IdSupply, clock: Clock, v0: Registry, ids0: nat, ticks0: nat)
      reads this`objects, objects.vals.Values, ids, clock
    {
      i <= |doc.keys| && ids.drawn == ids0 + i && clock.ticks == ticks0 + 2 * i
      && MergeAll(v0, doc, i, RebuildAt(ids0, ticks0, clock.reading)) == Merged(View(), None)
    }

    /** The object goes in under the given key, whatever its own key is. */
    method Place(k: string, o: BaseModel)
      modifies this`objects
      ensures objects == old(objects).Put(k, o)
      ensures View() == old(View()).Put(k, o.Snapshot())
    {
      ghost var before, r0 := objects, View();
      objects := objects.Put(k, o);
      assert RegistryOf(before) == r0;
      RegistryOfPut(before, k, o);
    }

    /** What `del storage.all()[key]` in console.py does to the engine: the key leaves the live dictionary and the registry. */
    method Delete(k: string)
      modifies this`objects
      ensures objects == old(objects).Remove(k)
      ensures View() == old(View()).Remove(k)
    {
      ghost var before, r0 := objects, View();
      objects := objects.Remove(k);
      assert RegistryOf(before) == r0;
      RegistryOfRemove(before, k);
    }

    /** Rebuilding a record leaves the registry alone: the object is placed afterwards. */
    method RestoreAt(rec: Record, ids: IdSupply, clock: Clock, ghost ids0: nat, ghost ticks0: nat, ghost j: nat)
        returns (r: Result<BaseModel>)
      requires ids.drawn == ids0 + j && clock.ticks == ticks0 + 2 * j
      modifies this`objects, ids, clock
      ensures View() == old(View())
      ensures r.Ok? == Rebuild(rec, FreshAt(ids0, ticks0, clock.reading, j)).Ok?
      ensures r.Ok? ==> r.value.Snapshot() == Rebuild(rec, FreshAt(ids0, ticks0, clock.reading, j)).value
      ensures r.Err? ==> r.error == Rebuild(rec, FreshAt(ids0, ticks0, clock.reading, j)).error
      ensures r.Ok? ==> ids.drawn == old(ids.drawn) + 1 && clock.ticks == old(clock.ticks) + 2
    {
      ghost var v := View();
      r := Restore(rec, ids, clock, this, ids0, ticks0, j);
      assert View() == v;
    }

    /** Line 60 for the `i`-th record of the file: one more step of the merge. */
    method Absorb(doc: Document, i: nat, ids: IdSupply, clock: Clock,
                  ghost v0: Registry, ghost ids0: nat, ghost ticks0: nat) returns (err: Option<PyError>)
      requires i < |doc.keys| && Merging(doc, i, ids, clock, v0, ids0, ticks0)
      modifies this`objects, ids, clock
      ensures err.None? ==> Merging(doc, i + 1, ids, clock, v0, ids0, ticks0)
      ensures err.Some? ==> Reloaded(v0, doc, ids0, ticks0, clock.reading) == Merged(View(), err)
    {
      var k := doc.keys[i];
      var r := RestoreAt(doc.vals[k], ids, clock, ids0, ticks0, i);
      if r.Err? {
        ReloadFails(v0, doc, i, ids0, ticks0, clock.reading, r.error);
        return Some(r.error);
      }
      ReloadNext(v0, doc, i, ids0, ticks0, clock.reading, r.value.Snapshot());
      Place(k, r.value);
      err := None;
    }
  }

  /** A list of objects as values, in the same order. */
  function Snapshots(os: seq<BaseModel>): (es: seq<Entity>)
    reads set o | o in os
    ensures |es| == |os| && forall i :: 0 <= i < |os| ==> es[i] == os[i].Snapshot()
  {
    if os == [] then [] else Snapshots(os[..|os| - 1]) + [os[|os| - 1].Snapshot()]
  }

  lemma SnapshotsSnoc(os: seq<BaseModel>, o: BaseModel)
    ensures Snapshots(os + [o]) == Snapshots(os) + [o.Snapshot()]
  {
    assert (os + [o])[..|os|] == os;
  }

  /** Registered objects seen as values: each key with the current state of its object. */
  function RegistryOf(objs: ODict<BaseModel>): Registry
    reads objs.vals.Values
  {
    Dict(objs.keys, map k | k in objs.vals :: objs.vals[k].Snapshot())
  }

  /** Registering an object under a key is putting its state under that key. */
  lemma RegistryOfPut(objs: ODict<BaseModel>, k: string, o: BaseModel)
    ensures RegistryOf(objs.Put(k, o)) == RegistryOf(objs).Put(k, o.Snapshot())
  {
    RegistryOfPutKeys(objs, k, o);
    RegistryOfPutVals(objs, k, o);
  }

  lemma RegistryOfPutKeys(objs: ODict<BaseModel>, k: string, o: BaseModel)
    ensures RegistryOf(objs.Put(k, o)).keys == RegistryOf(objs).Put(k, o.Snapshot()).keys
  {
  }

  lemma RegistryOfPutVals(objs: ODict<BaseModel>, k: string, o: BaseModel)
    ensures RegistryOf(objs.Put(k, o)).vals == RegistryOf(objs).Put(k, o.Snapshot()).vals
  {
    var m := objs.vals;
    var m2 := objs.Put(k, o).vals;
    assert m2 == m[k := o];
    assert (map j | j in m2 :: m2[j].Snapshot()) == (map j | j in m :: m[j].Snapshot())[k := o.Snapshot()];
  }

  /** Deleting a key from the live dictionary is deleting that key from the registry. */
  lemma RegistryOfRemove(objs: ODict<BaseModel>, k: string)
    ensures RegistryOf(objs.Remove(k)) == RegistryOf(objs).Remove(k)
  {
    var m := objs.vals;
    var m2 := objs.Remove(k).vals;
    assert m2 == m - {k};
    assert (map j | j in m2 :: m2[j].Snapshot()) == (map j | j in m :: m[j].Snapshot()) - {k};
  }

  /**
   * `cls(**kw)`, lines 23-35: the generated attributes, then either every keyword argument or, when
   * there are none, registration with the engine. A keyword `self` fails the call before line 23.
   */
  method Construct(cls: ClassName, kw: Record, ids: IdSupply, clock: Clock, storage: FileStorage,
                   ghost ids0: nat, ghost ticks0: nat, ghost j: nat) returns (r: Result<BaseModel>)
    requires ids.drawn == ids0 + j && clock.ticks == ticks0 + 2 * j
    modifies ids, clock, storage`objects
    ensures "self" !in kw.vals ==> ids.drawn == old(ids.drawn) + 1 && clock.ticks == old(clock.ticks) + 2
    ensures "self" in kw.vals ==> ids.drawn == old(ids.drawn) && clock.ticks == old(clock.ticks)
    ensures r.Ok? == FromKwargs(cls, kw, FreshAt(ids0, ticks0, clock.reading, j)).Ok?
    ensures r.Ok? ==> fresh(r.value) && r.value.Snapshot() == FromKwargs(cls, kw, FreshAt(ids0, ticks0, clock.reading, j)).value
    ensures r.Err? ==> r.error == FromKwargs(cls, kw, FreshAt(ids0, ticks0, clock.reading, j)).error
    ensures |kw.keys| != 0 ==> storage.objects == old(storage.objects)
    ensures |kw.keys| == 0 ==> r.Ok? && storage.objects == old(storage.objects).Put(Key(r.value.Snapshot()), r.value)
  {
    if "self" in kw.vals {
      return Err(TypeError);
    }
    var o := new BaseModel.Generate(cls, ids, clock, ids0, ticks0, j);
    if |kw.keys| != 0 {
      var err := o.Populate(kw);
      if err.Some? {
        return Err(err.value);
      }
    } else {
      storage.New(o);
    }
    r := Ok(o);
  }

  /** Line 60 for one record: the class its `__class__` entry names, called with the whole record. */
  method Restore(rec: Record, ids: IdSupply, clock: Clock, storage: FileStorage,
                 ghost ids0: nat, ghost ticks0: nat, ghost j: nat) returns (r: Result<BaseModel>)
    requires ids.drawn == ids0 + j && clock.ticks == ticks0 + 2 * j
    modifies ids, clock, storage`objects
    ensures storage.objects == old(storage.objects)
    ensures r.Ok? == Rebuild(rec, FreshAt(ids0, ticks0, clock.reading, j)).Ok?
    ensures r.Ok? ==> fresh(r.value) && r.value.Snapshot() == Rebuild(rec, FreshAt(ids0, ticks0, clock.reading, j)).value
    ensures r.Err? ==> r.error == Rebuild(rec, FreshAt(ids0, ticks0, clock.reading, j)).error
    ensures r.Ok? ==> ids.drawn == old(ids.drawn) + 1 && clock.ticks == old(clock.ticks) + 2
  {
    if "__class__" !in rec.vals {
      return Err(KeyError);
    }
    match rec.vals["__class__"]
    case Str(s) =>
      var c := ClassNamed(s);
      if c.None? {
        return Err(KeyError);
      }
      assert |rec.keys| != 0 by {
        assert "__class__" in rec.keys;
      }
      r := Construct(c.value, rec, ids, clock, storage, ids0, ticks0, j);
    case Compound(_) =>
      r := Err(TypeError);
    case _ =>
      r := Err(KeyError);
  }

  /**
   * `models/__init__.py`: the program's one engine, made empty and then reloaded from the file that
   * is there when the program starts.
   */
  method Startup(file: Option<Document>, ids: IdSupply, clock: Clock) returns (storage: FileStorage, err: Option<PyError>)
    modifies ids, clock
    ensures fresh(storage) && storage.disk == file
    ensures file.None? ==> err == None && storage.View() == Empty()
    ensures file.Some? ==>
      && storage.View() == Reloaded(Empty(), file.value, old(ids.drawn), old(clock.ticks), clock.reading).dict
      && err == Reloaded(Empty(), file.value, old(ids.drawn), old(clock.ticks), clock.reading).error
  {
    storage := new FileStorage(file);
    assert storage.View() == Empty();
    err := storage.Reload(ids, clock);
  }

  lemma PutAllSnoc<T, V>(xs: seq<T>, i: nat, key: T -> string, val: T -> V)
    requires i < |xs|
    ensures PutAll(xs[..i + 1], key, val) == PutAll(xs[..i], key, val).Put(key(xs[i]), val(xs[i]))
  {
    assert xs[..i + 1][..i] == xs[..i];
  }

  lemma WholePrefixOf<T>(xs: seq<T>)
    ensures xs[..|xs|] == xs
  {
  }
}
