/**
 * `State.cities`: the cities of the registry that belong to one state, found by the first word of
 * each registry key and then by each city's `state_id`.
 */
module States {
  import opened Outcomes
  import opened OrderedDicts
  import opened Texts
  import opened Values
  import opened Entities
  import opened Documents
  import opened Models
  import opened Shlex
  import opened Filters

  /** Lines 23-25 for one key: the first word of the key read with its dots as blanks. */
  function FirstWord(k: string): (r: Result<string>)
    ensures r.Err? ==> r.error == ValueError || r.error == IndexError
  {
    match Split(ReplaceChar(k, '.', ' '))
    case Err(x) => Err(x)
    case Ok(ws) => if ws == [] then Err(IndexError) else Ok(ws[0])
  }

  /** A registry key with the object it holds. */
  type Entry = (string, Entity)

  /** A registry as the loop `for key in var` sees it: each key with the object it holds, in order. */
  function Entries(reg: Registry): (es: seq<Entry>)
    ensures |es| == |reg.keys|
    ensures forall i, j :: 0 <= i < j < |es| ==> es[i].0 != es[j].0
    ensures forall k :: k in reg.vals ==> (k, reg.vals[k]) in es
    ensures forall e :: e in es ==> e.0 in reg.vals && reg.vals[e.0] == e.1
  {
    var es := seq(|reg.keys|, i requires 0 <= i < |reg.keys| => (reg.keys[i], reg.vals[reg.keys[i]]));
    assert forall i :: 0 <= i < |es| ==> es[i] == (reg.keys[i], reg.vals[reg.keys[i]]);
    assert forall k :: k in reg.vals ==> (k, reg.vals[k]) in es by {
      forall k | k in reg.vals ensures (k, reg.vals[k]) in es {
        var i :| 0 <= i < |reg.keys| && reg.keys[i] == k;
        assert es[i] == (k, reg.vals[k]);
      }
    }
    es
  }

  /** Lines 23-25: whether the entry's key reads `City` first. */
  function CityKey(entry: Entry): Result<bool>
  {
    match FirstWord(entry.0)
    case Err(x) => Err(x)
    case Ok(w) => Ok(w == "City")
  }

  function Held(entry: Entry): Entity
  {
    entry.1
  }

  /** Line 28: whether the object's `state_id` equals `id`; an object without one raises. */
  function StateIs(id: string): Entity -> Result<bool>
  {
    e => match GetAttr(e, "state_id")
         case None => Err(AttributeError)
         case Some(v) => Ok(v == Str(id))
  }

  function Itself(e: Entity): Entity
  {
    e
  }

  /** Lines 19-30: the first loop keeps the objects under `City` keys, the second those of state `id`. */
  function CitiesOf(reg: Registry, id: string): Result<seq<Entity>>
  {
    match TryPick(Entries(reg), CityKey, Held)
    case Err(x) => Err(x)
    case Ok(l) => TryPick(l, StateIs(id), Itself)
  }

  /** A registry entry that `cities` reads without raising. */
  predicate Readable(entry: Entry)
  {
    CityKey(entry).Ok? && (CityKey(entry) == Ok(true) ==> GetAttr(entry.1, "state_id").Some?)
  }

  /** A registry entry that is a city of state `id`. */
  predicate CityOf(id: string, entry: Entry)
  {
    FirstWord(entry.0) == Ok("City") && GetAttr(entry.1, "state_id") == Some(Str(id))
  }

  function IsCityOf(id: string): Entry -> bool
  {
    entry => CityOf(id, entry)
  }

  /** The reference answer: one pass over the registry keeping the cities of state `id`. */
  function Chosen(reg: Registry, id: string): seq<Entity>
  {
    Pick(Entries(reg), IsCityOf(id), Held)
  }

  /**
   * `cities` raises exactly when some key has no first word, or some object under a `City` key
   * has no `state_id`; otherwise it returns the reference answer.
   */
  lemma CitiesAsFilter(reg: Registry, id: string)
    ensures CitiesOf(reg, id).Ok? <==> forall i :: 0 <= i < |reg.keys| ==> Readable(Entries(reg)[i])
    ensures CitiesOf(reg, id).Ok? ==> CitiesOf(reg, id).value == Chosen(reg, id)
  {
    var es := Entries(reg);
    if forall i :: 0 <= i < |es| ==> Readable(es[i]) {
      TryPickThenTryPick(es, CityKey, Held, StateIs(id), Itself, IsCityOf(id), Held);
    } else {
      var i :| 0 <= i < |es| && !Readable(es[i]);
      TryPickSucceeds(es, CityKey, Held);
      if TryPick(es, CityKey, Held).Ok? {
        var l := TryPick(es, CityKey, Held).value;
        TryPickThenRaises(es, CityKey, Held, StateIs(id), Itself, i);
      }
    }
  }

  /** Only cities of the state are returned, each from some registry entry. */
  lemma CitiesSound(reg: Registry, id: string, e: Entity)
    requires CitiesOf(reg, id).Ok? && e in CitiesOf(reg, id).value
    ensures exists k :: k in reg.vals && reg.vals[k] == e && CityOf(id, (k, e))
  {
    CitiesAsFilter(reg, id);
    var es := Entries(reg);
    var cs := Pick(es, IsCityOf(id), Held);
    var j :| 0 <= j < |cs| && cs[j] == e;
    PickSound(es, IsCityOf(id), Held, j);
    var i :| 0 <= i < |es| && IsCityOf(id)(es[i]) && cs[j] == Held(es[i]);
    var k := reg.keys[i];
    assert es[i] == (k, reg.vals[k]);
  }

  /** Every city of the state in the registry is returned. */
  lemma CitiesComplete(reg: Registry, id: string, k: string)
    requires CitiesOf(reg, id).Ok? && k in reg.vals && CityOf(id, (k, reg.vals[k]))
    ensures reg.vals[k] in CitiesOf(reg, id).value
  {
    CitiesAsFilter(reg, id);
    var i :| 0 <= i < |reg.keys| && reg.keys[i] == k;
    PickComplete(Entries(reg), IsCityOf(id), Held, i);
  }

  /** With no city of the state in the registry, the result is empty. */
  lemma CitiesEmpty(reg: Registry, id: string)
    requires CitiesOf(reg, id).Ok?
    requires forall k :: k in reg.vals ==> !CityOf(id, (k, reg.vals[k]))
    ensures CitiesOf(reg, id).value == []
  {
    CitiesAsFilter(reg, id);
    PickEmpty(Entries(reg), IsCityOf(id), Held);
  }

  /** The result keeps registry order: the `j`-th city comes from the `j`-th matching key. */
  lemma CitiesInOrder(reg: Registry, id: string)
    requires CitiesOf(reg, id).Ok?
    ensures var ix := Passing(Entries(reg), IsCityOf(id));
      && |ix| == |CitiesOf(reg, id).value|
      && (forall j :: 0 <= j < |ix| ==> CitiesOf(reg, id).value[j] == reg.vals[reg.keys[ix[j]]])
      && (forall j, j' :: 0 <= j < j' < |ix| ==> ix[j] < ix[j'])
  {
    CitiesAsFilter(reg, id);
    PickInOrder(Entries(reg), IsCityOf(id), Held);
  }

  /** A key as `new` writes it, with an identifier free of dots and of anything quoted or blank. */
  lemma KeyFirstWord(e: Entity)
    requires BareWord(e.id) && '.' !in e.id
    ensures FirstWord(Key(e)) == Ok(Name(e.cls))
  {
    var n := Name(e.cls);
    assert BareWord(n) && '.' !in n;
    var k := Key(e);
    assert ReplaceChar(k, '.', ' ') == Join([n, e.id], " ");
    SplitJoined([n, e.id]);
  }

  /**
   * In a registry that `new` filled with well-formed identifiers, `cities` raises nothing, and the
   * cities it returns are exactly the objects of class `City` whose `state_id` is `id`.
   */
  lemma CitiesOfKeyed(reg: Registry, id: string)
    requires SelfKeyed(reg)
    requires forall k :: k in reg.vals ==> BareWord(reg.vals[k].id) && '.' !in reg.vals[k].id
    ensures CitiesOf(reg, id).Ok?
    ensures forall k :: k in reg.vals ==>
      (CityOf(id, (k, reg.vals[k])) <==> reg.vals[k].cls == CityClass && GetAttr(reg.vals[k], "state_id") == Some(Str(id)))
  {
    forall k | k in reg.vals
      ensures Readable((k, reg.vals[k]))
      ensures CityOf(id, (k, reg.vals[k])) <==> reg.vals[k].cls == CityClass && GetAttr(reg.vals[k], "state_id") == Some(Str(id))
    {
      var e := reg.vals[k];
      KeyFirstWord(e);
      if e.cls == CityClass {
        CityHasStateId(e);
      } else {
        ClassNamedName(e.cls);
      }
    }
    CitiesAsFilter(reg, id);
  }

  /** Every city has a `state_id`: its own entry, or the empty default of the class. */
  lemma CityHasStateId(e: Entity)
    requires e.cls == CityClass
    ensures GetAttr(e, "state_id").Some?
  {
  }

  /** One pass of the first loop: a key without a first word ends it, or its entry is kept when it reads `City`. */
  lemma KeyStep(es: seq<Entry>, i: nat, kept: seq<Entity>)
    requires i < |es| && TryPick(es[..i], CityKey, Held) == Ok(kept)
    ensures FirstWord(es[i].0).Err? ==> TryPick(es, CityKey, Held) == Err(FirstWord(es[i].0).error)
    ensures FirstWord(es[i].0).Ok? ==>
      TryPick(es[..i + 1], CityKey, Held) == Ok(if FirstWord(es[i].0).value == "City" then kept + [es[i].1] else kept)
  {
    PrefixNext(es, i);
    TryPickSnoc(es[..i], es[i], CityKey, Held);
    if FirstWord(es[i].0).Err? {
      TryPickStops(es, i + 1, CityKey, Held);
    }
  }

  /** One pass of the second loop: an object without `state_id` ends it, or it is kept when that is `id`. */
  lemma StateStep(l: seq<Entity>, i: nat, id: string, kept: seq<Entity>)
    requires i < |l| && TryPick(l[..i], StateIs(id), Itself) == Ok(kept)
    ensures GetAttr(l[i], "state_id").None? ==> TryPick(l, StateIs(id), Itself) == Err(AttributeError)
    ensures GetAttr(l[i], "state_id").Some? ==>
      TryPick(l[..i + 1], StateIs(id), Itself) == Ok(if GetAttr(l[i], "state_id").value == Str(id) then kept + [l[i]] else kept)
  {
    PrefixNext(l, i);
    TryPickSnoc(l[..i], l[i], StateIs(id), Itself);
    if GetAttr(l[i], "state_id").None? {
      TryPickStops(l, i + 1, StateIs(id), Itself);
    }
  }

  /** Lines 19-26: the first loop, collecting the objects registered under `City` keys. */
  method CityObjects(storage: FileStorage) returns (r: Result<seq<BaseModel>>)
    ensures r.Ok? == TryPick(Entries(storage.View()), CityKey, Held).Ok?
    ensures r.Err? ==> r.error == TryPick(Entries(storage.View()), CityKey, Held).error
    ensures r.Ok? ==> Snapshots(r.value) == TryPick(Entries(storage.View()), CityKey, Held).value
    ensures r.Ok? ==> forall o :: o in r.value ==> o in storage.objects.vals.Values
  {
    var all := storage.All();
    ghost var es := Entries(storage.View());
    var myList: seq<BaseModel> := [];
    for i := 0 to |all.keys|
      invariant TryPick(es[..i], CityKey, Held) == Ok(Snapshots(myList))
      invariant forall o :: o in myList ==> o in all.vals.Values
    {
      var key := all.keys[i];
      KeyStep(es, i, Snapshots(myList));
      var city := FirstWord(key);
      if city.Err? {
        return Err(city.error);
      }
      if city.value == "City" {
        SnapshotsSnoc(myList, all.vals[key]);
        myList := myList + [all.vals[key]];
      }
    }
    assert es[..|all.keys|] == es;
    r := Ok(myList);
  }

  /** Lines 27-30: the second loop, keeping the objects whose `state_id` is `id`. */
  method OfState(myList: seq<BaseModel>, id: string) returns (r: Result<seq<BaseModel>>)
    ensures r.Ok? == TryPick(Snapshots(myList), StateIs(id), Itself).Ok?
    ensures r.Err? ==> r.error == TryPick(Snapshots(myList), StateIs(id), Itself).error
    ensures r.Ok? ==> Snapshots(r.value) == TryPick(Snapshots(myList), StateIs(id), Itself).value
    ensures r.Ok? ==> forall o :: o in r.value ==> o in myList
  {
    ghost var l := Snapshots(myList);
    var result: seq<BaseModel> := [];
    for i := 0 to |myList|
      invariant l == Snapshots(myList)
      invariant TryPick(l[..i], StateIs(id), Itself) == Ok(Snapshots(result))
      invariant forall o :: o in result ==> o in myList
    {
      var elem := myList[i];
      assert l[i] == elem.Snapshot();
      StateStep(l, i, id, Snapshots(result));
      var stateId := GetAttr(elem.Snapshot(), "state_id");
      if stateId.None? {
        return Err(AttributeError);
      }
      if stateId.value == Str(id) {
        SnapshotsSnoc(result, elem);
        result := result + [elem];
      }
    }
    assert l[..|myList|] == l;
    r := Ok(result);
  }

  /**
   * Lines 17-30: the property of a state. The registry is only read; the objects returned are
   * registered ones, and as values they are what `CitiesOf` gives.
   */
  method Cities(self: BaseModel, storage: FileStorage) returns (r: Result<seq<BaseModel>>)
    requires self.cls == StateClass
    ensures r.Ok? == CitiesOf(storage.View(), self.id).Ok?
    ensures r.Err? ==> r.error == CitiesOf(storage.View(), self.id).error
    ensures r.Ok? ==> Snapshots(r.value) == CitiesOf(storage.View(), self.id).value
    ensures r.Ok? ==> forall o :: o in r.value ==> o in storage.objects.vals.Values
  {
    var myList := CityObjects(storage);
    if myList.Err? {
      return Err(myList.error);
    }
    r := OfState(myList.value, self.id);
  }
}
