/**
 * The entity classes as values: what an instance dictionary holds, how `to_dict` and `__str__`
 * render it, how reconstruction from keyword arguments fills it, and how attribute lookup falls
 * back to class-level defaults.
 */
module Entities {
  import opened Outcomes
  import opened OrderedDicts
  import opened Timestamps
  import opened Values
  import opened Texts

  /** The seven classes of the class tables. */
  datatype ClassName = BaseModelClass | UserClass | StateClass | CityClass | AmenityClass | PlaceClass | ReviewClass

  function Name(c: ClassName): string
  {
    match c
    case BaseModelClass => "BaseModel"
    case UserClass => "User"
    case StateClass => "State"
    case CityClass => "City"
    case AmenityClass => "Amenity"
    case PlaceClass => "Place"
    case ReviewClass => "Review"
  }

  /** The class table: a name maps to its class, and nothing else maps. */
  function ClassNamed(s: string): (r: Option<ClassName>)
    ensures r.Some? ==> Name(r.value) == s
    ensures r.None? ==> forall c :: Name(c) != s
  {
    if s == "BaseModel" then Some(BaseModelClass)
    else if s == "User" then Some(UserClass)
    else if s == "State" then Some(StateClass)
    else if s == "City" then Some(CityClass)
    else if s == "Amenity" then Some(AmenityClass)
    else if s == "Place" then Some(PlaceClass)
    else if s == "Review" then Some(ReviewClass)
    else None
  }

  lemma ClassNamedName(c: ClassName)
    ensures ClassNamed(Name(c)) == Some(c)
  {
  }

  /** The three entries every construction writes first (lines 23-26 of the base class). */
  predicate IsReserved(k: string)
  {
    k == "id" || k == "created_at" || k == "updated_at"
  }

  /** The rest of an instance dictionary: every other entry, in insertion order. */
  type Bag = d: Dict<Value> | d.Valid() && "id" !in d.vals && "created_at" !in d.vals && "updated_at" !in d.vals
    witness Dict([], map[])

  function EmptyBag(): Bag
  {
    Dict([], map[])
  }

  function BagPut(b: Bag, k: string, v: Value): (r: Bag)
    requires !IsReserved(k)
    ensures r.vals.Keys == b.vals.Keys + {k} && r.vals[k] == v
  {
    b.Put(k, v)
  }

  /**
   * An instance as a value. Its dictionary is always `id`, `updated_at`, `created_at` in that order,
   * then `extra`.
   */
  datatype Entity = Entity(cls: ClassName, id: string, updatedAt: Timestamp, createdAt: Timestamp, extra: Bag)

  /** The registry key `"<Class>.<id>"`. */
  function Key(e: Entity): string
  {
    Name(e.cls) + "." + e.id
  }

  lemma PrefixDistinct(b: Bag)
    ensures var ks := ["id", "updated_at", "created_at"] + b.keys;
      forall i, j :: 0 <= i < j < |ks| ==> ks[i] != ks[j]
  {
    var ks := ["id", "updated_at", "created_at"] + b.keys;
    forall i, j | 0 <= i < j < |ks| ensures ks[i] != ks[j] {
      if j >= 3 {
        assert ks[j] == b.keys[j - 3];
        assert ks[j] in b.vals;
        if i >= 3 {
          assert ks[i] == b.keys[i - 3];
        }
      }
    }
  }

  /** `obj.__dict__`, in its insertion order. */
  function InstanceDict(e: Entity): ODict<Value>
  {
    PrefixDistinct(e.extra);
    Dict(["id", "updated_at", "created_at"] + e.extra.keys,
         e.extra.vals["id" := Str(e.id)]["updated_at" := Time(e.updatedAt)]["created_at" := Time(e.createdAt)])
  }

  type Record = ODict<Value>

  /** `to_dict` with `__class__` added to the keys of the instance dictionary. */
  function RenderedKeys(e: Entity): seq<string>
  {
    ["id", "updated_at", "created_at"] + e.extra.keys + (if "__class__" in e.extra.vals then [] else ["__class__"])
  }

  /** `to_dict` values: the instance dictionary with both timestamps as ISO text and the class name. */
  function RenderedVals(e: Entity): map<string, Value>
  {
    e.extra.vals["id" := Str(e.id)]["updated_at" := Str(IsoFormat(e.updatedAt))]
                ["created_at" := Str(IsoFormat(e.createdAt))]["__class__" := Str(Name(e.cls))]
  }

  lemma RenderedValid(e: Entity)
    ensures Dict(RenderedKeys(e), RenderedVals(e)).Valid()
  {
    var ks := RenderedKeys(e);
    PrefixDistinct(e.extra);
    var p := ["id", "updated_at", "created_at"] + e.extra.keys;
    if "__class__" !in e.extra.vals {
      assert ks == p + ["__class__"];
      forall i, j | 0 <= i < j < |ks| ensures ks[i] != ks[j] {
        if j == |p| {
          assert ks[i] == p[i];
          assert p[i] in e.extra.keys || i < 3;
        }
      }
    }
  }

  /**
   * `to_dict` (lines 52-55): a copy of the instance dictionary in its order, both timestamps replaced
   * by ISO text, and `__class__` set to the class name, appended unless the dictionary had it.
   */
  function ToDict(e: Entity): Record
  {
    RenderedValid(e);
    Dict(RenderedKeys(e), RenderedVals(e))
  }

  /** `str(obj)`: `[<Class>] (<id>) <instance dictionary>`. */
  function Describe(e: Entity): string
  {
    "[" + Name(e.cls) + "] (" + e.id + ") " + DictRepr(InstanceDict(e))
  }

  /**
   * The rendering opens with `[<Class>] (<id>) `, and every entry of the instance dictionary
   * shows up in it as `'key': value`.
   */
  lemma DescribeShows(e: Entity, k: string)
    requires k in InstanceDict(e).vals
    ensures "[" + Name(e.cls) + "] (" + e.id + ") " <= Describe(e)
    ensures HasSubstring(Describe(e), ItemRepr(k, InstanceDict(e).vals[k]))
  {
    var d := InstanceDict(e);
    DictReprShowsEntry(d, k);
    SubstringOfPart(Describe(e), "[" + Name(e.cls) + "] (" + e.id + ") ", DictRepr(d), ItemRepr(k, d.vals[k]));
  }

  /** What lines 23-26 generate before any keyword argument is applied. */
  datatype Fresh = Fresh(id: string, updatedAt: Timestamp, createdAt: Timestamp)

  function Generated(cls: ClassName, g: Fresh): Entity
  {
    Entity(cls, g.id, g.updatedAt, g.createdAt, EmptyBag())
  }

  /** A generated instance's dictionary holds the three generated entries and nothing else. */
  lemma GeneratedDict(cls: ClassName, g: Fresh)
    ensures InstanceDict(Generated(cls, g)).keys == ["id", "updated_at", "created_at"]
    ensures InstanceDict(Generated(cls, g)).vals
      == map["id" := Str(g.id), "updated_at" := Time(g.updatedAt), "created_at" := Time(g.createdAt)]
  {
  }

  /** `datetime.strptime(v, "%Y-%m-%dT%H:%M:%S.%f")`: only text is accepted. */
  function ParseTime(v: Value): (r: Result<Timestamp>)
    ensures r.Ok? ==> v.Str? && StrpTime(v.s) == r
    ensures !v.Str? ==> r == Err(TypeError)
  {
    match v
    case Str(s) => StrpTime(s)
    case _ => Err(TypeError)
  }

  /** One pass of the loop at lines 29-33: timestamps are parsed, every other entry is stored as given. */
  function Assign(e: Entity, k: string, v: Value): (r: Result<Entity>)
    ensures r.Err? ==> r.error == TypeError || r.error == ValueError
    ensures r.Ok? ==> r.value.cls == e.cls
  {
    if k == "created_at" then
      match ParseTime(v)
      case Ok(t) => Ok(e.(createdAt := t))
      case Err(x) => Err(x)
    else if k == "updated_at" then
      match ParseTime(v)
      case Ok(t) => Ok(e.(updatedAt := t))
      case Err(x) => Err(x)
    else if k == "id" then
      if v.Str? then Ok(e.(id := v.s)) else Err(TypeError)
    else
      Ok(e.(extra := BagPut(e.extra, k, v)))
  }

  /** The loop at lines 29-33 after its first `n` passes; the first failing pass ends it. */
  function Populated(e: Entity, kw: Record, n: nat): (r: Result<Entity>)
    requires n <= |kw.keys|
    ensures r.Ok? ==> r.value.cls == e.cls
    ensures r.Err? ==> r.error == TypeError || r.error == ValueError
  {
    if n == 0 then Ok(e)
    else
      match Populated(e, kw, n - 1)
      case Err(x) => Err(x)
      case Ok(e') => Assign(e', kw.keys[n - 1], kw.vals[kw.keys[n - 1]])
  }

  /**
   * `Cls(**kw)`: the generated instance, then every keyword argument in order. A keyword `self`
   * clashes with the first parameter of `__init__` (line 11), so the call raises `TypeError`
   * before the body runs.
   */
  function FromKwargs(cls: ClassName, kw: Record, g: Fresh): (r: Result<Entity>)
    ensures r.Ok? ==> r.value.cls == cls
  {
    if "self" in kw.vals then Err(TypeError)
    else Populated(Generated(cls, g), kw, |kw.keys|)
  }

  /** A call with no keyword arguments gives the generated instance as it is. */
  lemma NoKwargs(cls: ClassName, g: Fresh)
    ensures FromKwargs(cls, Empty(), g) == Ok(Generated(cls, g))
  {
  }

  /** Keyword arguments the call binds: none of them named `self`. */
  predicate Bindable(kw: Record)
  {
    "self" !in kw.vals
  }

  /** Keyword arguments the loop accepts: a textual id and timestamps in the expected format. */
  predicate Acceptable(kw: Record)
  {
    && ("id" in kw.vals ==> kw.vals["id"].Str?)
    && ("updated_at" in kw.vals ==> ParseTime(kw.vals["updated_at"]).Ok?)
    && ("created_at" in kw.vals ==> ParseTime(kw.vals["created_at"]).Ok?)
  }

  /** The entries of a record other than the three reserved ones, in order. */
  function Strip(kw: Record): (b: Bag)
    ensures b.keys == Without(Without(Without(kw.keys, "id"), "updated_at"), "created_at")
    ensures forall k :: k in b.vals <==> k in kw.vals && !IsReserved(k)
    ensures forall k :: k in b.vals ==> b.vals[k] == kw.vals[k]
  {
    kw.Remove("id").Remove("updated_at").Remove("created_at")
  }

  /** The instance that accepted keyword arguments produce: given fields win over generated ones. */
  function Expected(cls: ClassName, kw: Record, g: Fresh): (e: Entity)
    requires Acceptable(kw)
    ensures e.extra == Strip(kw)
  {
    Entity(cls,
           if "id" in kw.vals then kw.vals["id"].s else g.id,
           if "updated_at" in kw.vals then ParseTime(kw.vals["updated_at"]).value else g.updatedAt,
           if "created_at" in kw.vals then ParseTime(kw.vals["created_at"]).value else g.createdAt,
           Strip(kw))
  }

  lemma StripPutReserved(t: Record, k: string, v: Value)
    requires IsReserved(k) && k !in t.vals
    ensures Strip(t.Put(k, v)) == Strip(t)
  {
    if k == "id" {
      RemovePutSame(t, k, v);
      RemoveAbsent(t, k);
    } else if k == "updated_at" {
      RemovePutOther(t, "id", k, v);
      RemovePutSame(t.Remove("id"), k, v);
      RemoveAbsent(t.Remove("id"), k);
    } else {
      RemovePutOther(t, "id", k, v);
      RemovePutOther(t.Remove("id"), "updated_at", k, v);
      RemovePutSame(t.Remove("id").Remove("updated_at"), k, v);
      RemoveAbsent(t.Remove("id").Remove("updated_at"), k);
    }
  }

  lemma StripPutOther(t: Record, k: string, v: Value)
    requires !IsReserved(k) && k !in t.vals
    ensures Strip(t.Put(k, v)) == Strip(t).Put(k, v)
  {
    RemovePutOther(t, "id", k, v);
    RemovePutOther(t.Remove("id"), "updated_at", k, v);
    RemovePutOther(t.Remove("id").Remove("updated_at"), "created_at", k, v);
  }

  /**
   * One more keyword argument: the pass succeeds exactly when the longer record is acceptable, and
   * yields the instance that record describes. One lemma per kind of key.
   */
  lemma AssignOther(cls: ClassName, t: Record, g: Fresh, k: string, v: Value)
    requires Acceptable(t) && k !in t.vals && !IsReserved(k)
    ensures Assign(Expected(cls, t, g), k, v) == Ok(Expected(cls, t.Put(k, v), g))
  {
    StripPutOther(t, k, v);
  }

  lemma AssignId(cls: ClassName, t: Record, g: Fresh, v: Value)
    requires Acceptable(t) && "id" !in t.vals
    ensures Assign(Expected(cls, t, g), "id", v).Ok? <==> Acceptable(t.Put("id", v))
    ensures Assign(Expected(cls, t, g), "id", v).Ok? ==> Assign(Expected(cls, t, g), "id", v).value == Expected(cls, t.Put("id", v), g)
  {
    StripPutReserved(t, "id", v);
    var t' := t.Put("id", v);
    assert t'.vals["id"] == v;
  }

  lemma AssignUpdated(cls: ClassName, t: Record, g: Fresh, v: Value)
    requires Acceptable(t) && "updated_at" !in t.vals
    ensures Assign(Expected(cls, t, g), "updated_at", v).Ok? <==> Acceptable(t.Put("updated_at", v))
    ensures Assign(Expected(cls, t, g), "updated_at", v).Ok? ==> Assign(Expected(cls, t, g), "updated_at", v).value == Expected(cls, t.Put("updated_at", v), g)
  {
    StripPutReserved(t, "updated_at", v);
  }

  lemma AssignCreated(cls: ClassName, t: Record, g: Fresh, v: Value)
    requires Acceptable(t) && "created_at" !in t.vals
    ensures Assign(Expected(cls, t, g), "created_at", v).Ok? <==> Acceptable(t.Put("created_at", v))
    ensures Assign(Expected(cls, t, g), "created_at", v).Ok? ==> Assign(Expected(cls, t, g), "created_at", v).value == Expected(cls, t.Put("created_at", v), g)
  {
    StripPutReserved(t, "created_at", v);
  }

  /**
   * The loop over the first `n` keyword arguments succeeds exactly when they are acceptable, and
   * then yields the expected instance.
   */
  lemma {:induction false} PopulatedMeaning(cls: ClassName, kw: Record, g: Fresh, n: nat)
    requires n <= |kw.keys|
    ensures Populated(Generated(cls, g), kw, n).Ok? <==> Acceptable(Take(kw, n))
    ensures Populated(Generated(cls, g), kw, n).Ok? ==> Populated(Generated(cls, g), kw, n).value == Expected(cls, Take(kw, n), g)
  {
    if n == 0 {
      PopulatedNone(cls, kw, g);
    } else {
      PopulatedMeaning(cls, kw, g, n - 1);
      PopulatedNext(cls, kw, g, n);
    }
  }

  /** No keyword argument taken yet: the generated instance is the expected one. */
  lemma PopulatedNone(cls: ClassName, kw: Record, g: Fresh)
    ensures Acceptable(Take(kw, 0)) && Populated(Generated(cls, g), kw, 0) == Ok(Expected(cls, Take(kw, 0), g))
  {
    assert Take(kw, 0).vals == map[];
    assert Strip(Take(kw, 0)) == EmptyBag();
  }

  /** One more keyword argument: the meaning of the loop over `n - 1` keywords carries over to `n`. */
  lemma PopulatedNext(cls: ClassName, kw: Record, g: Fresh, n: nat)
    requires 0 < n <= |kw.keys|
    requires Populated(Generated(cls, g), kw, n - 1).Ok? <==> Acceptable(Take(kw, n - 1))
    requires Populated(Generated(cls, g), kw, n - 1).Ok? ==> Populated(Generated(cls, g), kw, n - 1).value == Expected(cls, Take(kw, n - 1), g)
    ensures Populated(Generated(cls, g), kw, n).Ok? <==> Acceptable(Take(kw, n))
    ensures Populated(Generated(cls, g), kw, n).Ok? ==> Populated(Generated(cls, g), kw, n).value == Expected(cls, Take(kw, n), g)
  {
    if Populated(Generated(cls, g), kw, n - 1).Ok? {
      PopulatedNextOk(cls, kw, g, n);
    } else {
      PopulatedNextErr(cls, kw, g, n);
    }
  }

  lemma PopulatedNextOk(cls: ClassName, kw: Record, g: Fresh, n: nat)
    requires 0 < n <= |kw.keys| && Acceptable(Take(kw, n - 1))
    requires Populated(Generated(cls, g), kw, n - 1) == Ok(Expected(cls, Take(kw, n - 1), g))
    ensures Populated(Generated(cls, g), kw, n).Ok? <==> Acceptable(Take(kw, n))
    ensures Populated(Generated(cls, g), kw, n).Ok? ==> Populated(Generated(cls, g), kw, n).value == Expected(cls, Take(kw, n), g)
  {
    var t, k := Take(kw, n - 1), kw.keys[n - 1];
    TakeNext(kw, n - 1);
    assert k !in t.vals by {
      assert k !in kw.keys[..n - 1];
    }
    assert Populated(Generated(cls, g), kw, n) == Assign(Expected(cls, t, g), k, kw.vals[k]);
    AssignMeaning(cls, t, g, k, kw.vals[k]);
  }

  lemma PopulatedNextErr(cls: ClassName, kw: Record, g: Fresh, n: nat)
    requires 0 < n <= |kw.keys| && !Acceptable(Take(kw, n - 1))
    requires Populated(Generated(cls, g), kw, n - 1).Err?
    ensures Populated(Generated(cls, g), kw, n).Err? && !Acceptable(Take(kw, n))
  {
    var t, k := Take(kw, n - 1), kw.keys[n - 1];
    TakeNext(kw, n - 1);
    assert k !in t.vals by {
      assert k !in kw.keys[..n - 1];
    }
    AcceptableOfPut(t, k, kw.vals[k]);
  }

  /** A record that is not acceptable stays so with one more entry. */
  lemma AcceptableOfPut(t: Record, k: string, v: Value)
    requires k !in t.vals
    ensures Acceptable(t.Put(k, v)) ==> Acceptable(t)
  {
    assert t.Put(k, v).vals == t.vals[k := v];
  }

  /** One keyword argument on an expected instance: it succeeds exactly when the longer record is acceptable. */
  lemma AssignMeaning(cls: ClassName, t: Record, g: Fresh, k: string, v: Value)
    requires Acceptable(t) && k !in t.vals
    ensures Assign(Expected(cls, t, g), k, v).Ok? <==> Acceptable(t.Put(k, v))
    ensures Assign(Expected(cls, t, g), k, v).Ok? ==> Assign(Expected(cls, t, g), k, v).value == Expected(cls, t.Put(k, v), g)
  {
    if k == "id" {
      AssignId(cls, t, g, v);
    } else if k == "updated_at" {
      AssignUpdated(cls, t, g, v);
    } else if k == "created_at" {
      AssignCreated(cls, t, g, v);
    } else {
      AssignOther(cls, t, g, k, v);
      AcceptablePutOther(t, k, v);
    }
  }

  lemma AcceptablePutOther(t: Record, k: string, v: Value)
    requires Acceptable(t) && !IsReserved(k)
    ensures Acceptable(t.Put(k, v))
  {
    assert t.Put(k, v).vals == t.vals[k := v];
  }

  /**
   * Reconstruction from keyword arguments, as a whole: a keyword `self` raises `TypeError`;
   * otherwise the call succeeds exactly when the loop accepts every keyword.
   */
  lemma FromKwargsMeaning(cls: ClassName, kw: Record, g: Fresh)
    ensures FromKwargs(cls, kw, g).Ok? <==> Bindable(kw) && Acceptable(kw)
    ensures !Bindable(kw) ==> FromKwargs(cls, kw, g) == Err(TypeError)
    ensures Bindable(kw) && Acceptable(kw) ==> FromKwargs(cls, kw, g) == Ok(Expected(cls, kw, g))
  {
    PopulatedMeaning(cls, kw, g, |kw.keys|);
    TakeAll(kw);
  }

  /** An instance with `__class__` recorded in its dictionary, as reconstruction from `to_dict` leaves it. */
  function Tagged(e: Entity): (t: Entity)
    ensures t.extra.vals.Keys == e.extra.vals.Keys + {"__class__"} && t.extra.vals["__class__"] == Str(Name(e.cls))
    ensures forall k :: k in e.extra.vals && k != "__class__" ==> t.extra.vals[k] == e.extra.vals[k]
  {
    e.(extra := BagPut(e.extra, "__class__", Str(Name(e.cls))))
  }

  lemma StripKeys(e: Entity)
    ensures Strip(ToDict(e)).keys == Tagged(e).extra.keys
  {
    var tail := if "__class__" in e.extra.vals then [] else ["__class__"];
    var ks := e.extra.keys + tail;
    assert ToDict(e).keys == ["id", "updated_at", "created_at"] + ks;
    WithoutLeading("id", "updated_at", "created_at", ks);
  }

  lemma StripValues(e: Entity)
    ensures Strip(ToDict(e)).vals == Tagged(e).extra.vals
  {
    AssignThenDelete(e.extra.vals, "id", "updated_at", "created_at", "__class__",
                     Str(Name(e.cls)), Str(e.id), Str(IsoFormat(e.updatedAt)), Str(IsoFormat(e.createdAt)));
    assert Strip(ToDict(e)).vals == ToDict(e).vals - {"id"} - {"updated_at"} - {"created_at"};
  }

  /**
   * Rebuilding from `to_dict` output gives back the instance (with `__class__` now an entry of its
   * dictionary), provided both timestamps carry a fraction of a second; rendering it again gives the
   * same dictionary.
   */
  lemma KwargsRoundTrip(e: Entity, g: Fresh)
    requires ValidStamp(e.updatedAt) && e.updatedAt.micro != 0
    requires ValidStamp(e.createdAt) && e.createdAt.micro != 0
    requires "self" !in e.extra.vals
    ensures FromKwargs(e.cls, ToDict(e), g) == Ok(Tagged(e))
    ensures ToDict(Tagged(e)) == ToDict(e)
  {
    assert Bindable(ToDict(e));
    ExpectedFromToDict(e, g);
    FromKwargsMeaning(e.cls, ToDict(e), g);
    RetagSame(e);
  }

  /** An instance holding an attribute `self` renders a dictionary that cannot be passed back to its class. */
  lemma SelfAttributeRefused(e: Entity, g: Fresh)
    requires "self" in e.extra.vals
    ensures FromKwargs(e.cls, ToDict(e), g) == Err(TypeError)
  {
    assert "self" in ToDict(e).vals;
  }

  lemma ToDictAcceptable(e: Entity)
    requires ValidStamp(e.updatedAt) && e.updatedAt.micro != 0
    requires ValidStamp(e.createdAt) && e.createdAt.micro != 0
    ensures Acceptable(ToDict(e))
    ensures ParseTime(ToDict(e).vals["updated_at"]) == Ok(e.updatedAt)
    ensures ParseTime(ToDict(e).vals["created_at"]) == Ok(e.createdAt)
  {
    RenderedStamps(e);
    ParseRendered(e.updatedAt);
    ParseRendered(e.createdAt);
  }

  /** `to_dict` holds the id and both timestamps as text. */
  lemma RenderedStamps(e: Entity)
    ensures ToDict(e).vals["id"] == Str(e.id)
    ensures ToDict(e).vals["updated_at"] == Str(IsoFormat(e.updatedAt))
    ensures ToDict(e).vals["created_at"] == Str(IsoFormat(e.createdAt))
  {
    var a, b, d, c := "id", "updated_at", "created_at", "__class__";
    assert a[0] == 'i' && b[0] == 'u' && d[0] == 'c' && c[0] == '_';
    AssignedThree(e.extra.vals, a, b, d, c, Str(Name(e.cls)), Str(e.id), Str(IsoFormat(e.updatedAt)), Str(IsoFormat(e.createdAt)));
  }

  /** A rendered timestamp with a fraction of a second parses back to itself. */
  lemma ParseRendered(t: Timestamp)
    requires ValidStamp(t) && t.micro != 0
    ensures ParseTime(Str(IsoFormat(t))) == Ok(t)
  {
    IsoRoundTrip(t);
  }

  lemma ExpectedFromToDict(e: Entity, g: Fresh)
    requires ValidStamp(e.updatedAt) && e.updatedAt.micro != 0
    requires ValidStamp(e.createdAt) && e.createdAt.micro != 0
    ensures Acceptable(ToDict(e)) && Expected(e.cls, ToDict(e), g) == Tagged(e)
  {
    ToDictAcceptable(e);
    StripKeys(e);
    StripValues(e);
  }

  /** Recording `__class__` in the dictionary does not change what `to_dict` returns. */
  lemma RetagSame(e: Entity)
    ensures ToDict(Tagged(e)) == ToDict(e)
  {
    var t := Tagged(e);
    assert ToDict(t).keys == ToDict(e).keys;
    OverwrittenFirst(e.extra.vals, "id", "updated_at", "created_at", "__class__",
                     Str(Name(e.cls)), Str(e.id), Str(IsoFormat(e.updatedAt)), Str(IsoFormat(e.createdAt)));
    assert ToDict(t).vals == ToDict(e).vals;
  }

  /** `__module__`: the module that defines each class. */
  function ModuleName(c: ClassName): string
  {
    "models." + match c
      case BaseModelClass => "base_model"
      case UserClass => "user"
      case StateClass => "state"
      case CityClass => "city"
      case AmenityClass => "amenity"
      case PlaceClass => "place"
      case ReviewClass => "review"
  }

  /** `__doc__`: the class docstring, for the classes whose source is part of this model. */
  function DocString(c: ClassName): (r: Option<string>)
    ensures r.None? <==> c == PlaceClass || c == ReviewClass
  {
    if c == PlaceClass || c == ReviewClass then None else Some(KnownDoc(c))
  }

  /** The docstrings themselves, for the classes whose source is part of this model. */
  function KnownDoc(c: ClassName): string
    requires c != PlaceClass && c != ReviewClass
  {
    match c
    case BaseModelClass => "Represents the BaseModel of the HBnB project."
    case UserClass => "\n    User class\n    inherits from BaseModel\n    "
    case StateClass => " State class inherits from BaseModel"
    case CityClass => "Represent a city.\n    Attributes:\n        state_id (str): state id.\n        name (str): name of city.\n    "
    case AmenityClass => "Represent an amenity.\n    Attributes:\n        name (str): The name of amenity.\n    "
  }

  /** `__tablename__` of the classes mapped to a database table. */
  function TableName(c: ClassName): Option<string>
  {
    match c
    case UserClass => Some("users")
    case StateClass => Some("states")
    case AmenityClass => Some("amenities")
    case _ => None
  }

  /** A name spelled `__x__`, as Python's own class attributes are. */
  predicate IsDunder(name: string)
  {
    |name| >= 4 && name[..2] == "__" && name[|name| - 2..] == "__"
  }

  /**
   * Class-level attributes found when the instance dictionary has no entry: the methods every
   * class has, the texts Python keeps on each class, the relationships, and the plain-string
   * defaults the classes declare.
   */
  function ClassAttr(c: ClassName, name: string): (r: Option<Value>)
    ensures r.Some? ==> r.value.Str? || r.value.Compound?
    ensures r.Some? && r.value.Str? && !IsDunder(name) ==> r.value == Str("")
  {
    if name == "save" || name == "to_dict" || name == "__init__" || name == "__str__" then Some(Compound("<method>"))
    else if name == "__module__" then Some(Str(ModuleName(c)))
    else if name == "__doc__" then (if DocString(c).Some? then Some(Str(DocString(c).value)) else None)
    else if name == "__tablename__" then (if TableName(c).Some? then Some(Str(TableName(c).value)) else None)
    else match c
      case CityClass => if name == "state_id" || name == "name" then Some(Str("")) else None
      case StateClass => if name == "name" then Some(Str("")) else None
      case AmenityClass =>
        if name == "name" then Some(Str(""))
        else if name == "place_amenities" then Some(Compound("<relationship>"))
        else None
      case UserClass =>
        if name == "email" || name == "password" || name == "first_name" || name == "last_name" then Some(Str(""))
        else if name == "places" || name == "reviews" then Some(Compound("<relationship>"))
        else None
      case _ => None
  }

  /** Attributes that no instance entry can hide: the class, the dictionary, and `State.cities`. */
  predicate IsDescriptor(c: ClassName, name: string)
  {
    name == "__class__" || name == "__dict__" || (c == StateClass && name == "cities")
  }

  /** `getattr(obj, name)`, or `None` where `hasattr` is false. */
  function GetAttr(e: Entity, name: string): (r: Option<Value>)
  {
    if IsDescriptor(e.cls, name) then Some(Compound("<" + name + ">"))
    else if name in InstanceDict(e).vals then Some(InstanceDict(e).vals[name])
    else ClassAttr(e.cls, name)
  }

  /**
   * Lookup order: an instance entry hides a class default; without one the default is seen; an
   * attribute is missing exactly when neither exists.
   */
  lemma GetAttrOrder(e: Entity, name: string)
    requires !IsDescriptor(e.cls, name)
    ensures name in e.extra.vals ==> GetAttr(e, name) == Some(e.extra.vals[name])
    ensures name !in e.extra.vals && !IsReserved(name) ==> GetAttr(e, name) == ClassAttr(e.cls, name)
    ensures GetAttr(e, name).None? <==> !IsReserved(name) && name !in e.extra.vals && ClassAttr(e.cls, name).None?
  {
  }

  /** Without an instance entry of the same name, every instance reads its class's module. */
  lemma ClassModule(e: Entity)
    requires "__module__" !in e.extra.vals
    ensures GetAttr(e, "__module__") == Some(Str(ModuleName(e.cls)))
  {
    GetAttrOrder(e, "__module__");
  }

  /** Without an instance entry of the same name, the classes whose source is known show their docstring. */
  lemma ClassDoc(e: Entity)
    requires "__doc__" !in e.extra.vals
    ensures e.cls != PlaceClass && e.cls != ReviewClass ==> GetAttr(e, "__doc__") == Some(Str(DocString(e.cls).value))
  {
    DocLookup(e, "__doc__");
  }

  lemma DocLookup(e: Entity, name: string)
    requires name == "__doc__" && name !in e.extra.vals
    ensures GetAttr(e, name) == ClassAttr(e.cls, name)
    ensures ClassAttr(e.cls, name) == if DocString(e.cls).Some? then Some(Str(DocString(e.cls).value)) else None
  {
    assert |name| == 7 && name[0] == '_' && name[2] == 'd' && name[3] == 'o';
    assert !IsDescriptor(e.cls, name) && !IsReserved(name);
    GetAttrOrder(e, name);
  }

  /** Without an instance entry of the same name, exactly the mapped classes show a table name. */
  lemma ClassTable(e: Entity)
    requires "__tablename__" !in e.extra.vals
    ensures GetAttr(e, "__tablename__").Some? <==> e.cls == UserClass || e.cls == StateClass || e.cls == AmenityClass
    ensures e.cls == StateClass ==> GetAttr(e, "__tablename__") == Some(Str("states"))
  {
    var name := "__tablename__";
    assert |name| == 13 && name[0] == '_' && name[2] == 't';
    assert !IsDescriptor(e.cls, name) && !IsReserved(name);
    GetAttrOrder(e, name);
  }

  /**
   * A fresh instance has no `name` entry of its own, yet cities, states and amenities show the
   * declared default, and cities also a default `state_id`.
   */
  lemma FreshDefaults(cls: ClassName, g: Fresh)
    ensures "name" !in InstanceDict(Generated(cls, g)).vals
    ensures cls == CityClass || cls == StateClass || cls == AmenityClass ==> GetAttr(Generated(cls, g), "name") == Some(Str(""))
    ensures cls == CityClass ==> GetAttr(Generated(cls, g), "state_id") == Some(Str(""))
  {
    var e := Generated(cls, g);
    NameDefault(e, "name");
    StateIdDefault(e, "state_id");
  }

  /** The `name` default of cities, states and amenities, read on an instance without that entry. */
  lemma NameDefault(e: Entity, name: string)
    requires name == "name" && e.extra.vals == map[]
    ensures name !in InstanceDict(e).vals
    ensures GetAttr(e, name) == if e.cls in {CityClass, StateClass, AmenityClass} then Some(Str("")) else None
  {
    assert |name| == 4 && name[0] == 'n';
    assert !IsDescriptor(e.cls, name) && !IsReserved(name);
    GetAttrOrder(e, name);
  }

  /** The `state_id` default of cities, read on an instance without that entry. */
  lemma StateIdDefault(e: Entity, name: string)
    requires name == "state_id" && e.extra.vals == map[]
    ensures GetAttr(e, name) == if e.cls == CityClass then Some(Str("")) else None
  {
    assert |name| == 8 && name[0] == 's' && name[1] == 't';
    assert !IsDescriptor(e.cls, name) && !IsReserved(name);
    GetAttrOrder(e, name);
  }
}
