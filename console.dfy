/**
 * The command interpreter `HBNBCommand`: the class tables, the six commands that read and change the
 * registry, and the call form `<Class>.<command>(<args>)` that `default` rewrites into a command.
 * Each command is a chain of checks, every one of which stops with its own message; what the chain
 * decides is stated as a value (`Action`), and the methods that run the chain on the live engine are
 * proved to carry that decision out.
 */
module Console {
  import opened Outcomes
  import opened OrderedDicts
  import opened Numerals
  import opened Timestamps
  import opened Texts
  import opened Values
  import opened Entities
  import opened Documents
  import opened Oracles
  import opened Models
  import opened Shlex
  import opened Filters
  import opened States

  /** The lines a command printed, in order, and the exception that ended it, if one did. */
  datatype Outcome = Outcome(out: seq<string>, raised: Option<PyError>)

  /** A command that printed one line and returned. */
  function Said(line: string): Outcome
  {
    Outcome([line], None)
  }

  /** A command that raised before printing anything. */
  function Raised(x: PyError): Outcome
  {
    Outcome([], Some(x))
  }

  const ClassMissing := "** class name missing **"
  const NoClass := "** class doesn't exist **"
  const IdMissing := "** instance id missing **"
  const NoInstance := "** no instance found **"
  const Usage := "Usage: update <class name> <id> <attribute name> \"<attribute value>\""
  const AttrMissing := "** attribute name missing **"
  const NotSimple := "** only 'simple' attributes can be updated: string, integer, and float **"

  // ---------------------------------------------------------------- the class tables (lines 22-37)

  /** The `models` list, lines 29-37. */
  const ModelNames: seq<string> := ["BaseModel", "User", "State", "City", "Amenity", "Place", "Review"]

  /** `s in my_models`: the dictionary of lines 22-26, the class table of `Entities`. */
  predicate KnownClass(s: string)
  {
    ClassNamed(s).Some?
  }

  /** `s in models`: the list of lines 29-37. */
  predicate ListedClass(s: string)
  {
    s in ModelNames
  }

  /** The two tables name the same seven classes, so either check accepts exactly the class names. */
  lemma TablesAgree(s: string)
    ensures KnownClass(s) <==> ListedClass(s)
    ensures KnownClass(s) <==> exists c :: Name(c) == s
  {
    if KnownClass(s) {
      assert Name(ClassNamed(s).value) == s;
    } else {
      assert forall c :: Name(c) != s;
      assert forall i :: 0 <= i < |ModelNames| ==> ModelNames[i] == Name(ClassNamed(ModelNames[i]).value);
    }
  }

  // ---------------------------------------------------------------- what a command decides

  /**
   * What a chain of checks decides: print and change nothing, delete one key (`destroy`), or write one
   * attribute of one instance (`update`). Both changes are followed by `storage.save()`.
   */
  datatype Action =
    | Reply(o: Outcome)
    | Drop(key: string)
    | Write(key: string, attr: string, v: Value)

  /** The instance after `setattr(instance, attr, v)` on an attribute outside the three reserved ones. */
  function Written(e: Entity, attr: string, v: Value): Entity
    requires !IsReserved(attr)
  {
    e.(extra := BagPut(e.extra, attr, v))
  }

  /**
   * Setting one attribute changes what that attribute reads as and nothing else: no other attribute,
   * not the class, id or either timestamp (the console saves the engine, not the instance, so
   * `updated_at` stays as it was).
   */
  lemma WrittenChangesOne(e: Entity, attr: string, v: Value, other: string)
    requires !IsReserved(attr) && !IsDescriptor(e.cls, attr) && other != attr
    ensures GetAttr(Written(e, attr, v), attr) == Some(v)
    ensures GetAttr(Written(e, attr, v), other) == GetAttr(e, other)
    ensures Written(e, attr, v).cls == e.cls && Written(e, attr, v).id == e.id && Key(Written(e, attr, v)) == Key(e)
    ensures Written(e, attr, v).updatedAt == e.updatedAt && Written(e, attr, v).createdAt == e.createdAt
  {
    var w := Written(e, attr, v);
    assert InstanceDict(w).vals[attr] == v;
    if !IsDescriptor(e.cls, other) {
      assert other in InstanceDict(w).vals <==> other in InstanceDict(e).vals;
      if other in InstanceDict(e).vals {
        assert InstanceDict(w).vals[other] == InstanceDict(e).vals[other];
      }
    }
  }

  // ---------------------------------------------------------------- show (lines 100-120)

  /** Lines 103-120: the checks of `show` in the order the code makes them. */
  function ShowReply(reg: Registry, args: string): Outcome
  {
    if args == "" then Said(ClassMissing)
    else match Split(args)
      case Err(x) => Raised(x)
      case Ok(ts) =>
        if ts == [] then Raised(IndexError)
        else if !KnownClass(ts[0]) then Said(NoClass)
        else if |ts| == 1 then Said(IdMissing)
        else
          var k := ts[0] + "." + ts[1];
          if k !in reg.vals then Said(NoInstance) else Said(Describe(reg.vals[k]))
  }

  /** A class name and an identifier split back into those two words. */
  lemma SplitClassAndId(c: ClassName, id: string)
    requires BareWord(id)
    ensures Split(Name(c) + " " + id) == Ok([Name(c), id])
  {
    var n := Name(c);
    assert BareWord(n);
    assert Join([n, id], " ") == n + " " + id;
    SplitJoined([n, id]);
  }

  /** One bare word splits into itself. */
  lemma SplitOneWord(s: string)
    requires BareWord(s)
    ensures Split(s) == Ok([s])
  {
    assert Join([s], " ") == s;
    SplitJoined([s]);
  }

  /** `show <Class> <id>` prints the registered object's `__str__`, or that there is none. */
  lemma ShowRegistered(reg: Registry, c: ClassName, id: string)
    requires BareWord(id)
    ensures var k := Name(c) + "." + id;
      ShowReply(reg, Name(c) + " " + id) == if k in reg.vals then Said(Describe(reg.vals[k])) else Said(NoInstance)
  {
    SplitClassAndId(c, id);
    ClassNamedName(c);
  }

  /** An unknown class is reported before a missing identifier, and a known class alone lacks the id. */
  lemma ShowClassFirst(reg: Registry, s: string)
    requires BareWord(s)
    ensures ShowReply(reg, s) == if KnownClass(s) then Said(IdMissing) else Said(NoClass)
  {
    SplitOneWord(s);
  }

  // ---------------------------------------------------------------- create (lines 122-135)

  /** What `create` decides: print and change nothing, or build an instance of a class. */
  datatype Creation = Refuse(o: Outcome) | Build(cls: ClassName)

  /** Lines 125-133: the class is looked up in the class table where the code calls `eval`. */
  function CreateAction(args: string): Creation
  {
    match Split(args)
    case Err(x) => Refuse(Raised(x))
    case Ok(ts) =>
      if ts == [] then Refuse(Said(ClassMissing))
      else match ClassNamed(ts[0])
        case None => Refuse(Said(NoClass))
        case Some(c) => Build(c)
  }

  /** `create <Class>` builds that class; any other single word is refused; so is an empty line. */
  lemma CreateNamed(s: string)
    requires BareWord(s)
    ensures CreateAction(s) == if KnownClass(s) then Build(ClassNamed(s).value) else Refuse(Said(NoClass))
    ensures CreateAction("") == Refuse(Said(ClassMissing))
  {
    SplitOneWord(s);
    SplitBlank("", 0);
  }

  // ---------------------------------------------------------------- destroy (lines 187-211)

  /** Lines 189-211: the checks of `destroy`, against the `models` list. */
  function DestroyAction(reg: Registry, args: string): Action
  {
    match Split(args)
    case Err(x) => Reply(Raised(x))
    case Ok(ts) =>
      if ts == [] then Reply(Said(ClassMissing))
      else if !ListedClass(ts[0]) then Reply(Said(NoClass))
      else if |ts| > 1 then
        var k := ts[0] + "." + ts[1];
        if k in reg.vals then Drop(k) else Reply(Said(NoInstance))
      else Reply(Said(IdMissing))
  }

  /** `destroy <Class> <id>` deletes exactly the key `<Class>.<id>` when it is registered. */
  lemma DestroyRegistered(reg: Registry, c: ClassName, id: string)
    requires BareWord(id)
    ensures var k := Name(c) + "." + id;
      DestroyAction(reg, Name(c) + " " + id) == if k in reg.vals then Drop(k) else Reply(Said(NoInstance))
  {
    SplitClassAndId(c, id);
    ClassNamedName(c);
    TablesAgree(Name(c));
  }

  /** An unknown class is reported before a missing identifier. */
  lemma DestroyClassFirst(reg: Registry, s: string)
    requires BareWord(s)
    ensures DestroyAction(reg, s) == if ListedClass(s) then Reply(Said(IdMissing)) else Reply(Said(NoClass))
  {
    SplitOneWord(s);
  }

  /** Deleting a key keeps every other instance under its own key. */
  lemma DropKeepsKeyed(reg: Registry, k: string)
    requires SelfKeyed(reg)
    ensures SelfKeyed(reg.Remove(k))
    ensures k !in reg.Remove(k).vals && forall j :: j in reg.vals && j != k ==> j in reg.Remove(k).vals && reg.Remove(k).vals[j] == reg.vals[j]
  {
  }

  // ---------------------------------------------------------------- update (lines 137-185)

  /** Both values have the same one of the four simple types. */
  predicate SameType(a: Value, b: Value)
  {
    (a.Str? && b.Str?) || (a.Int? && b.Int?) || (a.Bool? && b.Bool?) || (a.Float? && b.Float?)
  }

  /**
   * Line 179, `type(current)(text)`: `str` keeps the text, `int` parses it, `bool` is true for any
   * non-empty text, and `float` is `floatOf`, which gives the repr of the parsed number or nothing
   * where `float()` raises `ValueError`.
   */
  function Coerce(current: Value, text: string, floatOf: string -> Option<string>): (r: Option<Value>)
    ensures r.Some? ==> SameType(current, r.value)
    ensures IsSimple(current) && (current.Str? || current.Bool?) ==> r.Some?
    ensures !IsSimple(current) ==> r.None?
  {
    match current
    case Str(_) => Some(Str(text))
    case Int(_) =>
      (match ParseInt(text)
       case None => None
       case Some(i) => Some(Int(i)))
    case Bool(_) => Some(Bool(text != ""))
    case Float(_) =>
      (match floatOf(text)
       case None => None
       case Some(f) => Some(Float(f)))
    case _ => None
  }

  /** Text that reads as an integer is stored as that integer: `int(str(n)) == n`. */
  lemma CoerceIntText(was: int, n: int, floatOf: string -> Option<string>)
    ensures Coerce(Int(was), IntStr(n), floatOf) == Some(Int(n))
  {
    ParseIntStr(n);
  }

  /** Lines 148-185 on the token list: usage, class, instance, reserved name, presence, type, value. */
  function UpdatePlan(reg: Registry, ts: seq<string>, floatOf: string -> Option<string>): (a: Action)
    ensures a.Write? ==> |ts| >= 4 && a.key == ts[0] + "." + ts[1] && a.attr == ts[2] && a.key in reg.vals
    ensures a.Write? ==> ListedClass(ts[0]) && !IsReserved(a.attr)
    ensures a.Write? ==> GetAttr(reg.vals[a.key], a.attr).Some? && SameType(GetAttr(reg.vals[a.key], a.attr).value, a.v)
    ensures !a.Drop?
  {
    if |ts| < 4 then Reply(Said(Usage))
    else
      var model, id, attr, text := ts[0], ts[1], ts[2], ts[3];
      if !ListedClass(model) then Reply(Said(NoClass))
      else
        var k := model + "." + id;
        if k !in reg.vals then Reply(Said(NoInstance))
        else if IsReserved(attr) then Reply(Said("** cannot update '" + attr + "' attribute **"))
        else match GetAttr(reg.vals[k], attr)
          case None => Reply(Said(AttrMissing))
          case Some(current) =>
            if !IsSimple(current) then Reply(Said(NotSimple))
            else match Coerce(current, text, floatOf)
              case None => Reply(Said("** invalid value for '" + attr + "' attribute type **"))
              case Some(v) => Write(k, attr, v)
  }

  /** Line 140 and after: the line is split first, and a line that does not split raises. */
  function UpdateAction(reg: Registry, args: string, floatOf: string -> Option<string>): Action
  {
    match Split(args)
    case Err(x) => Reply(Raised(x))
    case Ok(ts) => UpdatePlan(reg, ts, floatOf)
  }

  /**
   * A registered instance with an attribute it can read: a string attribute takes the text as it is,
   * an integer attribute takes the integer the text spells.
   */
  lemma UpdateSimple(reg: Registry, ts: seq<string>, floatOf: string -> Option<string>, n: int)
    requires |ts| >= 4 && ListedClass(ts[0]) && ts[0] + "." + ts[1] in reg.vals && !IsReserved(ts[2])
    ensures var k := ts[0] + "." + ts[1];
      GetAttr(reg.vals[k], ts[2]).Some? && GetAttr(reg.vals[k], ts[2]).value.Str? ==>
        UpdatePlan(reg, ts, floatOf) == Write(k, ts[2], Str(ts[3]))
    ensures var k := ts[0] + "." + ts[1];
      GetAttr(reg.vals[k], ts[2]).Some? && GetAttr(reg.vals[k], ts[2]).value.Int? && ts[3] == IntStr(n) ==>
        UpdatePlan(reg, ts, floatOf) == Write(k, ts[2], Int(n))
  {
    ParseIntStr(n);
  }

  /** An attribute that the instance lacks and its class does not declare is reported missing. */
  lemma UpdateMissing(reg: Registry, ts: seq<string>, floatOf: string -> Option<string>)
    requires |ts| >= 4 && ListedClass(ts[0]) && ts[0] + "." + ts[1] in reg.vals
    requires !IsReserved(ts[2]) && !IsDescriptor(reg.vals[ts[0] + "." + ts[1]].cls, ts[2])
    requires ts[2] !in reg.vals[ts[0] + "." + ts[1]].extra.vals && ClassAttr(reg.vals[ts[0] + "." + ts[1]].cls, ts[2]).None?
    ensures UpdatePlan(reg, ts, floatOf) == Reply(Said(AttrMissing))
  {
    GetAttrOrder(reg.vals[ts[0] + "." + ts[1]], ts[2]);
  }

  /** Writing an attribute keeps every instance under its own key. */
  lemma WriteKeepsKeyed(reg: Registry, k: string, attr: string, v: Value)
    requires SelfKeyed(reg) && k in reg.vals && !IsReserved(attr)
    ensures SelfKeyed(reg.Put(k, Written(reg.vals[k], attr, v)))
  {
  }

  // ---------------------------------------------------------------- count (lines 213-221)

  /** The class test of line 219. */
  function IsOf(name: string): Entity -> bool
  {
    (e: Entity) => Name(e.cls) == name
  }

  /** Lines 217-220: the counter after the loop over `vs`. */
  function CountOf(vs: seq<Entity>, name: string): nat
  {
    if vs == [] then 0 else CountOf(vs[..|vs| - 1], name) + (if Name(vs[|vs| - 1].cls) == name then 1 else 0)
  }

  /** The count is the length of the filter keeping the objects of that class. */
  lemma {:induction false} CountAsFilter(vs: seq<Entity>, name: string)
    ensures CountOf(vs, name) == |Pick(vs, IsOf(name), Itself)|
    ensures CountOf(vs, name) <= |vs|
  {
    if vs != [] {
      CountAsFilter(vs[..|vs| - 1], name);
    }
  }

  /** A name outside the class table counts nothing; every object counts when all have that class. */
  lemma {:induction false} CountExtremes(vs: seq<Entity>, name: string)
    ensures !KnownClass(name) ==> CountOf(vs, name) == 0
    ensures (forall i :: 0 <= i < |vs| ==> Name(vs[i].cls) == name) ==> CountOf(vs, name) == |vs|
  {
    if vs != [] {
      var init := vs[..|vs| - 1];
      CountExtremes(init, name);
      assert forall i :: 0 <= i < |init| ==> init[i] == vs[i];
      if !KnownClass(name) {
        assert Name(vs[|vs| - 1].cls) != name;
      }
    }
  }

  /** One more pass of the counting loop. */
  lemma CountStep(vs: seq<Entity>, i: nat, name: string)
    requires i < |vs|
    ensures CountOf(vs[..i + 1], name) == CountOf(vs[..i], name) + (if Name(vs[i].cls) == name then 1 else 0)
  {
    PrefixNext(vs, i);
  }

  /**
   * Lines 216-221: the first token is read inside the loop, so a line without tokens raises only
   * when there is an object to compare it with.
   */
  function CountReply(reg: Registry, args: string): Outcome
  {
    match Split(args)
    case Err(x) => Raised(x)
    case Ok(ts) =>
      if ts == [] then (if reg.keys == [] then Said(IntStr(0)) else Raised(IndexError))
      else Said(IntStr(CountOf(reg.Values(), ts[0])))
  }

  // ---------------------------------------------------------------- all (lines 82-98)

  /** Lines 94-97 for one matching key: the first two dot-separated parts of the key, then `str(value)`. */
  function Listing(key: string, e: Entity): (r: Result<string>)
    ensures r.Err? ==> r.error == IndexError
  {
    var parts := SplitOn(key, '.');
    if |parts| < 2 then Err(IndexError) else Ok("[" + parts[0] + "] (" + parts[1] + ") " + Describe(e))
  }

  /** The list `my_data` so far and the exception that ended the loop, if one did. */
  datatype Listed = Listed(data: seq<string>, raised: Option<PyError>)

  /** One pass of the loop at lines 92-98. */
  function GatherStep(g: Listed, entry: Entry, args: string): Listed
  {
    if g.raised.Some? || !HasSubstring(entry.0, args) then g
    else match Listing(entry.0, entry.1)
      case Err(x) => Listed(g.data, Some(x))
      case Ok(line) => Listed(g.data + [line], None)
  }

  /** The loop at lines 92-98 over the entries `es`, in order. */
  function Gather(es: seq<Entry>, args: string): Listed
  {
    if es == [] then Listed([], None) else GatherStep(Gather(es[..|es| - 1], args), es[|es| - 1], args)
  }

  /** Line 98 runs inside the loop: after each match the whole list so far is printed. */
  function Prints(data: seq<string>): seq<string>
  {
    if data == [] then [] else Prints(data[..|data| - 1]) + [ListRepr(data)]
  }

  /** Lines 86-98: an unknown or empty class name, or the listing of the keys that mention it. */
  function AllReply(reg: Registry, args: string): Outcome
  {
    if !KnownClass(args) then Said(NoClass)
    else
      var g := Gather(Entries(reg), args);
      Outcome(Prints(g.data), g.raised)
  }

  /** The key test of line 93. */
  function Mentions(args: string): Entry -> bool
  {
    (entry: Entry) => HasSubstring(entry.0, args)
  }

  /** The text line 97 appends for an entry. */
  function Line(entry: Entry): string
  {
    match Listing(entry.0, entry.1)
    case Ok(l) => l
    case Err(_) => ""
  }

  /** The line for an object under its own key: its rendering behind a second `[<Class>] (<id>)`. */
  function Shown(entry: Entry): string
  {
    "[" + Name(entry.1.cls) + "] (" + entry.1.id + ") " + Describe(entry.1)
  }

  /**
   * `all` raises exactly when a key that mentions the class has no dot; otherwise the list holds,
   * in registry order, the line of every key that mentions the class and of no other.
   */
  lemma {:induction false} GatherAsFilter(es: seq<Entry>, args: string)
    ensures Gather(es, args).raised.None? <==>
      forall i :: 0 <= i < |es| && HasSubstring(es[i].0, args) ==> Listing(es[i].0, es[i].1).Ok?
    ensures Gather(es, args).raised.Some? ==> Gather(es, args).raised == Some(IndexError)
    ensures Gather(es, args).raised.None? ==> Gather(es, args).data == Pick(es, Mentions(args), Line)
  {
    if es != [] {
      var init := es[..|es| - 1];
      GatherAsFilter(init, args);
      assert forall i :: 0 <= i < |init| ==> init[i] == es[i];
    }
  }

  /** The key of an object without dots in its identifier splits at the one dot it has. */
  lemma ListingKeyed(e: Entity)
    requires '.' !in e.id
    ensures Listing(Key(e), e) == Ok(Shown((Key(e), e)))
  {
    var n := Name(e.cls);
    assert '.' !in n;
    assert Key(e) == n + ['.'] + e.id;
    SplitTwo(n, e.id, '.');
  }

  /**
   * In a registry where every object sits under its own key and no identifier has a dot, `all`
   * raises nothing and lists exactly the objects whose key mentions the class name.
   */
  lemma AllOfKeyed(reg: Registry, args: string)
    requires SelfKeyed(reg)
    requires forall k :: k in reg.vals ==> '.' !in reg.vals[k].id
    ensures Gather(Entries(reg), args) == Listed(Pick(Entries(reg), Mentions(args), Shown), None)
  {
    var es := Entries(reg);
    forall i | 0 <= i < |es|
      ensures Listing(es[i].0, es[i].1) == Ok(Shown(es[i]))
    {
      ListingKeyed(es[i].1);
    }
    GatherAsFilter(es, args);
    PickSameMap(es, Mentions(args), Line, Shown);
  }

  /** An object's key contains its class name. */
  lemma KeyMentionsClass(e: Entity)
    ensures HasSubstring(Key(e), Name(e.cls))
  {
    SubstringAt("", Name(e.cls), "." + e.id);
    assert "" + Name(e.cls) + ("." + e.id) == Key(e);
  }

  /** Every object of the class is listed: its key starts with the class name. */
  lemma AllListsClass(reg: Registry, k: string)
    requires SelfKeyed(reg)
    requires forall j :: j in reg.vals ==> '.' !in reg.vals[j].id
    requires k in reg.vals
    ensures Shown((k, reg.vals[k])) in Gather(Entries(reg), Name(reg.vals[k].cls)).data
  {
    var e := reg.vals[k];
    var es := Entries(reg);
    var i :| 0 <= i < |reg.keys| && reg.keys[i] == k;
    assert es[i] == (k, e);
    assert k == Key(e);
    KeyMentionsClass(e);
    AllOfKeyed(reg, Name(e.cls));
    PickComplete(es, Mentions(Name(e.cls)), Shown, i);
  }

  /** One more pass of the listing loop. */
  lemma GatherNext(es: seq<Entry>, i: nat, args: string)
    requires i < |es|
    ensures Gather(es[..i + 1], args) == GatherStep(Gather(es[..i], args), es[i], args)
  {
    PrefixNext(es, i);
  }

  /** A pass of the listing loop that has not raised yet, spelled the way lines 93-97 build the line. */
  lemma ListStep(g: Listed, key: string, e: Entity, args: string)
    requires g.raised.None?
    ensures !HasSubstring(key, args) ==> GatherStep(g, (key, e), args) == g
    ensures HasSubstring(key, args) && |SplitOn(key, '.')| < 2 ==>
      GatherStep(g, (key, e), args) == Listed(g.data, Some(IndexError))
    ensures HasSubstring(key, args) && |SplitOn(key, '.')| >= 2 ==>
      var parts := SplitOn(key, '.');
      GatherStep(g, (key, e), args) == Listed(g.data + [("[" + parts[0] + "]" + " (" + parts[1] + ")") + " " + Describe(e)], None)
  {
    var parts := SplitOn(key, '.');
    if |parts| >= 2 {
      Bracketed(parts[0], parts[1], Describe(e));
    }
  }

  /** The pieces of line 95 joined one way or the other give the same text. */
  lemma Bracketed(a: string, b: string, d: string)
    ensures ("[" + a + "]" + " (" + b + ")") + " " + d == "[" + a + "] (" + b + ") " + d
  {
    assert "[" + a + "]" + " (" + b + ")" + " " + d == "[" + a + ("]" + " (") + b + (")" + " ") + d;
  }

  /** Once a pass raises, the loop over any longer prefix ends with the same list and error. */
  lemma {:induction false} GatherStops(es: seq<Entry>, n: nat, args: string)
    requires n <= |es| && Gather(es[..n], args).raised.Some?
    ensures Gather(es, args) == Gather(es[..n], args)
    decreases |es| - n
  {
    if n < |es| {
      GatherNext(es, n, args);
      GatherStops(es, n + 1, args);
    } else {
      assert es[..n] == es;
    }
  }

  /** Printing after one more append prints the list so far once more. */
  lemma PrintsSnoc(data: seq<string>, line: string)
    ensures Prints(data + [line]) == Prints(data) + [ListRepr(data + [line])]
  {
    assert (data + [line])[..|data|] == data;
  }

  /** The last line printed is the whole list. */
  lemma PrintsLast(data: seq<string>)
    requires data != []
    ensures |Prints(data)| == |data| && Prints(data)[|data| - 1] == ListRepr(data)
  {
    PrintsLength(data);
  }

  lemma {:induction false} PrintsLength(data: seq<string>)
    ensures |Prints(data)| == |data|
  {
    if data != [] {
      PrintsLength(data[..|data| - 1]);
    }
  }

  // ---------------------------------------------------------------- the call form (lines 39-65)

  /** `\w` on ASCII text: letters, digits and the underscore. */
  predicate IsWordChar(c: char)
  {
    ('a' <= c <= 'z') || ('A' <= c <= 'Z') || ('0' <= c <= '9') || c == '_'
  }

  predicate IsWord(w: string)
  {
    w != [] && forall i :: 0 <= i < |w| ==> IsWordChar(w[i])
  }

  /** Where the run of word characters that starts at `i` ends. */
  function RunEnd(s: string, i: nat): (j: nat)
    requires i <= |s|
    ensures i <= j <= |s|
    ensures forall k :: i <= k < j ==> IsWordChar(s[k])
    ensures j < |s| ==> !IsWordChar(s[j])
    decreases |s| - i
  {
    if i < |s| && IsWordChar(s[i]) then RunEnd(s, i + 1) else i
  }

  /** `.*?\)` from `k`: the first `)` at or after `k`, unless a newline or the end comes first. */
  function CloseFrom(s: string, k: nat): (m: Option<nat>)
    requires k <= |s|
    ensures m.Some? ==> k <= m.value < |s| && s[m.value] == ')'
    ensures m.Some? ==> forall i :: k <= i < m.value ==> s[i] != ')' && s[i] != '\n'
    ensures m.None? ==> forall i :: k <= i < |s| && s[i] == ')' ==> '\n' in s[k..i]
    decreases |s| - k
  {
    if k == |s| || s[k] == '\n' then None
    else if s[k] == ')' then Some(k)
    else
      var m := CloseFrom(s, k + 1);
      assert m.None? ==> forall i :: k < i < |s| && s[i] == ')' ==> '\n' in s[k..i] by {
        forall i | k < i < |s| && m.None? && s[i] == ')' ensures '\n' in s[k..i] {
          assert s[k + 1..i] == s[k..i][1..];
        }
      }
      m
  }

  /** The two groups of `(\w+)\((.*?)\)`. */
  datatype Call = Call(name: string, args: string)

  /**
   * The pattern tried at `i`: the greedy word run, which cannot give back characters since a word
   * character is never `(`, then `(`, then the shortest text up to a `)`.
   */
  function CallAt(s: string, i: nat): Option<Call>
    requires i <= |s|
  {
    var j := RunEnd(s, i);
    if j == i || j == |s| || s[j] != '(' then None
    else match CloseFrom(s, j + 1)
      case None => None
      case Some(m) => Some(Call(s[i..j], s[j + 1..m]))
  }

  /** Line 50, `re.search`: the leftmost position where the pattern matches. */
  function SearchCall(s: string, i: nat): Option<Call>
    requires i <= |s|
    decreases |s| - i
  {
    if i == |s| then None
    else match CallAt(s, i)
      case Some(c) => Some(c)
      case None => SearchCall(s, i + 1)
  }

  /** The five commands of the table at lines 41-47; `create` is not among them. */
  datatype Command = AllCmd | ShowCmd | DestroyCmd | CountCmd | UpdateCmd

  function CommandNamed(n: string): (r: Option<Command>)
    ensures r.Some? <==> n in ["all", "show", "destroy", "count", "update"]
  {
    if n == "all" then Some(AllCmd)
    else if n == "show" then Some(ShowCmd)
    else if n == "destroy" then Some(DestroyCmd)
    else if n == "count" then Some(CountCmd)
    else if n == "update" then Some(UpdateCmd)
    else None
  }

  /** Where `default` sends a line: a command with the line it is given, or nowhere. */
  datatype Route = Unknown | Dispatch(cmd: Command, line: string)

  /**
   * Lines 49-62: the class is the word run at the start of the line (`re.match`), the command and its
   * arguments the first call in it (`re.search`); the command gets `"<class> <args>"`, or the class
   * alone when the arguments are empty.
   */
  function Rewrite(arg: string): Route
  {
    var c := RunEnd(arg, 0);
    if c == 0 then Unknown
    else match SearchCall(arg, 0)
      case None => Unknown
      case Some(call) =>
        match CommandNamed(call.name)
        case None => Unknown
        case Some(cmd) => Dispatch(cmd, if call.args != "" then arg[..c] + " " + call.args else arg[..c])
  }

  /** What a routed command decides on the registry `reg`. */
  function Act(cmd: Command, reg: Registry, line: string, floatOf: string -> Option<string>): Action
  {
    match cmd
    case AllCmd => Reply(AllReply(reg, line))
    case ShowCmd => Reply(ShowReply(reg, line))
    case CountCmd => Reply(CountReply(reg, line))
    case DestroyCmd => DestroyAction(reg, line)
    case UpdateCmd => UpdateAction(reg, line, floatOf)
  }

  /** Lines 39-65: a routed line is carried out by its command; any other line is unknown syntax. */
  function Routed(reg: Registry, arg: string, floatOf: string -> Option<string>): Action
  {
    match Rewrite(arg)
    case Unknown => Reply(Said("*** Unknown syntax: " + arg))
    case Dispatch(cmd, line) => Act(cmd, reg, line, floatOf)
  }

  /** The line `<cls>.<cmd>(<a>)`. */
  function CallLine(cls: string, cmd: string, a: string): string
  {
    cls + "." + cmd + "(" + a + ")"
  }

  /** Every class name is a run of word characters. */
  lemma NameIsWord(c: ClassName)
    ensures IsWord(Name(c)) && BareWord(Name(c))
  {
  }

  /**
   * `<cls>.<cmd>(<a>)` with word names and arguments free of `)` and newlines: a command of the
   * table runs on `"<cls> <a>"` (or `"<cls>"` when `a` is empty), any other name is unknown syntax.
   */
  lemma RoutedCall(reg: Registry, cls: string, cmd: string, a: string, floatOf: string -> Option<string>)
    requires IsWord(cls) && IsWord(cmd)
    requires forall i :: 0 <= i < |a| ==> a[i] != ')' && a[i] != '\n'
    ensures Routed(reg, CallLine(cls, cmd, a), floatOf) ==
      match CommandNamed(cmd)
      case None => Reply(Said("*** Unknown syntax: " + CallLine(cls, cmd, a)))
      case Some(k) => Act(k, reg, if a != "" then cls + " " + a else cls, floatOf)
  {
    RewriteCall(cls, cmd, a);
  }

  /** `create` is not in the table: `<Class>.create(<a>)` is unknown syntax and creates nothing. */
  lemma RoutedCreate(reg: Registry, c: ClassName, a: string, floatOf: string -> Option<string>)
    requires forall i :: 0 <= i < |a| ==> a[i] != ')' && a[i] != '\n'
    ensures Routed(reg, CallLine(Name(c), "create", a), floatOf)
         == Reply(Said("*** Unknown syntax: " + CallLine(Name(c), "create", a)))
  {
    NameIsWord(c);
    RoutedCall(reg, Name(c), "create", a, floatOf);
  }

  /** `<Class>.destroy(<id>)` deletes exactly the key `<Class>.<id>` when it is registered. */
  lemma RoutedDestroy(reg: Registry, c: ClassName, id: string, floatOf: string -> Option<string>)
    requires BareWord(id) && forall i :: 0 <= i < |id| ==> id[i] != ')'
    ensures var k := Name(c) + "." + id;
      Routed(reg, CallLine(Name(c), "destroy", id), floatOf) == if k in reg.vals then Drop(k) else Reply(Said(NoInstance))
  {
    NameIsWord(c);
    RoutedCall(reg, Name(c), "destroy", id, floatOf);
    DestroyRegistered(reg, c, id);
  }

  /** `<Class>.count()` prints how many registered objects have that class. */
  lemma RoutedCount(reg: Registry, c: ClassName, floatOf: string -> Option<string>)
    ensures Routed(reg, CallLine(Name(c), "count", ""), floatOf) == Reply(Said(IntStr(CountOf(reg.Values(), Name(c)))))
  {
    NameIsWord(c);
    RoutedCall(reg, Name(c), "count", "", floatOf);
    SplitOneWord(Name(c));
  }

  /** Positions where the pattern fails do not change where the search ends up. */
  lemma {:induction false} SearchSkips(s: string, i: nat, j: nat)
    requires i <= j <= |s|
    requires forall k :: i <= k < j ==> CallAt(s, k).None?
    ensures SearchCall(s, i) == SearchCall(s, j)
    decreases j - i
  {
    if i < j {
      SearchSkips(s, i + 1, j);
    }
  }

  /** Text free of `)` and newlines is read through up to the `)` that follows it. */
  lemma {:induction false} CloseAfter(s: string, k: nat, m: nat)
    requires k <= m < |s| && s[m] == ')'
    requires forall i :: k <= i < m ==> s[i] != ')' && s[i] != '\n'
    ensures CloseFrom(s, k) == Some(m)
    decreases m - k
  {
    if k < m {
      CloseAfter(s, k + 1, m);
    }
  }

  /** A word run followed by a non-word character ends there, from wherever inside it it starts. */
  lemma {:induction false} RunEndAt(s: string, i: nat, j: nat)
    requires i <= j < |s| && !IsWordChar(s[j])
    requires forall k :: i <= k < j ==> IsWordChar(s[k])
    ensures RunEnd(s, i) == j
    decreases j - i
  {
    if i < j {
      RunEndAt(s, i + 1, j);
    }
  }

  /**
   * `<Class>.<cmd>(<args>)` with word-character names and arguments free of `)` and newlines is
   * routed to the command with `"<Class> <args>"`, or `"<Class>"` when there are no arguments; a
   * name outside the table (such as `create`) is not routed.
   */
  lemma RewriteCall(cls: string, cmd: string, a: string)
    requires IsWord(cls) && IsWord(cmd)
    requires forall i :: 0 <= i < |a| ==> a[i] != ')' && a[i] != '\n'
    ensures Rewrite(cls + "." + cmd + "(" + a + ")") ==
      match CommandNamed(cmd)
      case None => Unknown
      case Some(c) => Dispatch(c, if a != "" then cls + " " + a else cls)
  {
    var s := cls + "." + cmd + "(" + a + ")";
    CallFound(cls, cmd, a);
    assert RunEnd(s, 0) == |cls| && s[..|cls|] == cls;
  }

  /** The class run ends at the dot, and the search finds the command and its arguments after it. */
  lemma CallFound(cls: string, cmd: string, a: string)
    requires IsWord(cls) && IsWord(cmd)
    requires forall i :: 0 <= i < |a| ==> a[i] != ')' && a[i] != '\n'
    ensures var s := cls + "." + cmd + "(" + a + ")";
      RunEnd(s, 0) == |cls| && s[..|cls|] == cls && SearchCall(s, 0) == Some(Call(cmd, a))
  {
    var s := cls + "." + cmd + "(" + a + ")";
    var dot := |cls|;
    var open := dot + 1 + |cmd|;
    Pieces(cls, ".", cmd, "(", a, ")");
    SkipRun(s, dot);
    CallThere(s, dot + 1, open, |s| - 1);
  }

  /** A word run closed by a character other than `(` holds no match: the search goes on after it. */
  lemma SkipRun(s: string, j: nat)
    requires j < |s| && !IsWordChar(s[j]) && s[j] != '('
    requires forall k :: 0 <= k < j ==> IsWordChar(s[k])
    ensures RunEnd(s, 0) == j && SearchCall(s, 0) == SearchCall(s, j + 1)
  {
    RunEndAt(s, 0, j);
    forall k | 0 <= k <= j
      ensures CallAt(s, k).None?
    {
      RunEndAt(s, k, j);
      NoCallBefore(s, k, j);
    }
    SearchSkips(s, 0, j + 1);
  }

  /** A word run, `(`, text free of `)` and newlines, then `)`: the search stops here. */
  lemma CallThere(s: string, i: nat, j: nat, m: nat)
    requires i < j < m < |s| && s[j] == '(' && s[m] == ')' && !IsWordChar(s[j])
    requires forall k :: i <= k < j ==> IsWordChar(s[k])
    requires forall k :: j + 1 <= k < m ==> s[k] != ')' && s[k] != '\n'
    ensures SearchCall(s, i) == Some(Call(s[i..j], s[j + 1..m]))
  {
    RunEndAt(s, i, j);
    CloseAfter(s, j + 1, m);
    CallMatches(s, i, j, m);
  }

  /** Where the six pieces of a call line sit in it. */
  lemma Pieces<T>(c: seq<T>, d: seq<T>, m: seq<T>, o: seq<T>, a: seq<T>, p: seq<T>)
    ensures var s := c + d + m + o + a + p;
      var i, j, k := |c|, |c| + |d|, |c| + |d| + |m| + |o|;
      && |s| == k + |a| + |p|
      && s[..i] == c && s[j..j + |m|] == m && s[k..k + |a|] == a
      && (forall n :: 0 <= n < i ==> s[n] == c[n])
      && (forall n :: i <= n < j ==> s[n] == d[n - i])
      && (forall n :: j <= n < j + |m| ==> s[n] == m[n - j])
      && (forall n :: j + |m| <= n < k ==> s[n] == o[n - j - |m|])
      && (forall n :: k <= n < k + |a| ==> s[n] == a[n - k])
      && (forall n :: k + |a| <= n < |s| ==> s[n] == p[n - k - |a|])
  {
  }

  /** The pattern fails where the word run is empty or is not followed by `(`. */
  lemma NoCallBefore(s: string, i: nat, j: nat)
    requires i <= j < |s| && RunEnd(s, i) == j && s[j] != '('
    ensures CallAt(s, i).None?
  {
  }

  /** The pattern matches where a word run is followed by `(` and, later, a `)`. */
  lemma CallMatches(s: string, i: nat, j: nat, m: nat)
    requires i < j < |s| && RunEnd(s, i) == j && s[j] == '(' && j + 1 <= m && CloseFrom(s, j + 1) == Some(m)
    ensures CallAt(s, i) == Some(Call(s[i..j], s[j + 1..m]))
    ensures SearchCall(s, i) == Some(Call(s[i..j], s[j + 1..m]))
  {
  }

  // ---------------------------------------------------------------- the commands on the live engine

  /**
   * What carrying out a decision did to the engine: a reply changes nothing; a deletion removes
   * exactly that key; a write changes that one attribute of the instance registered under the key,
   * read through every key that holds the same instance; both changes then save the whole registry.
   */
  twostate predicate Performed(storage: FileStorage, a: Action, o: Outcome)
    reads storage, storage.objects.vals.Values
  {
    match a
    case Reply(r) =>
      o == r && storage.objects == old(storage.objects) && storage.disk == old(storage.disk)
      && storage.View() == old(storage.View())
    case Drop(k) =>
      && o == Said("Instance " + k + " deleted.")
      && storage.objects == old(storage.objects).Remove(k)
      && storage.View() == old(storage.View()).Remove(k)
      && storage.disk == Some(DocumentOf(storage.View().Values()))
    case Write(k, attr, v) =>
      && o == Said("Update successful for " + k + ": " + attr + ".")
      && !IsReserved(attr) && k in old(storage.objects).vals
      && storage.objects == old(storage.objects)
      && (forall j :: j in storage.objects.vals ==>
            storage.View().vals[j] ==
              if storage.objects.vals[j] == storage.objects.vals[k] then Written(old(storage.View()).vals[j], attr, v)
              else old(storage.View()).vals[j])
      && storage.disk == Some(DocumentOf(storage.View().Values()))
  }

  /** Lines 100-120 on the engine. */
  method DoShow(storage: FileStorage, args: string) returns (o: Outcome)
    ensures o == ShowReply(storage.View(), args)
  {
    if args == "" {
      return Said(ClassMissing);
    }
    var split := Split(args);
    if split.Err? {
      return Raised(split.error);
    }
    var ts := split.value;
    if |ts| == 0 {
      return Raised(IndexError);
    }
    if ClassNamed(ts[0]).None? {
      return Said(NoClass);
    } else if |ts| == 1 {
      return Said(IdMissing);
    }
    var myData := storage.All();
    var key := ts[0] + "." + ts[1];
    if key !in myData.vals {
      return Said(NoInstance);
    }
    o := Said(Describe(myData.vals[key].Snapshot()));
  }

  /** Lines 39-65 on the engine: the rewritten line goes to the command's own method. */
  method Default(storage: FileStorage, arg: string, floatOf: string -> Option<string>) returns (o: Outcome)
    modifies storage`objects, storage`disk, storage.objects.vals.Values
    ensures Performed(storage, Routed(old(storage.View()), arg, floatOf), o)
  {
    match Rewrite(arg)
    case Unknown =>
      o := Said("*** Unknown syntax: " + arg);
    case Dispatch(cmd, line) =>
      match cmd
      case AllCmd => o := DoAll(storage, line);
      case ShowCmd => o := DoShow(storage, line);
      case CountCmd => o := DoCount(storage, line);
      case DestroyCmd => o := DoDestroy(storage, line);
      case UpdateCmd => o := DoUpdate(storage, line, floatOf);
  }

  /** Lines 187-211 on the engine: the key is deleted from the live dictionary, then the whole registry is saved. */
  method DoDestroy(storage: FileStorage, args: string) returns (o: Outcome)
    modifies storage`objects, storage`disk
    ensures Performed(storage, DestroyAction(old(storage.View()), args), o)
  {
    var split := Split(args);
    if split.Err? {
      return Raised(split.error);
    }
    var ts := split.value;
    if |ts| == 0 {
      return Said(ClassMissing);
    }
    if ts[0] !in ModelNames {
      return Said(NoClass);
    }
    if |ts| > 1 {
      var key := ts[0] + "." + ts[1];
      if key in storage.All().vals {
        o := DropKey(storage, key);
      } else {
        o := Said(NoInstance);
      }
    } else {
      o := Said(IdMissing);
    }
  }

  /** Lines 203-206: `del storage.all()[key]`, which deletes from the live dictionary, then a save. */
  method DropKey(storage: FileStorage, key: string) returns (o: Outcome)
    modifies storage`objects, storage`disk
    ensures Performed(storage, Drop(key), o)
  {
    storage.Delete(key);
    ghost var now := storage.View();
    storage.Save();
    assert storage.View() == now;
    assert storage.disk == Some(DocumentOf(now.Values()));
    o := Said("Instance " + key + " deleted.");
  }

  /** Lines 137-185 on the engine: the attribute is set on the live instance, then the engine is saved. */
  method DoUpdate(storage: FileStorage, args: string, floatOf: string -> Option<string>) returns (o: Outcome)
    modifies storage`disk, storage.objects.vals.Values
    ensures Performed(storage, UpdateAction(old(storage.View()), args, floatOf), o)
  {
    var split := Split(args);
    if split.Err? {
      return Raised(split.error);
    }
    var ts := split.value;
    if |ts| < 4 {
      return Said(Usage);
    }
    var model, id, attr, text := ts[0], ts[1], ts[2], ts[3];
    if model !in ModelNames {
      return Said(NoClass);
    }
    var key := model + "." + id;
    if key !in storage.All().vals {
      return Said(NoInstance);
    }
    if attr == "id" || attr == "created_at" || attr == "updated_at" {
      return Said("** cannot update '" + attr + "' attribute **");
    }
    var instance := storage.All().vals[key];
    var current := GetAttr(instance.Snapshot(), attr);
    if current.None? {
      return Said(AttrMissing);
    }
    if !IsSimple(current.value) {
      return Said(NotSimple);
    }
    var v := Coerce(current.value, text, floatOf);
    if v.None? {
      return Said("** invalid value for '" + attr + "' attribute type **");
    }
    o := WriteAttr(storage, key, instance, attr, v.value);
  }

  /** Lines 178-182: `setattr` on the instance under `key`, a save of the engine, and the message. */
  method WriteAttr(storage: FileStorage, key: string, instance: BaseModel, attr: string, v: Value) returns (o: Outcome)
    requires key in storage.objects.vals && storage.objects.vals[key] == instance && !IsReserved(attr)
    modifies storage`disk, instance`extra
    ensures Performed(storage, Write(key, attr, v), o)
  {
    ghost var objs, v0 := storage.objects, storage.View();
    SetOnEngine(storage, instance, attr, v, objs, v0);
    ghost var v1 := storage.View();
    SaveKeeping(storage, objs.vals.Values);
    assert storage.View() == v1;
    o := Said("Update successful for " + key + ": " + attr + ".");
  }

  /** Line 178: `setattr` on a registered instance changes what every key holding it reads as, and nothing else. */
  method SetOnEngine(storage: FileStorage, instance: BaseModel, attr: string, v: Value,
                     ghost objs: ODict<BaseModel>, ghost v0: Registry)
    requires !IsReserved(attr) && storage.objects == objs && RegistryOf(objs) == v0
    modifies instance`extra
    ensures storage.objects == objs
    ensures forall j :: j in objs.vals ==>
      storage.View().vals[j] == if objs.vals[j] == instance then Written(v0.vals[j], attr, v) else v0.vals[j]
  {
    ghost var others := set j | j in objs.vals && objs.vals[j] != instance :: objs.vals[j];
    SetAlone(instance, attr, v, others);
    forall j | j in objs.vals
      ensures storage.View().vals[j] == if objs.vals[j] == instance then Written(v0.vals[j], attr, v) else v0.vals[j]
    {
      if objs.vals[j] != instance {
        assert objs.vals[j] in others;
      }
    }
  }

  /** `storage.save()` writes the file and changes no instance. */
  method SaveKeeping(storage: FileStorage, ghost instances: set<BaseModel>)
    modifies storage`disk
    ensures storage.disk == Some(DocumentOf(old(storage.View()).Values()))
    ensures storage.objects == old(storage.objects) && unchanged(instances)
  {
    storage.Save();
  }

  /** `setattr` on one instance changes no other instance. */
  method SetAlone(instance: BaseModel, attr: string, v: Value, ghost others: set<BaseModel>)
    requires !IsReserved(attr) && instance !in others
    modifies instance`extra
    ensures instance.Snapshot() == Written(old(instance.Snapshot()), attr, v)
    ensures unchanged(others)
  {
    instance.extra := BagPut(instance.extra, attr, v);
  }

  /** Lines 213-221 on the engine: the loop over the live dictionary, reading the first token on every pass. */
  method DoCount(storage: FileStorage, args: string) returns (o: Outcome)
    ensures o == CountReply(storage.View(), args)
  {
    var split := Split(args);
    if split.Err? {
      return Raised(split.error);
    }
    var ts := split.value;
    var myObjects := storage.All();
    ghost var vs := storage.View().Values();
    var count := 0;
    for i := 0 to |myObjects.keys|
      invariant ts != [] ==> count == CountOf(vs[..i], ts[0])
      invariant ts == [] ==> count == 0 && i == 0
    {
      if |ts| == 0 {
        return Raised(IndexError);
      }
      var obj := myObjects.vals[myObjects.keys[i]];
      assert vs[i] == obj.Snapshot();
      CountStep(vs, i, ts[0]);
      if ts[0] == Name(obj.cls) {
        count := count + 1;
      }
    }
    if ts != [] {
      assert vs[..|myObjects.keys|] == vs;
    }
    o := Said(IntStr(count));
  }

  /**
   * Lines 82-98 on the engine: the loop over the live dictionary, printing the whole list after
   * every append; a matching key without a dot raises `IndexError` after what was printed.
   */
  method DoAll(storage: FileStorage, args: string) returns (o: Outcome)
    ensures o == AllReply(storage.View(), args)
  {
    var allData := storage.All();
    if ClassNamed(args).None? {
      return Said(NoClass);
    }
    TablesAgree(args);
    if args in ModelNames {
      ghost var es := Entries(storage.View());
      var myData: seq<string> := [];
      var out: seq<string> := [];
      for i := 0 to |allData.keys|
        invariant Gather(es[..i], args) == Listed(myData, None)
        invariant out == Prints(myData)
      {
        var key := allData.keys[i];
        var value := allData.vals[key];
        assert es[i] == (key, value.Snapshot());
        GatherNext(es, i, args);
        ListStep(Listed(myData, None), key, value.Snapshot(), args);
        if HasSubstring(key, args) {
          var splitStr := SplitOn(key, '.');
          if |splitStr| < 2 {
            GatherStops(es, i + 1, args);
            return Outcome(out, Some(IndexError));
          }
          var newStr := "[" + splitStr[0] + "]" + " (" + splitStr[1] + ")";
          PrintsSnoc(myData, newStr + " " + Describe(value.Snapshot()));
          myData := myData + [newStr + " " + Describe(value.Snapshot())];
          out := out + [ListRepr(myData)];
        }
      }
      assert es[..|allData.keys|] == es;
      o := Outcome(out, None);
    } else {
      // TablesAgree: a name `my_models` accepts is also in `models`.
      assert false;
    }
  }

  /** Lines 122-135 on the engine: the new instance registers itself, is saved, and its id is printed. */
  method DoCreate(storage: FileStorage, args: string, ids: IdSupply, clock: Clock) returns (o: Outcome)
    modifies ids, clock, storage`objects, storage`disk
    ensures CreateAction(args).Refuse? ==>
      o == CreateAction(args).o && storage.objects == old(storage.objects) && storage.disk == old(storage.disk)
      && ids.drawn == old(ids.drawn) && clock.ticks == old(clock.ticks)
    ensures CreateAction(args).Build? ==>
      var e := Made(CreateAction(args).cls, old(ids.drawn), old(clock.ticks), clock.reading);
      && o == Said(e.id)
      && Key(e) in storage.objects.vals && fresh(storage.objects.vals[Key(e)])
      && storage.objects == old(storage.objects).Put(Key(e), storage.objects.vals[Key(e)])
      && storage.View() == old(storage.View()).Put(Key(e), e)
      && storage.disk == Some(DocumentOf(storage.View().Values()))
      && ids.drawn == old(ids.drawn) + 1 && clock.ticks == old(clock.ticks) + 3
  {
    var split := Split(args);
    if split.Err? {
      return Raised(split.error);
    }
    var ts := split.value;
    if |ts| == 0 {
      return Said(ClassMissing);
    }
    var cls := ClassNamed(ts[0]);
    if cls.None? {
      return Said(NoClass);
    }
    var newObject := CreateAndSave(cls.value, storage, ids, clock);
    o := Said(newObject.id);
  }

  /**
   * Lines 133-134: a fresh instance of the class, registered by its constructor, then saved: the
   * draws of one construction, with `updated_at` moved on by one more reading.
   */
  method CreateAndSave(cls: ClassName, storage: FileStorage, ids: IdSupply, clock: Clock) returns (newObject: BaseModel)
    modifies ids, clock, storage`objects, storage`disk
    ensures fresh(newObject)
    ensures newObject.Snapshot() == Made(cls, old(ids.drawn), old(clock.ticks), clock.reading)
    ensures storage.objects == old(storage.objects).Put(Key(newObject.Snapshot()), newObject)
    ensures storage.View() == old(storage.View()).Put(Key(newObject.Snapshot()), newObject.Snapshot())
    ensures storage.disk == Some(DocumentOf(storage.View().Values()))
    ensures ids.drawn == old(ids.drawn) + 1 && clock.ticks == old(clock.ticks) + 3
  {
    ghost var objs0, v0 := storage.objects, storage.View();
    ghost var d0, t0 := ids.drawn, clock.ticks;
    newObject := NewInstance(cls, storage, ids, clock);
    ghost var s1 := newObject.Snapshot();
    ghost var t1 := clock.ticks;
    assert t1 == t0 + 2 && s1 == Generated(cls, FreshAt(d0, t0, clock.reading, 0));
    SaveNew(newObject, clock, storage, objs0, v0, s1);
    assert Key(s1) == Key(newObject.Snapshot());
    SavedIsMade(cls, d0, t0, clock.reading, s1, t1, newObject.updatedAt);
  }

  /** The generated instance with `updated_at` moved on to the next reading is what `create` leaves. */
  lemma SavedIsMade(cls: ClassName, ids0: nat, ticks0: nat, reading: nat -> Timestamp, s: Entity, t: nat, u: Timestamp)
    requires s == Generated(cls, FreshAt(ids0, ticks0, reading, 0)) && t == ticks0 + 2 && u == reading(t)
    ensures s.(updatedAt := u) == Made(cls, ids0, ticks0, reading)
  {
  }

  /** Line 133: the class called with no arguments, which registers the new instance (line 35 of `models/base_model.py`). */
  method NewInstance(cls: ClassName, storage: FileStorage, ids: IdSupply, clock: Clock) returns (newObject: BaseModel)
    modifies ids, clock, storage`objects
    ensures fresh(newObject)
    ensures newObject.Snapshot() == Generated(cls, FreshAt(old(ids.drawn), old(clock.ticks), clock.reading, 0))
    ensures storage.objects == old(storage.objects).Put(Key(newObject.Snapshot()), newObject)
    ensures storage.View() == old(storage.View()).Put(Key(newObject.Snapshot()), newObject.Snapshot())
    ensures RegistryOf(old(storage.objects)) == old(storage.View())
    ensures ids.drawn == old(ids.drawn) + 1 && clock.ticks == old(clock.ticks) + 2
  {
    ghost var objs0, v0 := storage.objects, storage.View();
    ghost var d0, t0 := ids.drawn, clock.ticks;
    var r := Construct(cls, Empty(), ids, clock, storage, ids.drawn, clock.ticks, 0);
    NoKwargs(cls, FreshAt(d0, t0, clock.reading, 0));
    newObject := r.value;
    assert newObject !in objs0.vals.Values;
    assert RegistryOf(objs0) == v0;
    RegistryOfPut(objs0, Key(newObject.Snapshot()), newObject);
  }

  /**
   * Line 134: saving the instance just registered moves its `updated_at` on, leaves every other
   * registered object as it was, and writes the file.
   */
  method SaveNew(newObject: BaseModel, clock: Clock, storage: FileStorage,
                 ghost objs0: ODict<BaseModel>, ghost v0: Registry, ghost s: Entity)
    requires newObject !in objs0.vals.Values && RegistryOf(objs0) == v0 && newObject.Snapshot() == s
    requires storage.objects == objs0.Put(Key(s), newObject)
    modifies newObject`updatedAt, clock, storage`disk
    ensures newObject.Snapshot() == s.(updatedAt := newObject.updatedAt)
    ensures newObject.updatedAt == clock.reading(old(clock.ticks)) && clock.ticks == old(clock.ticks) + 1
    ensures storage.objects == objs0.Put(Key(s), newObject)
    ensures storage.View() == v0.Put(Key(s), newObject.Snapshot())
    ensures storage.disk == Some(DocumentOf(storage.View().Values()))
  {
    SaveAlone(newObject, clock, storage, objs0.vals.Values);
    assert RegistryOf(objs0) == v0;
    RegistryOfPut(objs0, Key(s), newObject);
  }

  /** `save()` on one instance changes no other instance. */
  method SaveAlone(newObject: BaseModel, clock: Clock, storage: FileStorage, ghost others: set<BaseModel>)
    requires newObject !in others
    modifies newObject`updatedAt, clock, storage`disk
    ensures newObject.Snapshot() == old(newObject.Snapshot()).(updatedAt := newObject.updatedAt)
    ensures newObject.updatedAt == clock.reading(old(clock.ticks)) && clock.ticks == old(clock.ticks) + 1
    ensures storage.disk == Some(DocumentOf(storage.View().Values()))
    ensures unchanged(others)
  {
    newObject.Save(clock, storage);
  }

  /**
   * The instance `create` leaves behind when it starts with `ids0` identifiers and `ticks0` readings
   * drawn: identifier `ids0`, `created_at` the second reading, `updated_at` the third, nothing else.
   */
  function Made(cls: ClassName, ids0: nat, ticks0: nat, reading: nat -> Timestamp): (e: Entity)
    ensures e.cls == cls && e.id == IdAt(ids0) && e.extra.keys == []
    ensures e.createdAt == reading(ticks0 + 1) && e.updatedAt == reading(ticks0 + 2)
    ensures Key(e) == Name(cls) + "." + IdAt(ids0)
  {
    Generated(cls, FreshAt(ids0, ticks0, reading, 0)).(updatedAt := reading(ticks0 + 2))
  }
}
