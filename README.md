# AirBnB clone (HBnB) console and file storage, modelled in Dafny

This project models the core of the HBnB command interpreter and its storage engine:

- the `BaseModel` objects whose attributes are set in place;
- the `FileStorage` engine, whose registry maps `"<Class>.<id>"` to live objects, and whose
  `save`/`reload` pair writes the registry to `file.json` and merges it back;
- the `State.cities` property;
- the console commands `all`, `show`, `create`, `update`, `destroy` and `count`, and the
  `<Class>.<command>(<args>)` form that `default` rewrites into one of them.

## Layout

Each module is one file, and the modules follow the program's structure.

- Value modules:
  - `Outcomes`: Option, Result, and the Python exceptions the code paths raise.
  - `Numerals`: digits, padding, and `int`/`str` on integers.
  - `Timestamps`: `datetime.isoformat` and `datetime.strptime` with the format `%Y-%m-%dT%H:%M:%S.%f`.
  - `Texts`: joining, splitting and substrings.
  - `Values`: attribute values and their Python `repr`.
  - `OrderedDicts`: Python dictionaries, which keep insertion order.
  - `Filters`: the loop "keep what passes a test that may raise".
  - `Shlex`: `shlex.split` in POSIX mode.
- `Oracles`: the two sources of nondeterminism.
  - The clock is a fixed reading function with a tick counter.
  - The uuid supply is a draw counter rendered as 36-character identifiers.
- `Entities`: the seven classes and the instance as a value.
  - The value is the class plus `__dict__`, always ordered `id`, `updated_at`, `created_at`, then the other entries.
  - Also here: `to_dict`, `__str__`, reconstruction from keyword arguments, and `getattr`/`hasattr`.
- `Documents`: the content of `file.json` and the save/reload functions on values.
- `Models`: the imperative layer.
  - `class BaseModel`, with fields updated in place.
  - `class FileStorage`, whose `objects` field holds references. Two keys may alias one instance, as in Python.
  - The start-up sequence of `models/__init__.py`.
- `States`: `State.cities`, as two loops over the live registry.
- `Console`: the console commands.
  - Each command is stated as a value-level decision (`Action`).
  - Every method that runs a command on the live engine is proved to carry out that decision (`Performed`).

## Modelling choices

- **Nondeterminism.**
  - The clock and the uuid supply (`datetime.today()`, `uuid4()`) are oracle objects.
  - The console's `float()` is an oracle parameter, `floatOf`.
  - The file's content before start-up is a parameter.
- **Behaviour as written.** The model follows these behaviours of the code, which a reader might not expect:
  - A fresh instance reads the clock for `updated_at` *before* `created_at`, so `created_at` is the later reading.
  - `do_all` prints the whole list after every append, because the `print` is inside the loop.
  - `do_all` and `do_show` check `my_models`; `do_update` and `do_destroy` check `models`. `TablesAgree` shows that the two hold the same names.
  - `do_count` reads the first token inside its loop. On an empty line it raises only when something is registered.
  - A timestamp whose microseconds are zero is written by `isoformat` without a fraction. `strptime` with `%f` then refuses it: see `Timestamps.IsoWithoutFractionRefused`. The save/reload round trip is therefore proved for timestamps with a nonzero fraction (`Documents.Restorable`).
  - A keyword `self` clashes with the first parameter of `BaseModel.__init__`, so `Cls(**kw)` raises `TypeError` before any attribute is drawn. A stored record or an instance with a `self` entry therefore cannot be rebuilt (`Documents.RebuildSelf`, `Entities.SelfAttributeRefused`). `Documents.Restorable` excludes such instances from the round trip.
- **Deviation: `id` in keyword arguments.** A keyword `id` that is not text is rejected with `TypeError` when the object is rebuilt. Python accepts it and fails later, when the key is built.
- **Reload merges.** A reload overwrites the keys it reads. The keys it does not read stay in the registry as they were.

## Model

| member | source | states |
|---|---|---|
| Timestamps.StrpTime | models/base_model.py:31 | a parsed timestamp is a valid date and time, read from 16 to 26 characters; any other text raises `ValueError` |
| Timestamps.StrpTimeOneDigit | models/base_model.py:31 | one-digit month, day, hour, minute and second and a lower-case `t` are read, as the compiled pattern allows |
| Timestamps.StrpTimeBlankDay | models/base_model.py:31 | a day padded with a blank instead of a zero is read |
| Timestamps.StrpTimeBadMonth | models/base_model.py:31 | month 13 fails the pattern and raises `ValueError` |
| Timestamps.StrpTimeLeapSecond | models/base_model.py:31 | second 60 passes the pattern and is refused by `datetime` with `ValueError` |
| Timestamps.StrpTimeLongFraction | models/base_model.py:31 | a seventh fraction digit is left over and raises `ValueError` |
| Timestamps.StrpTimeNoFraction | models/base_model.py:31 | a timestamp without a fraction raises `ValueError` |
| Timestamps.StrpTimeCommonYear | models/base_model.py:31 | the 29th of February of a common year passes the pattern and is refused by `datetime` with `ValueError` |
| Timestamps.ReadFieldsBadDay | models/base_model.py:31 | any day past the length of its month, leap years counted, is refused with `ValueError` |
| Timestamps.IsoRoundTrip | models/base_model.py:53-54 | parsing the ISO text of a valid timestamp with a nonzero fraction gives back that timestamp |
| Timestamps.IsoWithoutFractionRefused | models/base_model.py:31 | the ISO text of a timestamp with zero microseconds is refused by the `%f` format with `ValueError` |
| Timestamps.BeforeOrder | models/base_model.py:25-26 | the order on timestamps is irreflexive, transitive and total |
| Numerals.ParseIntStr | console.py:179 | `int(str(n)) == n` for every integer |
| Numerals.PadRoundTrip | models/base_model.py:23 | a zero-padded numeral reads back as its value |
| Oracles.Clock.Today | models/base_model.py:25-26 | each call returns the next reading of the clock and advances it by one tick |
| Oracles.MonotoneOver | models/base_model.py:42 | a clock that never goes back between consecutive readings never goes back over any interval |
| Oracles.AdvancingOver | models/base_model.py:42 | a clock that moves forward at each reading is strictly later over any interval |
| Oracles.IdSupply.Uuid4 | models/base_model.py:23 | each call returns the identifier of the next draw and counts it |
| Oracles.UndashedId | models/base_model.py:23 | an identifier is at least 36 characters long, and its digits are the draw number in 32 hexadecimal digits |
| Oracles.IdsDistinct | models/base_model.py:23 | different draws give different identifiers |
| OrderedDicts.Dict.Put | models/engine/file_storage.py:36 | the value is set; an existing key keeps its place, a new key goes last; the keys stay distinct and match the map |
| OrderedDicts.Dict.Remove | console.py:204 | the key leaves both the map and the order; the other keys keep their relative order |
| OrderedDicts.PutIdempotent | models/engine/file_storage.py:32-36 | registering the same object twice is registering it once |
| OrderedDicts.RemovePutOther | console.py:204 | deleting one key commutes with inserting a different, new key |
| OrderedDicts.RemovePutSame | console.py:204 | deleting a key just inserted gives back the dictionary as it was, keys and order included |
| OrderedDicts.RemoveAbsent | console.py:204 | deleting a key the dictionary lacks changes nothing |
| OrderedDicts.PutAllEntries | models/engine/file_storage.py:41-45 | every entry built by the save loop comes from an object with that key; a later object with the same key wins |
| OrderedDicts.PutAllDistinct | models/engine/file_storage.py:41-45 | with distinct keys, the entries are the objects in order, each under its own key |
| OrderedDicts.MergeAllSucceeds | models/engine/file_storage.py:59-60 | the merge loop runs to the end exactly when every conversion succeeds |
| OrderedDicts.MergeAllKeeps | models/engine/file_storage.py:59-60 | keys absent from the source keep their values, and no key comes from anywhere else |
| OrderedDicts.MergeAllInserts | models/engine/file_storage.py:59-60 | after a merge without failure, each source key holds what the conversion made of its entry |
| OrderedDicts.MergeAllNext | models/engine/file_storage.py:60 | a successful conversion puts its result under the entry's key and the merge goes on |
| OrderedDicts.MergeAllFail | models/engine/file_storage.py:59-62 | a failing conversion stops the merge with its error and keeps the dictionary reached |
| OrderedDicts.MergeAllStops | models/engine/file_storage.py:59-62 | after the first failure, the merge changes nothing more |
| OrderedDicts.MergeAllFromEmpty | models/engine/file_storage.py:59-60 | merging into an empty dictionary without failure lists the source keys in order |
| Entities.ClassNamed | console.py:22-26 | a name maps to the class of that name, and no other name maps |
| Entities.ClassNamedName | console.py:22-26 | every class is found under its own name |
| Entities.RenderedValid | models/base_model.py:52-55 | `to_dict` is a well-formed dictionary: `__class__` is appended only when absent, and no key repeats |
| Entities.DescribeShows | models/base_model.py:66-67 | `str(obj)` opens with `[<Class>] (<id>) ` and shows every entry of `__dict__` as `'key': value` |
| Entities.ParseTime | models/base_model.py:31 | only text is parsed; anything else is a `TypeError`; a success is what `strptime` gives |
| Entities.Assign | models/base_model.py:30-33 | one keyword argument fails only with `TypeError` or `ValueError`, and never changes the class |
| Entities.Populated | models/base_model.py:29-33 | the keyword loop fails only with `TypeError` or `ValueError`, and keeps the class |
| Entities.AssignOther | models/base_model.py:33 | a keyword outside the three reserved ones is stored as given |
| Entities.AssignId | models/base_model.py:33 | a keyword `id` is accepted exactly when it is text, and then replaces the generated id |
| Entities.AssignUpdated | models/base_model.py:30-31 | a keyword `updated_at` is accepted exactly when it parses, and then replaces the generated reading |
| Entities.AssignCreated | models/base_model.py:30-31 | a keyword `created_at` is accepted exactly when it parses, and then replaces the generated reading |
| Entities.PopulatedMeaning | models/base_model.py:28-33 | the loop over the first `n` keywords succeeds exactly when they are acceptable, and then gives the expected instance |
| Entities.FromKwargsMeaning | models/base_model.py:11-33 | `Cls(**kw)` raises `TypeError` on a keyword `self`; otherwise it succeeds exactly when `kw` is acceptable, and then given fields win over generated ones and the rest is kept in order |
| Entities.NoKwargs | models/base_model.py:23-28 | with no keyword arguments the call succeeds, and the instance is exactly the one generated by lines 23-26 |
| Entities.GeneratedDict | models/base_model.py:23-26 | a generated instance's `__dict__` holds `id`, `updated_at` and `created_at`, in that order, with the drawn values, and nothing else |
| Entities.SelfAttributeRefused | models/base_model.py:11 | the `to_dict` of an instance holding an attribute `self` cannot be passed back to its class: `TypeError` |
| Entities.Strip | models/base_model.py:29-33 | the entries of a record other than `id`, `updated_at` and `created_at`, in order and with the same values |
| Entities.KwargsRoundTrip | models/base_model.py:52-56 | rebuilding from `to_dict` output gives back the instance, with `__class__` now recorded in it; rendering that gives the same dictionary |
| Entities.ToDictAcceptable | models/base_model.py:53-54 | `to_dict` output is acceptable keyword input, and both timestamps parse back to themselves |
| Entities.RetagSame | models/base_model.py:55 | recording `__class__` in `__dict__` does not change `to_dict` |
| Entities.ClassAttr | models/city.py:13-14 | class-level attributes are text or opaque objects; every text default outside the `__x__` names is empty text |
| Entities.ClassModule | models/base_model.py:8 | without an instance entry, `__module__` reads the module that defines the class |
| Entities.ClassDoc | models/state.py:11 | without an instance entry, `__doc__` reads the class docstring |
| Entities.ClassTable | models/state.py:12 | without an instance entry, `__tablename__` exists exactly for `User`, `State` and `Amenity`; a `State` reads `"states"` |
| Entities.GetAttrOrder | console.py:165-169 | an instance entry hides a class default; without one, the default is seen; the attribute is missing exactly when neither exists |
| Entities.FreshDefaults | models/city.py:13-14 | a fresh City, State or Amenity has no `name` entry of its own, yet reads `name` as `""`; a City also reads `state_id` as `""` |
| Documents.DocumentOf | models/engine/file_storage.py:41-45 | the document has an entry under the key of every object |
| Documents.DocumentEntries | models/engine/file_storage.py:43-44 | every entry of the document is the `to_dict` of an object with that key |
| Documents.SavedDocument | models/engine/file_storage.py:41-46 | saving a self-keyed registry writes exactly its keys, in the same order, each with the `to_dict` of its object |
| Documents.Rebuild | models/engine/file_storage.py:60 | a record without `__class__` is a `KeyError`; a rebuilt object has the class the record names |
| Documents.RebuildSelf | models/engine/file_storage.py:60 | a record of a known class with a `self` entry raises `TypeError` |
| Documents.RebuildRoundTrip | models/engine/file_storage.py:60 | rebuilding a saved record gives an object with the same `to_dict` |
| Documents.ReloadSucceeds | models/engine/file_storage.py:59-60 | a reload fails exactly when some record of the file cannot be rebuilt |
| Documents.ReloadKeeps | models/engine/file_storage.py:59-60 | objects under keys the file lacks stay, and no key comes from anywhere but the registry and the file |
| Documents.ReloadInserts | models/engine/file_storage.py:59-60 | after a reload without failure, every record of the file is registered, rebuilt, under its key |
| Documents.ReloadNext | models/engine/file_storage.py:59-60 | a record that rebuilds joins the registry under its file key and the merge goes on |
| Documents.ReloadFails | models/engine/file_storage.py:59-62 | the first record that fails ends the reload with its error and with the records before it merged |
| Documents.SaveReloadSucceeds | models/engine/file_storage.py:38-62 | saving a self-keyed registry of restorable objects and reloading the file never fails |
| Documents.SaveReloadKeys | models/engine/file_storage.py:38-62 | reloading that file into an empty registry gives back the same keys in the same order |
| Documents.SavedRecordRebuilds | models/engine/file_storage.py:60 | every record of a saved file can be rebuilt, whatever is drawn |
| Documents.SaveReloadObjects | models/engine/file_storage.py:38-62 | after the round trip, each object comes back with its attributes (and `__class__` recorded), and with the same `to_dict` |
| Models.BaseModel.Generate | models/base_model.py:23-26 | one identifier and two clock readings are drawn: `updated_at` first, then `created_at` |
| Models.BaseModel.Store | models/base_model.py:30-33 | one pass of the keyword loop on the live instance does what `Assign` decides, error included |
| Models.BaseModel.Populate | models/base_model.py:28-33 | the keyword loop on the live instance ends in the state `Populated` gives, or with its error |
| Models.BaseModel.Save | models/base_model.py:37-43 | `updated_at` becomes the next reading, nothing else in the instance changes, and the file becomes the document of the registry |
| Models.BaseModel.Touch | models/base_model.py:42 | on any clock, `updated_at` becomes the next reading; on a clock that never goes back it is not before the old reading, and on an advancing clock it is strictly later |
| Models.PopulatedStops | models/base_model.py:29-33 | once a keyword fails, the later keywords change nothing |
| Models.FileStorage.constructor | models/engine/file_storage.py:20-25 | a new engine has an empty registry, and the file as it is |
| Models.FileStorage.New | models/engine/file_storage.py:32-36 | the object is registered under `"<Class>.<id>"`, replacing whatever was there |
| Models.FileStorage.Delete | console.py:203 | `del storage.all()[key]`: the key leaves the live dictionary and the registry, the other keys keep their objects and order, and nothing else in the engine changes |
| Models.FileStorage.Save | models/engine/file_storage.py:38-46 | the file becomes the document of the registry, in registry order |
| Models.FileStorage.Reload | models/engine/file_storage.py:48-62 | without a file nothing changes; otherwise the registry becomes the merge `Reloaded` states, and the error it raises is that merge's |
| Models.FileStorage.Merge | models/engine/file_storage.py:58-60 | the loop over the file's records leaves the registry and the error that `Reloaded` gives |
| Models.FileStorage.Place | models/engine/file_storage.py:60 | the object goes in under the file's key, whatever its own key is |
| Models.FileStorage.Absorb | models/engine/file_storage.py:60 | one record: success leaves the registry as the records so far merged, with one identifier and two clock readings more drawn; failure makes the registry and the error exactly those the whole reload ends with |
| Models.FileStorage.RestoreAt | models/engine/file_storage.py:60 | rebuilding a record gives what `Rebuild` gives, or its error, and leaves the registry as it was |
| Models.RegistryOfPut | models/engine/file_storage.py:36 | registering an object puts its state under that key |
| Models.RegistryOfRemove | console.py:204 | deleting from the live dictionary deletes that key from the registry |
| Models.Construct | models/base_model.py:11-35 | the new object is what `FromKwargs` gives, or fails with its error; it registers itself exactly when there are no keywords |
| Models.Restore | models/engine/file_storage.py:60 | a record is rebuilt as `Rebuild` gives, or fails with its error; the registry is not touched |
| Models.Startup | models/__init__.py:7-8 | the single engine starts empty and is then reloaded: empty without a file, otherwise the merge of the file into the empty registry |
| States.FirstWord | models/state.py:23-24 | reading the key with dots as blanks fails only with `ValueError` or `IndexError` |
| States.CitiesAsFilter | models/state.py:17-30 | `cities` raises exactly when a key has no first word or a `City` entry has no `state_id`; otherwise it is a one-pass filter over the registry |
| States.CitiesSound | models/state.py:17-30 | every returned object is a registered city of this state |
| States.CitiesComplete | models/state.py:17-30 | every registered city of this state is returned |
| States.CitiesEmpty | models/state.py:17-30 | with no city of this state registered, the result is empty |
| States.CitiesInOrder | models/state.py:17-30 | the result keeps registry order |
| States.KeyFirstWord | models/state.py:23-25 | a key built by `new`, with an id free of dots and quotes, reads as its class name first |
| States.CitiesOfKeyed | models/state.py:17-30 | in a registry filled by `new`, `cities` never raises, and returns exactly the City objects whose `state_id` is this state's id |
| States.CityHasStateId | models/city.py:13 | every City has a `state_id`: its own entry, or the class default |
| States.KeyStep | models/state.py:22-26 | one pass of the first loop fails on a key with no first word, or else keeps the object when the key reads `City` |
| States.StateStep | models/state.py:27-29 | one pass of the second loop fails on an object with no `state_id`, or else keeps the object when it matches |
| States.CityObjects | models/state.py:19-26 | the first loop over the live registry returns registered objects, which are what the filter gives, or fails with its error |
| States.OfState | models/state.py:27-29 | the second loop returns objects from its input, which are what the filter gives, or fails with its error |
| States.Cities | models/state.py:17-30 | the property returns registered objects that are `CitiesOf` the registry, or fails with its error |
| Shlex.Finish | console.py:107 | the end of the line raises `ValueError` exactly inside quotes or after a trailing backslash; otherwise it closes the open word |
| Shlex.SplitJoined | console.py:107 | bare words joined by spaces split back into the same words |
| Shlex.SplitBlank | console.py:107 | blank text has no words |
| Shlex.UnclosedQuote | console.py:107 | a quote that is never closed raises `ValueError` |
| Shlex.QuotedWord | console.py:140 | a single-quoted text is one word, blanks included |
| Texts.SplitOn | console.py:94 | at least one part; a text without the separator is its own one part |
| Texts.SplitTwo | console.py:94 | two parts free of the separator, joined by it, split back into those two |
| Values.DictReprShowsEntry | models/base_model.py:67 | the text of a dictionary shows every one of its entries |
| Values.EscapePrintable | models/base_model.py:67 | escaping leaves no unprintable character, newlines included |
| Values.StrReprPrintable | models/base_model.py:67 | `repr` of any text is printable, so a printed object stays on one line |
| Console.TablesAgree | console.py:22-37 | `my_models` and `models` accept exactly the same names, which are exactly the class names |
| Console.ShowRegistered | console.py:100-120 | `show <Class> <id>` prints the `__str__` of the object under that key, or that there is none |
| Console.ShowClassFirst | console.py:103-113 | an unknown class is reported before a missing id; a known class without an id is reported as missing its id |
| Console.CreateNamed | console.py:125-133 | `create` builds exactly the known classes, refuses any other word, and reports an empty line as missing its class |
| Console.DestroyRegistered | console.py:194-209 | `destroy <Class> <id>` deletes exactly the key `<Class>.<id>` when it is registered, and otherwise reports there is none |
| Console.DestroyClassFirst | console.py:194-211 | an unknown class is reported before a missing id |
| Console.DropKeepsKeyed | console.py:204 | a deletion keeps every other object registered under its own key, with its state |
| Console.WrittenChangesOne | console.py:177-179 | setting one attribute changes what it reads as, and nothing else: no other attribute, and not the key or either timestamp |
| Console.Coerce | console.py:179 | `type(current)(text)` keeps the type; text and bool attributes always convert; a non-simple attribute never does |
| Console.CoerceIntText | console.py:179 | the text of an integer converts to that integer |
| Console.UpdatePlan | console.py:148-185 | a write happens only with four tokens, a listed class, a registered key, an unreserved name, an existing attribute and a value of its type; `update` never deletes |
| Console.UpdateSimple | console.py:148-182 | on a registered instance, a text attribute takes the text as given and an integer attribute takes the integer it spells |
| Console.UpdateMissing | console.py:165-167 | an attribute that neither the instance nor its class has is reported missing |
| Console.WriteKeepsKeyed | console.py:177-180 | writing an attribute keeps every object registered under its own key |
| Console.CountAsFilter | console.py:216-221 | the count is the number of objects of the class, and at most the number of objects |
| Console.CountExtremes | console.py:216-221 | an unknown name counts zero; when every object has the class, all are counted |
| Console.Listing | console.py:94-97 | building one line of the list can fail only with `IndexError` |
| Console.GatherAsFilter | console.py:92-98 | `all` raises `IndexError` exactly when a key that mentions the class has no dot; otherwise it lists, in registry order, the lines of exactly the matching keys |
| Console.ListingKeyed | console.py:94-97 | an object under its own key, with no dot in its id, is listed as `[<Class>] (<id>) ` followed by its `__str__` |
| Console.AllOfKeyed | console.py:82-98 | in a self-keyed registry with dot-free ids, `all` never raises, and lists exactly the objects whose key mentions the class |
| Console.KeyMentionsClass | console.py:93 | an object's key contains its class name |
| Console.AllListsClass | console.py:91-98 | every object of the class is listed by `all <Class>` |
| Console.ListStep | console.py:93-97 | one pass of the loop skips a key that does not match, raises on a matching key without a dot, and otherwise appends the line |
| Console.GatherStops | console.py:92-98 | once a pass raises, the rest of the loop changes nothing |
| Console.PrintsLast | console.py:98 | one list is printed per append, and the last one printed is the whole list |
| Console.RunEnd | console.py:49 | `(\w+)` matched from a position: the longest run of word characters there |
| Console.CloseFrom | console.py:50 | `.*?\)` matched from a position: the first `)`, with no newline before it; no match exactly when every `)` has a newline before it |
| Console.CommandNamed | console.py:41-47 | exactly `all`, `show`, `destroy`, `count` and `update` are commands of the table |
| Console.RewriteCall | console.py:49-61 | `<Class>.<cmd>(<args>)` goes to the command with `"<Class> <args>"`, or with `"<Class>"` when there are no arguments; a name outside the table is not routed |
| Console.CallMatches | console.py:50 | the search stops at the first word run followed by `(` and later a `)` |
| Console.RoutedCall | console.py:39-65 | a call line runs its command on the rewritten line, or prints `*** Unknown syntax: ` and the line |
| Console.RoutedCreate | console.py:41-47 | `<Class>.create(...)` is unknown syntax and creates nothing |
| Console.RoutedDestroy | console.py:39-62 | `<Class>.destroy(<id>)` deletes exactly `<Class>.<id>` when it is registered |
| Console.RoutedCount | console.py:39-62 | `<Class>.count()` prints the number of registered objects of that class |
| Console.DoShow | console.py:100-120 | on the live engine, the output is `ShowReply` of the registry, and nothing changes |
| Console.DoCount | console.py:213-221 | on the live engine, the output is `CountReply` of the registry, and nothing changes |
| Console.DoAll | console.py:82-98 | on the live engine, the output is `AllReply` of the registry, and nothing changes |
| Console.DoDestroy | console.py:187-211 | the engine carries out `DestroyAction`: it prints a reply and changes nothing, or it deletes the key, saves and prints the key |
| Console.DropKey | console.py:203-207 | the key leaves the live dictionary and the registry, the file becomes the new registry, and the key is printed |
| Console.DoUpdate | console.py:137-185 | the engine carries out `UpdateAction`: it replies and changes nothing, or it writes the attribute on the live instance, saves and prints success |
| Console.WriteAttr | console.py:177-182 | every key holding the instance reads the new attribute, nothing else changes, the file is saved, and success is printed |
| Console.SetOnEngine | console.py:177-179 | `setattr` changes the keys holding that instance and no other |
| Console.DoCreate | console.py:122-135 | a refusal changes nothing; otherwise a fresh instance, registered under its own key and saved, is what `Made` gives, and its id is printed |
| Console.CreateAndSave | console.py:133-134 | the new instance is registered, moved on by `save`, written to the file, and is what `Made` gives |
| Console.Made | console.py:133-134 | the created instance has the next identifier, `created_at` the second reading, `updated_at` the third, and no other entry |
| Console.NewInstance | console.py:133 | the class called with no arguments registers a fresh generated instance under its own key |
| Console.SaveNew | console.py:134 | saving the new instance moves only its `updated_at` on, keeps every other object, and writes the file |
| Console.Default | console.py:39-65 | on the live engine, a line is carried out as `Routed` decides: run by its command, or answered as unknown syntax |

## Left out

- `cmd.Cmd` itself is not modelled: the prompt, the read loop, `quit`, `EOF`, `emptyline` and the help texts. They are I/O.
- Standard output is modelled as the list of lines a command prints (`Outcome.out`). Interleaving with other output is not modelled.
- The JSON text of `file.json`, the file system and `open` are not modelled. The file is a document value, `FileStorage.disk`.
- `FileNotFoundError` is modelled as the absent document.
- `Documents.DocumentOf`: a `datetime` held in an attribute other than `created_at` and `updated_at` makes `json.dump` raise `TypeError` in Python. The document keeps it as a value instead. The console commands never store one.
- A crash partway through writing the file is not modelled. In the source it leaves a truncated file.
- JSON values other than text, integers, floats, booleans and opaque compound values are not modelled. Compound values are known only by their repr.
- The file is modelled as an object of objects (`Documents.Document`). A file whose top level is not a JSON object, which raises `AttributeError` at `.items()`, or whose record is not an object, which raises `TypeError` at `value['__class__']`, is not modelled. Nor is text that is not JSON at all, which raises `json.JSONDecodeError`.
- `uuid4()` randomness is not modelled. Identifiers are distinct by construction (`Oracles.IdsDistinct`), where the real ones are only distinct with high probability.
- `datetime.today()` is not modelled. It is a reading function fixed in advance, which may go back (local time at a daylight-saving change or a clock reset). Only `Models.BaseModel.Touch` states what a monotone or advancing clock adds, as conditional clauses.
- `float()` and the repr of floats are not modelled. Floating-point parsing is the `floatOf` parameter of `DoUpdate` and `Default`.
- The SQLAlchemy declarations are not modelled: `Base`, which `models/base_model.py` does not define, `Column` and `relationship`. Class attributes declared with `Column` read as empty text (`Entities.ClassAttr`), like the plain defaults of `models/city.py`. Those declared with `relationship` read as an opaque object.
- The classes in `models/place.py` and `models/review.py` are not part of this model. Only their names enter the class tables. They declare no defaults here, and their `__doc__` and `__tablename__` read as missing.
- `Entities.GetAttr`: only data attributes, `__class__`, `__dict__`, `__module__`, `__doc__`, `__tablename__`, the relationships, `cities` and the four methods of `BaseModel` are visible to `hasattr`. Other attributes every Python object inherits (`__repr__`, `__eq__`, `__weakref__` and the like) read as missing.
- `Entities.GetAttr`: `State.cities` is treated as present without running the property. In Python, `hasattr` runs it. A `ValueError` from its `shlex.split` of a stored key, or an `IndexError` from a key with no first word, would propagate. An `AttributeError` inside it, from an object without `state_id` under a `City.` key, would make `hasattr` false, and `update` would print `** attribute name missing **`.
- `Console.IsWordChar`: `\w` is taken as ASCII letters, digits and the underscore. Python's Unicode word characters are not modelled.
- `Numerals.ParseInt`: `int()` on text is modelled with an optional sign and surrounding whitespace below U+00FF. Underscores between digits, non-ASCII digits and whitespace above U+00FF are not modelled.
- `Numerals.ParseIntStr` holds for integers of any length. From Python 3.11, `int()` and `str()` raise `ValueError` beyond 4300 decimal digits by default; that limit is not modelled.
- `Values.StrRepr`: characters above U+00FF that Python deems unprintable are shown as they are. Python writes them as `\uNNNN` or `\UNNNNNNNN` escapes.
- `Timestamps.StrpTime`: `\d` in the compiled pattern also matches non-ASCII decimal digits in Python. Only ASCII digits are modelled.
- `Entities.FromKwargs` rejects a non-text `id` with `TypeError` at once. In Python, the bad `id` surfaces later, where the key is built.
- `Entities.AssignId` accepts an `id` exactly when it is text, for the same reason. Python's line 33 stores any value.
- `Entities.PopulatedMeaning` counts a non-text `id` as unacceptable, for the same reason.
- The partly built object that a failing keyword argument leaves behind is not modelled. The caller never sees it, since the exception propagates.
- `FileStorage.all` is modelled as direct access to the `objects` field, which callers read and delete from. It has no contract of its own.
