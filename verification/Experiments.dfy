/**
  Experiments read from a JSON file and checked against the loaded models, and the
  versions they route callers to.
 */
module Experiments {
  import opened Common
  import opened JsonValues
  import opened AbTesting
  import opened ModelRegistry

  type Available = map<string, set<string>>

  /** What the versions of the loaded models are, name by name. */
  ghost predicate Describes(available: Available, models: seq<LoadedModel>) {
    && (forall m | m in models :: m.name in available && m.version in available[m.name])
    && (forall name, version | name in available && version in available[name] ::
          exists m :: m in models && m.name == name && m.version == version)
  }

  /** The loop at start-up over list_models. */
  method AvailableVersions(models: seq<LoadedModel>) returns (available: Available)
    ensures Describes(available, models)
  {
    available := map[];
    for i := 0 to |models|
      invariant Describes(available, models[..i])
    {
      var m := models[i];
      ghost var before := available;
      available := available[m.name := (if m.name in available then available[m.name] else {}) + {m.version}];
      assert models[..i + 1] == models[..i] + [m];
      forall name, version | name in available && version in available[name]
        ensures exists k :: k in models[..i + 1] && k.name == name && k.version == version
      {
        if name == m.name && version == m.version {
          assert m in models[..i + 1];
        } else {
          assert name in before && version in before[name];
          var k :| k in models[..i] && k.name == name && k.version == version;
          assert k in models[..i + 1];
        }
      }
    }
    assert models[..|models|] == models;
  }

  // ------------------------------------------------------------ reading an entry

  /** How reading an entry stops: by an exception that the loader catches, or by OverflowError. */
  datatype Stopped = Caught | Overflow

  /** float(text); None also stands for the infinities and NaN, which no weight may be. */
  type ParseFloat = string -> Option<real>

  /** float(j) */
  function ToFloat(parse: ParseFloat, j: Json): Result<real, Stopped> {
    if TooLarge(j) then Err(Overflow)
    else match j
      case Number(value) => Ok(value)
      case Text(text) => (match parse(text) case Some(value) => Ok(value) case None => Err(Caught))
      case _ => Err(Caught)
  }

  /** One element of an entry's variants, up to and including Variant.__post_init__. */
  function ReadVariant(parse: ParseFloat, v: Json): Result<Variant, Stopped> {
    if !v.Object? then Err(Caught)
    else
      var name, version := Lookup(v.fields, "name"), Lookup(v.fields, "model_version");
      var weight := Lookup(v.fields, "weight");
      if name.None? || version.None? || weight.None? then Err(Caught)
      else match ToFloat(parse, weight.value)
        case Err(e) => Err(e)
        case Ok(w) => if 0.0 <= w <= 1.0 then Ok(Variant(name.value, version.value, w)) else Err(Caught)
  }

  /** The variants in order; the first that cannot be read ends the reading. */
  function ReadVariants(parse: ParseFloat, vs: seq<Json>): Result<seq<Variant>, Stopped> {
    if vs == [] then Ok([])
    else match ReadVariants(parse, Front(vs))
      case Err(e) => Err(e)
      case Ok(front) =>
        match ReadVariant(parse, Last(vs))
        case Err(e) => Err(e)
        case Ok(v) => Ok(front + [v])
  }

  /** The model an entry is for and its experiment: the body of the loader's try. */
  function Read(parse: ParseFloat, entry: Json): Result<(Json, Experiment), Stopped> {
    if !entry.Object? then Err(Caught)
    else
      var model, name := Lookup(entry.fields, "model_name"), Lookup(entry.fields, "name");
      var variants, enabled := Lookup(entry.fields, "variants"), Lookup(entry.fields, "enabled");
      if model.None? || name.None? || variants.None? || Items(variants.value).None? then Err(Caught)
      else match ReadVariants(parse, Items(variants.value).value)
        case Err(e) => Err(e)
        case Ok(vs) =>
          var made := Make(name.value, vs, enabled.None? || Truthy(enabled.value));
          if made.Ok? then Ok((model.value, made.value)) else Err(Caught)
  }

  /** Testing the entry's model name and versions against dictionaries and sets raises. */
  predicate Unhashable(model: Json, e: Experiment) {
    !Hashable(model) || exists k :: 0 <= k < |e.variants| && !Hashable(e.variants[k].modelVersion)
  }

  /** Every version is the text of a loaded one of the model. */
  predicate Servable(model: Json, e: Experiment, available: Available) {
    var loaded := if model.Text? && model.text in available then available[model.text] else {};
    forall k | 0 <= k < |e.variants| :: e.variants[k].modelVersion.Text? && e.variants[k].modelVersion.text in loaded
  }

  predicate Usable(parse: ParseFloat, entry: Json, available: Available) {
    Read(parse, entry).Ok? && Servable(Read(parse, entry).value.0, Read(parse, entry).value.1, available)
  }

  /** The last usable entry for a model. */
  function LastUsable(parse: ParseFloat, entries: seq<Json>, available: Available, name: string): Option<Experiment> {
    if entries == [] then None
    else if Usable(parse, Last(entries), available) && Read(parse, Last(entries)).value.0 == Text(name)
    then Some(Read(parse, Last(entries)).value.1)
    else LastUsable(parse, Front(entries), available, name)
  }

  // ------------------------------------------------ what an entry says, field by field

  /** The field is there with this value. */
  predicate Field(entry: Json, key: string, value: Json) {
    entry.Object? && Lookup(entry.fields, key) == Some(value)
  }

  /** The field is absent, or none of null, zero (false is zero), and the empty text, list and object. */
  ghost predicate Enables(entry: Json)
    requires entry.Object?
  {
    forall value | Lookup(entry.fields, "enabled") == Some(value) ::
      && value != Null && value != Number(0.0) && value != Text("") && value != List([]) && value != Object([])
  }

  /** The weight's number, or the number its text stands for. */
  predicate Weighs(parse: ParseFloat, weight: Json, w: real) {
    (weight == Number(w) && !TooLarge(weight)) || (weight.Text? && parse(weight.text) == Some(w))
  }

  /** An element of an entry's variants, and the variant that it becomes. */
  predicate VariantSays(parse: ParseFloat, v: Json, variant: Variant) {
    && Field(v, "name", variant.name) && Field(v, "model_version", variant.modelVersion)
    && Lookup(v.fields, "weight").Some? && Weighs(parse, Lookup(v.fields, "weight").value, variant.weight)
    && 0.0 <= variant.weight <= 1.0
  }

  /** An entry, and the model and experiment that it becomes. */
  ghost predicate EntrySays(parse: ParseFloat, entry: Json, model: Json, e: Experiment) {
    && Field(entry, "model_name", model) && Field(entry, "name", e.name)
    && (e.enabled <==> Enables(entry))
    && Lookup(entry.fields, "variants").Some?
    && var variants := Lookup(entry.fields, "variants").value;
       && variants.List? && |variants.items| == |e.variants|
       && forall k | 0 <= k < |e.variants| :: VariantSays(parse, variants.items[k], e.variants[k])
  }

  lemma VariantReads(parse: ParseFloat, v: Json, variant: Variant)
    ensures ReadVariant(parse, v) == Ok(variant) <==> VariantSays(parse, v, variant)
  {
  }

  lemma {:induction false} VariantsRead(parse: ParseFloat, items: seq<Json>, variants: seq<Variant>)
    ensures ReadVariants(parse, items) == Ok(variants) <==>
      |items| == |variants| && forall k | 0 <= k < |items| :: VariantSays(parse, items[k], variants[k])
  {
    hide ReadVariant, VariantSays;
    if items != [] && variants != [] {
      var n := |items| - 1;
      VariantsRead(parse, Front(items), Front(variants));
      VariantReads(parse, items[n], Last(variants));
      assert variants == Front(variants) + [Last(variants)];
      ReadVariantsSplit(parse, items, variants);
      if |items| == |variants| {
        assert forall k | 0 <= k < n :: Front(items)[k] == items[k] && Front(variants)[k] == variants[k];
      }
    }
  }

  lemma ReadVariantsSplit(parse: ParseFloat, items: seq<Json>, variants: seq<Variant>)
    requires items != [] && variants != []
    ensures ReadVariants(parse, items) == Ok(variants) <==>
      ReadVariants(parse, Front(items)) == Ok(Front(variants)) && ReadVariant(parse, Last(items)) == Ok(Last(variants))
  {
    hide ReadVariant;
    assert variants == Front(variants) + [Last(variants)];
    if ReadVariants(parse, items) == Ok(variants) {
      var front := ReadVariants(parse, Front(items)).value;
      var last := ReadVariant(parse, Last(items)).value;
      assert variants == front + [last];
      assert Front(front + [last]) == front;
    }
  }

  /** The characters of a text and the keys of an object are no variants. */
  lemma OnlyListsHaveVariants(parse: ParseFloat, variants: Json)
    requires Items(variants).Some? && Items(variants).value != [] && !variants.List?
    ensures ReadVariants(parse, Items(variants).value).Err?
  {
    ReadableVariants(parse, Items(variants).value);
    assert !Items(variants).value[0].Object?;
  }

  lemma EnabledReads(entry: Json)
    requires entry.Object?
    ensures var enabled := Lookup(entry.fields, "enabled");
      (enabled.None? || Truthy(enabled.value)) <==> Enables(entry)
  {
  }

  /** An entry becomes exactly the experiment that its fields say, if that is a valid one. */
  lemma ReadExactly(parse: ParseFloat, entry: Json, model: Json, e: Experiment)
    ensures Read(parse, entry) == Ok((model, e)) <==> EntrySays(parse, entry, model, e) && Accepted(e.variants)
  {
    hide Enables, Truthy, ReadVariants, VariantSays, Accepted;
    if entry.Object? && Lookup(entry.fields, "variants").Some? {
      EnabledReads(entry);
      var variants := Lookup(entry.fields, "variants").value;
      AcceptedSome(e.variants);
      if variants.List? {
        VariantsRead(parse, variants.items, e.variants);
        if ReadVariants(parse, variants.items).Ok? {
          AcceptedSome(ReadVariants(parse, variants.items).value);
        }
      } else if Items(variants).Some? {
        if Items(variants).value == [] {
          NoneRead(parse);
        } else {
          OnlyListsHaveVariants(parse, variants);
        }
      }
    }
  }

  lemma NoneRead(parse: ParseFloat)
    ensures ReadVariants(parse, []) == Ok([]) && !Accepted([])
  {
  }

  lemma AcceptedSome(vs: seq<Variant>)
    ensures Accepted(vs) ==> |vs| > 0 && WeightsInRange(vs)
  {
  }

  // ------------------------------------------------------------- loading the file

  /** Unreadable is an OSError or ValueError; TooDeep the RecursionError of the parser. */
  datatype ConfigFile = Missing | Unreadable | TooDeep | Parsed(json: Json)

  datatype LoadError = AttributeError | TypeError | OverflowError | RecursionError

  /** What an entry makes the loader raise, if anything. */
  function EntryRaises(parse: ParseFloat, entry: Json): Option<LoadError> {
    if !entry.Object? then Some(AttributeError)
    else match Read(parse, entry)
      case Err(Overflow) => Some(OverflowError)
      case Err(Caught) => None
      case Ok((model, e)) => if Unhashable(model, e) then Some(TypeError) else None
  }

  function FirstRaised(parse: ParseFloat, entries: seq<Json>): Option<LoadError> {
    if entries == [] then None
    else if FirstRaised(parse, Front(entries)).Some? then FirstRaised(parse, Front(entries))
    else EntryRaises(parse, Last(entries))
  }

  /** raw.get("experiments", []) */
  function Listed(json: Json): Json
    requires json.Object?
  {
    var listed := Lookup(json.fields, "experiments");
    if listed.Some? then listed.value else List([])
  }

  /** The loop over the entries. */
  method LoadEntries(parse: ParseFloat, entries: seq<Json>, available: Available)
    returns (r: Result<map<string, Experiment>, LoadError>)
    ensures r.Err? ==> FirstRaised(parse, entries) == Some(r.error)
    ensures r.Ok? ==> FirstRaised(parse, entries) == None
    ensures r.Ok? ==> forall name :: Found(r.value, name) == LastUsable(parse, entries, available, name)
  {
    hide Read;
    var experiments: map<string, Experiment> := map[];
    for i := 0 to |entries|
      invariant FirstRaised(parse, entries[..i]) == None
      invariant forall name :: Found(experiments, name) == LastUsable(parse, entries[..i], available, name)
    {
      var entry := entries[i];
      assert Front(entries[..i + 1]) == entries[..i] && Last(entries[..i + 1]) == entry;
      if !entry.Object? {
        RaisedEarly(parse, entries, i + 1);
        return Err(AttributeError);
      }
      var read := Read(parse, entry);
      if read == Err(Overflow) {
        RaisedEarly(parse, entries, i + 1);
        return Err(OverflowError);
      }
      if read.Err? {
        continue;
      }
      var (model, experiment) := read.value;
      if Unhashable(model, experiment) {
        RaisedEarly(parse, entries, i + 1);
        return Err(TypeError);
      }
      if !Servable(model, experiment, available) {
        continue;
      }
      ReadHasVariants(parse, entry);
      experiments := experiments[model.text := experiment];
    }
    assert entries[..|entries|] == entries;
    return Ok(experiments);
  }

  function Found(experiments: map<string, Experiment>, name: string): Option<Experiment> {
    if name in experiments then Some(experiments[name]) else None
  }

  lemma {:induction false} RaisedEarly(parse: ParseFloat, entries: seq<Json>, i: nat)
    requires i <= |entries| && FirstRaised(parse, entries[..i]).Some?
    ensures FirstRaised(parse, entries) == FirstRaised(parse, entries[..i])
  {
    if i == |entries| {
      assert entries[..i] == entries;
    } else {
      assert Front(entries)[..i] == entries[..i];
      RaisedEarly(parse, Front(entries), i);
    }
  }

  lemma ReadHasVariants(parse: ParseFloat, entry: Json)
    requires Read(parse, entry).Ok?
    ensures entry.Object? && Accepted(Read(parse, entry).value.1.variants)
  {
  }

  function FileRaises(parse: ParseFloat, file: ConfigFile): Option<LoadError> {
    match file
    case Missing => None
    case Unreadable => None
    case TooDeep => Some(RecursionError)
    case Parsed(json) =>
      if !json.Object? then Some(AttributeError)
      else if Items(Listed(json)).None? then Some(TypeError)
      else FirstRaised(parse, Items(Listed(json)).value)
  }

  /** The entries of a file whose "experiments" is a list. */
  function Entries(file: ConfigFile): seq<Json> {
    if file.Parsed? && file.json.Object? && Lookup(file.json.fields, "experiments").Some?
       && Lookup(file.json.fields, "experiments").value.List?
    then Lookup(file.json.fields, "experiments").value.items
    else []
  }

  /** What a for loop takes from a text or an object is no object. */
  lemma {:induction false} TextsAreNoEntries(parse: ParseFloat, items: seq<Json>)
    requires items != [] && forall i | 0 <= i < |items| :: !items[i].Object?
    ensures FirstRaised(parse, items) == Some(AttributeError)
  {
    if |items| > 1 {
      TextsAreNoEntries(parse, Front(items));
    } else {
      assert FirstRaised(parse, Front(items)) == None;
    }
  }

  lemma ListedElsewise(parse: ParseFloat, listed: Json)
    requires !listed.List?
    ensures var items := Items(listed);
      items.Some? && items.value != [] ==> FirstRaised(parse, items.value) == Some(AttributeError)
  {
    if Items(listed).Some? && Items(listed).value != [] {
      TextsAreNoEntries(parse, Items(listed).value);
    }
  }

  /** What `load` promises of its result. */
  ghost predicate Loads(parse: ParseFloat, file: ConfigFile, available: Available,
                        r: Result<map<string, Experiment>, LoadError>) {
    && (r.Err? ==> FileRaises(parse, file) == Some(r.error))
    && (r.Ok? ==> FileRaises(parse, file) == None)
    && (r.Ok? ==> forall name :: Found(r.value, name) == LastUsable(parse, Entries(file), available, name))
  }

  /**
    ExperimentRegistry.load: unusable entries are dropped, and a later usable entry for
    the same model replaces an earlier one.
   */
  method Load(parse: ParseFloat, file: ConfigFile, available: Available)
    returns (r: Result<map<string, Experiment>, LoadError>)
    ensures Loads(parse, file, available, r)
  {
    if file.Missing? || file.Unreadable? {
      return Ok(map[]);
    }
    if file.TooDeep? {
      return Err(RecursionError);
    }
    if !file.json.Object? {
      return Err(AttributeError);
    }
    var entries := Items(Listed(file.json));
    if entries.None? {
      return Err(TypeError);
    }
    if !Listed(file.json).List? {
      ListedElsewise(parse, Listed(file.json));
    }
    r := LoadEntries(parse, entries.value, available);
  }

  // ----------------------------------------------------- when loading itself fails

  /** The k-th variant has all its fields and an integer weight that no float can hold. */
  predicate HugeWeight(v: Json) {
    && v.Object? && Lookup(v.fields, "name").Some? && Lookup(v.fields, "model_version").Some?
    && Lookup(v.fields, "weight").Some? && TooLarge(Lookup(v.fields, "weight").value)
  }

  /** The first variant that cannot be read has such a weight. */
  ghost predicate HugeFirst(parse: ParseFloat, vs: seq<Json>) {
    exists k :: HugeAt(parse, vs, k)
  }

  predicate HugeAt(parse: ParseFloat, vs: seq<Json>, k: int) {
    0 <= k < |vs| && HugeWeight(vs[k]) && forall j | 0 <= j < k :: ReadVariant(parse, vs[j]).Ok?
  }

  lemma {:induction false} ReadableVariants(parse: ParseFloat, vs: seq<Json>)
    ensures ReadVariants(parse, vs).Ok? <==> forall j | 0 <= j < |vs| :: ReadVariant(parse, vs[j]).Ok?
  {
    hide ReadVariant;
    if vs != [] {
      ReadableVariants(parse, Front(vs));
    }
  }

  lemma {:induction false} OverflowExactly(parse: ParseFloat, vs: seq<Json>)
    ensures ReadVariants(parse, vs) == Err(Overflow) <==> HugeFirst(parse, vs)
  {
    hide HugeWeight, ReadVariant;
    if vs != [] {
      OverflowExactly(parse, Front(vs));
      ReadableVariants(parse, Front(vs));
      HugeVariant(parse, Last(vs));
      if HugeFirst(parse, Front(vs)) {
        var k :| HugeAt(parse, Front(vs), k);
        assert HugeAt(parse, vs, k);
      }
      if HugeFirst(parse, vs) {
        var k :| HugeAt(parse, vs, k);
        if k < |vs| - 1 {
          assert HugeAt(parse, Front(vs), k);
        }
      }
      if ReadVariants(parse, vs) == Err(Overflow) && !HugeFirst(parse, Front(vs)) {
        assert HugeAt(parse, vs, |vs| - 1);
      }
    }
  }

  lemma HugeVariant(parse: ParseFloat, v: Json)
    ensures ReadVariant(parse, v) == Err(Overflow) <==> HugeWeight(v)
  {
  }

  /** An entry that the loader does not survive, and what it raises. */
  ghost predicate Offends(parse: ParseFloat, entry: Json, error: LoadError) {
    match error
    case AttributeError => !entry.Object?
    case OverflowError =>
      && entry.Object? && Lookup(entry.fields, "model_name").Some? && Lookup(entry.fields, "name").Some?
      && Lookup(entry.fields, "variants").Some? && Lookup(entry.fields, "variants").value.List?
      && HugeFirst(parse, Lookup(entry.fields, "variants").value.items)
    case TypeError =>
      exists model, e :: EntrySays(parse, entry, model, e) && Accepted(e.variants) && Unhashable(model, e)
    case RecursionError => false
  }

  lemma TextsAreNotHuge(parse: ParseFloat, variants: Json)
    requires Items(variants).Some? && !variants.List?
    ensures ReadVariants(parse, Items(variants).value) != Err(Overflow)
  {
    OverflowExactly(parse, Items(variants).value);
  }

  lemma EntryOverflows(parse: ParseFloat, entry: Json)
    ensures Read(parse, entry) == Err(Overflow) <==> Offends(parse, entry, OverflowError)
  {
    hide HugeFirst, ReadVariants, Make;
    if entry.Object? && Lookup(entry.fields, "variants").Some? {
      var variants := Lookup(entry.fields, "variants").value;
      if variants.List? {
        OverflowExactly(parse, variants.items);
      } else if Items(variants).Some? {
        TextsAreNotHuge(parse, variants);
      }
    }
  }

  lemma EntryRaisesExactly(parse: ParseFloat, entry: Json, error: LoadError)
    ensures EntryRaises(parse, entry) == Some(error) <==> Offends(parse, entry, error)
  {
    hide HugeFirst, Unhashable, Read, EntrySays, Accepted;
    EntryOverflows(parse, entry);
    if Read(parse, entry).Ok? {
      ReadExactly(parse, entry, Read(parse, entry).value.0, Read(parse, entry).value.1);
    }
    forall model, e | EntrySays(parse, entry, model, e) && Accepted(e.variants)
      ensures Read(parse, entry) == Ok((model, e))
    {
      ReadExactly(parse, entry, model, e);
    }
    if !entry.Object? {
      ReadIsOfObject(parse, entry);
    }
  }

  lemma ReadIsOfObject(parse: ParseFloat, entry: Json)
    requires !entry.Object?
    ensures Read(parse, entry) == Err(Caught)
  {
  }

  /** The first entry that offends, and how. */
  ghost predicate FirstOffends(parse: ParseFloat, entries: seq<Json>, error: LoadError) {
    exists i :: 0 <= i < |entries| && Offends(parse, entries[i], error) && NoneOffends(parse, entries[..i])
  }

  ghost predicate NoneOffends(parse: ParseFloat, entries: seq<Json>) {
    forall i, error | 0 <= i < |entries| :: !Offends(parse, entries[i], error)
  }

  lemma {:induction false} NoneRaised(parse: ParseFloat, entries: seq<Json>)
    ensures FirstRaised(parse, entries) == None <==> NoneOffends(parse, entries)
  {
    hide Offends, EntryRaises;
    if entries != [] {
      NoneRaised(parse, Front(entries));
      forall error ensures EntryRaises(parse, Last(entries)) == Some(error) <==> Offends(parse, Last(entries), error) {
        EntryRaisesExactly(parse, Last(entries), error);
      }
      if NoneOffends(parse, entries) {
        assert forall i | 0 <= i < |entries| - 1 :: Front(entries)[i] == entries[i];
      }
      if FirstRaised(parse, entries) == None {
        forall i, error | 0 <= i < |entries| ensures !Offends(parse, entries[i], error) {
          if i < |entries| - 1 {
            assert Front(entries)[i] == entries[i];
          }
        }
      }
    }
  }

  lemma {:induction false} FirstRaisedExactly(parse: ParseFloat, entries: seq<Json>, error: LoadError)
    ensures FirstRaised(parse, entries) == Some(error) <==> FirstOffends(parse, entries, error)
  {
    hide Offends, EntryRaises, NoneOffends;
    if entries != [] {
      var n := |entries| - 1;
      FirstRaisedExactly(parse, Front(entries), error);
      NoneRaised(parse, Front(entries));
      EntryRaisesExactly(parse, Last(entries), error);
      FirstOffendsMore(parse, entries, error);
    }
  }

  lemma FirstOffendsMore(parse: ParseFloat, entries: seq<Json>, error: LoadError)
    requires entries != []
    ensures FirstOffends(parse, entries, error) <==>
      || FirstOffends(parse, Front(entries), error)
      || (NoneOffends(parse, Front(entries)) && Offends(parse, Last(entries), error))
  {
    hide Offends, NoneOffends;
    var n := |entries| - 1;
    if FirstOffends(parse, Front(entries), error) {
      var i :| 0 <= i < n && Offends(parse, Front(entries)[i], error) && NoneOffends(parse, Front(entries)[..i]);
      assert Front(entries)[..i] == entries[..i] && Front(entries)[i] == entries[i];
    }
    if NoneOffends(parse, Front(entries)) && Offends(parse, Last(entries), error) {
      assert entries[..n] == Front(entries) && entries[n] == Last(entries);
    }
    if FirstOffends(parse, entries, error) {
      var i :| 0 <= i < |entries| && Offends(parse, entries[i], error) && NoneOffends(parse, entries[..i]);
      if i < n {
        assert Front(entries)[..i] == entries[..i] && Front(entries)[i] == entries[i];
      } else {
        assert entries[..n] == Front(entries);
      }
    }
  }

  /** What a file makes the loader raise, in terms of what is written in it. */
  ghost predicate LoadRaises(parse: ParseFloat, file: ConfigFile, error: LoadError) {
    match file
    case Missing => false
    case Unreadable => false
    case TooDeep => error == RecursionError
    case Parsed(json) =>
      if !json.Object? then error == AttributeError
      else
        var listed := Lookup(json.fields, "experiments");
        listed.Some? && match listed.value
                        case List(items) => FirstOffends(parse, items, error)
                        case Text(text) => text != "" && error == AttributeError
                        case Garbled(_) => error == AttributeError
                        case Object(fields) => fields != [] && error == AttributeError
                        case _ => error == TypeError
  }

  /**
    The loader raises, and the service does not start, exactly for these files: nested too
    deeply; no object at the top; "experiments" neither absent, nor empty, nor a list; or a
    list in which some entry is no object, has an integer weight beyond every float in its
    first unreadable variant, or reads as an experiment with an unhashable model name or
    version - and then it raises what the first such entry does.
   */
  lemma LoadRaisesExactly(parse: ParseFloat, file: ConfigFile, error: LoadError)
    ensures FileRaises(parse, file) == Some(error) <==> LoadRaises(parse, file, error)
  {
    hide FirstOffends, FirstRaised;
    FirstRaisedExactly(parse, Entries(file), error);
    NothingRaised(parse);
    if file.Parsed? && file.json.Object? {
      var listed := Listed(file.json);
      if !listed.List? {
        ListedElsewise(parse, listed);
        NothingIterated(listed);
      }
    }
  }

  lemma NothingRaised(parse: ParseFloat)
    ensures FirstRaised(parse, []) == None
  {
  }

  lemma NothingIterated(listed: Json)
    requires !listed.List?
    ensures match listed
      case Text(text) => Items(listed).Some? && (Items(listed).value == [] <==> text == "")
      case Garbled(points) => Items(listed).Some? && Items(listed).value != []
      case Object(fields) => Items(listed).Some? && (Items(listed).value == [] <==> fields == [])
      case _ => Items(listed).None?
  {
  }

  /** One file of each kind: a null list of experiments, and a version that is a list. */
  lemma LoadRaisesOn(parse: ParseFloat)
    ensures FileRaises(parse, Parsed(Object([(Plain("experiments"), Null)]))) == Some(TypeError)
    ensures FileRaises(parse, FileOf(OneArm("m", Text("e"), List([Text("v1")])))) == Some(TypeError)
  {
    hide OneArm, Read;
    LookupIn([], "experiments", Null);
    OneArmIsObject("m", Text("e"), List([Text("v1")]));
    var entry := OneArm("m", Text("e"), List([Text("v1")]));
    OneArmReads(parse, "m", Text("e"), List([Text("v1")]));
    FileOfEntries(parse, entry);
    var e := Read(parse, entry).value.1;
    assert !Hashable(e.variants[0].modelVersion);
  }

  /** A file with one entry. */
  function FileOf(entry: Json): ConfigFile {
    Parsed(Object([(Plain("experiments"), List([entry]))]))
  }

  lemma FileOfEntries(parse: ParseFloat, entry: Json)
    ensures Entries(FileOf(entry)) == [entry] && FileRaises(parse, FileOf(entry)) == EntryRaises(parse, entry)
  {
    hide EntryRaises;
    LookupIn([], "experiments", List([entry]));
    assert Front([entry]) == [] && Last([entry]) == entry;
    assert FirstRaised(parse, []) == None;
  }

  function OnlyVariant(version: Json): Json {
    Object([(Plain("name"), Text("a")), (Plain("model_version"), version), (Plain("weight"), Number(1.0))])
  }

  /** An experiment that sends all traffic to one version. */
  function OneArm(model: string, name: Json, version: Json): Json {
    Object([(Plain("model_name"), Text(model)), (Plain("name"), name),
            (Plain("variants"), List([OnlyVariant(version)]))])
  }

  lemma OnlyVariantReads(parse: ParseFloat, version: Json)
    ensures ReadVariants(parse, [OnlyVariant(version)]) == Ok([Variant(Text("a"), version, 1.0)])
  {
    var v := OnlyVariant(version);
    LookupThree("name", Text("a"), "model_version", version, "weight", Number(1.0));
    assert ReadVariant(parse, v) == Ok(Variant(Text("a"), version, 1.0));
    assert Front([v]) == [] && Last([v]) == v;
    assert ReadVariants(parse, []) == Ok([]);
    assert [] + [Variant(Text("a"), version, 1.0)] == [Variant(Text("a"), version, 1.0)];
  }

  lemma OneArmReads(parse: ParseFloat, model: string, name: Json, version: Json)
    ensures Read(parse, OneArm(model, name, version))
         == Ok((Text(model), Experiment(name, [Variant(Text("a"), version, 1.0)], true)))
  {
    hide ReadVariants, OnlyVariant, Lookup, Make;
    LookupThree("model_name", Text(model), "name", name, "variants", List([OnlyVariant(version)]));
    OnlyVariantReads(parse, version);
    OneArmMakes(name, version);
  }

  lemma OneArmMakes(name: Json, version: Json)
    ensures var vs := [Variant(Text("a"), version, 1.0)]; Make(name, vs, true) == Ok(Experiment(name, vs, true))
  {
    var vs := [Variant(Text("a"), version, 1.0)];
    assert Share(vs, 0) == 0.0 && Share(vs, 1) == 1.0;
  }

  lemma LookupIn(fields: seq<(FieldName, Json)>, key: string, value: Json)
    ensures Lookup(fields + [(Plain(key), value)], key) == Some(value)
    ensures forall other | other != key :: Lookup(fields + [(Plain(key), value)], other) == Lookup(fields, other)
    ensures [] + [(Plain(key), value)] == [(Plain(key), value)]
  {
    assert Front(fields + [(Plain(key), value)]) == fields;
  }

  lemma LookupThree(a: string, av: Json, b: string, bv: Json, c: string, cv: Json)
    requires a != b && b != c && a != c
    ensures var fields := [(Plain(a), av), (Plain(b), bv), (Plain(c), cv)];
      && Lookup(fields, a) == Some(av) && Lookup(fields, b) == Some(bv) && Lookup(fields, c) == Some(cv)
      && forall key | key != a && key != b && key != c :: Lookup(fields, key) == None
  {
    hide Lookup;
    LookupIn([], a, av);
    LookupIn([(Plain(a), av)], b, bv);
    LookupIn([(Plain(a), av), (Plain(b), bv)], c, cv);
    assert [(Plain(a), av)] + [(Plain(b), bv)] == [(Plain(a), av), (Plain(b), bv)];
    assert [(Plain(a), av), (Plain(b), bv)] + [(Plain(c), cv)] == [(Plain(a), av), (Plain(b), bv), (Plain(c), cv)];
    LookupNothing();
  }

  lemma LookupNothing()
    ensures forall key :: Lookup([], key) == None
  {
  }

  // -------------------------------------------------------------------- routing

  /** What load leaves in the registry: every experiment is valid and servable for its model. */
  lemma {:induction false} LastUsableFits(parse: ParseFloat, entries: seq<Json>, available: Available, name: string)
    ensures var e := LastUsable(parse, entries, available, name);
      e.Some? ==> Accepted(e.value.variants) && Servable(Text(name), e.value, available)
  {
    hide Read, Servable;
    if entries != [] {
      var entry := Last(entries);
      if Usable(parse, entry, available) && Read(parse, entry).value.0 == Text(name) {
        ReadHasVariants(parse, entry);
      } else {
        LastUsableFits(parse, Front(entries), available, name);
      }
    }
  }

  /** An entry that makes a valid experiment for the model, all its versions being loaded. */
  ghost predicate UsableAs(parse: ParseFloat, entry: Json, available: Available, name: string, e: Experiment) {
    EntrySays(parse, entry, Text(name), e) && Accepted(e.variants) && Servable(Text(name), e, available)
  }

  /** Entry `i` is the model's last usable one, and `e` what it says. */
  ghost predicate LastSays(parse: ParseFloat, entries: seq<Json>, available: Available, name: string, i: nat,
                           e: Experiment) {
    && i < |entries| && UsableAs(parse, entries[i], available, name, e)
    && forall j, e' | i < j < |entries| :: !UsableAs(parse, entries[j], available, name, e')
  }

  lemma UsableExactly(parse: ParseFloat, entry: Json, available: Available, name: string, e: Experiment)
    ensures UsableAs(parse, entry, available, name, e) <==>
      Read(parse, entry) == Ok((Text(name), e)) && Servable(Text(name), e, available)
  {
    hide EntrySays, Accepted, Read, Servable;
    ReadExactly(parse, entry, Text(name), e);
  }

  lemma LastSaysMore(parse: ParseFloat, entries: seq<Json>, available: Available, name: string, e: Experiment)
    requires entries != []
    ensures (exists i :: LastSays(parse, entries, available, name, i, e)) <==>
      || UsableAs(parse, Last(entries), available, name, e)
      || ((forall e' :: !UsableAs(parse, Last(entries), available, name, e'))
          && exists i :: LastSays(parse, Front(entries), available, name, i, e))
  {
    hide UsableAs;
    var n, front := |entries| - 1, Front(entries);
    assert forall j | 0 <= j < n :: front[j] == entries[j];
    if UsableAs(parse, entries[n], available, name, e) {
      assert LastSays(parse, entries, available, name, n, e);
    }
    if exists i :: LastSays(parse, entries, available, name, i, e) {
      var i: nat :| LastSays(parse, entries, available, name, i, e);
      if i < n {
        assert LastSays(parse, front, available, name, i, e);
      }
    }
    if exists i :: LastSays(parse, front, available, name, i, e) {
      var i: nat :| LastSays(parse, front, available, name, i, e);
      if forall e' :: !UsableAs(parse, entries[n], available, name, e') {
        assert LastSays(parse, entries, available, name, i, e);
      }
    }
  }

  /** The experiment under a model is what the fields of its last usable entry say. */
  lemma {:induction false} LastUsableExactly(parse: ParseFloat, entries: seq<Json>, available: Available, name: string,
                                             e: Experiment)
    ensures LastUsable(parse, entries, available, name) == Some(e)
      <==> exists i :: LastSays(parse, entries, available, name, i, e)
  {
    hide UsableAs, Read, Servable;
    if entries == [] {
      NothingSays(parse, available, name, e);
    } else {
      hide LastSays;
      LastUsableExactly(parse, Front(entries), available, name, e);
      LastSaysMore(parse, entries, available, name, e);
      forall e' ensures UsableAs(parse, Last(entries), available, name, e') <==>
        Read(parse, Last(entries)) == Ok((Text(name), e')) && Servable(Text(name), e', available)
      {
        UsableExactly(parse, Last(entries), available, name, e');
      }
      if Usable(parse, Last(entries), available) && Read(parse, Last(entries)).value.0 == Text(name) {
        assert UsableAs(parse, Last(entries), available, name, Read(parse, Last(entries)).value.1);
      }
    }
  }

  lemma NothingSays(parse: ParseFloat, available: Available, name: string, e: Experiment)
    ensures LastUsable(parse, [], available, name) == None
    ensures forall i :: !LastSays(parse, [], available, name, i, e)
  {
  }

  /** What `load` returns: under each model the experiment that its last usable entry says, and no other. */
  lemma LoadedExactly(parse: ParseFloat, file: ConfigFile, available: Available, experiments: map<string, Experiment>,
                      name: string, e: Experiment)
    requires Loads(parse, file, available, Ok(experiments))
    ensures name in experiments && experiments[name] == e
       <==> exists i :: LastSays(parse, Entries(file), available, name, i, e)
  {
    hide LastSays, LastUsable;
    LastUsableExactly(parse, Entries(file), available, name, e);
    assert Found(experiments, name) == LastUsable(parse, Entries(file), available, name);
  }

  /** The UnicodeEncodeError of a name that cannot be hashed, or get_for_backend's refusal. */
  datatype Failure = UnicodeEncodeError | Refused(reason: Refusal)

  /** resolve_version: the version and variant for a caller whose hash position is given. */
  function ResolveVersion(experiments: map<string, Experiment>, name: string, position: nat)
    : Result<Option<(Json, Json)>, Failure>
    requires name in experiments ==> experiments[name].variants != []
  {
    if name !in experiments then Ok(None)
    else if HashRaises(experiments[name]) then Err(UnicodeEncodeError)
    else
      var v := experiments[name].variants[AssignedIndex(experiments[name], position)];
      Ok(Some((v.modelVersion, v.name)))
  }

  /** The models that start-up lists, and their versions. */
  ghost predicate ModelsOf(s: Registry, models: seq<LoadedModel>, available: Available) {
    && Describes(available, models)
    && forall m | m in models :: exists key :: key in s.models && s.models[key] == m
  }

  /** A registry of experiments that `load` returned for the models of `s`. */
  ghost predicate LoadedFrom(parse: ParseFloat, experiments: map<string, Experiment>, file: ConfigFile,
                             available: Available, s: Registry, models: seq<LoadedModel>) {
    && ModelsOf(s, models, available)
    && (forall name :: Found(experiments, name) == LastUsable(parse, Entries(file), available, name))
  }

  lemma VariantsAreRegistered(parse: ParseFloat, experiments: map<string, Experiment>, file: ConfigFile,
                              available: Available, s: Registry, models: seq<LoadedModel>, name: string, k: nat)
    requires Sane(s) && LoadedFrom(parse, experiments, file, available, s, models)
    requires name in experiments && k < |experiments[name].variants|
    ensures var version := experiments[name].variants[k].modelVersion;
      version.Text? && Key(name, version.text) in s.models && name in s.active
  {
    hide Key, LastUsable, ActiveRegistered, Entries;
    assert Found(experiments, name).Some?;
    LastUsableFits(parse, Entries(file), available, name);
    var version := experiments[name].variants[k].modelVersion;
    assert version.Text? && name in available && version.text in available[name];
    var m :| m in models && m.name == name && m.version == version.text;
    var key :| key in s.models && s.models[key] == m;
  }

  lemma LoadedHasVariants(parse: ParseFloat, experiments: map<string, Experiment>, file: ConfigFile,
                          available: Available, s: Registry, models: seq<LoadedModel>, name: string)
    requires LoadedFrom(parse, experiments, file, available, s, models) && name in experiments
    ensures Accepted(experiments[name].variants)
  {
    hide LastUsable, Describes, Entries, Servable;
    assert Found(experiments, name).Some?;
    LastUsableFits(parse, Entries(file), available, name);
  }

  /**
    Routing never leads to a missing model: with experiments loaded against the models of
    start-up, after any later registrations and activations every caller gets no version,
    or one that get resolves - for colon-free names to a model of that very name and
    version - or, exactly from an enabled experiment whose name cannot be hashed, an error.
   */
  lemma RoutingAlwaysServes(parse: ParseFloat, ops: seq<Operation>, later: seq<Operation>, models: seq<LoadedModel>,
                            available: Available, file: ConfigFile, experiments: map<string, Experiment>,
                            name: string, position: nat)
    requires LoadedFrom(parse, experiments, file, available, PerformAll(EMPTY, ops), models)
    ensures name in experiments ==> experiments[name].variants != []
    ensures var route := ResolveVersion(experiments, name, position);
      var s := PerformAll(PerformAll(EMPTY, ops), later);
      && (route.Err? <==> name in experiments && HashRaises(experiments[name]))
      && (route.Ok? && route.value.Some? ==>
            && route.value.value.0.Text?
            && var version := route.value.value.0.text;
               var r := Get(s, name, Some(version));
               && r.Ok?
               && (version != "" && ':' !in name && ':' !in r.value.name ==>
                     r.value.name == name && r.value.version == version))
  {
    hide Key, LoadedFrom, Sane, PerformAll, Get;
    var start := PerformAll(EMPTY, ops);
    EmptySane();
    RunKeepsSane(EMPTY, ops);
    RunKeepsSane(start, later);
    if name in experiments {
      LoadedHasVariants(parse, experiments, file, available, start, models, name);
      var k := AssignedIndex(experiments[name], position);
      VariantsAreRegistered(parse, experiments, file, available, start, models, name, k);
      PinnedLookup(PerformAll(start, later), name, experiments[name].variants[k].modelVersion.text);
    }
  }

  lemma PinnedLookup(s: Registry, name: string, version: string)
    requires Sane(s) && Key(name, version) in s.models && name in s.active
    ensures var r := Get(s, name, Some(version));
      && r.Ok?
      && (version != "" && ':' !in name && ':' !in r.value.name ==> r.value.name == name && r.value.version == version)
  {
    hide Key, NamesActive;
    var m := s.models[Key(name, version)];
    if ':' !in name && ':' !in m.name {
      KeyInjective(name, version, m.name, m.version);
    }
  }

  /** Where variant `k`'s slice of the positions begins. */
  function SliceStart(variants: seq<Variant>, k: nat): nat
    requires k < |variants| && WeightsInRange(variants)
  {
    if k == 0 then 0 else SliceEnd(variants, k - 1)
  }

  /** Some caller can be given variant `k`: the first when disabled, a nonempty slice when enabled. */
  predicate Receives(e: Experiment, k: nat)
    requires k < |e.variants| && WeightsInRange(e.variants)
  {
    if e.enabled then SliceStart(e.variants, k) < SliceEnd(e.variants, k) else k == 0
  }

  /** A variant is given out at some position exactly if it receives any. */
  lemma ReceivesExactly(e: Experiment, k: nat)
    requires k < |e.variants| && WeightsInRange(e.variants)
    ensures Receives(e, k) <==> exists p: nat :: p < POSITIONS && AssignedIndex(e, p) == k
  {
    hide FallsTo, SliceEnd, WeightsInRange;
    SliceEndBounded(e.variants, k);
    if e.enabled {
      forall p: nat | p < POSITIONS
        ensures AssignedIndex(e, p) == k <==> SliceStart(e.variants, k) <= p < SliceEnd(e.variants, k)
      {
        FallsBySliceEnd(e.variants, p, k);
        if k > 0 {
          FallsBySliceEnd(e.variants, p, k - 1);
        }
      }
      if Receives(e, k) {
        assert AssignedIndex(e, SliceStart(e.variants, k)) == k;
      }
    } else {
      assert AssignedIndex(e, 0) == 0;
    }
  }

  /**
    Unpinned traffic gets the active version whatever the caller's position exactly if no
    experiment is loaded for the model, or its name can be hashed or need not be, and every
    variant that receives a position - when disabled, the first one - has the active version.
   */
  lemma RoutingAgreesExactly(s: Registry, experiments: map<string, Experiment>, name: string)
    requires name in s.active
    requires name in experiments ==> experiments[name].variants != [] && WeightsInRange(experiments[name].variants)
    ensures (forall p: nat | p < POSITIONS :: Agrees(s, experiments, name, p))
      <==> (name in experiments ==>
              && !HashRaises(experiments[name])
              && forall k: nat | k < |experiments[name].variants| && Receives(experiments[name], k) ::
                   experiments[name].variants[k].modelVersion == Text(s.active[name]))
  {
    hide Receives;
    if name in experiments {
      var e := experiments[name];
      AssignsExactly(e);
      if forall p: nat | p < POSITIONS :: Agrees(s, experiments, name, p) {
        assert Agrees(s, experiments, name, 0);
        forall k: nat | k < |e.variants| && Receives(e, k)
          ensures e.variants[k].modelVersion == Text(s.active[name])
        {
          var p: nat :| p < POSITIONS && AssignedIndex(e, p) == k;
          assert Agrees(s, experiments, name, p);
        }
      }
    }
  }

  /** The caller at position `p` gets no version, and so the active one, or the active version by name. */
  predicate Agrees(s: Registry, experiments: map<string, Experiment>, name: string, p: nat)
    requires name in s.active && (name in experiments ==> experiments[name].variants != [])
  {
    var route := ResolveVersion(experiments, name, p);
    route.Ok? && (route.value.None? || route.value.value.0 == Text(s.active[name]))
  }

  lemma AssignsExactly(e: Experiment)
    requires e.variants != [] && WeightsInRange(e.variants)
    ensures forall k: nat | k < |e.variants| ::
      Receives(e, k) <==> exists p: nat :: p < POSITIONS && AssignedIndex(e, p) == k
  {
    forall k: nat | k < |e.variants|
      ensures Receives(e, k) <==> exists p: nat :: p < POSITIONS && AssignedIndex(e, p) == k
    {
      ReceivesExactly(e, k);
    }
  }

  lemma ShareOfNone(variants: seq<Variant>)
    ensures Share(variants, 0) == 0.0
  {
  }

  /** The route is the version and the name in element `k` of the entry's variants. */
  predicate RoutesTo(entry: Json, k: nat, route: (Json, Json)) {
    && entry.Object? && Lookup(entry.fields, "variants").Some?
    && var variants := Lookup(entry.fields, "variants").value;
       && variants.List? && k < |variants.items|
       && Field(variants.items[k], "model_version", route.0) && Field(variants.items[k], "name", route.1)
  }

  /**
    Where the last usable entry of a model sends a caller: when it is disabled, to the
    version and name of its first variant; otherwise to those of the variant in whose slice
    of the cumulative weights the caller's position lies.
   */
  lemma RoutesAsWritten(parse: ParseFloat, file: ConfigFile, available: Available, experiments: map<string, Experiment>,
                        name: string, i: nat, e: Experiment, p: nat)
    requires Loads(parse, file, available, Ok(experiments)) && p < POSITIONS
    requires LastSays(parse, Entries(file), available, name, i, e)
    ensures name in experiments && experiments[name] == e && e.variants != []
    ensures var route := ResolveVersion(experiments, name, p);
      var entry := Entries(file)[i];
      && entry.Object?
      && (!Enables(entry) ==> route.Ok? && route.value.Some? && RoutesTo(entry, 0, route.value.value))
      && (Enables(entry) && !e.name.Garbled? ==>
            exists k: nat :: k < |e.variants| && route.Ok? && route.value.Some? && RoutesTo(entry, k, route.value.value)
              && Share(e.variants, k) <= Position(p)
              && (Position(p) < Share(e.variants, k + 1) || k == |e.variants| - 1))
  {
    hide LastUsable, FileRaises, Entries, Share, Enables;
    LoadedExactly(parse, file, available, experiments, name, e);
    AcceptedSome(e.variants);
    var entry := Entries(file)[i];
    assert EntrySays(parse, entry, Text(name), e);
    var k := AssignedIndex(e, p);
    assert VariantSays(parse, Lookup(entry.fields, "variants").value.items[k], e.variants[k]);
    if e.enabled {
      ShareOfNone(e.variants);
      SliceOf(e.variants, Position(p), 0, k);
    }
  }

  // ------------------------------------------------------------ serving a caller

  /** A caller who pins no version: a hash position, and perhaps a pinned runtime. */
  datatype Caller = Caller(position: nat, backend: Option<string>)

  /** Every variant has the text of a version, as in what `load` returns. */
  predicate Routable(experiments: map<string, Experiment>, name: string) {
    name in experiments ==>
      && Accepted(experiments[name].variants)
      && forall k | 0 <= k < |experiments[name].variants| :: experiments[name].variants[k].modelVersion.Text?
  }

  /** The model that serves the caller: resolve_version, then get_for_backend. */
  function Serve(s: Registry, experiments: map<string, Experiment>, name: string, caller: Caller)
    : Result<LoadedModel, Failure>
    requires Routable(experiments, name)
  {
    match ResolveVersion(experiments, name, caller.position)
    case Err(e) => Err(e)
    case Ok(route) =>
      var version := if route.Some? then Some(route.value.0.text) else None;
      match GetForBackend(s, name, version, caller.backend)
      case Err(reason) => Err(Refused(reason))
      case Ok(m) => Ok(m)
  }

  /** `overrides` is ALLOW_BACKEND_OVERRIDE, without which a pinned runtime is ignored. */
  predicate Admissible(caller: Caller, overrides: bool) {
    caller.position < POSITIONS && (caller.backend.Some? ==> overrides)
  }

  /** Whoever is served without experiments is served with them. */
  ghost predicate NeverBreaks(s: Registry, experiments: map<string, Experiment>, name: string, overrides: bool)
    requires Routable(experiments, name)
  {
    forall caller | Admissible(caller, overrides) && GetForBackend(s, name, None, caller.backend).Ok? ::
      Serve(s, experiments, name, caller).Ok?
  }

  /** The version's model is loaded with the runtime of the active one. */
  predicate SameBackend(s: Registry, name: string, version: Json) {
    && version.Text? && Get(s, name, None).Ok? && Get(s, name, Some(version.text)).Ok?
    && Get(s, name, Some(version.text)).value.backend == Get(s, name, None).value.backend
  }

  /** What an experiment must satisfy so as not to break any request. */
  ghost predicate Harmless(s: Registry, name: string, e: Experiment, overrides: bool)
    requires WeightsInRange(e.variants)
  {
    && !HashRaises(e)
    && (overrides ==>
          forall k: nat | k < |e.variants| && Receives(e, k) :: SameBackend(s, name, e.variants[k].modelVersion))
  }

  /** Both the active version and every variant's version resolve. */
  ghost predicate AllResolve(s: Registry, experiments: map<string, Experiment>, name: string)
    requires Routable(experiments, name)
  {
    name in experiments ==>
      && Get(s, name, None).Ok?
      && forall k | 0 <= k < |experiments[name].variants| ::
           Get(s, name, Some(experiments[name].variants[k].modelVersion.text)).Ok?
  }

  lemma HarmlessNeverBreaks(s: Registry, experiments: map<string, Experiment>, name: string, overrides: bool)
    requires Routable(experiments, name) && AllResolve(s, experiments, name)
    requires name in experiments ==> Harmless(s, name, experiments[name], overrides)
    ensures NeverBreaks(s, experiments, name, overrides)
  {
    hide Receives, Get;
    if name in experiments {
      var e := experiments[name];
      AssignsExactly(e);
      forall caller | Admissible(caller, overrides) && GetForBackend(s, name, None, caller.backend).Ok?
        ensures Serve(s, experiments, name, caller).Ok?
      {
        var k := AssignedIndex(e, caller.position);
        assert Receives(e, k);
      }
    }
  }

  lemma NeverBreaksIsHarmless(s: Registry, experiments: map<string, Experiment>, name: string, overrides: bool)
    requires Routable(experiments, name) && AllResolve(s, experiments, name) && name in experiments
    requires NeverBreaks(s, experiments, name, overrides)
    ensures Harmless(s, name, experiments[name], overrides)
  {
    hide Receives, Get;
    var e := experiments[name];
    AssignsExactly(e);
    assert Serve(s, experiments, name, Caller(0, None)).Ok?;
    if overrides {
      var backend := Some(Get(s, name, None).value.backend);
      forall k: nat | k < |e.variants| && Receives(e, k) ensures SameBackend(s, name, e.variants[k].modelVersion) {
        var p: nat :| p < POSITIONS && AssignedIndex(e, p) == k;
        assert Serve(s, experiments, name, Caller(p, backend)).Ok?;
      }
    }
  }

  lemma LoadedResolves(parse: ParseFloat, ops: seq<Operation>, later: seq<Operation>, models: seq<LoadedModel>,
                       available: Available, file: ConfigFile, experiments: map<string, Experiment>, name: string)
    requires LoadedFrom(parse, experiments, file, available, PerformAll(EMPTY, ops), models)
    ensures Routable(experiments, name)
    ensures AllResolve(PerformAll(PerformAll(EMPTY, ops), later), experiments, name)
  {
    hide Key, LoadedFrom, Sane, PerformAll, Get, Accepted;
    var start := PerformAll(EMPTY, ops);
    EmptySane();
    RunKeepsSane(EMPTY, ops);
    RunKeepsSane(start, later);
    if name in experiments {
      LoadedHasVariants(parse, experiments, file, available, start, models, name);
      var s := PerformAll(start, later);
      var vs := experiments[name].variants;
      AcceptedSome(vs);
      forall k | 0 <= k < |vs|
        ensures vs[k].modelVersion.Text? && Get(s, name, Some(vs[k].modelVersion.text)).Ok? && Get(s, name, None).Ok?
      {
        VariantsAreRegistered(parse, experiments, file, available, start, models, name, k);
        PinnedLookup(s, name, vs[k].modelVersion.text);
        ActiveLookup(s, name);
      }
      assert Get(s, name, Some(vs[0].modelVersion.text)).Ok?;
    }
  }

  lemma ActiveLookup(s: Registry, name: string)
    requires Sane(s) && name in s.active
    ensures Get(s, name, None).Ok?
  {
    hide Key, NamesActive, OwnKeys;
  }

  /**
    "A misconfigured experiment never breaks serving": for experiments loaded against the
    models of start-up, and after any later registrations and activations, the service
    starts and whoever would be served without experiments is served with them if and only
    if the file is none that the loader raises on, and the model's last usable entry, if
    any, is disabled or has a name that can be hashed and, where callers may pin a runtime,
    sends nobody to a version loaded with another runtime than the active one.
   */
  lemma NeverBreaksExactly(parse: ParseFloat, ops: seq<Operation>, later: seq<Operation>, models: seq<LoadedModel>,
                           available: Available, file: ConfigFile, r: Result<map<string, Experiment>, LoadError>,
                           name: string, overrides: bool)
    requires Loads(parse, file, available, r)
    requires ModelsOf(PerformAll(EMPTY, ops), models, available)
    ensures r.Ok? ==> Routable(r.value, name)
    ensures var s := PerformAll(PerformAll(EMPTY, ops), later);
      var e := LastUsable(parse, Entries(file), available, name);
      && (e.Some? ==> WeightsInRange(e.value.variants))
      && (r.Ok? && NeverBreaks(s, r.value, name, overrides) <==>
            && (forall error :: !LoadRaises(parse, file, error))
            && (e.Some? ==> Harmless(s, name, e.value, overrides)))
  {
    hide PerformAll, Harmless, NeverBreaks, Routable, AllResolve, LoadRaises, LastUsable, FileRaises, Entries;
    var s := PerformAll(PerformAll(EMPTY, ops), later);
    forall error ensures FileRaises(parse, file) == Some(error) <==> LoadRaises(parse, file, error) {
      LoadRaisesExactly(parse, file, error);
    }
    UsableWeights(parse, Entries(file), available, name);
    if r.Ok? {
      assert Found(r.value, name) == LastUsable(parse, Entries(file), available, name);
      LoadedResolves(parse, ops, later, models, available, file, r.value, name);
      if name !in r.value || Harmless(s, name, r.value[name], overrides) {
        HarmlessNeverBreaks(s, r.value, name, overrides);
      } else if NeverBreaks(s, r.value, name, overrides) {
        NeverBreaksIsHarmless(s, r.value, name, overrides);
      }
    }
  }

  lemma UsableWeights(parse: ParseFloat, entries: seq<Json>, available: Available, name: string)
    ensures var e := LastUsable(parse, entries, available, name); e.Some? ==> WeightsInRange(e.value.variants)
  {
    hide LastUsable, Servable;
    LastUsableFits(parse, entries, available, name);
  }

  const SURROGATE: Garble := Alone(0xD800)

  /**
    An experiment that sends everybody to a loaded version and whose name is a lone
    surrogate: the file loads, and no caller gets a version.
   */
  lemma SurrogateBreaksServing(parse: ParseFloat, name: string, version: string, available: Available,
                               experiments: map<string, Experiment>, position: nat)
    requires name in available && version in available[name]
    ensures var file := FileOf(OneArm(name, Garbled(SURROGATE), Text(version)));
      && FileRaises(parse, file) == None
      && (Found(experiments, name) == LastUsable(parse, Entries(file), available, name) ==>
            && name in experiments && experiments[name].variants != []
            && ResolveVersion(experiments, name, position) == Err(UnicodeEncodeError))
  {
    hide OneArm, FileOf, Read, FileRaises, Entries;
    var entry := OneArm(name, Garbled(SURROGATE), Text(version));
    OneArmReads(parse, name, Garbled(SURROGATE), Text(version));
    OneArmIsObject(name, Garbled(SURROGATE), Text(version));
    FileOfEntries(parse, entry);
    assert Last([entry]) == entry;
    assert Usable(parse, entry, available);
    assert LastUsable(parse, [entry], available, name) == Some(Read(parse, entry).value.1);
  }

  lemma OneArmIsObject(model: string, name: Json, version: Json)
    ensures OneArm(model, name, version).Object?
  {
  }
}
