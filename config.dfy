/** The configuration loader: a YAML document read as a JSON-like tree, merged with an
    optional secrets document, and the lookups on the result. Dictionaries are association
    lists in insertion order, as Python dicts are; file reading is a parameter. */
module Config {
  import opened Wrappers
  import opened Text

  /** A YAML value after `safe_load`. Floats and dates are not modelled. */
  datatype Json =
    | JNull
    | JBool(b: bool)
    | JInt(i: int)
    | JStr(s: string)
    | JList(items: seq<Json>)
    | JDict(fields: seq<Field>)

  datatype Field = Field(key: string, value: Json)

  function Keys(fields: seq<Field>): (r: seq<string>)
    ensures |r| == |fields| && forall i :: 0 <= i < |fields| ==> r[i] == fields[i].key
  {
    seq(|fields|, i requires 0 <= i < |fields| => fields[i].key)
  }

  /** A Python dict has each key once. */
  predicate UniqueKeys(fields: seq<Field>)
  {
    NoDup(Keys(fields))
  }

  /** `d.get(key)` */
  function Lookup(fields: seq<Field>, key: string): (r: Option<Json>)
    ensures r.None? <==> key !in Keys(fields)
  {
    if fields == [] then None
    else if fields[0].key == key then Some(fields[0].value)
    else Lookup(fields[1..], key)
  }

  /** Keys and lookups of a dictionary split at its first entry. */
  lemma FieldsCons(f: Field, rest: seq<Field>)
    ensures Keys([f] + rest) == [f.key] + Keys(rest)
    ensures forall k :: Lookup([f] + rest, k) == if f.key == k then Some(f.value) else Lookup(rest, k)
  {
    assert ([f] + rest)[1..] == rest;
  }

  /** An entry with another key in front keeps the effect of setting a key on the keys. */
  lemma SetFieldKeysStep(f: Field, tail: seq<Field>, rest: seq<Field>, key: string)
    requires f.key != key
    requires key in Keys(tail) ==> Keys(rest) == Keys(tail)
    requires key !in Keys(tail) ==> Keys(rest) == Keys(tail) + [key]
    ensures key in Keys([f] + tail) ==> Keys([f] + rest) == Keys([f] + tail)
    ensures key !in Keys([f] + tail) ==> Keys([f] + rest) == Keys([f] + tail) + [key]
  {
    FieldsCons(f, tail);
    FieldsCons(f, rest);
    if key !in Keys(tail) {
      assert [f.key] + (Keys(tail) + [key]) == ([f.key] + Keys(tail)) + [key];
    }
  }

  /** `d[key] = value`: replaces the value in place when the key is there, appends otherwise. */
  function SetField(fields: seq<Field>, key: string, value: Json): (r: seq<Field>)
    ensures Lookup(r, key) == Some(value)
    ensures forall k :: k != key ==> Lookup(r, k) == Lookup(fields, k)
    ensures key in Keys(fields) ==> Keys(r) == Keys(fields)
    ensures key !in Keys(fields) ==> Keys(r) == Keys(fields) + [key]
  {
    if fields == [] then [Field(key, value)]
    else if fields[0].key == key then
      assert fields == [fields[0]] + fields[1..];
      FieldsCons(Field(key, value), fields[1..]);
      FieldsCons(fields[0], fields[1..]);
      [Field(key, value)] + fields[1..]
    else
      var rest := SetField(fields[1..], key, value);
      assert fields == [fields[0]] + fields[1..];
      FieldsCons(fields[0], rest);
      SetFieldKeysStep(fields[0], fields[1..], rest, key);
      [fields[0]] + rest
  }

  /** The value `name` of a named item; any other value has none. */
  function NameOf(item: Json): Option<Json>
  {
    if item.JDict? then Lookup(item.fields, "name") else None
  }

  /** `_is_named_dict_list`: a list of dictionaries that all have a `name` key. */
  predicate IsNamedDictList(v: Json)
  {
    v.JList? && forall i :: 0 <= i < |v.items| ==> NameOf(v.items[i]).Some?
  }

  /** The empty list qualifies; a list with one unnamed item, or anything but a list, does not. */
  lemma NamedDictListCases(v: Json, i: nat)
    ensures IsNamedDictList(JList([]))
    ensures v.JList? && i < |v.items| && (!v.items[i].JDict? || "name" !in Keys(v.items[i].fields)) ==>
              !IsNamedDictList(v)
    ensures !v.JList? ==> !IsNamedDictList(v)
  {
  }

  /** `_merge_values(base, override)`: an absent override keeps the base; two dictionaries merge
      key by key; two lists of named dictionaries merge item by item on `name`; otherwise the
      override wins. */
  function Merge(base: Json, override: Json): Json
    decreases override, 2
  {
    if override.JNull? then base
    else if base.JDict? && override.JDict? then JDict(MergeFields(base.fields, override.fields))
    else if base.JList? && override.JList? && IsNamedDictList(base) && IsNamedDictList(override) then
      JList(MergeItems(base.items, base.items, override.items))
    else override
  }

  /** The loop over `override.items()` on a copy of the base dictionary. */
  function MergeFields(acc: seq<Field>, fs: seq<Field>): seq<Field>
    decreases fs, 1
  {
    if fs == [] then acc
    else
      MergeFields(MergeField(acc, fs[0]), fs[1..])
  }

  /** The position the name index (built over the base list only) gives a name: the last base
      item carrying it. */
  function NameIndex(base: seq<Json>, name: Json): (r: Option<nat>)
    ensures r.Some? ==> r.value < |base| && NameOf(base[r.value]) == Some(name)
    ensures r.Some? ==> forall j :: r.value < j < |base| ==> NameOf(base[j]) != Some(name)
    ensures r.None? ==> forall j :: 0 <= j < |base| ==> NameOf(base[j]) != Some(name)
  {
    if base == [] then None
    else if NameOf(base[|base| - 1]) == Some(name) then Some(|base| - 1)
    else NameIndex(base[..|base| - 1], name)
  }

  /** The loop over the override list: an item whose name the base has merges into that base
      position; any other item is appended. */
  function MergeItems(acc: seq<Json>, base: seq<Json>, items: seq<Json>): (r: seq<Json>)
    requires |base| <= |acc|
    ensures |base| <= |r|
    decreases items, 1
  {
    if items == [] then acc
    else
      var item := items[0];
      var next := match NameOf(item)
        case None => acc + [item]
        case Some(name) =>
          match NameIndex(base, name)
          case Some(i) => acc[i := Merge(acc[i], item)]
          case None => acc + [item];
      MergeItems(next, base, items[1..])
  }

  // ---------------------------------------------------------------- merge properties

  /** An absent override gives the base back. */
  lemma MergeNull(base: Json)
    ensures Merge(base, JNull) == base
  {
  }

  /** Anything but two dictionaries or two named lists: the override wins, including plain
      lists and mismatched kinds. */
  lemma MergeOtherwise(base: Json, override: Json)
    requires !override.JNull?
    requires !(base.JDict? && override.JDict?)
    requires !(IsNamedDictList(base) && IsNamedDictList(override))
    ensures Merge(base, override) == override
  {
  }

  /** Splitting a dictionary with unique keys at its first entry. */
  lemma UniqueKeysTail(fs: seq<Field>)
    requires fs != [] && UniqueKeys(fs)
    ensures Keys(fs) == [fs[0].key] + Keys(fs[1..])
    ensures UniqueKeys(fs[1..]) && fs[0].key !in Keys(fs[1..])
  {
    assert Keys(fs) == [fs[0].key] + Keys(fs[1..]);
    forall i, j | 0 <= i < j < |fs[1..]|
      ensures Keys(fs[1..])[i] != Keys(fs[1..])[j]
    {
      assert Keys(fs)[i + 1] != Keys(fs)[j + 1];
    }
    forall j | 0 <= j < |fs[1..]|
      ensures Keys(fs[1..])[j] != fs[0].key
    {
      assert Keys(fs)[0] != Keys(fs)[j + 1];
    }
  }

  /** One step of the merge loop: `d[key] = merged or override value`. */
  function MergeField(acc: seq<Field>, f: Field): (r: seq<Field>)
    ensures f.key in Keys(acc) ==> Keys(r) == Keys(acc)
    ensures f.key !in Keys(acc) ==> Keys(r) == Keys(acc) + [f.key]
    ensures Lookup(r, f.key) == Some(match Lookup(acc, f.key) case Some(a) => Merge(a, f.value) case None => f.value)
    ensures forall k :: k != f.key ==> Lookup(r, k) == Lookup(acc, k)
    decreases f, 0
  {
    match Lookup(acc, f.key)
    case Some(a) => SetField(acc, f.key, Merge(a, f.value))
    case None => SetField(acc, f.key, f.value)
  }

  /** The dictionary merge, key by key: a key only the base has keeps its value, a key only the
      override has takes its value, a shared key merges recursively, and no other key appears. */
  lemma {:induction false} MergeFieldsLookup(acc: seq<Field>, fs: seq<Field>, k: string)
    requires UniqueKeys(fs)
    decreases fs
    ensures Lookup(MergeFields(acc, fs), k) ==
              match Lookup(fs, k)
              case None => Lookup(acc, k)
              case Some(o) => Some(match Lookup(acc, k) case Some(a) => Merge(a, o) case None => o)
  {
    if fs != [] {
      UniqueKeysTail(fs);
      assert MergeFields(acc, fs) == MergeFields(MergeField(acc, fs[0]), fs[1..]);
      MergeFieldsLookup(MergeField(acc, fs[0]), fs[1..], k);
    }
  }

  /** The keys that `fs` adds to `known`, in `fs`'s order. */
  function NewKeys(keys: seq<string>, known: seq<string>): seq<string>
  {
    if keys == [] then []
    else (if keys[0] in known then [] else [keys[0]]) + NewKeys(keys[1..], known)
  }

  lemma {:induction false} NewKeysIgnores(keys: seq<string>, known: seq<string>, k: string)
    requires k !in keys
    ensures NewKeys(keys, known + [k]) == NewKeys(keys, known)
  {
    if keys != [] {
      NewKeysIgnores(keys[1..], known, k);
    }
  }

  /** The dictionary merge keeps the base's keys in their order and appends the override's new
      keys in the override's order. */
  lemma {:induction false} MergeFieldsKeys(acc: seq<Field>, fs: seq<Field>)
    requires UniqueKeys(fs)
    decreases fs
    ensures Keys(MergeFields(acc, fs)) == Keys(acc) + NewKeys(Keys(fs), Keys(acc))
  {
    if fs != [] {
      var f := fs[0];
      var next := MergeField(acc, f);
      UniqueKeysTail(fs);
      assert MergeFields(acc, fs) == MergeFields(next, fs[1..]);
      MergeFieldsKeys(next, fs[1..]);
      NewKeysStep(f.key, Keys(fs[1..]), Keys(acc));
    }
  }

  /** One more key: known keys are not new, and an unknown one is new once. */
  lemma NewKeysStep(k: string, keys: seq<string>, known: seq<string>)
    requires k !in keys
    ensures k in known ==> known + NewKeys([k] + keys, known) == known + NewKeys(keys, known)
    ensures k !in known ==> known + NewKeys([k] + keys, known) == (known + [k]) + NewKeys(keys, known + [k])
  {
    assert ([k] + keys)[1..] == keys;
    if k !in known {
      NewKeysIgnores(keys, known, k);
    }
  }

  /** The override items with a given name, in order. */
  function Named(items: seq<Json>, name: Json): seq<Json>
  {
    if items == [] then []
    else (if NameOf(items[0]) == Some(name) then [items[0]] else []) + Named(items[1..], name)
  }

  /** The override items whose name no base item has, in order. */
  function Unmatched(items: seq<Json>, base: seq<Json>): seq<Json>
  {
    if items == [] then []
    else (if NameOf(items[0]).Some? && NameIndex(base, NameOf(items[0]).value).Some? then [] else [items[0]])
         + Unmatched(items[1..], base)
  }

  /** Merging several override items into one value, in order. */
  function MergeAll(v: Json, items: seq<Json>): Json
    decreases items
  {
    if items == [] then v else MergeAll(Merge(v, items[0]), items[1..])
  }

  /** The named-list merge: base positions stay in order; the base item the name index points
      at is merged with every override item of that name, in override order; other base items
      are unchanged; override items with a new name follow, in override order. */
  lemma {:induction false} MergeItemsSpec(acc: seq<Json>, base: seq<Json>, items: seq<Json>)
    requires |base| <= |acc|
    decreases items
    ensures |MergeItems(acc, base, items)| == |acc| + |Unmatched(items, base)|
    ensures MergeItems(acc, base, items)[|base|..] == acc[|base|..] + Unmatched(items, base)
    ensures forall i :: 0 <= i < |base| ==>
              MergeItems(acc, base, items)[i] ==
                (if NameOf(base[i]).Some? && NameIndex(base, NameOf(base[i]).value) == Some(i)
                 then MergeAll(acc[i], Named(items, NameOf(base[i]).value))
                 else acc[i])
  {
    if items != [] {
      var item := items[0];
      var next := match NameOf(item)
        case None => acc + [item]
        case Some(name) =>
          match NameIndex(base, name)
          case Some(i) => acc[i := Merge(acc[i], item)]
          case None => acc + [item];
      MergeItemsSpec(next, base, items[1..]);
      var r := MergeItems(acc, base, items);
      assert r == MergeItems(next, base, items[1..]);
      forall i | 0 <= i < |base|
        ensures r[i] ==
                (if NameOf(base[i]).Some? && NameIndex(base, NameOf(base[i]).value) == Some(i)
                 then MergeAll(acc[i], Named(items, NameOf(base[i]).value))
                 else acc[i])
      {
        if NameOf(base[i]).Some? && NameIndex(base, NameOf(base[i]).value) == Some(i) {
          var n := NameOf(base[i]).value;
          if NameOf(item) == Some(n) {
            assert Named(items, n) == [item] + Named(items[1..], n);
            assert next[i] == Merge(acc[i], item);
          } else {
            assert Named(items, n) == Named(items[1..], n);
            assert next[i] == acc[i];
          }
        } else {
          assert next[i] == acc[i];
        }
      }
      if NameOf(item).Some? && NameIndex(base, NameOf(item).value).Some? {
        assert Unmatched(items, base) == Unmatched(items[1..], base);
        assert next[|base|..] == acc[|base|..];
      } else {
        assert Unmatched(items, base) == [item] + Unmatched(items[1..], base);
        assert next[|base|..] == acc[|base|..] + [item];
      }
    }
  }

  /** `_merge_values` on two lists of named dictionaries: the base items keep their order and
      come first, each merged with the override items that share its name; new names are
      appended in override order. */
  lemma MergeNamedLists(base: seq<Json>, override: seq<Json>)
    requires IsNamedDictList(JList(base)) && IsNamedDictList(JList(override))
    ensures var r := Merge(JList(base), JList(override));
            && r.JList?
            && |r.items| == |base| + |Unmatched(override, base)|
            && r.items[|base|..] == Unmatched(override, base)
            && forall i :: 0 <= i < |base| ==>
                 r.items[i] == (if NameIndex(base, NameOf(base[i]).value) == Some(i)
                                then MergeAll(base[i], Named(override, NameOf(base[i]).value))
                                else base[i])
  {
    MergeItemsSpec(base, base, override);
    assert base[|base|..] == [];
  }

  /** `_merge_values` on two dictionaries, as a dictionary: the union of the keys, base keys
      first, with base-only values kept, override-only values taken, shared values merged. */
  lemma MergeDicts(base: seq<Field>, override: seq<Field>, k: string)
    requires UniqueKeys(override)
    ensures var r := Merge(JDict(base), JDict(override));
            && r.JDict?
            && Keys(r.fields) == Keys(base) + NewKeys(Keys(override), Keys(base))
            && Lookup(r.fields, k) ==
                 match Lookup(override, k)
                 case None => Lookup(base, k)
                 case Some(o) => Some(match Lookup(base, k) case Some(a) => Merge(a, o) case None => o)
  {
    MergeFieldsLookup(base, override, k);
    MergeFieldsKeys(base, override);
  }

  // ---------------------------------------------------------------- loading and lookups

  /** `bool(v)` for a YAML value. */
  predicate Truthy(v: Json)
  {
    match v
    case JNull => false
    case JBool(b) => b
    case JInt(i) => i != 0
    case JStr(s) => s != ""
    case JList(items) => items != []
    case JDict(fields) => fields != []
  }

  /** `yaml.safe_load(f) or {}`: an empty or falsy document is an empty dictionary. */
  function LoadYaml(doc: Json): (r: Json)
    ensures (doc == JNull || doc == JBool(false) || doc == JInt(0) || doc == JStr("") || doc == JList([])
             || doc == JDict([])) ==> r == JDict([])
    ensures r != doc ==> r == JDict([])
  {
    if Truthy(doc) then doc else JDict([])
  }

  /** `_load_config`: the configuration document, merged with the secrets document only when
      the secrets file exists. */
  function LoadConfig(config: Json, secrets: Option<Json>): (r: Json)
    ensures secrets.None? ==> r == LoadYaml(config)
    ensures secrets.Some? ==> r == Merge(LoadYaml(config), LoadYaml(secrets.value))
  {
    var base := LoadYaml(config);
    if secrets.Some? then Merge(base, LoadYaml(secrets.value)) else base
  }

  /** `config[key]` on the loaded configuration (`get_ollama_config`, `get_chroma_config`). */
  function Section(config: Json, key: string): (r: Result<Json>)
    ensures r.Success? <==> config.JDict? && key in Keys(config.fields)
    ensures r.Success? ==> Lookup(config.fields, key) == Some(r.value)
  {
    if config.JDict? then
      match Lookup(config.fields, key)
      case Some(v) => Success(v)
      case None => Failure("KeyError: '" + key + "'")
    else Failure("TypeError: configuration is not a mapping")
  }

  /** `config.get("collections", {})` */
  function Collections(config: Json): Json
  {
    if config.JDict? then Lookup(config.fields, "collections").GetOr(JDict([])) else JNull
  }

  /** `list_collections`: the collection names in configuration order. */
  function ListCollections(config: Json): (r: Result<seq<string>>)
    ensures r.Success? <==> config.JDict? && Collections(config).JDict?
    ensures r.Success? ==> r.value == Keys(Collections(config).fields)
  {
    var cols := Collections(config);
    if cols.JDict? then Success(Keys(cols.fields)) else Failure("AttributeError: collections is not a mapping")
  }

  /** The ValueError's message: "(ninguna)" stands in for an empty join, which happens when
      there are no collections and also when the only one is named "". */
  function NotFound(name: string, available: seq<string>): (r: string)
    ensures var listed := if available == [] || available == [""] then "(ninguna)" else Join(", ", available);
            r == "Colección '" + name + "' no encontrada. Disponibles: " + listed
  {
    var joined := Join(", ", available);
    JoinEmpty(", ", available);
    "Colección '" + name + "' no encontrada. Disponibles: " + (if joined == "" then "(ninguna)" else joined)
  }

  /** `get_collection_config`: the named collection, or a ValueError listing the available ones
      ("(ninguna)" when there are none). */
  function GetCollectionConfig(config: Json, name: string): (r: Result<Json>)
    ensures Collections(config).JDict? ==>
              (r.Success? <==> name in Keys(Collections(config).fields))
    ensures r.Success? ==> Collections(config).JDict? && Lookup(Collections(config).fields, name) == Some(r.value)
    ensures Collections(config).JDict? && name !in Keys(Collections(config).fields) ==>
              r == Failure(NotFound(name, Keys(Collections(config).fields)))
  {
    var cols := Collections(config);
    if !cols.JDict? then Failure("TypeError: collections is not a mapping")
    else match Lookup(cols.fields, name)
      case None => Failure(NotFound(name, Keys(cols.fields)))
      case Some(v) => Success(v)
  }

  /** A collection defined only in the secrets file is found once the secrets are merged, and
      one defined in the configuration stays found whatever the secrets say about others. */
  lemma SecretsAddCollections(config: seq<Field>, secrets: seq<Field>, name: string)
    requires UniqueKeys(secrets)
    requires Lookup(config, "collections").Some? && Lookup(config, "collections").value.JDict?
    requires Lookup(secrets, "collections").Some? && Lookup(secrets, "collections").value.JDict?
    requires UniqueKeys(Lookup(secrets, "collections").value.fields)
    ensures var merged := LoadConfig(JDict(config), Some(JDict(secrets)));
            name in Keys(Lookup(config, "collections").value.fields)
            || name in Keys(Lookup(secrets, "collections").value.fields)
            <==> GetCollectionConfig(merged, name).Success?
  {
    var cc := Lookup(config, "collections").value;
    var sc := Lookup(secrets, "collections").value;
    MergedCollections(config, secrets);
    MergeDicts(cc.fields, sc.fields, name);
  }

  /** With secrets, the collections are the configuration's merged with the secrets'. */
  lemma MergedCollections(config: seq<Field>, secrets: seq<Field>)
    requires UniqueKeys(secrets)
    requires Lookup(config, "collections").Some? && Lookup(secrets, "collections").Some?
    ensures Collections(LoadConfig(JDict(config), Some(JDict(secrets)))) ==
              Merge(Lookup(config, "collections").value, Lookup(secrets, "collections").value)
  {
    var merged := LoadConfig(JDict(config), Some(JDict(secrets)));
    assert merged == Merge(JDict(config), JDict(secrets));
    MergeDicts(config, secrets, "collections");
  }
}
