/**
 * The colour mapping of `load_color_mapping` in src/utils.py, after the YAML
 * configuration has been parsed: each class record gives a name and a colour.
 * The base mapping sends every name to its colour; with `obi` set it is expanded
 * to BIO labels, `NON-ENTITY` kept as it is and every other class `X` split into
 * `B-X` and `I-X`, both with the colour of `X`. The class names are those of
 * the label decoder, so `NON-ENTITY` is its constant.
 */
module ColorMapping {
  import opened PyDict
  import opened LabelCodec

  /** One record of the parsed configuration: its `name` and `color` fields. */
  datatype ClassConfig = ClassConfig(name: string, color: string)

  /** The `(name, color)` pairs of the records, in order. */
  function NameColors(configs: seq<ClassConfig>): seq<(string, string)>
  {
    seq(|configs|, i requires 0 <= i < |configs| => (configs[i].name, configs[i].color))
  }

  /** The base mapping, built in record order like the dict comprehension. */
  function BaseMapping(configs: seq<ClassConfig>): map<string, string>
  {
    FromItems(NameColors(configs))
  }

  /** A name is mapped exactly when some record has it. */
  lemma BaseMappingHas(configs: seq<ClassConfig>, name: string)
    ensures name in BaseMapping(configs) <==> exists i :: 0 <= i < |configs| && configs[i].name == name
  {
    var items := NameColors(configs);
    FromItemsHas(items, name);
    if exists i :: 0 <= i < |items| && items[i].0 == name {
      var i :| 0 <= i < |items| && items[i].0 == name;
      assert configs[i].name == name;
    }
    if exists i :: 0 <= i < |configs| && configs[i].name == name {
      var i :| 0 <= i < |configs| && configs[i].name == name;
      assert items[i].0 == name;
    }
  }

  /** A name holds the colour of the last record with that name: later records overwrite earlier ones. */
  lemma BaseMappingLastWins(configs: seq<ClassConfig>, i: nat)
    requires i < |configs|
    requires forall j :: i < j < |configs| ==> configs[j].name != configs[i].name
    ensures configs[i].name in BaseMapping(configs)
    ensures BaseMapping(configs)[configs[i].name] == configs[i].color
  {
    var items := NameColors(configs);
    forall j | i < j < |items| ensures items[j].0 != items[i].0 {
    }
    FromItemsLast(items, i);
  }

  /** The class a BIO key stands for: the key itself for `NON-ENTITY`, the text after the tag otherwise. */
  function Origin(key: string): string
  {
    if key != NonEntity && |key| >= 2 then key[2..] else key
  }

  /** The keys `tag + X` for the names `X` other than `NON-ENTITY`. */
  function TaggedKeys(tag: string, names: set<string>): set<string>
  {
    set x | x in names && x != NonEntity :: tag + x
  }

  /** The BIO keys of a set of class names. */
  function ExpandedKeys(names: set<string>): set<string>
  {
    (if NonEntity in names then {NonEntity} else {}) + TaggedKeys("B-", names) + TaggedKeys("I-", names)
  }

  /** A tagged key starts with its tag, ends with the name, and is not `NON-ENTITY`. */
  lemma TaggedKey(tag: string, x: string)
    requires tag == "B-" || tag == "I-"
    ensures (tag + x)[..2] == tag && Origin(tag + x) == x && tag + x != NonEntity
  {
    assert (tag + x)[0] == tag[0] != NonEntity[0];
  }

  /** The `B-` and `I-` keys of a name differ. */
  lemma TaggedKeysDistinct(x: string)
    ensures "B-" + x != "I-" + x
  {
    assert ("B-" + x)[0] == 'B' && ("I-" + x)[0] == 'I';
  }

  /** A key tagged with `tag` comes from a name other than `NON-ENTITY`, the text after the tag. */
  lemma TaggedKeyOrigin(tag: string, names: set<string>, key: string)
    requires (tag == "B-" || tag == "I-") && key in TaggedKeys(tag, names)
    ensures Origin(key) in names && Origin(key) != NonEntity && key == tag + Origin(key)
  {
    var x :| x in names && x != NonEntity && key == tag + x;
    TaggedKey(tag, x);
  }

  /** Every BIO key comes from one of the names: `NON-ENTITY` itself, or a tag before another name. */
  lemma ExpandedKeyOrigin(names: set<string>, key: string)
    requires key in ExpandedKeys(names)
    ensures Origin(key) in names
    ensures key == NonEntity || (Origin(key) != NonEntity && (key == "B-" + Origin(key) || key == "I-" + Origin(key)))
  {
    if key in TaggedKeys("B-", names) {
      TaggedKeyOrigin("B-", names, key);
    } else if key in TaggedKeys("I-", names) {
      TaggedKeyOrigin("I-", names, key);
    }
  }

  /** Adding a name other than `NON-ENTITY` adds exactly its two keys, neither of which was there. */
  lemma TaggedKeysStep(tag: string, names: set<string>, x: string)
    requires (tag == "B-" || tag == "I-") && x !in names && x != NonEntity
    ensures TaggedKeys(tag, names + {x}) == TaggedKeys(tag, names) + {tag + x}
    ensures tag + x !in TaggedKeys(tag, names)
  {
    if tag + x in TaggedKeys(tag, names) {
      TaggedKeyOrigin(tag, names, tag + x);
      TaggedKey(tag, x);
      assert false;
    }
  }

  /** Adding `NON-ENTITY` adds exactly that key, which was not there. */
  lemma ExpandedKeysAddNonEntity(names: set<string>)
    requires NonEntity !in names
    ensures ExpandedKeys(names + {NonEntity}) == ExpandedKeys(names) + {NonEntity}
    ensures NonEntity !in ExpandedKeys(names)
  {
    assert TaggedKeys("B-", names + {NonEntity}) == TaggedKeys("B-", names);
    assert TaggedKeys("I-", names + {NonEntity}) == TaggedKeys("I-", names);
    if NonEntity in ExpandedKeys(names) {
      ExpandedKeyOrigin(names, NonEntity);
      assert false;
    }
  }

  /** Adding another name adds exactly its two keys, neither of which was there. */
  lemma ExpandedKeysAddTagged(names: set<string>, x: string)
    requires x !in names && x != NonEntity
    ensures ExpandedKeys(names + {x}) == ExpandedKeys(names) + {"B-" + x, "I-" + x}
    ensures "B-" + x !in ExpandedKeys(names) && "I-" + x !in ExpandedKeys(names)
  {
    TaggedKeysStep("B-", names, x);
    TaggedKeysStep("I-", names, x);
    TaggedKey("B-", x);
    TaggedKey("I-", x);
    if "B-" + x in ExpandedKeys(names) {
      ExpandedKeyOrigin(names, "B-" + x);
      assert false;
    }
    if "I-" + x in ExpandedKeys(names) {
      ExpandedKeyOrigin(names, "I-" + x);
      assert false;
    }
  }

  /** Adding elements none of which is present adds their number. */
  lemma AddFresh<T>(a: set<T>, b: set<T>)
    requires a !! b
    ensures |a + b| == |a| + |b|
  {
  }

  /** Adding a name adds one key for `NON-ENTITY` and two for any other name. */
  lemma ExpandedKeysStep(names: set<string>, x: string)
    requires x !in names
    ensures |ExpandedKeys(names + {x})| == |ExpandedKeys(names)| + if x == NonEntity then 1 else 2
  {
    if x == NonEntity {
      ExpandedKeysAddNonEntity(names);
      AddFresh(ExpandedKeys(names), {x});
    } else {
      ExpandedKeysAddTagged(names, x);
      TaggedKeysDistinct(x);
      AddFresh(ExpandedKeys(names), {"B-" + x, "I-" + x});
    }
  }

  /** No two generated keys collide: two keys for every name but `NON-ENTITY`, which keeps one. */
  lemma {:induction false} ExpandedKeysSize(names: set<string>)
    ensures |ExpandedKeys(names)| == 2 * |names| - if NonEntity in names then 1 else 0
    decreases names
  {
    if names == {} {
      assert ExpandedKeys(names) == {};
    } else {
      var x :| x in names;
      var rest := names - {x};
      ExpandedKeysSize(rest);
      ExpandedKeysStep(rest, x);
      assert rest + {x} == names;
    }
  }

  /**
   * `r` is the expansion of the names in `names`, whose colours `m` gives: it has
   * exactly their BIO keys, and every key holds the colour of its class.
   */
  ghost predicate IsExpansion(m: map<string, string>, names: set<string>, r: map<string, string>)
  {
    && r.Keys == ExpandedKeys(names)
    && forall key :: key in r ==> Origin(key) in m && r[key] == m[Origin(key)]
  }

  /** `r` is what the `obi` expansion makes of the base mapping `m`. */
  ghost predicate IsBioMapping(m: map<string, string>, r: map<string, string>)
  {
    IsExpansion(m, m.Keys, r)
  }

  /** The expansion is determined by the base mapping, whatever order the names are visited in. */
  lemma BioMappingUnique(m: map<string, string>, r: map<string, string>, s: map<string, string>)
    requires IsBioMapping(m, r) && IsBioMapping(m, s)
    ensures r == s
  {
  }

  /** The size of the expansion: two keys for every class but `NON-ENTITY`, which keeps one. */
  lemma BioMappingSize(m: map<string, string>, r: map<string, string>)
    requires IsBioMapping(m, r)
    ensures |r| == 2 * |m| - if NonEntity in m then 1 else 0
  {
    ExpandedKeysSize(m.Keys);
    assert |r| == |r.Keys|;
  }

  /** `NON-ENTITY` is kept, with its colour, exactly when the base mapping has it. */
  lemma BioMappingNonEntity(m: map<string, string>, r: map<string, string>)
    requires IsBioMapping(m, r)
    ensures NonEntity in r <==> NonEntity in m
    ensures NonEntity in m ==> r[NonEntity] == m[NonEntity]
  {
    if NonEntity in r {
      ExpandedKeyOrigin(m.Keys, NonEntity);
    }
  }

  /** Every other class `X` yields `B-X` and `I-X`, both with the colour of `X`. */
  lemma BioMappingTagged(m: map<string, string>, r: map<string, string>, x: string)
    requires IsBioMapping(m, r) && x in m && x != NonEntity
    ensures "B-" + x in r && r["B-" + x] == m[x]
    ensures "I-" + x in r && r["I-" + x] == m[x]
  {
    TaggedKey("B-", x);
    TaggedKey("I-", x);
  }

  /**
   * Every key of the expansion is `NON-ENTITY` or a `B-`/`I-` tag before the name
   * of another class, and holds that class's colour.
   */
  lemma BioMappingKeys(m: map<string, string>, r: map<string, string>, key: string)
    requires IsBioMapping(m, r) && key in r
    ensures key == NonEntity || ((key[..2] == "B-" || key[..2] == "I-") && key[2..] in m && key[2..] != NonEntity)
    ensures key == NonEntity ==> NonEntity in m && r[key] == m[key]
    ensures key != NonEntity ==> key[2..] in m && r[key] == m[key[2..]]
  {
    ExpandedKeyOrigin(m.Keys, key);
    if key != NonEntity {
      var x := Origin(key);
      if key == "B-" + x {
        TaggedKey("B-", x);
      } else {
        TaggedKey("I-", x);
      }
    }
  }

  /** Before any name is visited the result is empty. */
  lemma ExpansionOfNothing(m: map<string, string>)
    ensures IsExpansion(m, {}, map[])
  {
    assert ExpandedKeys({}) == {};
  }

  /** Visiting `NON-ENTITY` copies it with its colour. */
  lemma ExpansionAddNonEntity(m: map<string, string>, names: set<string>, r: map<string, string>)
    requires NonEntity in m && NonEntity !in names && IsExpansion(m, names, r)
    ensures IsExpansion(m, names + {NonEntity}, r[NonEntity := m[NonEntity]])
  {
    var r' := r[NonEntity := m[NonEntity]];
    ExpandedKeysAddNonEntity(names);
    assert r'.Keys == r.Keys + {NonEntity};
    forall key | key in r' ensures Origin(key) in m && r'[key] == m[Origin(key)] {
      if key != NonEntity {
        assert key in r;
      }
    }
  }

  /** Visiting another name `X` adds `B-X` and `I-X` with its colour. */
  lemma ExpansionAddTagged(m: map<string, string>, names: set<string>, r: map<string, string>, x: string)
    requires x in m && x != NonEntity && x !in names && IsExpansion(m, names, r)
    ensures IsExpansion(m, names + {x}, r["B-" + x := m[x]]["I-" + x := m[x]])
  {
    var r' := r["B-" + x := m[x]]["I-" + x := m[x]];
    ExpandedKeysAddTagged(names, x);
    TaggedKey("B-", x);
    TaggedKey("I-", x);
    assert r'.Keys == r.Keys + {"B-" + x, "I-" + x};
    forall key | key in r' ensures Origin(key) in m && r'[key] == m[Origin(key)] {
      if key != "B-" + x && key != "I-" + x {
        assert key in r;
      }
    }
  }

  /**
   * `load_color_mapping(fpath, obi)` once the records are read: the base mapping,
   * returned as it is without `obi`, and otherwise expanded name by name into a new
   * dict. Each name is visited once, in any order.
   */
  method LoadColorMapping(configs: seq<ClassConfig>, obi: bool := false) returns (result: map<string, string>)
    ensures !obi ==> result == BaseMapping(configs)
    ensures obi ==> IsBioMapping(BaseMapping(configs), result)
  {
    var mapping := BaseMapping(configs);
    if !obi {
      return mapping;
    }
    result := map[];
    var pending := mapping.Keys;
    ghost var done: set<string> := {};
    ExpansionOfNothing(mapping);
    while pending != {}
      invariant done <= mapping.Keys && pending == mapping.Keys - done
      invariant IsExpansion(mapping, done, result)
      decreases pending
    {
      var key :| key in pending;
      var value := mapping[key];
      if key == NonEntity {
        ExpansionAddNonEntity(mapping, done, result);
        result := result[key := value];
      } else {
        ExpansionAddTagged(mapping, done, result, key);
        result := result["B-" + key := value];
        result := result["I-" + key := value];
      }
      done := done + {key};
      pending := pending - {key};
    }
    assert done == mapping.Keys;
  }

  /** The tagged keys of `LOCATION`. */
  lemma LocationKeys()
    ensures "B-" + "LOCATION" == "B-LOCATION" && "I-" + "LOCATION" == "I-LOCATION"
  {
    var b, i := "B-" + "LOCATION", "I-" + "LOCATION";
    assert |b| == 10 && |i| == 10;
    assert forall k :: 0 <= k < 10 ==> b[k] == "B-LOCATION"[k];
    assert forall k :: 0 <= k < 10 ==> i[k] == "I-LOCATION"[k];
  }

  /** The two-class example: `NON-ENTITY` kept, `LOCATION` split into its two tags. */
  lemma BioMappingExample()
    ensures IsBioMapping(map[NonEntity := "white", "LOCATION" := "green"],
      map[NonEntity := "white", "B-LOCATION" := "green", "I-LOCATION" := "green"])
  {
    var m := map[NonEntity := "white", "LOCATION" := "green"];
    var r0: map<string, string> := map[];
    ExpansionOfNothing(m);
    ExpansionAddNonEntity(m, {}, r0);
    var n1, r1 := {} + {NonEntity}, r0[NonEntity := "white"];
    ExpansionAddTagged(m, n1, r1, "LOCATION");
    var n2, r2 := n1 + {"LOCATION"}, r1["B-" + "LOCATION" := "green"]["I-" + "LOCATION" := "green"];
    assert n2 == m.Keys;
    LocationKeys();
    assert r2 == map[NonEntity := "white", "B-LOCATION" := "green", "I-LOCATION" := "green"];
  }
}
