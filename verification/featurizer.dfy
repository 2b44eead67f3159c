/**
 * The low-level token featuriser, `_lowlevel_features` in src/features.py: one
 * token becomes a flat mapping of named features (lower-case form, 2- and
 * 3-character affixes, case and digit flags, optionally the bias), with every
 * key optionally rewritten as `"{prefix}:{key}"`.
 *
 * A feature mapping is a `map` from the feature's string key to its value;
 * Python's `dict.update(other)` is the right-biased union `features + other`.
 * The ten features are enumerated by `Feature`, and `Name` gives each its key.
 */
module Featurizer {
  import opened PyStr
  import opened PyDict

  /** A feature value: a boolean flag, a string, or the bias, which is always the float 1.0. */
  datatype Value = Flag(flag: bool) | Text(text: string) | Bias

  type FeatureMap = map<string, Value>

  /** The `prefix` argument of the featuriser: None, a str, or an int. */
  datatype KeyPrefix = NoPrefix | StrPrefix(s: string) | IntPrefix(n: int)

  /** The features one token can produce. */
  datatype Feature = LowerForm | Suffix3 | Suffix2 | Prefix3 | Prefix2
    | UpperFlag | TitleFlag | DigitFlag | ContainsDigitFlag | BiasTerm

  /** The dictionary key of each feature. */
  function Name(f: Feature): string
  {
    match f
    case LowerForm => "token.lower()"
    case Suffix3 => "token[-3:]"
    case Suffix2 => "token[-2:]"
    case Prefix3 => "token[:3]"
    case Prefix2 => "token[:2]"
    case UpperFlag => "token.isupper()"
    case TitleFlag => "token.istitle()"
    case DigitFlag => "token.isdigit()"
    case ContainsDigitFlag => "contains_digit"
    case BiasTerm => "bias"
  }

  /** Every key is at least four characters long and starts with a letter. */
  lemma NameShape(f: Feature)
    ensures |Name(f)| >= 4 && !IsDigitChar(Name(f)[0])
  {
  }

  /** The feature a key names: the inverse of `Name`. */
  function FeatureOf(key: string): Feature
  {
    if key == "token.lower()" then LowerForm
    else if key == "token[-3:]" then Suffix3
    else if key == "token[-2:]" then Suffix2
    else if key == "token[:3]" then Prefix3
    else if key == "token[:2]" then Prefix2
    else if key == "token.isupper()" then UpperFlag
    else if key == "token.istitle()" then TitleFlag
    else if key == "token.isdigit()" then DigitFlag
    else if key == "contains_digit" then ContainsDigitFlag
    else BiasTerm
  }

  /** Reading a key back gives the feature that has it. */
  lemma FeatureOfName(f: Feature)
    ensures FeatureOf(Name(f)) == f
  {
  }

  /** Different features have different keys. */
  lemma NamesInjective()
    ensures forall f: Feature, g: Feature :: Name(f) == Name(g) ==> f == g
  {
    forall f: Feature, g: Feature | Name(f) == Name(g) ensures f == g {
      FeatureOfName(f);
      FeatureOfName(g);
    }
  }

  /** What the featuriser computes for each feature of a token. */
  function FeatureValue(token: string, f: Feature): Value
  {
    match f
    case LowerForm => Text(Lower(token))
    case Suffix3 => Text(Tail(token, 3))
    case Suffix2 => Text(Tail(token, 2))
    case Prefix3 => Text(Head(token, 3))
    case Prefix2 => Text(Head(token, 2))
    case UpperFlag => Flag(IsUpper(token))
    case TitleFlag => Flag(IsTitle(token))
    case DigitFlag => Flag(IsDigit(token))
    case ContainsDigitFlag => Flag(ContainsDigit(token))
    case BiasTerm => Bias
  }

  /** The features of the dict literal, in the order it lists them; the bias is not among them. */
  const TokenFeatures: seq<Feature> :=
    [LowerForm, Suffix3, Suffix2, Prefix3, Prefix2, UpperFlag, TitleFlag, DigitFlag, ContainsDigitFlag]

  /** The features in the order they are inserted: the bias comes last, when asked for. */
  function FeatureList(includeBias: bool): seq<Feature>
  {
    if includeBias then TokenFeatures + [BiasTerm] else TokenFeatures
  }

  /** The feature is produced for this `include_bias`: every one but the bias always. */
  predicate Included(f: Feature, includeBias: bool)
  {
    includeBias || f != BiasTerm
  }

  /** Ten features with the bias, nine without, none twice, and exactly the included ones. */
  lemma FeatureListFacts(includeBias: bool)
    ensures var fs := FeatureList(includeBias);
      && |fs| == (if includeBias then 10 else 9)
      && (forall i, j :: 0 <= i < j < |fs| ==> fs[i] != fs[j])
      && (forall f :: f in fs <==> Included(f, includeBias))
  {
    var fs := FeatureList(includeBias);
    forall f: Feature | Included(f, includeBias) ensures f in fs {
      if f != BiasTerm {
        assert f in TokenFeatures;
      }
    }
  }

  /** The items of the dict literal for `fs`: each feature's key with its value, in order. */
  function Items(token: string, fs: seq<Feature>): (items: seq<(string, Value)>)
    ensures |items| == |fs|
  {
    if fs == [] then []
    else Items(token, fs[..|fs| - 1]) + [(Name(fs[|fs| - 1]), FeatureValue(token, fs[|fs| - 1]))]
  }

  /** Item `i` pairs feature `i` with its value. */
  lemma {:induction false} ItemAt(token: string, fs: seq<Feature>, i: nat)
    requires i < |fs|
    ensures Items(token, fs)[i] == (Name(fs[i]), FeatureValue(token, fs[i]))
  {
    if i < |fs| - 1 {
      ItemAt(token, fs[..|fs| - 1], i);
    }
  }

  /** `f"{prefix}"` for a prefix that is not None. */
  function PrefixText(prefix: KeyPrefix): string
    requires !prefix.NoPrefix?
  {
    match prefix
    case StrPrefix(text) => text
    case IntPrefix(n) => IntToString(n)
  }

  /** `f"{p}:{k}"`: the key `k` under the rendered prefix `p`. */
  function PrefixedKey(p: string, k: string): (key: string)
    ensures |key| == |p| + 1 + |k|
    ensures key[..|p|] == p && key[|p|] == ':' && key[|p| + 1..] == k
  {
    p + ":" + k
  }

  /** `[(f"{p}:{key}", value) for key, value in items]`: every key rewritten, values and order kept. */
  function PrefixItems(items: seq<(string, Value)>, p: string): (r: seq<(string, Value)>)
    ensures |r| == |items|
  {
    if items == [] then []
    else PrefixItems(items[..|items| - 1], p) + [(PrefixedKey(p, items[|items| - 1].0), items[|items| - 1].1)]
  }

  /** Item `i` keeps its value and gets its key prefixed. */
  lemma {:induction false} PrefixItemAt(items: seq<(string, Value)>, p: string, i: nat)
    requires i < |items|
    ensures PrefixItems(items, p)[i] == (PrefixedKey(p, items[i].0), items[i].1)
  {
    if i < |items| - 1 {
      PrefixItemAt(items[..|items| - 1], p, i);
    }
  }

  /** Where the featuriser puts the value stored under `k` before prefixing. */
  function KeyUnder(prefix: KeyPrefix, k: string): string
  {
    if prefix.NoPrefix? then k else PrefixedKey(PrefixText(prefix), k)
  }

  /** The items of the returned dict, in insertion order. */
  function Entries(token: string, prefix: KeyPrefix, includeBias: bool): (es: seq<(string, Value)>)
    ensures |es| == |FeatureList(includeBias)|
  {
    var items := Items(token, FeatureList(includeBias));
    if prefix.NoPrefix? then items else PrefixItems(items, PrefixText(prefix))
  }

  /** `_lowlevel_features(token, prefix, include_bias)` */
  function LowLevelFeatures(token: string, prefix: KeyPrefix := NoPrefix, includeBias: bool := true): FeatureMap
  {
    FromItems(Entries(token, prefix, includeBias))
  }

  /** Item `i` is feature `i` of the list, under its (possibly prefixed) key. */
  lemma EntryAt(token: string, prefix: KeyPrefix, includeBias: bool, i: nat)
    requires i < |FeatureList(includeBias)|
    ensures var f := FeatureList(includeBias)[i];
      Entries(token, prefix, includeBias)[i] == (KeyUnder(prefix, Name(f)), FeatureValue(token, f))
  {
    var items := Items(token, FeatureList(includeBias));
    ItemAt(token, FeatureList(includeBias), i);
    if !prefix.NoPrefix? {
      PrefixItemAt(items, PrefixText(prefix), i);
    }
  }

  /** Under a fixed prefix, different features still have different keys. */
  lemma KeyUnderInjective(prefix: KeyPrefix, f: Feature, g: Feature)
    requires KeyUnder(prefix, Name(f)) == KeyUnder(prefix, Name(g))
    ensures f == g
  {
    if !prefix.NoPrefix? {
      var p := PrefixText(prefix);
      assert Name(f) == PrefixedKey(p, Name(f))[|p| + 1..];
    }
    NamesInjective();
  }

  /** No two items of the returned dict share a key. */
  lemma EntriesDistinct(token: string, prefix: KeyPrefix, includeBias: bool)
    ensures DistinctKeys(Entries(token, prefix, includeBias))
  {
    var fs, es := FeatureList(includeBias), Entries(token, prefix, includeBias);
    FeatureListFacts(includeBias);
    forall i, j | 0 <= i < j < |es| ensures es[i].0 != es[j].0 {
      EntryAt(token, prefix, includeBias, i);
      EntryAt(token, prefix, includeBias, j);
      if es[i].0 == es[j].0 {
        KeyUnderInjective(prefix, fs[i], fs[j]);
      }
    }
  }

  /** The keys of the result: every included feature's key under the prefix. */
  function KeySet(prefix: KeyPrefix, includeBias: bool): set<string>
  {
    set f | Included(f, includeBias) :: KeyUnder(prefix, Name(f))
  }

  /** A key is present exactly when it is some included feature's key under the prefix. */
  lemma LowLevelHas(token: string, prefix: KeyPrefix, includeBias: bool, key: string)
    ensures key in LowLevelFeatures(token, prefix, includeBias) <==> key in KeySet(prefix, includeBias)
  {
    var fs, es := FeatureList(includeBias), Entries(token, prefix, includeBias);
    FromItemsHas(es, key);
    if key in FromItems(es) {
      var i :| 0 <= i < |es| && es[i].0 == key;
      EntryAt(token, prefix, includeBias, i);
      FeatureListFacts(includeBias);
      assert Included(fs[i], includeBias) && key == KeyUnder(prefix, Name(fs[i]));
    }
    if key in KeySet(prefix, includeBias) {
      var f :| Included(f, includeBias) && key == KeyUnder(prefix, Name(f));
      ValueAt(token, prefix, includeBias, f);
    }
  }

  /**
   * The result has the nine token features, plus the bias exactly when asked
   * for, under their keys, prefixed when the prefix is not None; no two keys are
   * merged, so there are ten or nine of them.
   */
  lemma LowLevelKeys(token: string, prefix: KeyPrefix, includeBias: bool)
    ensures LowLevelFeatures(token, prefix, includeBias).Keys == KeySet(prefix, includeBias)
    ensures |LowLevelFeatures(token, prefix, includeBias)| == if includeBias then 10 else 9
  {
    LowLevelSize(token, prefix, includeBias);
    forall key ensures key in LowLevelFeatures(token, prefix, includeBias) <==> key in KeySet(prefix, includeBias) {
      LowLevelHas(token, prefix, includeBias, key);
    }
  }

  /** No two items share a key, so the result has ten keys with the bias and nine without. */
  lemma LowLevelSize(token: string, prefix: KeyPrefix, includeBias: bool)
    ensures |LowLevelFeatures(token, prefix, includeBias)| == if includeBias then 10 else 9
  {
    FeatureListFacts(includeBias);
    EntriesDistinct(token, prefix, includeBias);
    FromItemsSize(Entries(token, prefix, includeBias));
  }

  /** Every listed feature holds `FeatureValue` under its key, whatever the prefix. */
  lemma ValueAt(token: string, prefix: KeyPrefix, includeBias: bool, g: Feature)
    requires Included(g, includeBias)
    ensures KeyUnder(prefix, Name(g)) in LowLevelFeatures(token, prefix, includeBias)
    ensures LowLevelFeatures(token, prefix, includeBias)[KeyUnder(prefix, Name(g))] == FeatureValue(token, g)
  {
    var fs, es := FeatureList(includeBias), Entries(token, prefix, includeBias);
    FeatureListFacts(includeBias);
    var i :| 0 <= i < |fs| && fs[i] == g;
    EntryAt(token, prefix, includeBias, i);
    EntriesDistinct(token, prefix, includeBias);
    FromItemsLast(es, i);
  }

  /** The bias feature is the constant 1.0, whatever the token. */
  lemma BiasValue(token: string)
    ensures FeatureValue(token, BiasTerm) == Bias
  {
  }

  /** Without `include_bias` no key of the result holds the bias, under any prefix. */
  lemma NoBiasKey(token: string, prefix: KeyPrefix)
    ensures KeyUnder(prefix, Name(BiasTerm)) !in LowLevelFeatures(token, prefix, false)
  {
    var key := KeyUnder(prefix, Name(BiasTerm));
    LowLevelKeys(token, prefix, false);
    FeatureListFacts(false);
    if key in KeySet(prefix, false) {
      var g :| Included(g, false) && key == KeyUnder(prefix, Name(g));
      KeyUnderInjective(prefix, g, BiasTerm);
      assert false;
    }
  }

  /** The bias is present exactly when asked for, and then it is 1.0. */
  lemma BiasFeature(token: string, prefix: KeyPrefix, includeBias: bool)
    ensures var f := LowLevelFeatures(token, prefix, includeBias);
      && (KeyUnder(prefix, Name(BiasTerm)) in f <==> includeBias)
      && (includeBias ==> f[KeyUnder(prefix, Name(BiasTerm))] == Bias)
  {
    if includeBias {
      FeatureListFacts(includeBias);
      ValueAt(token, prefix, includeBias, BiasTerm);
      BiasValue(token);
    } else {
      NoBiasKey(token, prefix);
    }
  }

  /** The smaller of two integers. */
  function Min(a: int, b: int): int { if a < b then a else b }

  /** How many characters an affix feature keeps: 3 or 2. */
  function AffixWidth(g: Feature): nat
  {
    if g.Prefix3? || g.Suffix3? then 3 else 2
  }

  /** The features that keep a slice of the token. */
  predicate IsAffix(g: Feature)
  {
    g.Prefix3? || g.Prefix2? || g.Suffix3? || g.Suffix2?
  }

  /**
   * An affix feature holds the first (or last) `AffixWidth` characters of the
   * token, or the whole token when it is shorter.
   */
  lemma AffixValue(token: string, g: Feature)
    requires IsAffix(g)
    ensures var v := FeatureValue(token, g);
      && v.Text? && |v.text| == Min(|token|, AffixWidth(g))
      && ((g.Prefix3? || g.Prefix2?) ==> v.text == token[..|v.text|])
      && ((g.Suffix3? || g.Suffix2?) ==> v.text == token[|token| - |v.text|..])
      && (|token| <= AffixWidth(g) ==> v == Text(token))
  {
  }

  /** The empty token gives the empty string for every text feature and false for every flag. */
  lemma EmptyTokenValue(g: Feature)
    requires g != BiasTerm
    ensures FeatureValue("", g) == Text("") || FeatureValue("", g) == Flag(false)
  {
  }

  /** Under the integer prefix 0 the lower-case form is stored under `"0:token.lower()"`. */
  lemma ZeroPrefixValue(token: string)
    ensures var f := LowLevelFeatures(token, IntPrefix(0), false);
      "0:token.lower()" in f && f["0:token.lower()"] == Text(Lower(token))
  {
    assert PrefixText(IntPrefix(0)) == "0";
    assert KeyUnder(IntPrefix(0), Name(LowerForm)) == "0:token.lower()";
    ValueAt(token, IntPrefix(0), false, LowerForm);
  }

  /** Under the integer prefix 0 every key starts with `0`, so no key is left unprefixed. */
  lemma ZeroPrefixNoBareKey(token: string)
    ensures forall g: Feature :: Name(g) !in LowLevelFeatures(token, IntPrefix(0), false)
  {
    var f := LowLevelFeatures(token, IntPrefix(0), false);
    assert PrefixText(IntPrefix(0)) == "0";
    LowLevelKeys(token, IntPrefix(0), false);
    forall key | key in f ensures key[0] == '0' {
      var g :| Included(g, false) && key == KeyUnder(IntPrefix(0), Name(g));
    }
    forall g: Feature ensures Name(g) !in f {
      NameShape(g);
    }
  }

  /** The test is `prefix is not None`, so the integer prefix 0 is still applied. */
  lemma ZeroPrefixApplied(token: string)
    ensures var f := LowLevelFeatures(token, IntPrefix(0), false);
      && "0:token.lower()" in f && f["0:token.lower()"] == Text(Lower(token))
      && forall g: Feature :: Name(g) !in f
  {
    ZeroPrefixValue(token);
    ZeroPrefixNoBareKey(token);
  }
}
