# ENG-NER feature and label model

A Dafny model of the token-featurisation and label-encoding core of the ENG-NER
named-entity recogniser. It covers four parts:

- the per-token featuriser `_lowlevel_features`;
- the windowed feature builder `_token2features` and the sentence sequencer
  `tokens2features`;
- the BIO label decoder `numbers2labels`, all in `src/features.py`;
- the colour-map derivation of `load_color_mapping` in `src/utils.py`, after its
  YAML configuration has been parsed.

Modules:

- `Wrappers`: `Option` and `Result`, used where the Python code returns `None`
  or raises.
- `PyStr`: the Python string operations the featuriser uses. They are ASCII
  approximations of `str.lower`, `str.isupper`, `str.istitle` and `str.isdigit`,
  together with Python's clamped slices and the decimal rendering `f"{n}"` of an int.
- `PyDict`: how the code builds dicts. `dict(items)` and dict literals keep, for
  each key, the value of the last item that has it. A run of `d.update(e)` calls
  is a fold of the right-biased union `d + e`.
- `Featurizer`: `_lowlevel_features`. The ten features are an enumeration with
  their keys and values. The result is the dict built from the items of the literal,
  plus the bias when it is asked for, with every key rewritten as
  `"{prefix}:{key}"` when the prefix is not `None`.
- `Window`: `_token2features` is a method whose loop merges each window token's
  features in with `dict.update`. It is proved equal to `WindowFeatures`, the fold
  of those updates over the window, and the properties of the result are proved
  about that fold. `tokens2features` is the function that applies the builder at
  every position.
- `LabelCodec`: `numbers2labels` is a method carrying `last_number` through its
  loop. It is proved equal to a position-by-position closed form, including the
  `KeyError` raised for an unknown id.
- `ColorMapping`: the base name-to-colour mapping, and a method for the `obi`
  expansion to `NON-ENTITY`, `B-X` and `I-X` keys. A relational specification
  states what the expansion is, and the expansion is proved unique.

The window of `_token2features` is modelled as the code computes it. The slice is
`tokens[clip(i-w, 0, n) : clip(i+w, 0, n)]`, and its end is exclusive. So the
window reaches `w` positions before the centre but only `w - 1` after it, and for
`w <= 0` it is empty, so even the centre contributes nothing. The docstrings of
`_token2features` and `tokens2features` describe `window_size` as "how many words
before and after" to include. The model follows the code, and
`Window.WindowIsAsymmetric` states the difference.

## Model

| member | source | states |
|---|---|---|
| PyStr.Lower | src/features.py:26 | `token.lower()` keeps the length, leaves no upper-case letter and keeps every other character |
| PyStr.IsUpper | src/features.py:31 | `token.isupper()` is false for the empty token |
| PyStr.IsTitle | src/features.py:32 | `token.istitle()` is false for the empty token and for one that starts with a lower-case letter |
| PyStr.IsDigit | src/features.py:33 | `token.isdigit()` is false for the empty token |
| PyStr.ContainsDigit | src/features.py:34 | a token made only of digits contains a digit |
| PyStr.Head | src/features.py:29-30 | `token[:n]` is the prefix of length `min(len, n)`: the whole token when it is shorter, never padding or an error |
| PyStr.Tail | src/features.py:27-28 | `token[-n:]` is the suffix of length `min(len, n)`: the whole token when it is shorter |
| PyStr.NatToString | src/features.py:41 | the decimal rendering of a non-negative int is non-empty and all digits |
| PyStr.NatToStringRoundTrip | src/features.py:41 | reading the rendering of `n` back as digits gives `n` |
| PyStr.NatToStringInjective | src/features.py:41 | different positions render as different prefixes |
| PyStr.IntToString | src/features.py:41 | `f"{n}"` is non-empty, holds no `:`, and is the digit rendering for `n >= 0` |
| PyStr.SplitAtFirstColon | src/features.py:41 | helper of `Window.NeighbourKeysDisjoint`: two `"{p}:{k}"` keys whose prefixes hold no `:` are equal only when both parts are |
| PyDict.FromItems | src/features.py:25-35 | a dict literal or `dict(items)`: the items inserted in order, a later one overwriting an earlier one; its presence, size and value facts are `FromItemsHas`, `FromItemsSize` and `FromItemsLast` |
| PyDict.UpdateAll | src/features.py:65-82 | the seed dict followed by one `.update` per part, a fold of the right-biased union; its facts are `UpdateAllLacks`, `UpdateAllSize`, `UpdateAllValue` and `UpdateAllKeepsSeed` |
| PyDict.FromItemsHas | src/features.py:25-35 | a dict built from items has a key exactly when some item has it |
| PyDict.FromItemsSize | src/features.py:25-35 | items with distinct keys build a dict with one key per item |
| PyDict.FromItemsLast | src/utils.py:40 | a key holds the value of the last item that has it |
| PyDict.UpdateAllLacks | src/features.py:75-82 | a key that neither the seed nor any update has stays absent |
| PyDict.UpdateAllSize | src/features.py:75-82 | with pairwise disjoint keys, the updated dict's size is the sum of the sizes |
| PyDict.UpdateAllValue | src/features.py:75-82 | a key keeps the value of the last update that has it |
| PyDict.UpdateAllKeepsSeed | src/features.py:65-82 | a seed key that no update has keeps its seed value |
| Featurizer.Name | src/features.py:25-38 | the ten keys of the literal and the bias, one per feature; pairwise different by `NamesInjective` |
| Featurizer.FeatureValue | src/features.py:26-38 | the value the literal computes for each feature: `lower()`, the four slices, the four flags, and 1.0 for the bias; stated by `AffixValue`, `EmptyTokenValue` and `BiasValue` |
| Featurizer.NameShape | src/features.py:25-38 | helper of `Window.ContributionKeysShape`: every feature key has at least four characters and does not start with a digit |
| Featurizer.NamesInjective | src/features.py:25-38 | the ten feature keys of the literal and the bias are pairwise different |
| Featurizer.FeatureListFacts | src/features.py:25-38 | ten features with the bias and nine without, none twice, exactly the included ones |
| Featurizer.Items | src/features.py:25-35 | the literal has one item per feature |
| Featurizer.ItemAt | src/features.py:25-35 | item `i` pairs feature `i`'s key with its value |
| Featurizer.PrefixedKey | src/features.py:41 | `"{p}:{k}"` is `p`, then `:`, then `k` |
| Featurizer.PrefixItems | src/features.py:41 | the comprehension keeps the number of items |
| Featurizer.PrefixItemAt | src/features.py:41 | item `i` keeps its value and gets its key prefixed |
| Featurizer.Entries | src/features.py:25-44 | the items of the result are as many as the included features |
| Featurizer.EntryAt | src/features.py:25-44 | item `i` is feature `i`'s value under its key, prefixed when the prefix is not None |
| Featurizer.KeyUnderInjective | src/features.py:40-44 | under one prefix, different features get different keys |
| Featurizer.EntriesDistinct | src/features.py:25-44 | no two items of the result share a key |
| Featurizer.LowLevelFeatures | src/features.py:4-44 | `_lowlevel_features(token, prefix=None, include_bias=True)`, with the same defaults: the dict of the literal's items, the bias appended when asked for, every key rewritten as `"{prefix}:{key}"` when the prefix is not None; its keys, size, values and bias are stated by `LowLevelKeys`, `LowLevelSize`, `ValueAt` and `BiasFeature` |
| Featurizer.LowLevelHas | src/features.py:25-44 | a key is in the result exactly when it is an included feature's key under the prefix |
| Featurizer.LowLevelKeys | src/features.py:25-44 | the result's keys are exactly the included features' keys under the prefix: ten with the bias, nine without |
| Featurizer.LowLevelSize | src/features.py:25-44 | the result has ten keys with the bias and nine without, whatever the prefix |
| Featurizer.ValueAt | src/features.py:25-44 | every included feature holds its computed value under its key, whatever the prefix |
| Featurizer.BiasValue | src/features.py:37-38 | the bias is the constant 1.0 |
| Featurizer.NoBiasKey | src/features.py:37-38 | without `include_bias` no key holds the bias, under any prefix |
| Featurizer.BiasFeature | src/features.py:37-44 | the bias key is present if and only if `include_bias`, and then holds 1.0 |
| Featurizer.AffixValue | src/features.py:27-30 | an affix has length `min(len, width)`, is a prefix or suffix of the token, and is the whole token when that is shorter |
| Featurizer.EmptyTokenValue | src/features.py:26-34 | the empty token gives empty strings and false flags |
| Featurizer.ZeroPrefixValue | src/features.py:40-44 | under the int prefix 0 the lower-case form sits under `"0:token.lower()"` |
| Featurizer.ZeroPrefixNoBareKey | src/features.py:40-44 | under the int prefix 0 no feature's bare key is present: every key is left prefixed |
| Featurizer.ZeroPrefixApplied | src/features.py:40-44 | the test is `is not None`, so the prefix 0 is applied like any other: `"0:token.lower()"` holds the lower-case form and no bare feature key is present |
| Window.Clip | src/features.py:69-71 | `np.clip` stays in `[lo, hi]` and leaves values already inside unchanged |
| Window.WindowLength | src/features.py:68-72 | the slice ends inside the sentence |
| Window.WindowSlice | src/features.py:67-74 | the slice holds `WindowLength` tokens, the `k`-th at position `start + k`, which is what `enumerate(..., start=start)` pairs it with |
| Window.WindowMembers | src/features.py:67-74 | a position is visited if and only if it lies in the sentence and in `[i-w, i+w)` |
| Window.CentreInWindow | src/features.py:67-76 | the centre is visited if and only if it is in the sentence and `w >= 1` |
| Window.NonPositiveWindowIsEmpty | src/features.py:69-71 | with `w <= 0` nothing is visited |
| Window.WindowIsAsymmetric | src/features.py:69-71 | away from the edges the window reaches `w` back and `w - 1` forward, `2w` positions in all |
| Window.WindowAtSentenceStart | src/features.py:67-74 | for three tokens, `w = 2` and centre 0, only positions 0 and 1 are visited |
| Window.ContributionKeysShape | src/features.py:75-82 | neighbour keys start with a digit, centre keys do not, and none is `BOS` or `EOS` |
| Window.NeighbourKeysDisjoint | src/features.py:78-82 | two neighbours never share a key |
| Window.ContributionKeysDisjoint | src/features.py:75-82 | two different positions never share a key |
| Window.ContributionKeysAre | src/features.py:75-82 | the centre adds the unprefixed keys with the bias, a neighbour its `"j:"` keys without it |
| Window.ContributionSize | src/features.py:75-82 | the centre adds ten keys, a neighbour nine |
| Window.ContributionValue | src/features.py:75-82 | each feature of a visited token lands under its window key with the featuriser's value |
| Window.Seed | src/features.py:65 | the starting dict: `BOS` is whether the index is 0, `EOS` whether it is the last index; kept to the end by `MergedKeepsSeed` |
| Window.Contribution | src/features.py:75-82 | what the update at position `j` merges in: the default call (no prefix, with the bias) at the centre, the `"j:"` features without it elsewhere; keys, size and values by `ContributionKeysAre`, `ContributionSize` and `ContributionValue` |
| Window.SeedLacks | src/features.py:65 | no contributed key is a flag |
| Window.ContributionLacks | src/features.py:75-82 | a key of one position is not contributed by another |
| Window.ContributionExclusive | src/features.py:75-82 | a contributed key is neither a flag nor contributed by another position |
| Window.ContributionLacksFlags | src/features.py:75-82 | no position contributes `BOS` or `EOS`, and no neighbour contributes the bias |
| Window.Merged | src/features.py:65-82 | the dict after the loop has merged the first `n` positions of the window: the flags, then one update per position in increasing order; stated by `MergedStep`, `MergedSize`, `MergedValue` and `MergedKeepsSeed` |
| Window.MergedStep | src/features.py:75-82 | merging one more position is one more `dict.update` with its contribution |
| Window.MergedStepCentre | src/features.py:75-76 | merging the centre adds its unprefixed features with the bias |
| Window.MergedStepNeighbour | src/features.py:77-82 | merging a neighbour adds its features prefixed by its absolute position, without the bias |
| Window.MergedLacks | src/features.py:67-82 | a key of a position not yet merged is absent |
| Window.PartLacksSeed | src/features.py:65-82 | no visited position contributes a flag |
| Window.PartExclusive | src/features.py:75-82 | two visited positions contribute disjoint keys |
| Window.PartsLackSeed | src/features.py:65-82 | no position of the window contributes a flag |
| Window.PartsExclusive | src/features.py:75-82 | the positions of the window contribute pairwise disjoint keys |
| Window.MergedDisjoint | src/features.py:65-82 | the flags and all contributions are pairwise disjoint |
| Window.PartSize | src/features.py:75-82 | a visited position contributes ten keys for the centre and nine otherwise |
| Window.PartSizes | src/features.py:75-82 | counted with repetition, the window holds nine keys per position plus one for the centre |
| Window.MergedSize | src/features.py:65-82 | no key is overwritten: two flags, nine keys per position, one more for the centre |
| Window.PartLacksLater | src/features.py:75-82 | a position's key is contributed by no later position |
| Window.MergedValue | src/features.py:75-82 | every merged key keeps the value its position gave it |
| Window.MergedKeepsSeed | src/features.py:65-82 | `BOS` and `EOS` are never overwritten |
| Window.MergedNoBias | src/features.py:75-82 | without the centre among the merged positions there is no bias |
| Window.WindowFeatures | src/features.py:47-84 | the specification the loop is proved equal to: `Merged` over the whole clipped window; its flags, values, exclusions, size and bias are `WindowFlags`, `WindowValue`, `WindowExcludes`, `WindowSize` and `WindowBias` |
| Window.WindowFlags | src/features.py:65 | `BOS` is true if and only if the index is 0, and `EOS` if and only if it is the last index |
| Window.OneTokenFlags | src/features.py:65 | in a one-token sentence both `BOS` and `EOS` are true |
| Window.WindowValue | src/features.py:67-82 | every feature of every visited token is present under its window key with its value |
| Window.WindowExcludes | src/features.py:67-82 | positions outside the window contribute nothing |
| Window.WindowSize | src/features.py:65-82 | the result holds `2 + 9·len` keys, plus one when the centre is visited |
| Window.WindowBias | src/features.py:67-82 | the bias is present if and only if the centre is in the sentence and `w >= 1` |
| Window.NonPositiveWindowFeatures | src/features.py:65-74 | with `w <= 0` only the two flags remain |
| Window.Token2Features | src/features.py:47-84 | the loop's result is the fold `WindowFeatures`: the flags updated with each window position's features, in increasing order |
| Window.PositionFeatures | src/features.py:103-106 | at position `i`: `BOS` if and only if `i = 0`, `EOS` if and only if last, bias if and only if `w >= 1`, and the key count |
| Window.Tokens2Features | src/features.py:87-106 | one mapping per token, in order, each the builder's result at that position with its flags and bias as above; the window size defaults to 2 |
| Window.DefaultWindow | src/features.py:87 | without a window size the sequencer uses 2: position `j` is visited for token `i` exactly when `0 <= j < n` and `i-2 <= j <= i+1`, two positions before and one after |
| LabelCodec.LabelAt | src/features.py:129-141 | the label of one known id, from the class table `{0: NON-ENTITY, 1: LOCATION, 2: PERSON, 4: MISC}`: the name for 0, `I-` before it when the previous id is the same, `B-` otherwise; stated by `DecodedLabels` |
| LabelCodec.Decoded | src/features.py:127-143 | the closed form of the decoder: `KeyError` of the first unknown id, or the labels position by position; stated by `DecodedFails`, `DecodedLabels` and `InsideFollowsRun`, and the loop is proved equal to it |
| LabelCodec.FirstUnknown | src/features.py:132-139 | the first position whose id is not in the class table, or none if and only if all ids are known |
| LabelCodec.FirstUnknownAt | src/features.py:132-139 | an unknown id with only known ids before it is the first unknown one |
| LabelCodec.NumbersToLabels | src/features.py:109-143 | the loop returns the labels position by position, or `KeyError` of the first unknown id |
| LabelCodec.TaggedParts | src/features.py:139-141 | helper of `DecodedLabels` and `InsideFollowsRun`: a tagged label splits back into its tag and its class name |
| LabelCodec.TagsDiffer | src/features.py:135-141 | helper of `InsideFollowsRun`: `I-` labels differ from `B-` labels and from `NON-ENTITY` |
| LabelCodec.DecodedFails | src/features.py:129-139 | decoding fails if and only if some id is unknown, and the error carries the first unknown id |
| LabelCodec.DecodedLabels | src/features.py:132-141 | one label per id: id 0 gives `NON-ENTITY`; any other id gives `I-X` if and only if the previous id is the same, and `B-X` otherwise |
| LabelCodec.InsideFollowsRun | src/features.py:137-141 | every `I-X` directly follows a `B-X` or an `I-X` |
| LabelCodec.DecodeRuns | src/features.py:127-143 | `[1,1,2,0,1]` gives `B-LOCATION, I-LOCATION, B-PERSON, NON-ENTITY, B-LOCATION` |
| LabelCodec.DecodeAdjacentClasses | src/features.py:127-143 | `[1,2]` gives `B-LOCATION, B-PERSON` |
| LabelCodec.DecodeUnknown | src/features.py:137-139 | `[1,3]` raises `KeyError(3)` |
| LabelCodec.DecodeEmpty | src/features.py:127-143 | no ids give no labels |
| ColorMapping.BaseMapping | src/utils.py:40 | the comprehension `{name: color}` over the records, in order: the dict built from their `(name, color)` items, so a name is mapped if and only if some record has it and holds the colour of the last such record (`BaseMappingHas`, `BaseMappingLastWins`) |
| ColorMapping.BaseMappingHas | src/utils.py:40 | a name is mapped if and only if some record has it |
| ColorMapping.BaseMappingLastWins | src/utils.py:40 | a name holds the colour of the last record with that name |
| ColorMapping.TaggedKey | src/utils.py:51-52 | a tagged key starts with its tag, gives back its name, and is not `NON-ENTITY` |
| ColorMapping.TaggedKeysDistinct | src/utils.py:51-52 | helper of `ExpandedKeysStep`: the `B-` and `I-` keys of a name differ |
| ColorMapping.ExpandedKeys | src/utils.py:45-54 | the keys the expansion writes: `NON-ENTITY` when it is a name, and `B-X`, `I-X` for every other name `X`; no collisions by `ExpandedKeysSize` |
| ColorMapping.TaggedKeyOrigin | src/utils.py:50-52 | a tagged key comes from a name other than `NON-ENTITY` |
| ColorMapping.ExpandedKeyOrigin | src/utils.py:45-54 | every generated key is `NON-ENTITY` or a tag before another name |
| ColorMapping.TaggedKeysStep | src/utils.py:50-52 | a new name adds exactly its tagged key, which was not there |
| ColorMapping.ExpandedKeysAddNonEntity | src/utils.py:48-49 | `NON-ENTITY` adds exactly itself, which was not there |
| ColorMapping.ExpandedKeysAddTagged | src/utils.py:50-52 | another name adds exactly its two keys, neither of which was there |
| ColorMapping.ExpandedKeysStep | src/utils.py:47-52 | a new name adds one key for `NON-ENTITY` and two otherwise |
| ColorMapping.ExpandedKeysSize | src/utils.py:45-54 | no keys collide: `2·n` keys, one fewer when `NON-ENTITY` is a name |
| ColorMapping.IsBioMapping | src/utils.py:45-54 | what the `obi` expansion of a base mapping is: exactly the `ExpandedKeys` of its names, each holding the colour of its class; unique by `BioMappingUnique`, described by `BioMappingSize`, `BioMappingNonEntity`, `BioMappingTagged` and `BioMappingKeys` |
| ColorMapping.BioMappingUnique | src/utils.py:47-52 | the expansion does not depend on the order the names are visited in |
| ColorMapping.BioMappingSize | src/utils.py:45-54 | the result has `2·n` keys, one fewer when `NON-ENTITY` is mapped |
| ColorMapping.BioMappingNonEntity | src/utils.py:48-49 | `NON-ENTITY` is kept with its colour if and only if it is mapped |
| ColorMapping.BioMappingTagged | src/utils.py:50-52 | every other name `X` yields `B-X` and `I-X` with the colour of `X` |
| ColorMapping.BioMappingKeys | src/utils.py:45-54 | every key is `NON-ENTITY` or `B-`/`I-` before another mapped name, and holds that name's colour |
| ColorMapping.ExpansionOfNothing | src/utils.py:45 | the result starts empty |
| ColorMapping.ExpansionAddNonEntity | src/utils.py:48-49 | visiting `NON-ENTITY` copies it with its colour and keeps the expansion invariant |
| ColorMapping.ExpansionAddTagged | src/utils.py:50-52 | visiting another name adds its two keys and keeps the expansion invariant |
| ColorMapping.LoadColorMapping | src/utils.py:24-54 | `obi` defaults to false; without `obi` the base mapping, unchanged; with `obi` its BIO expansion |
| ColorMapping.BioMappingExample | src/utils.py:45-54 | `{NON-ENTITY: white, LOCATION: green}` expands to `{NON-ENTITY: white, B-LOCATION: green, I-LOCATION: green}` |

## Left out

- PyStr.Lower: ASCII only. Python lowers every Unicode cased character, while this model lowers only `A`-`Z`.
- PyStr.IsUpper: ASCII only. Python's Unicode notion of cased characters is not modelled.
- PyStr.IsTitle: ASCII only, for the same reason.
- PyStr.IsDigit: ASCII only. Python also accepts other Unicode digits, such as superscripts.
- PyStr.ContainsDigit: ASCII only, like `PyStr.IsDigit`.
- PyStr.Tail: requires a width of at least 1. In Python `s[-0:]` is the whole string, but the featuriser only uses widths 2 and 3.
- Featurizer.BiasValue: the bias is the constant `Bias`, not the float 1.0. No arithmetic is done on it.
- Window.Token2Features: enumerates the window as the pairs `(start + k, tokens[start + k])` rather than building the slice `tokens[start:stop]`. `Window.WindowSlice` proves these are the slice's items.
- ColorMapping.LoadColorMapping: visits the names in an unspecified order, where Python uses the dict's insertion order. The result is the same either way (`ColorMapping.BioMappingUnique`), but the insertion order of the returned dict is not modelled.
- Dict insertion order: every dict is a Dafny `map`, so only keys and values are modelled, not the order `items()` would list them in.
- Feature key prefix: `_lowlevel_features` accepts a `str` prefix as well, and it is modelled (`StrPrefix`), but no caller passes one.
- YAML parsing in `load_color_mapping`: not modelled. The model takes the records of the parsed configuration as input, in the order of the parsed dict's values. A record without a `name` or `color` field, which raises `KeyError` in Python, is outside this input type.
- `load_class_mapping`: not part of this model. It is a one-line comprehension over the parsed YAML file.
- `download_default_weights`: not part of this model, because it is network and filesystem I/O.
- `train.py` and `main.py`: not part of this model. Training and scoring go through an external CRF library, and the command-line entry point does nothing.
- `src/data.py`: not part of this model. It is a pandas wrapper that reads a file and applies `tokens2features` and `numbers2labels` row by row.
