/**
 * The windowed feature builder and the sentence sequencer, `_token2features` and
 * `tokens2features` in src/features.py.
 *
 * For a centre position `c` and a window size `w` in a sentence of `n` tokens, the
 * builder starts from the sentence-boundary flags `BOS` and `EOS`, then walks the
 * positions of the slice `tokens[clip(c-w, 0, n) : clip(c+w, 0, n)]` in order,
 * merging in the featuriser's output for each: unprefixed and with the bias for
 * the centre itself, prefixed by the neighbour's absolute position and without the
 * bias for every other position. The slice end is exclusive, so the window holds
 * `w` tokens before the centre but only `w - 1` after it.
 */
module Window {
  import opened PyStr
  import opened PyDict
  import opened Featurizer

  const BosKey := "BOS"
  const EosKey := "EOS"

  /** The window size `tokens2features` uses when none is given. */
  const DefaultWindowSize := 2

  /** `np.clip(x, lo, hi)` on integers, for `lo <= hi`. */
  function Clip(x: int, lo: int, hi: int): (r: int)
    requires lo <= hi
    ensures lo <= r <= hi
    ensures lo <= x <= hi ==> r == x
  {
    if x < lo then lo else if x > hi then hi else x
  }

  /** The first position of the window slice. */
  function WindowStart(n: nat, c: int, w: int): nat
  {
    Clip(c - w, 0, n)
  }

  /** The (exclusive) end of the window slice. */
  function WindowEnd(n: nat, c: int, w: int): nat
  {
    Clip(c + w, 0, n)
  }

  /** The length of the slice: Python gives the empty slice when the end is before the start. */
  function WindowLength(n: nat, c: int, w: int): (len: nat)
    ensures WindowStart(n, c, w) + len <= n
  {
    if WindowEnd(n, c, w) < WindowStart(n, c, w) then 0 else WindowEnd(n, c, w) - WindowStart(n, c, w)
  }

  /** `s[lo:hi]` for bounds inside the list: empty when `hi` is before `lo`. */
  function Slice<T>(s: seq<T>, lo: nat, hi: nat): seq<T>
    requires lo <= |s| && hi <= |s|
  {
    if lo <= hi then s[lo..hi] else []
  }

  /** The window slice holds `WindowLength` tokens, the `k`-th being the one at position `start + k`. */
  lemma WindowSlice(tokens: seq<string>, c: int, w: int)
    ensures var start := WindowStart(|tokens|, c, w);
      var window := Slice(tokens, start, WindowEnd(|tokens|, c, w));
      && |window| == WindowLength(|tokens|, c, w)
      && forall k :: 0 <= k < |window| ==> window[k] == tokens[start + k]
  {
  }

  /** Position `j` is visited by the loop. */
  predicate InWindow(n: nat, c: int, w: int, j: int)
  {
    WindowStart(n, c, w) <= j < WindowStart(n, c, w) + WindowLength(n, c, w)
  }

  /**
   * The visited positions are exactly the positions of the sentence from `c - w`
   * up to but not including `c + w`; clipping never yields one outside the sentence.
   */
  lemma WindowMembers(n: nat, c: int, w: int, j: int)
    ensures InWindow(n, c, w, j) <==> 0 <= j < n && c - w <= j < c + w
  {
  }

  /** The centre itself is visited exactly when it lies in the sentence and `w >= 1`. */
  lemma CentreInWindow(n: nat, c: int, w: int)
    ensures InWindow(n, c, w, c) <==> 0 <= c < n && w >= 1
  {
    WindowMembers(n, c, w, c);
  }

  /** A window size of zero or less visits nothing, not even the centre. */
  lemma NonPositiveWindowIsEmpty(n: nat, c: int, w: int)
    requires w <= 0
    ensures WindowLength(n, c, w) == 0
  {
  }

  /** Away from the sentence edges the window reaches `w` positions back but only `w - 1` forward. */
  lemma WindowIsAsymmetric(n: nat, c: int, w: int)
    requires w >= 1 && 0 <= c - w && c + w <= n
    ensures InWindow(n, c, w, c - w) && !InWindow(n, c, w, c - w - 1)
    ensures InWindow(n, c, w, c + w - 1) && !InWindow(n, c, w, c + w)
    ensures WindowLength(n, c, w) == 2 * w
  {
    WindowMembers(n, c, w, c - w);
    WindowMembers(n, c, w, c - w - 1);
    WindowMembers(n, c, w, c + w - 1);
    WindowMembers(n, c, w, c + w);
  }

  /** With three tokens, window size 2 and the centre at 0, only positions 0 and 1 are visited. */
  lemma WindowAtSentenceStart(j: int)
    ensures InWindow(3, 0, 2, j) <==> j == 0 || j == 1
  {
    WindowMembers(3, 0, 2, j);
  }

  /** The keys one visited position contributes. */
  function ContributionKeys(center: int, j: nat): set<string>
  {
    if j == center then KeySet(NoPrefix, true) else KeySet(IntPrefix(j), false)
  }

  /** The key under which feature `g` of position `j` lands. */
  function WindowKey(center: int, j: nat, g: Feature): string
  {
    if j == center then Name(g) else KeyUnder(IntPrefix(j), Name(g))
  }

  /** A neighbour's keys start with a digit, the centre's do not, and none is a boundary flag. */
  lemma ContributionKeysShape(center: int, j: nat)
    ensures forall key :: key in ContributionKeys(center, j) ==>
      && |key| >= 2 && (IsDigitChar(key[0]) <==> j != center)
      && key != BosKey && key != EosKey
  {
    forall key | key in ContributionKeys(center, j)
      ensures |key| >= 2 && (IsDigitChar(key[0]) <==> j != center) && key != BosKey && key != EosKey
    {
      if j == center {
        var f :| Included(f, true) && key == Name(f);
        NameShape(f);
      } else {
        var f :| Included(f, false) && key == KeyUnder(IntPrefix(j), Name(f));
        var p := NatToString(j);
        assert key[0] == p[0];
      }
    }
  }

  /** Two neighbours never contribute the same key: the text before the first ':' is the position. */
  lemma NeighbourKeysDisjoint(i: nat, j: nat, key: string)
    requires key in KeySet(IntPrefix(i), false) && key in KeySet(IntPrefix(j), false)
    ensures i == j
  {
    var p, q := NatToString(i), NatToString(j);
    var f :| Included(f, false) && key == KeyUnder(IntPrefix(i), Name(f));
    var g :| Included(g, false) && key == KeyUnder(IntPrefix(j), Name(g));
    SplitAtFirstColon(p, Name(f), q, Name(g));
    NatToStringInjective(i, j);
  }

  /** Two different positions never contribute the same key. */
  lemma ContributionKeysDisjoint(center: int, i: nat, j: nat, key: string)
    requires key in ContributionKeys(center, i) && key in ContributionKeys(center, j)
    ensures i == j
  {
    if i != center && j != center {
      NeighbourKeysDisjoint(i, j, key);
    } else {
      ContributionKeysShape(center, i);
      ContributionKeysShape(center, j);
    }
  }

  /** What position `j` adds: the featuriser's output for its token. */
  function Contribution(tokens: seq<string>, center: int, j: nat): FeatureMap
    requires j < |tokens|
  {
    if j == center then LowLevelFeatures(tokens[j])
    else LowLevelFeatures(tokens[j], IntPrefix(j), false)
  }

  /** The centre adds the ten unprefixed keys, any other position its nine prefixed ones. */
  lemma ContributionKeysAre(tokens: seq<string>, center: int, j: nat)
    requires j < |tokens|
    ensures Contribution(tokens, center, j).Keys == ContributionKeys(center, j)
  {
    if j == center {
      LowLevelKeys(tokens[j], NoPrefix, true);
    } else {
      LowLevelKeys(tokens[j], IntPrefix(j), false);
    }
  }

  /** The centre adds ten keys, any other position nine. */
  lemma ContributionSize(tokens: seq<string>, center: int, j: nat)
    requires j < |tokens|
    ensures |Contribution(tokens, center, j)| == if j == center then 10 else 9
  {
    if j == center {
      LowLevelSize(tokens[j], NoPrefix, true);
    } else {
      LowLevelSize(tokens[j], IntPrefix(j), false);
    }
  }

  /** Every feature of a visited token lands under its window key with the featuriser's value. */
  lemma ContributionValue(tokens: seq<string>, center: int, j: nat, g: Feature)
    requires j < |tokens| && Included(g, j == center)
    ensures WindowKey(center, j, g) in ContributionKeys(center, j)
    ensures WindowKey(center, j, g) in Contribution(tokens, center, j)
    ensures Contribution(tokens, center, j)[WindowKey(center, j, g)] == FeatureValue(tokens[j], g)
  {
    ContributionKeysAre(tokens, center, j);
    if j == center {
      ValueAt(tokens[j], NoPrefix, true, g);
    } else {
      ValueAt(tokens[j], IntPrefix(j), false, g);
    }
  }

  /** The boundary flags the builder starts from. */
  function Seed(tokens: seq<string>, center: int): FeatureMap
  {
    map[BosKey := Flag(center == 0), EosKey := Flag(center == |tokens| - 1)]
  }

  /** The flags are not among the keys any position contributes. */
  lemma SeedLacks(tokens: seq<string>, center: int, j: nat, key: string)
    requires key in ContributionKeys(center, j)
    ensures key !in Seed(tokens, center)
  {
    ContributionKeysShape(center, j);
  }

  /** A key that position `m` contributes is not contributed by any other position `j`. */
  lemma ContributionLacks(tokens: seq<string>, center: int, j: nat, m: nat, key: string)
    requires j < |tokens| && j != m && key in ContributionKeys(center, m)
    ensures key !in Contribution(tokens, center, j)
  {
    ContributionKeysAre(tokens, center, j);
    if key in ContributionKeys(center, j) {
      ContributionKeysDisjoint(center, m, j, key);
      assert false;
    }
  }

  /** A key one position contributes is neither a flag nor contributed by another position. */
  lemma ContributionExclusive(tokens: seq<string>, center: int, i: nat, j: nat, key: string)
    requires i < |tokens| && j < |tokens| && i != j && key in Contribution(tokens, center, i)
    ensures key !in Contribution(tokens, center, j) && key !in Seed(tokens, center)
  {
    ContributionKeysAre(tokens, center, i);
    ContributionLacks(tokens, center, j, i, key);
    SeedLacks(tokens, center, i, key);
  }

  /**
   * The mapping merged in at offset `k` of a window starting at `start`; past the
   * end of the sentence, where the window never reaches, nothing.
   */
  function Part(tokens: seq<string>, center: int, start: nat): nat -> FeatureMap
  {
    (k: nat) => if start + k < |tokens| then Contribution(tokens, center, start + k) else map[]
  }

  /** No position contributes a flag, and only the centre contributes the bias. */
  lemma ContributionLacksFlags(tokens: seq<string>, center: int, j: nat)
    requires j < |tokens|
    ensures BosKey !in Contribution(tokens, center, j) && EosKey !in Contribution(tokens, center, j)
    ensures j != center ==> Name(BiasTerm) !in Contribution(tokens, center, j)
  {
    ContributionKeysAre(tokens, center, j);
    ContributionKeysShape(center, j);
    NameShape(BiasTerm);
  }

  /**
   * The builder's mapping after the loop has merged, with `dict.update`, the
   * first `n` positions of the window starting at `start`.
   */
  function Merged(tokens: seq<string>, center: int, start: nat, n: nat): FeatureMap
  {
    UpdateAll(Seed(tokens, center), Part(tokens, center, start), n)
  }

  /** Merging one more position is one more `dict.update` with its contribution. */
  lemma MergedStep(tokens: seq<string>, center: int, start: nat, n: nat)
    requires start + n < |tokens|
    ensures Merged(tokens, center, start, n + 1) == Merged(tokens, center, start, n) + Contribution(tokens, center, start + n)
  {
    assert Part(tokens, center, start)(n) == Contribution(tokens, center, start + n);
  }

  /** Merging the centre adds its unprefixed features, bias included. */
  lemma MergedStepCentre(tokens: seq<string>, center: int, start: nat, n: nat, token: string, merged: FeatureMap)
    requires start + n < |tokens| && token == tokens[start + n] && start + n == center
    requires merged == Merged(tokens, center, start, n)
    ensures merged + LowLevelFeatures(token) == Merged(tokens, center, start, n + 1)
  {
    MergedStep(tokens, center, start, n);
  }

  /** Merging a neighbour adds its features prefixed with its position, without bias. */
  lemma MergedStepNeighbour(tokens: seq<string>, center: int, start: nat, n: nat, token: string, merged: FeatureMap)
    requires start + n < |tokens| && token == tokens[start + n] && start + n != center
    requires merged == Merged(tokens, center, start, n)
    ensures merged + LowLevelFeatures(token, IntPrefix(start + n), false) == Merged(tokens, center, start, n + 1)
  {
    MergedStep(tokens, center, start, n);
  }

  /** A key of a position that has not been merged is absent. */
  lemma MergedLacks(tokens: seq<string>, center: int, start: nat, n: nat, m: nat, key: string)
    requires start + n <= |tokens| && !(start <= m < start + n) && key in ContributionKeys(center, m)
    ensures key !in Merged(tokens, center, start, n)
  {
    SeedLacks(tokens, center, m, key);
    forall k: nat | k < n ensures key !in Part(tokens, center, start)(k) {
      ContributionLacks(tokens, center, start + k, m, key);
    }
    UpdateAllLacks(Seed(tokens, center), Part(tokens, center, start), n, key);
  }

  /** No offset inside the sentence contributes a flag. */
  lemma PartLacksSeed(tokens: seq<string>, center: int, start: nat, k: nat, key: string)
    requires start + k < |tokens| && key in Part(tokens, center, start)(k)
    ensures key !in Seed(tokens, center)
  {
    ContributionKeysAre(tokens, center, start + k);
    SeedLacks(tokens, center, start + k, key);
  }

  /** Two offsets inside the sentence contribute disjoint keys. */
  lemma PartExclusive(tokens: seq<string>, center: int, start: nat, k: nat, l: nat, key: string)
    requires start + k < |tokens| && start + l < |tokens| && k != l && key in Part(tokens, center, start)(k)
    ensures key !in Part(tokens, center, start)(l)
  {
    ContributionExclusive(tokens, center, start + k, start + l, key);
  }

  /** No position of a window contributes a flag. */
  lemma PartsLackSeed(tokens: seq<string>, center: int, start: nat, n: nat)
    requires start + n <= |tokens|
    ensures forall k: nat, key :: k < n && key in Part(tokens, center, start)(k) ==> key !in Seed(tokens, center)
  {
    forall k: nat, key | k < n && key in Part(tokens, center, start)(k) ensures key !in Seed(tokens, center) {
      PartLacksSeed(tokens, center, start, k, key);
    }
  }

  /** Two positions of a window contribute disjoint keys. */
  lemma PartsExclusive(tokens: seq<string>, center: int, start: nat, n: nat)
    requires start + n <= |tokens|
    ensures forall k: nat, l: nat, key :: k < l < n && key in Part(tokens, center, start)(k) ==> key !in Part(tokens, center, start)(l)
  {
    forall k: nat, l: nat, key | k < l < n && key in Part(tokens, center, start)(k) ensures key !in Part(tokens, center, start)(l) {
      PartExclusive(tokens, center, start, k, l, key);
    }
  }

  /** The positions of a window contribute disjoint keys, none of them a flag. */
  lemma MergedDisjoint(tokens: seq<string>, center: int, start: nat, n: nat)
    requires start + n <= |tokens|
    ensures KeysDisjoint(Seed(tokens, center), Part(tokens, center, start), n)
  {
    PartsLackSeed(tokens, center, start, n);
    PartsExclusive(tokens, center, start, n);
  }

  /** The offset holding the centre contributes ten keys, any other offset nine. */
  lemma PartSize(tokens: seq<string>, center: int, start: nat, k: nat)
    requires start + k < |tokens|
    ensures |Part(tokens, center, start)(k)| == if start + k == center then 10 else 9
  {
    ContributionSize(tokens, center, start + k);
  }

  /** Counted with repetition, a window holds ten keys for the centre and nine for every other position. */
  lemma PartSizes(tokens: seq<string>, center: int, start: nat, n: nat)
    requires start + n <= |tokens|
    ensures TotalSize(Part(tokens, center, start), n) == 9 * n + (if start <= center < start + n then 1 else 0)
  {
    var i := 0;
    while i < n
      invariant i <= n
      invariant TotalSize(Part(tokens, center, start), i) == 9 * i + (if start <= center < start + i then 1 else 0)
    {
      PartSize(tokens, center, start, i);
      i := i + 1;
    }
  }

  /** No key is ever overwritten: two flags, ten keys for the centre, nine for every other position. */
  lemma MergedSize(tokens: seq<string>, center: int, start: nat, n: nat)
    requires start + n <= |tokens|
    ensures |Merged(tokens, center, start, n)| == 2 + 9 * n + (if start <= center < start + n then 1 else 0)
  {
    MergedDisjoint(tokens, center, start, n);
    UpdateAllSize(Seed(tokens, center), Part(tokens, center, start), n);
    PartSizes(tokens, center, start, n);
  }

  /** A key of position `j` is contributed by no later offset. */
  lemma PartLacksLater(tokens: seq<string>, center: int, start: nat, n: nat, j: nat, key: string)
    requires start <= j < start + n <= |tokens| && key in Contribution(tokens, center, j)
    ensures forall l: nat :: j - start < l < n ==> key !in Part(tokens, center, start)(l)
  {
    forall l: nat | j - start < l < n ensures key !in Part(tokens, center, start)(l) {
      ContributionExclusive(tokens, center, j, start + l, key);
    }
  }

  /** Every key of a merged position holds that position's value: no later position overwrites it. */
  lemma MergedValue(tokens: seq<string>, center: int, start: nat, n: nat, j: nat, key: string)
    requires start <= j < start + n <= |tokens| && key in Contribution(tokens, center, j)
    ensures key in Merged(tokens, center, start, n)
    ensures Merged(tokens, center, start, n)[key] == Contribution(tokens, center, j)[key]
  {
    assert Part(tokens, center, start)(j - start) == Contribution(tokens, center, j);
    PartLacksLater(tokens, center, start, n, j, key);
    UpdateAllValue(Seed(tokens, center), Part(tokens, center, start), n, j - start, key);
  }

  /** The flags keep the values they were seeded with. */
  lemma MergedKeepsSeed(tokens: seq<string>, center: int, start: nat, n: nat, key: string)
    requires start + n <= |tokens| && (key == BosKey || key == EosKey)
    ensures key in Merged(tokens, center, start, n)
    ensures Merged(tokens, center, start, n)[key] == Seed(tokens, center)[key]
  {
    var part := Part(tokens, center, start);
    forall l: nat | l < n ensures key !in part(l) {
      ContributionLacksFlags(tokens, center, start + l);
    }
    UpdateAllKeepsSeed(Seed(tokens, center), part, n, key);
  }

  /** Only the centre contributes the bias: without it among the merged positions there is none. */
  lemma MergedNoBias(tokens: seq<string>, center: int, start: nat, n: nat)
    requires start + n <= |tokens| && !(start <= center < start + n)
    ensures Name(BiasTerm) !in Merged(tokens, center, start, n)
  {
    var part := Part(tokens, center, start);
    forall l: nat | l < n ensures Name(BiasTerm) !in part(l) {
      ContributionLacksFlags(tokens, center, start + l);
    }
    UpdateAllLacks(Seed(tokens, center), part, n, Name(BiasTerm));
  }

  /**
   * The specification of `_token2features`: the flags, updated in turn with the
   * contribution of every position of the window, in increasing order.
   */
  function WindowFeatures(tokens: seq<string>, center: int, w: int): FeatureMap
  {
    Merged(tokens, center, WindowStart(|tokens|, center, w), WindowLength(|tokens|, center, w))
  }

  /** `BOS` is true exactly at position 0 and `EOS` exactly at the last position. */
  lemma WindowFlags(tokens: seq<string>, center: int, w: int)
    ensures BosKey in WindowFeatures(tokens, center, w) && EosKey in WindowFeatures(tokens, center, w)
    ensures WindowFeatures(tokens, center, w)[BosKey] == Flag(center == 0)
    ensures WindowFeatures(tokens, center, w)[EosKey] == Flag(center == |tokens| - 1)
  {
    var start, len := WindowStart(|tokens|, center, w), WindowLength(|tokens|, center, w);
    MergedKeepsSeed(tokens, center, start, len, BosKey);
    MergedKeepsSeed(tokens, center, start, len, EosKey);
  }

  /** In a one-token sentence the only position is marked both `BOS` and `EOS`. */
  lemma OneTokenFlags(token: string, w: int)
    ensures var f := WindowFeatures([token], 0, w);
      BosKey in f && f[BosKey] == Flag(true) && EosKey in f && f[EosKey] == Flag(true)
  {
    WindowFlags([token], 0, w);
  }

  /**
   * Every feature of every visited token is present, under its own name for the
   * centre and under `"{j}:{name}"` for the neighbour at position `j`, holding
   * what the featuriser computes for that token.
   */
  lemma WindowValue(tokens: seq<string>, center: int, w: int, j: nat, g: Feature)
    requires InWindow(|tokens|, center, w, j) && Included(g, j == center)
    ensures WindowKey(center, j, g) in WindowFeatures(tokens, center, w)
    ensures WindowFeatures(tokens, center, w)[WindowKey(center, j, g)] == FeatureValue(tokens[j], g)
  {
    ContributionValue(tokens, center, j, g);
    MergedValue(tokens, center, WindowStart(|tokens|, center, w), WindowLength(|tokens|, center, w), j, WindowKey(center, j, g));
  }

  /** A position outside the window contributes no key. */
  lemma WindowExcludes(tokens: seq<string>, center: int, w: int, j: nat, key: string)
    requires !InWindow(|tokens|, center, w, j) && key in ContributionKeys(center, j)
    ensures key !in WindowFeatures(tokens, center, w)
  {
    MergedLacks(tokens, center, WindowStart(|tokens|, center, w), WindowLength(|tokens|, center, w), j, key);
  }

  /**
   * No key is ever overwritten: the mapping holds the two flags, ten features for
   * the centre when it is visited, and nine for every other visited position.
   */
  lemma WindowSize(tokens: seq<string>, center: int, w: int)
    ensures |WindowFeatures(tokens, center, w)| ==
      2 + 9 * WindowLength(|tokens|, center, w) + (if InWindow(|tokens|, center, w, center) then 1 else 0)
  {
    MergedSize(tokens, center, WindowStart(|tokens|, center, w), WindowLength(|tokens|, center, w));
  }

  /** The bias is present exactly when the centre lies in the sentence and `w >= 1`. */
  lemma WindowBias(tokens: seq<string>, center: int, w: int)
    ensures Name(BiasTerm) in WindowFeatures(tokens, center, w) <==> 0 <= center < |tokens| && w >= 1
  {
    CentreInWindow(|tokens|, center, w);
    if 0 <= center < |tokens| && w >= 1 {
      WindowValue(tokens, center, w, center, BiasTerm);
    } else {
      MergedNoBias(tokens, center, WindowStart(|tokens|, center, w), WindowLength(|tokens|, center, w));
    }
  }

  /** With a window size of zero or less only the two flags remain. */
  lemma NonPositiveWindowFeatures(tokens: seq<string>, center: int, w: int)
    requires w <= 0
    ensures WindowFeatures(tokens, center, w) == Seed(tokens, center)
  {
  }

  /**
   * `_token2features(tokens, token_index, window_size)`: seeds the flags, then
   * enumerates the window slice starting from its first absolute position and
   * merges each token's features in with `dict.update`. Item `k` of the
   * enumeration is `(start + k, tokens[start + k])` (see `WindowSlice`).
   */
  method Token2Features(tokens: seq<string>, tokenIndex: int, windowSize: int) returns (features: FeatureMap)
    ensures features == WindowFeatures(tokens, tokenIndex, windowSize)
  {
    features := map[BosKey := Flag(tokenIndex == 0), EosKey := Flag(tokenIndex == |tokens| - 1)];
    var start := Clip(tokenIndex - windowSize, 0, |tokens|);
    var len := WindowLength(|tokens|, tokenIndex, windowSize);
    assert features == Merged(tokens, tokenIndex, start, 0);
    var k := 0;
    while k < len
      invariant 0 <= k <= len
      invariant features == Merged(tokens, tokenIndex, start, k)
    {
      var orderIndex, windowToken := start + k, tokens[start + k];
      if orderIndex == tokenIndex {
        MergedStepCentre(tokens, tokenIndex, start, k, windowToken, features);
        features := features + LowLevelFeatures(windowToken);
      } else {
        MergedStepNeighbour(tokens, tokenIndex, start, k, windowToken, features);
        features := features + LowLevelFeatures(windowToken, IntPrefix(orderIndex), false);
      }
      k := k + 1;
    }
  }

  /** What `tokens2features` promises about position `i` of its result. */
  lemma PositionFeatures(tokens: seq<string>, w: int, i: nat)
    requires i < |tokens|
    ensures var f := WindowFeatures(tokens, i, w);
      && BosKey in f && f[BosKey] == Flag(i == 0)
      && EosKey in f && f[EosKey] == Flag(i == |tokens| - 1)
      && (Name(BiasTerm) in f <==> w >= 1)
      && |f| == 2 + 9 * WindowLength(|tokens|, i, w) + (if w >= 1 then 1 else 0)
  {
    WindowFlags(tokens, i, w);
    WindowBias(tokens, i, w);
    WindowSize(tokens, i, w);
    CentreInWindow(|tokens|, i, w);
  }

  /**
   * `tokens2features(tokens, window_size)`: one feature mapping per position, in
   * order, each built by the windowed builder; only the first position is marked
   * `BOS`, only the last `EOS`, and every position carries the bias exactly when
   * `window_size >= 1`.
   */
  function Tokens2Features(tokens: seq<string>, w: int := DefaultWindowSize): (r: seq<FeatureMap>)
    ensures |r| == |tokens|
    ensures forall i :: 0 <= i < |r| ==> r[i] == WindowFeatures(tokens, i, w)
    ensures forall i :: 0 <= i < |r| ==>
      && BosKey in r[i] && r[i][BosKey] == Flag(i == 0)
      && EosKey in r[i] && r[i][EosKey] == Flag(i == |tokens| - 1)
      && (Name(BiasTerm) in r[i] <==> w >= 1)
  {
    var r := seq(|tokens|, i requires 0 <= i < |tokens| => WindowFeatures(tokens, i, w));
    assert forall i :: 0 <= i < |r| ==>
      && BosKey in r[i] && r[i][BosKey] == Flag(i == 0)
      && EosKey in r[i] && r[i][EosKey] == Flag(i == |tokens| - 1)
      && (Name(BiasTerm) in r[i] <==> w >= 1) by {
      forall i | 0 <= i < |r| ensures
        && BosKey in r[i] && r[i][BosKey] == Flag(i == 0)
        && EosKey in r[i] && r[i][EosKey] == Flag(i == |tokens| - 1)
        && (Name(BiasTerm) in r[i] <==> w >= 1)
      {
        PositionFeatures(tokens, w, i);
      }
    }
    r
  }

  /**
   * Called without a window size, `tokens2features` uses 2: two positions before
   * each token and one after it.
   */
  lemma DefaultWindow(tokens: seq<string>, i: nat)
    requires i < |tokens|
    ensures Tokens2Features(tokens) == Tokens2Features(tokens, 2)
    ensures Tokens2Features(tokens)[i] == WindowFeatures(tokens, i, 2)
    ensures InWindow(|tokens|, i, 2, i - 2) <==> i >= 2
    ensures InWindow(|tokens|, i, 2, i + 1) <==> i + 1 < |tokens|
    ensures forall j :: InWindow(|tokens|, i, 2, j) <==> 0 <= j < |tokens| && i - 2 <= j <= i + 1
  {
    forall j ensures InWindow(|tokens|, i, 2, j) <==> 0 <= j < |tokens| && i - 2 <= j <= i + 1 {
      WindowMembers(|tokens|, i, 2, j);
    }
  }
}
