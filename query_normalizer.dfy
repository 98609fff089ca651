/**
 * `Featurizer.preprocess_queries`: one raw query becomes one canonical
 * document — its normalised, stemmed tokens, then one `entityfeature<name>`
 * token per entity name per matched entity utterance, then the word-cluster
 * ids of its tokens.
 */
module QueryNormalizer {
  import opened Wrappers
  import opened Strings
  import opened EntityIndex

  /** The parts of a language the featurizer uses: its ISO code and its token separator. */
  datatype Language = Language(isoCode: string, defaultSep: string)

  /**
   * A language's resources, supplied by the caller: the light tokenizer,
   * lower-casing, accent stripping, the stemmer of one token, and the
   * word-cluster table when the language has one.
   */
  datatype Resources = Resources(
    tokenize: string -> seq<string>,
    lower: string -> string,
    stripAccents: string -> string,
    stem: string -> string,
    clusters: Option<map<string, string>>)

  /** Prefix of the synthetic token that marks an entity match. */
  const EntityFeaturePrefix: string := "entityfeature"

  /** `entityfeature<name>` */
  function EntityFeatureToken(name: string): (token: string)
    ensures |token| == |EntityFeaturePrefix| + |name|
    ensures token[..|EntityFeaturePrefix|] == EntityFeaturePrefix && token[|EntityFeaturePrefix|..] == name
  {
    EntityFeaturePrefix + name
  }

  /** Distinct entity names give distinct feature tokens, so the vectorizer counts each entity apart. */
  lemma EntityFeatureTokenInjective(a: string, b: string)
    ensures EntityFeatureToken(a) == EntityFeatureToken(b) <==> a == b
  {
    if EntityFeatureToken(a) == EntityFeatureToken(b) {
      assert a == EntityFeatureToken(a)[|EntityFeaturePrefix|..];
    }
  }

  /** A token lower-cased and stripped of its accents. */
  function Normalize(res: Resources, token: string): string
  {
    res.stripAccents(res.lower(token))
  }

  /** The normalised tokens of a text, in order. */
  function NormalizedTokens(res: Resources, text: string): (ts: seq<string>)
    ensures |ts| == |res.tokenize(text)|
    ensures forall i :: 0 <= i < |ts| ==> ts[i] == Normalize(res, res.tokenize(text)[i])
  {
    var raw := res.tokenize(text);
    seq(|raw|, i requires 0 <= i < |raw| => Normalize(res, raw[i]))
  }

  /** The normalised form of an entity utterance: its normalised tokens joined by spaces. */
  function NormalizeKey(res: Resources, utterance: string): string
  {
    Join(NormalizedTokens(res, utterance), " ")
  }

  /**
   * The entity index a fitted featurizer matches against: the dataset's
   * utterances filed under their normalised form, so utterances that
   * normalise alike ("entity 1", "éntity 1") share one set of names.
   */
  function NormalizedIndex(res: Resources, entities: seq<Entity>): (index: Index)
    ensures forall k, n :: k in index && n in index[k] ==>
      exists e, u :: e in entities && e.name == n && Produces(e, u) && NormalizeKey(res, u) == k
    ensures forall e, u :: e in entities && Produces(e, u) ==>
      NormalizeKey(res, u) in index && e.name in index[NormalizeKey(res, u)]
  {
    var index := IndexBy(entities, KeyNormalizer(res));
    assert forall k, n :: k in index && n in index[k] ==>
        exists e, u :: e in entities && e.name == n && Produces(e, u) && NormalizeKey(res, u) == k by {
      forall k, n | k in index && n in index[k]
        ensures exists e, u :: e in entities && e.name == n && Produces(e, u) && NormalizeKey(res, u) == k
      {
        IndexByMembership(entities, KeyNormalizer(res), k, n);
        var e, u :| e in entities && e.name == n && Produces(e, u) && KeyNormalizer(res)(u) == k;
        assert NormalizeKey(res, u) == k;
      }
    }
    assert forall e, u :: e in entities && Produces(e, u) ==>
        NormalizeKey(res, u) in index && e.name in index[NormalizeKey(res, u)] by {
      forall e, u | e in entities && Produces(e, u)
        ensures NormalizeKey(res, u) in index && e.name in index[NormalizeKey(res, u)]
      {
        IndexByMembership(entities, KeyNormalizer(res), NormalizeKey(res, u), e.name);
        assert KeyNormalizer(res)(u) == NormalizeKey(res, u);
      }
    }
    index
  }

  /** `NormalizeKey` as the key function of `IndexBy`. */
  function KeyNormalizer(res: Resources): string -> string
  {
    u => NormalizeKey(res, u)
  }

  /** The space-joined runs `ts[i..j]` of a token list whose first token is `ts[0]`, shortest first. */
  function Prefixes(ts: seq<string>): (gs: seq<string>)
    ensures |gs| == |ts|
    ensures forall k :: 0 <= k < |ts| ==> gs[k] == Join(ts[..k + 1], " ")
  {
    seq(|ts|, k requires 0 <= k < |ts| => Join(ts[..k + 1], " "))
  }

  /** Every contiguous run of tokens, space-joined, by start position then by length. */
  function NGrams(ts: seq<string>): (gs: seq<string>)
    ensures |gs| == |ts| * (|ts| + 1) / 2
  {
    if ts == [] then []
    else
      var rest := NGrams(ts[1..]);
      assert |rest| == (|ts| - 1) * |ts| / 2;
      assert |ts| + (|ts| - 1) * |ts| / 2 == |ts| * (|ts| + 1) / 2 by {
        TriangleStep(|ts|);
      }
      Prefixes(ts) + rest
  }

  lemma TriangleStep(n: nat)
    requires n >= 1
    ensures n + (n - 1) * n / 2 == n * (n + 1) / 2
  {
    assert n * (n + 1) == (n - 1) * n + 2 * n;
  }

  /** A run of the tail is the same run of the whole, one position on. */
  lemma SliceOfTail(ts: seq<string>, i: nat, j: nat)
    requires ts != [] && i <= j <= |ts| - 1
    ensures ts[1..][i..j] == ts[i + 1..j + 1]
  {
    assert forall k :: 0 <= k < j - i ==> ts[1..][i..j][k] == ts[i + 1..j + 1][k];
  }

  /** Where the n-grams starting at token `i` begin among the n-grams of `n` tokens. */
  function Offset(n: nat, i: nat): nat
    requires i <= n
  {
    if i == 0 then 0 else n + Offset(n - 1, i - 1)
  }

  /**
   * The n-gram at `Offset(|ts|, i) + k` is the run of `k + 1` tokens starting
   * at `i`: runs are listed by start position, then by length.
   */
  lemma {:induction false} NGramsAt(ts: seq<string>, i: nat, k: nat)
    requires i + k < |ts|
    ensures Offset(|ts|, i) + k < |NGrams(ts)|
    ensures NGrams(ts)[Offset(|ts|, i) + k] == Join(ts[i..i + k + 1], " ")
  {
    var rest := NGrams(ts[1..]);
    assert NGrams(ts) == Prefixes(ts) + rest;
    if i == 0 {
      assert ts[..k + 1] == ts[i..i + k + 1];
    } else {
      NGramsAt(ts[1..], i - 1, k);
      SliceOfTail(ts, i - 1, i + k);
      assert NGrams(ts)[Offset(|ts|, i) + k] == rest[Offset(|ts| - 1, i - 1) + k];
    }
  }

  /** The n-grams are exactly the runs `ts[i..j]`, joined. */
  lemma {:induction false} NGramsMembership(ts: seq<string>)
    ensures forall g :: g in NGrams(ts) <==> exists i, j :: 0 <= i < j <= |ts| && g == Join(ts[i..j], " ")
  {
    if ts != [] {
      var rest := NGrams(ts[1..]);
      NGramsMembership(ts[1..]);
      forall g | g in rest ensures exists i, j :: 0 <= i < j <= |ts| && g == Join(ts[i..j], " ") {
        var i, j :| 0 <= i < j <= |ts[1..]| && g == Join(ts[1..][i..j], " ");
        SliceOfTail(ts, i, j);
        assert 0 <= i + 1 < j + 1 <= |ts| && g == Join(ts[i + 1..j + 1], " ");
      }
      forall g | g in Prefixes(ts) ensures exists i, j :: 0 <= i < j <= |ts| && g == Join(ts[i..j], " ") {
        var k :| 0 <= k < |ts| && Prefixes(ts)[k] == g;
        assert ts[..k + 1] == ts[0..k + 1];
      }
      forall i, j | 0 <= i < j <= |ts| ensures Join(ts[i..j], " ") in NGrams(ts) {
        if i == 0 {
          assert ts[i..j] == ts[..j - 1 + 1];
          assert Prefixes(ts)[j - 1] == Join(ts[i..j], " ");
        } else {
          var tail := ts[1..];
          assert 0 <= i - 1 < j - 1 <= |tail|;
          assert tail[i - 1..j - 1] == ts[i..j];
          assert Join(tail[i - 1..j - 1], " ") in rest;
        }
      }
    }
  }

  /** One feature token per name, in the given order. */
  function FeatureTokens(names: seq<string>): (tokens: seq<string>)
    ensures |tokens| == |names|
    ensures forall i :: 0 <= i < |names| ==> tokens[i] == EntityFeatureToken(names[i])
  {
    seq(|names|, i requires 0 <= i < |names| => EntityFeatureToken(names[i]))
  }

  /**
   * The entity features of a list of n-grams: for each n-gram that is a key
   * of the index, one token per entity name under it; nothing is deduplicated
   * across n-grams.
   */
  function EntityFeatures(grams: seq<string>, index: Index): seq<string>
  {
    if grams == [] then []
    else
      var here := if grams[0] in index then FeatureTokens(SortedElements(index[grams[0]])) else [];
      here + EntityFeatures(grams[1..], index)
  }

  /** Entity features come out in n-gram order. */
  lemma {:induction false} EntityFeaturesAppend(a: seq<string>, b: seq<string>, index: Index)
    ensures EntityFeatures(a + b, index) == EntityFeatures(a, index) + EntityFeatures(b, index)
  {
    if a != [] {
      EntityFeaturesAppend(a[1..], b, index);
      assert (a + b)[0] == a[0] && (a + b)[1..] == a[1..] + b;
    } else {
      assert a + b == b;
    }
  }

  /** How many n-grams are keys whose set holds `name`. */
  function MatchCount(grams: seq<string>, index: Index, name: string): nat
  {
    if grams == [] then 0
    else (if grams[0] in index && name in index[grams[0]] then 1 else 0) + MatchCount(grams[1..], index, name)
  }

  /**
   * The cluster id of every token whose lower-cased form (accents kept) is in
   * the cluster table, in token order.
   */
  function ClusterFeatures(clusters: map<string, string>, lower: string -> string, tokens: seq<string>): seq<string>
  {
    if tokens == [] then []
    else (if lower(tokens[0]) in clusters then [clusters[lower(tokens[0])]] else []) + ClusterFeatures(clusters, lower, tokens[1..])
  }

  /**
   * No more ids than tokens, and an id is emitted exactly when some token's
   * lower-cased form is filed under it.
   */
  lemma {:induction false} ClusterFeaturesMembership(clusters: map<string, string>, lower: string -> string, tokens: seq<string>)
    ensures |ClusterFeatures(clusters, lower, tokens)| <= |tokens|
    ensures forall c :: c in ClusterFeatures(clusters, lower, tokens) <==>
      exists t :: t in tokens && lower(t) in clusters && clusters[lower(t)] == c
  {
    if tokens != [] {
      ClusterFeaturesMembership(clusters, lower, tokens[1..]);
      assert forall t :: t in tokens <==> t == tokens[0] || t in tokens[1..];
    }
  }

  /** How many tokens have a lower-cased form filed under the cluster id `c`. */
  function ClusterCount(clusters: map<string, string>, lower: string -> string, tokens: seq<string>, c: string): nat
  {
    if tokens == [] then 0
    else
      var here := if lower(tokens[0]) in clusters && clusters[lower(tokens[0])] == c then 1 else 0;
      here + ClusterCount(clusters, lower, tokens[1..], c)
  }

  /**
   * Cluster ids are not deduplicated: `c` occurs once for every token whose
   * lower-cased form is filed under it.
   */
  lemma {:induction false} ClusterFeaturesCount(clusters: map<string, string>, lower: string -> string, tokens: seq<string>, c: string)
    ensures multiset(ClusterFeatures(clusters, lower, tokens))[c] == ClusterCount(clusters, lower, tokens, c)
  {
    if tokens != [] {
      ClusterFeaturesCount(clusters, lower, tokens[1..], c);
    }
  }

  /**
   * Token order: the ids of a token list are the ids of its first part
   * followed by those of its second, so each token's id stays in its place.
   */
  lemma {:induction false} ClusterFeaturesAppend(clusters: map<string, string>, lower: string -> string, a: seq<string>, b: seq<string>)
    ensures ClusterFeatures(clusters, lower, a + b) == ClusterFeatures(clusters, lower, a) + ClusterFeatures(clusters, lower, b)
  {
    if a == [] {
      assert a + b == b;
    } else {
      assert (a + b)[0] == a[0] && (a + b)[1..] == a[1..] + b;
      ClusterFeaturesAppend(clusters, lower, a[1..], b);
    }
  }

  /** One token gives its id when its lower-cased form is in the table, and nothing otherwise. */
  lemma ClusterFeaturesOfToken(clusters: map<string, string>, lower: string -> string, t: string)
    ensures |ClusterFeatures(clusters, lower, [t])| <= 1
    ensures ClusterFeatures(clusters, lower, [t]) != [] <==> lower(t) in clusters
    ensures lower(t) in clusters ==> ClusterFeatures(clusters, lower, [t]) == [clusters[lower(t)]]
  {
    assert [t][1..] == [];
  }

  /** The stems of a query's normalised tokens. */
  function StemmedTokens(res: Resources, query: string): (stems: seq<string>)
    ensures |stems| == |res.tokenize(query)|
    ensures forall i :: 0 <= i < |stems| ==> stems[i] == res.stem(Normalize(res, res.tokenize(query)[i]))
  {
    var ts := NormalizedTokens(res, query);
    seq(|ts|, i requires 0 <= i < |ts| => res.stem(ts[i]))
  }

  /** The entity features of a query, matched on its normalised tokens. */
  function QueryEntityFeatures(res: Resources, index: Index, query: string): seq<string>
  {
    EntityFeatures(NGrams(NormalizedTokens(res, query)), index)
  }

  /** The cluster ids of a query's raw tokens; none when the language has no cluster table. */
  function QueryClusterFeatures(res: Resources, query: string): seq<string>
  {
    match res.clusters
    case None => []
    case Some(table) => ClusterFeatures(table, res.lower, res.tokenize(query))
  }

  /** The per-query step of `preprocess_queries`: the canonical document of one query. */
  function PreprocessQuery(res: Resources, language: Language, index: Index, query: string): string
  {
    var base := Join(StemmedTokens(res, query), language.defaultSep);
    var entities := QueryEntityFeatures(res, index, query);
    var clusters := QueryClusterFeatures(res, query);
    var withEntities := if entities == [] then base else base + " " + Join(entities, " ");
    if clusters == [] then withEntities else withEntities + " " + Join(clusters, " ")
  }

  /**
   * With the space separator the document of `PreprocessQuery` is the stems,
   * then the entity features, then the cluster ids, joined by spaces; a query
   * without tokens gives the empty document.
   */
  lemma DocumentLayout(res: Resources, language: Language, index: Index, query: string)
    requires language.defaultSep == " "
    ensures PreprocessQuery(res, language, index, query) ==
      Join(StemmedTokens(res, query) + QueryEntityFeatures(res, index, query) + QueryClusterFeatures(res, query), " ")
  {
    var stems, entities, clusters := StemmedTokens(res, query), QueryEntityFeatures(res, index, query), QueryClusterFeatures(res, query);
    if stems == [] {
      EmptyQuery(res, index, query);
      assert stems + entities + clusters == [];
      return;
    }
    if entities != [] {
      JoinAppend(stems, entities, " ");
    } else {
      assert stems + entities == stems;
    }
    if clusters != [] {
      JoinAppend(stems + entities, clusters, " ");
    } else {
      assert stems + entities + clusters == stems + entities;
    }
  }

  /** A query without tokens has no n-grams, hence no entity features, and no cluster ids. */
  lemma EmptyQuery(res: Resources, index: Index, query: string)
    requires StemmedTokens(res, query) == []
    ensures QueryEntityFeatures(res, index, query) == [] && QueryClusterFeatures(res, query) == []
  {
    assert NormalizedTokens(res, query) == [];
    assert res.tokenize(query) == [];
  }

  /**
   * Entity fan-out: the number of `entityfeature<name>` tokens is the number
   * of matched n-grams whose entity set holds `name`.
   */
  lemma {:induction false} EntityFeatureCount(grams: seq<string>, index: Index, name: string)
    ensures multiset(EntityFeatures(grams, index))[EntityFeatureToken(name)] == MatchCount(grams, index, name)
  {
    if grams != [] {
      EntityFeatureCount(grams[1..], index, name);
      if grams[0] in index {
        FeatureTokensCount(SortedElements(index[grams[0]]), name);
      }
    }
  }

  /** In a list without repeats, a name yields exactly one feature token when present. */
  lemma {:induction false} FeatureTokensCount(names: seq<string>, name: string)
    requires forall i, j :: 0 <= i < j < |names| ==> names[i] != names[j]
    ensures multiset(FeatureTokens(names))[EntityFeatureToken(name)] == if name in names then 1 else 0
  {
    if names != [] {
      FeatureTokensCount(names[1..], name);
      assert FeatureTokens(names) == [EntityFeatureToken(names[0])] + FeatureTokens(names[1..]);
      if names[0] == name {
        assert name !in names[1..];
      } else {
        assert EntityFeatureToken(names[0]) != EntityFeatureToken(name) by {
          assert EntityFeatureToken(names[0])[|EntityFeaturePrefix|..] == names[0];
        }
        assert name in names <==> name in names[1..];
      }
    }
  }

  /**
   * The space-separated words of a document are the stems, then the entity
   * features, then the cluster ids, and the count of `entityfeature<name>` among them is its match count.
   */
  lemma DocumentTokens(res: Resources, language: Language, index: Index, query: string, name: string)
    requires language.defaultSep == " "
    requires StemmedTokens(res, query) != []
    requires forall t :: t in StemmedTokens(res, query) + QueryClusterFeatures(res, query) ==> ' ' !in t && t != EntityFeatureToken(name)
    requires forall t :: t in QueryEntityFeatures(res, index, query) ==> ' ' !in t
    ensures Split(PreprocessQuery(res, language, index, query), ' ') ==
      StemmedTokens(res, query) + QueryEntityFeatures(res, index, query) + QueryClusterFeatures(res, query)
    ensures multiset(Split(PreprocessQuery(res, language, index, query), ' '))[EntityFeatureToken(name)] ==
      MatchCount(NGrams(NormalizedTokens(res, query)), index, name)
  {
    var stems, entities, clusters := StemmedTokens(res, query), QueryEntityFeatures(res, index, query), QueryClusterFeatures(res, query);
    var all := stems + entities + clusters;
    forall i | 0 <= i < |all| ensures ' ' !in all[i] {
      assert all[i] in all;
      if i < |stems| { assert all[i] in stems + clusters; }
      else if i < |stems| + |entities| { assert all[i] in entities; }
      else { assert all[i] == clusters[i - |stems| - |entities|]; assert all[i] in stems + clusters; }
    }
    DocumentLayout(res, language, index, query);
    SplitJoin(all, ' ');
    EntityFeatureCount(NGrams(NormalizedTokens(res, query)), index, name);
    var token := EntityFeatureToken(name);
    assert multiset(stems)[token] == 0 by {
      assert token !in stems by {
        forall t | t in stems ensures t != token { assert t in stems + clusters; }
      }
    }
    assert multiset(clusters)[token] == 0 by {
      assert token !in clusters by {
        forall t | t in clusters ensures t != token { assert t in stems + clusters; }
      }
    }
    assert multiset(all) == multiset(stems) + multiset(entities) + multiset(clusters);
  }

  /** A name is matched by some n-gram exactly when one of the n-grams is a key whose set holds it. */
  lemma {:induction false} MatchCountPositive(grams: seq<string>, index: Index, name: string)
    ensures MatchCount(grams, index, name) > 0 <==> exists g :: g in grams && g in index && name in index[g]
  {
    if grams != [] {
      MatchCountPositive(grams[1..], index, name);
      assert forall g :: g in grams <==> g == grams[0] || g in grams[1..];
    }
  }

  /**
   * Entity matching end to end: the fitted index built from `entities` gives
   * a query the feature token of `name` exactly when an entity of that name
   * produces an utterance whose normalised tokens occur, in a row, among the
   * query's normalised tokens — whatever the case and accents of either.
   */
  lemma EntityFeatureIffUtteranceInQuery(res: Resources, entities: seq<Entity>, query: string, name: string)
    ensures var ts := NormalizedTokens(res, query);
      EntityFeatureToken(name) in QueryEntityFeatures(res, NormalizedIndex(res, entities), query) <==>
      exists e, u, i, j :: e in entities && e.name == name && Produces(e, u) &&
        0 <= i < j <= |ts| && NormalizeKey(res, u) == Join(ts[i..j], " ")
  {
    var ts := NormalizedTokens(res, query);
    var grams := NGrams(ts);
    var index := NormalizedIndex(res, entities);
    var token := EntityFeatureToken(name);
    EntityFeatureCount(grams, index, name);
    MatchCountPositive(grams, index, name);
    NGramsMembership(ts);
    assert token in EntityFeatures(grams, index) <==> MatchCount(grams, index, name) > 0 by {
      assert token in EntityFeatures(grams, index) <==> multiset(EntityFeatures(grams, index))[token] > 0;
    }
    if token in EntityFeatures(grams, index) {
      var g :| g in grams && g in index && name in index[g];
      IndexByMembership(entities, KeyNormalizer(res), g, name);
      var e, u :| e in entities && e.name == name && Produces(e, u) && KeyNormalizer(res)(u) == g;
      var i, j :| 0 <= i < j <= |ts| && g == Join(ts[i..j], " ");
      assert e in entities && e.name == name && Produces(e, u) && 0 <= i < j <= |ts| && NormalizeKey(res, u) == Join(ts[i..j], " ");
    }
    forall e, u, i, j | e in entities && e.name == name && Produces(e, u) &&
        0 <= i < j <= |ts| && NormalizeKey(res, u) == Join(ts[i..j], " ")
      ensures token in EntityFeatures(grams, index)
    {
      var g := Join(ts[i..j], " ");
      assert g in grams;
      IndexByMembership(entities, KeyNormalizer(res), g, name);
      assert KeyNormalizer(res)(u) == g;
    }
  }

  /**
   * Case and accents do not reach the stems or the entity features: two
   * queries whose raw tokens lower-case and strip to the same strings get the
   * same stems and the same entity features (cluster lookup still sees the
   * accents).
   */
  lemma CaseAndAccentInsensitive(res: Resources, index: Index, a: string, b: string)
    requires |res.tokenize(a)| == |res.tokenize(b)|
    requires forall i :: 0 <= i < |res.tokenize(a)| ==> Normalize(res, res.tokenize(a)[i]) == Normalize(res, res.tokenize(b)[i])
    ensures NormalizedTokens(res, a) == NormalizedTokens(res, b)
    ensures StemmedTokens(res, a) == StemmedTokens(res, b)
    ensures QueryEntityFeatures(res, index, a) == QueryEntityFeatures(res, index, b)
  {
    assert NormalizedTokens(res, a) == NormalizedTokens(res, b);
    assert StemmedTokens(res, a) == StemmedTokens(res, b);
  }
}
