# Featurizer of the snips-nlu intent classifier

A Dafny model of the feature-extraction stage of the snips-nlu intent
classifier. The implementation module `snips_nlu/intent_classifier/feature_extraction.py`
is not part of this model. Its behaviour is taken from its unit tests,
`snips_nlu/tests/test_intent_classifier_feature_extraction.py`. The model covers:

- `get_utterances_entities` (module `EntityIndex`): from a dataset's entities to a
  map from each utterance string to the set of entity names that produce it.
  The utterances are every value, plus its synonyms when `use_synonyms` is set.
  The map is built with a key function. `get_utterances_entities` uses the
  identity, so keys stay verbatim.
- The per-query step of `preprocess_queries` (module `QueryNormalizer`,
  function `PreprocessQuery`): one query becomes one document.
  The document has three parts, in this order:
  - the stemmed normalised tokens, joined by the language's separator;
  - one `entityfeature<name>` token per entity name, for every n-gram of
    normalised tokens that is a key of the fitted index;
  - the cluster id of every raw token whose lower-cased form is in the
    language's cluster table.
  The tokenizer, lower-casing, accent stripping, stemmer and cluster table are
  parameters (`Resources`).
- `to_dict` / `from_dict` (module `Serialization`): the five-field record of a
  fitted featurizer. Its entity-name sets are written as lists and read back
  as sets. The module proves an exact round trip.
- `Featurizer` (module `Featurization`): a class with the language, the
  threshold, a fitted flag, the vectorizer, the selected columns and the entity
  index. `Fit` moves it from blank to fitted and returns the object itself.
  `PreprocessQueries`, `ToDict` and `FromDict` work on that state.
- The test scenarios (module `TestCases`): the mocked stemmer and cluster table,
  the sample datasets, and the expected index, documents and records, each
  proved on the model.

Two choices follow from the expected documents of lines 274-281:

- Matching raw keys against the raw query, case- and accent-sensitively, would
  not produce those documents. So the model matches normalised text: the
  normalised query tokens are matched as n-grams against an index whose keys
  `fit` has normalised the same way. "entity 1" and "éntity 1" share one key.
  Query 2 gets `entity_1` once, and query 4 gets `entity_2` twice.
- The entity features come before the cluster ids in the document (lines
  276-277).

## Model

| member | source | states |
|---|---|---|
| EntityIndex.UtterancesMembership | snips_nlu/tests/test_intent_classifier_feature_extraction.py:137-162 | a string is an utterance of an entity exactly when it is one of its values, or a synonym of one of its values while `use_synonyms` is set |
| EntityIndex.AddAllMembership | snips_nlu/tests/test_intent_classifier_feature_extraction.py:170-181 | adding utterances creates exactly their keys, adds the name exactly under them, keeps every earlier pair, and keeps sets non-empty |
| EntityIndex.IndexByNonEmpty | snips_nlu/tests/test_intent_classifier_feature_extraction.py:173-179 | every key of a built index maps to a non-empty set of names |
| EntityIndex.IndexByMembership | snips_nlu/tests/test_intent_classifier_feature_extraction.py:170-181 | a name is under a key exactly when an entity of that name produces an utterance with that key, so names from different entities accumulate in one set |
| EntityIndex.IndexByKeys | snips_nlu/tests/test_intent_classifier_feature_extraction.py:173-179 | the keys are exactly the keys of the produced utterances |
| EntityIndex.ValuesAndUsedSynonymsAreKeys | snips_nlu/tests/test_intent_classifier_feature_extraction.py:137-179 | every value, and every synonym of an entity that uses synonyms, is a key whose set holds that entity's name |
| EntityIndex.UtterancesEntities | snips_nlu/tests/test_intent_classifier_feature_extraction.py:126-181 | `get_utterances_entities`: a name is filed under a string only when an entity of that name produces it, and every string an entity produces is filed with that entity's name |
| EntityIndex.KeysAreVerbatim | snips_nlu/tests/test_intent_classifier_feature_extraction.py:173-179 | a string is a key of `get_utterances_entities` exactly when some entity produces that exact string, with no case or accent folding |
| EntityIndex.IndexByOrderIndependent | snips_nlu/tests/test_intent_classifier_feature_extraction.py:135-163 | the index does not depend on the order in which the entities are listed |
| Strings.SortedElements | snips_nlu/tests/test_intent_classifier_feature_extraction.py:73 | a set of names is listed once each, every member and nothing else, in ascending order |
| Strings.SplitJoin | snips_nlu/tests/test_intent_classifier_feature_extraction.py:199-200 | splitting a separator-joined list of tokens that hold no separator gives back the tokens |
| QueryNormalizer.EntityFeatureTokenInjective | snips_nlu/tests/test_intent_classifier_feature_extraction.py:275-281 | `EntityFeatureToken` (`entityfeature` then the name): two names give the same feature token exactly when they are the same name, so each entity is counted apart |
| QueryNormalizer.CaseAndAccentInsensitive | snips_nlu/tests/test_intent_classifier_feature_extraction.py:259-281 | two queries whose raw tokens lower-case and strip to the same strings get the same normalised tokens, the same stems and the same entity features |
| QueryNormalizer.NormalizedIndex | snips_nlu/tests/test_intent_classifier_feature_extraction.py:218-268 | the index `fit` builds: a name is filed under a key only when an entity of that name produces an utterance whose normalised form is that key, and every produced utterance is filed, under its normalised form, with its entity's name |
| QueryNormalizer.EntityFeatureIffUtteranceInQuery | snips_nlu/tests/test_intent_classifier_feature_extraction.py:218-281 | `NormalizedIndex` with the entity part of `PreprocessQuery`: a query gets the feature token of a name exactly when an entity of that name produces an utterance whose normalised words occur in a row among the query's normalised words |
| QueryNormalizer.StemmedTokens | snips_nlu/tests/test_intent_classifier_feature_extraction.py:189-201 | one stem per raw token of the query, in order, the i-th being the stem of the i-th raw token lower-cased then accent-stripped |
| QueryNormalizer.NGrams | snips_nlu/tests/test_intent_classifier_feature_extraction.py:259-281 | a query of n normalised tokens has n(n+1)/2 candidate n-grams, one per contiguous run, listed by start position and then by length (the position of each run is `NGramsAt`) |
| QueryNormalizer.NGramsAt | snips_nlu/tests/test_intent_classifier_feature_extraction.py:274-281 | the n-grams are listed by start position, then by length: entry `Offset(n, i) + k` is the run of `k + 1` tokens starting at token `i`, so each run has its own entry and a key the query contains twice is matched twice |
| QueryNormalizer.NGramsMembership | snips_nlu/tests/test_intent_classifier_feature_extraction.py:259-281 | `NGrams`: the candidate entity strings of a query are exactly the space-joined runs of its consecutive normalised tokens |
| QueryNormalizer.EntityFeatureCount | snips_nlu/tests/test_intent_classifier_feature_extraction.py:279-281 | `EntityFeatures`: the feature token of a name occurs once for every matched n-gram whose set holds that name, with no deduplication across n-grams |
| QueryNormalizer.FeatureTokensCount | snips_nlu/tests/test_intent_classifier_feature_extraction.py:275-281 | `FeatureTokens`: within one matched key each name's token occurs once |
| QueryNormalizer.ClusterFeaturesMembership | snips_nlu/tests/test_intent_classifier_feature_extraction.py:208-214 | `ClusterFeatures`: no more ids than tokens, and an id is emitted exactly when some raw token's lower-cased form is filed under it |
| QueryNormalizer.ClusterFeaturesCount | snips_nlu/tests/test_intent_classifier_feature_extraction.py:208-214 | ids are not deduplicated: an id occurs once for every raw token whose lower-cased form is filed under it (the independent count `ClusterCount`) |
| QueryNormalizer.EntityFeaturesAppend | snips_nlu/tests/test_intent_classifier_feature_extraction.py:279-281 | entity features come out in n-gram order: the features of a list of n-grams are those of its first part followed by those of its second |
| QueryNormalizer.ClusterFeaturesAppend | snips_nlu/tests/test_intent_classifier_feature_extraction.py:276-277 | ids come out in token order: the ids of a token list are those of its first part followed by those of its second |
| QueryNormalizer.ClusterFeaturesOfToken | snips_nlu/tests/test_intent_classifier_feature_extraction.py:208-214 | a single token gives at most one id: its cluster's id when its lower-cased form is in the table, otherwise none |
| QueryNormalizer.DocumentLayout | snips_nlu/tests/test_intent_classifier_feature_extraction.py:274-281 | `PreprocessQuery`: with the space separator the document is the stems, then the entity features, then the cluster ids, joined by spaces; a query without tokens gives the empty document |
| QueryNormalizer.DocumentTokens | snips_nlu/tests/test_intent_classifier_feature_extraction.py:274-281 | for a query with at least one token, split on spaces the document gives back its stems, entity features and cluster ids, and each entity's token occurs as many times as it was matched |
| Serialization.NamesToLists | snips_nlu/tests/test_intent_classifier_feature_extraction.py:73 | each key's name set becomes a list with the same members and no repeats, under the same keys |
| Serialization.ListsToNamesIgnoresOrder | snips_nlu/tests/test_intent_classifier_feature_extraction.py:118-124 | `ListsToNames` reads the name lists as sets: two records whose lists hold the same names under the same keys, in any order and with any repeats, read back to the same index |
| Serialization.FromRecord | snips_nlu/tests/test_intent_classifier_feature_extraction.py:97-124 | a record is accepted exactly when its language is known and its vectorizer, columns and name lists are well formed; an unknown language is invalid input and a malformed record is corrupted; an accepted record restores the language, the vectorizer, the columns and the threshold unchanged and each name list as a set |
| Serialization.ToRecord | snips_nlu/tests/test_intent_classifier_feature_extraction.py:54-83 | the record of a fitted state carries its language code, vectorizer, columns and threshold unchanged, and name lists that read back as exactly its name sets |
| Serialization.NamesRoundTrip | snips_nlu/tests/test_intent_classifier_feature_extraction.py:73 | writing the name sets as lists and reading them back gives the same index |
| Serialization.RoundTrip | snips_nlu/tests/test_intent_classifier_feature_extraction.py:54-66 | decoding the record of a valid fitted state gives back exactly that state |
| Serialization.RecordRoundTrip | snips_nlu/tests/test_intent_classifier_feature_extraction.py:54-83 | an accepted record re-encodes to a record with the same language code, vectorizer, columns and threshold |
| Featurization.Featurizer.constructor | snips_nlu/tests/test_intent_classifier_feature_extraction.py:24-28 | a new featurizer is blank, with the given language and threshold |
| Featurization.Featurizer.Restored | snips_nlu/tests/test_intent_classifier_feature_extraction.py:106-107 | a restored featurizer is fitted and holds exactly the given state |
| Featurization.Featurizer.Fit | snips_nlu/tests/test_intent_classifier_feature_extraction.py:50 | labels of the wrong length are invalid input and change nothing; otherwise the object becomes fitted, returns itself, keeps its language and threshold, indexes the entities under normalised keys, and stores the vectorizer and columns fitted on its own documents |
| Featurization.Featurizer.PreprocessQueries | snips_nlu/tests/test_intent_classifier_feature_extraction.py:267-283 | one document per query, in input order, each the document of that query against the fitted index |
| Featurization.Featurizer.ToDict | snips_nlu/tests/test_intent_classifier_feature_extraction.py:54-83 | a fitted featurizer gives the five-field record of its state; an unfitted one gives a not-fitted error |
| Featurization.Featurizer.FromDict | snips_nlu/tests/test_intent_classifier_feature_extraction.py:106-124 | a new fitted featurizer holding the decoded state, or the decoding error and no object |
| Featurization.ToDictFromRecord | snips_nlu/tests/test_intent_classifier_feature_extraction.py:54-66 | the record of a fitted featurizer decodes back to its whole fitted state |
| TestCases.GetUtterancesEntitiesExample | snips_nlu/tests/test_intent_classifier_feature_extraction.py:126-181 | the sample dataset gives exactly the expected five-key map |
| TestCases.TestIndexBuilt | snips_nlu/tests/test_intent_classifier_feature_extraction.py:218-268 | `fit` on the second dataset builds the four-key normalised index in which "entity 1" maps to both entities |
| TestCases.Query1 | snips_nlu/tests/test_intent_classifier_feature_extraction.py:260-275 | "hÉllo wOrld Éntity_2" gives the words hello, world, entity_2, entityfeatureentity_2 joined by single spaces |
| TestCases.Query2 | snips_nlu/tests/test_intent_classifier_feature_extraction.py:261-277 | "beauTiful World entity 1" gives the words beauty, world, ent, 1, entityfeatureentity_1, entityfeatureentity_2, cluster_1, cluster_3 joined by single spaces |
| TestCases.Query3 | snips_nlu/tests/test_intent_classifier_feature_extraction.py:262-278 | "Bird bïrdy" gives the words bird, bird joined by a single space |
| TestCases.Query4 | snips_nlu/tests/test_intent_classifier_feature_extraction.py:263-281 | "beauTiful éntity 1 bIrd Éntity_2" gives the words beauty, ent, 1, bird, entity_2, entityfeatureentity_1, entityfeatureentity_2, entityfeatureentity_2, cluster_1 joined by single spaces |
| TestCases.ExpectedDocuments | snips_nlu/tests/test_intent_classifier_feature_extraction.py:274-281 | the four documents of the four queries are the expected word lists joined by single spaces |
| TestCases.PreprocessQueriesExample | snips_nlu/tests/test_intent_classifier_feature_extraction.py:185-283 | a blank featurizer fitted on the dataset and queries preprocesses them into the four expected documents |
| TestCases.SerializableIndexUnder | snips_nlu/tests/test_intent_classifier_feature_extraction.py:29-41 | a value that is also its own synonym files its entity once |
| TestCases.SerializableNames | snips_nlu/tests/test_intent_classifier_feature_extraction.py:73 | that index is written as `{"entity1": ["entity2"]}` |
| TestCases.ToDictExample | snips_nlu/tests/test_intent_classifier_feature_extraction.py:19-83 | the fitted featurizer's record has code "en", threshold 0.42, names `{"entity1": ["entity2"]}`, the vectorizer fitted on the documents of the five training queries (under any language resources that keep "entity1" as its own key) and the columns selected from it at 0.42 for classes [0, 0, 0, 1, 1], and decodes again |
| TestCases.SampleRecordDecodes | snips_nlu/tests/test_intent_classifier_feature_extraction.py:87-124 | the sample record decodes to English, its vectorizer, columns [0, 1], threshold 0.4 and `{"entity_1": {"entity_1"}}` |
| TestCases.FromDictExample | snips_nlu/tests/test_intent_classifier_feature_extraction.py:85-124 | `from_dict` of the sample record gives a fitted featurizer with those fields |

## Left out

- TF-IDF fitting, the idf formula, the vector transform and chi-squared selection: floating-point numerics in a library. `Fit` takes the vectorizer fit and the column selection as parameters and stores what they return. `idf_diag` is an opaque list of reals that is only copied.
- Featurization.Featurizer.Fit: does not model the failures of the numerics (an empty corpus, fewer than two classes). Its only modelled failure is a label list whose length differs from the query list.
- The vectorizer object passed to the constructor and mutated by `fit` (lines 24-28, 69-72): the model has no shared vectorizer object. `Fit` stores a vectorizer value, so the aliasing is not captured.
- JSON encoding and decoding: the record is a Dafny datatype.
- `mock.patch` and the module-global cluster registry: the cluster table and the stemmer are parameters. The language registry of `from_dict` is a map parameter.
- The real tokenizer, stemmer, accent stripping and cluster resources, and the `Language` enum beyond its ISO code and separator: these are function parameters. The test scenarios instantiate them with a space-splitting tokenizer and with lower-casing and accent stripping over the characters the scenarios use.
- Python set order: the model lists a set of names in ascending order. Python's order is unspecified, so the documents and records only agree with the source up to that order.
- Cluster ids are emitted once per matching token. Repeated ids are not removed, because no scenario shows whether they should be.
- The default `pvalue_threshold` of the constructor: its value is set in `feature_extraction.py`, which is not part of this model. The constructor takes the threshold explicitly.
- The range check on `pvalue_threshold` when a record is decoded: no scenario shows one, so `FromRecord` copies any threshold.
- Builtin entities and intent utterances of the dataset: the scenarios use neither.
