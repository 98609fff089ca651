/**
 * The `Featurizer` object: created blank with its language and p-value
 * threshold, fitted once (which fills in the entity index, the TF-IDF
 * vectorizer and the selected columns), or rebuilt fitted from a record.
 */
module Featurization {
  import opened Wrappers
  import opened EntityIndex
  import opened QueryNormalizer
  import opened Serialization

  class Featurizer {
    var language: Language
    var pvalueThreshold: real
    var fitted: bool
    var vectorizer: TfidfVectorizer
    var bestFeatures: seq<int>
    var entityUtterancesToEntityNames: Index

    /** A fitted featurizer keeps the fitted invariants. */
    ghost predicate Valid()
      reads this
    {
      fitted ==> ValidState(State())
    }

    /** The fitted part of the object's state, as a value. */
    function State(): FittedState
      reads this
    {
      FittedState(language, vectorizer, bestFeatures, pvalueThreshold, entityUtterancesToEntityNames)
    }

    /** `Featurizer(language, pvalue_threshold=...)`: a blank, unfitted featurizer. */
    constructor (language: Language, pvalueThreshold: real)
      ensures Valid() && !fitted
      ensures this.language == language && this.pvalueThreshold == pvalueThreshold
    {
      this.language := language;
      this.pvalueThreshold := pvalueThreshold;
      fitted := false;
      vectorizer := TfidfVectorizer([], map[]);
      bestFeatures := [];
      entityUtterancesToEntityNames := map[];
    }

    /** A fitted featurizer holding `s`, as `from_dict` builds it. */
    constructor Restored(s: FittedState)
      requires ValidState(s)
      ensures Valid() && fitted && State() == s
    {
      language := s.language;
      pvalueThreshold := s.pvalueThreshold;
      fitted := true;
      vectorizer := s.vectorizer;
      bestFeatures := s.bestFeatures;
      entityUtterancesToEntityNames := s.entityUtterancesToEntityNames;
    }

    /**
     * `preprocess_queries`: one canonical document per query, in input order,
     * matched against the fitted entity index.
     */
    function PreprocessQueries(res: Resources, queries: seq<string>): (docs: seq<string>)
      reads this`fitted, this`language, this`entityUtterancesToEntityNames
      requires fitted
      ensures |docs| == |queries|
      ensures forall i :: 0 <= i < |queries| ==>
        docs[i] == PreprocessQuery(res, language, entityUtterancesToEntityNames, queries[i])
    {
      var language, index := language, entityUtterancesToEntityNames;
      seq(|queries|, i requires 0 <= i < |queries| => PreprocessQuery(res, language, index, queries[i]))
    }

    /**
     * `fit`: indexes the dataset's entities under their normalised utterances,
     * preprocesses the queries, fits the TF-IDF vectorizer on the documents and
     * keeps the columns the selector picks at this featurizer's threshold; it
     * returns the featurizer itself. The vectorizer fit and the column
     * selection are supplied by the caller.
     */
    method Fit(res: Resources, entities: seq<Entity>, queries: seq<string>, labels: seq<int>,
               fitVectorizer: seq<string> -> TfidfVectorizer,
               selectFeatures: (TfidfVectorizer, seq<string>, seq<int>, real) -> seq<int>)
      returns (r: Result<Featurizer, Error>)
      requires forall docs :: ValidVectorizer(fitVectorizer(docs))
      requires forall v, docs, ls, t :: ValidVectorizer(v) ==> ValidBestFeatures(selectFeatures(v, docs, ls, t), |v.vocab|)
      modifies this
      ensures |queries| != |labels| ==> r == Err(InvalidInput) && unchanged(this)
      ensures |queries| == |labels| ==>
        && r == Ok(this)
        && Valid() && fitted
        && language == old(language) && pvalueThreshold == old(pvalueThreshold)
        && entityUtterancesToEntityNames == NormalizedIndex(res, entities)
        && vectorizer == fitVectorizer(PreprocessQueries(res, queries))
        && bestFeatures == selectFeatures(vectorizer, PreprocessQueries(res, queries), labels, pvalueThreshold)
    {
      if |queries| != |labels| {
        return Err(InvalidInput);
      }
      entityUtterancesToEntityNames := NormalizedIndex(res, entities);
      IndexByNonEmpty(entities, KeyNormalizer(res));
      fitted := true;
      var docs := PreprocessQueries(res, queries);
      vectorizer := fitVectorizer(docs);
      bestFeatures := selectFeatures(vectorizer, docs, labels, pvalueThreshold);
      r := Ok(this);
    }

    /** `to_dict`: the five-field record of a fitted featurizer; an unfitted one has none. */
    function ToDict(): (r: Result<FeaturizerRecord, Error>)
      reads this
      ensures r.Ok? <==> fitted
      ensures r.Err? ==> r.error == NotFitted
      ensures r.Ok? ==> r.value == ToRecord(State())
    {
      if fitted then Ok(ToRecord(State())) else Err(NotFitted)
    }

    /** `from_dict`: a new fitted featurizer holding the record's contents, or the reason it was refused. */
    static method FromDict(rec: FeaturizerRecord, languages: map<string, Language>) returns (r: Result<Featurizer, Error>)
      ensures FromRecord(rec, languages).Err? ==> r == Err(FromRecord(rec, languages).error)
      ensures FromRecord(rec, languages).Ok? ==>
        r.Ok? && fresh(r.value) && r.value.Valid() && r.value.fitted && r.value.State() == FromRecord(rec, languages).value
    {
      var decoded := FromRecord(rec, languages);
      if decoded.Err? {
        return Err(decoded.error);
      }
      var f := new Featurizer.Restored(decoded.value);
      r := Ok(f);
    }
  }

  /**
   * Round trip through the class: `from_dict(to_dict())` of a fitted
   * featurizer restores its whole fitted state.
   */
  lemma ToDictFromRecord(f: Featurizer, languages: map<string, Language>)
    requires f.fitted && f.Valid()
    requires f.language.isoCode in languages && languages[f.language.isoCode] == f.language
    ensures f.ToDict().Ok? && FromRecord(f.ToDict().value, languages) == Ok(f.State())
  {
    RoundTrip(f.State(), languages);
  }
}
