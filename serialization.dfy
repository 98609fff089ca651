/**
 * `Featurizer.to_dict` / `Featurizer.from_dict`: the persisted record of a
 * fitted featurizer and its exact round trip.
 */
module Serialization {
  import opened Wrappers
  import opened Strings
  import opened EntityIndex
  import opened QueryNormalizer

  /** The failures the featurizer reports. */
  datatype Error = InvalidInput | NotFitted | CorruptedRecord

  /**
   * A fitted TF-IDF vectorizer as the featurizer keeps it: the idf weights
   * (held as opaque numbers, copied and never computed on) and the vocabulary.
   */
  datatype TfidfVectorizer = TfidfVectorizer(idfDiag: seq<real>, vocab: map<string, int>)

  /** Everything a fitted featurizer holds. */
  datatype FittedState = FittedState(
    language: Language,
    vectorizer: TfidfVectorizer,
    bestFeatures: seq<int>,
    pvalueThreshold: real,
    entityUtterancesToEntityNames: Index)

  /** The record `to_dict` emits: exactly these five fields. */
  datatype FeaturizerRecord = FeaturizerRecord(
    languageCode: string,
    tfidfVectorizer: TfidfVectorizer,
    bestFeatures: seq<int>,
    pvalueThreshold: real,
    entityUtterancesToEntityNames: map<string, seq<string>>)

  /** One idf weight per vocabulary entry, and every column index used once and in range. */
  predicate ValidVectorizer(v: TfidfVectorizer)
  {
    && |v.idfDiag| == |v.vocab|
    && (forall t :: t in v.vocab ==> 0 <= v.vocab[t] < |v.idfDiag|)
    && (forall t, u :: t in v.vocab && u in v.vocab && v.vocab[t] == v.vocab[u] ==> t == u)
  }

  /** Selected columns: ascending, without repeats, each a column of the vocabulary. */
  predicate ValidBestFeatures(bestFeatures: seq<int>, width: nat)
  {
    && (forall i :: 0 <= i < |bestFeatures| ==> 0 <= bestFeatures[i] < width)
    && (forall i, j :: 0 <= i < j < |bestFeatures| ==> bestFeatures[i] < bestFeatures[j])
  }

  /** The invariants of a fitted featurizer. */
  predicate ValidState(s: FittedState)
  {
    && ValidVectorizer(s.vectorizer)
    && ValidBestFeatures(s.bestFeatures, |s.vectorizer.vocab|)
    && (forall k :: k in s.entityUtterancesToEntityNames ==> s.entityUtterancesToEntityNames[k] != {})
  }

  /** The entity-name sets written out as lists. */
  function NamesToLists(index: Index): (lists: map<string, seq<string>>)
    ensures lists.Keys == index.Keys
    ensures forall k :: k in lists ==>
      (forall n :: n in lists[k] <==> n in index[k]) &&
      (forall i, j :: 0 <= i < j < |lists[k]| ==> lists[k][i] != lists[k][j])
  {
    map k | k in index :: SortedElements(index[k])
  }

  /** The entity-name lists read back as sets. */
  function ListsToNames(lists: map<string, seq<string>>): (index: Index)
    ensures index.Keys == lists.Keys
    ensures forall k :: k in index ==> forall n :: n in index[k] <==> n in lists[k]
  {
    map k | k in lists :: set n | n in lists[k]
  }

  /**
   * `to_dict` of a fitted featurizer: the language by its code, the other
   * fields as they are, and name lists that read back as exactly the name sets.
   */
  function ToRecord(s: FittedState): (rec: FeaturizerRecord)
    ensures rec.languageCode == s.language.isoCode
    ensures rec.tfidfVectorizer == s.vectorizer && rec.bestFeatures == s.bestFeatures
    ensures rec.pvalueThreshold == s.pvalueThreshold
    ensures ListsToNames(rec.entityUtterancesToEntityNames) == s.entityUtterancesToEntityNames
  {
    NamesRoundTrip(s.entityUtterancesToEntityNames);
    FeaturizerRecord(s.language.isoCode, s.vectorizer, s.bestFeatures, s.pvalueThreshold,
                     NamesToLists(s.entityUtterancesToEntityNames))
  }

  /**
   * `from_dict`: the language is looked up by its code in `languages`; a
   * record whose vocabulary, selected columns or entity lists break the
   * fitted invariants is refused.
   */
  function FromRecord(rec: FeaturizerRecord, languages: map<string, Language>): (r: Result<FittedState, Error>)
    ensures rec.languageCode !in languages ==> r == Err(InvalidInput)
    ensures rec.languageCode in languages && r.Err? ==> r.error == CorruptedRecord
    ensures r.Ok? <==>
      && rec.languageCode in languages
      && ValidVectorizer(rec.tfidfVectorizer)
      && ValidBestFeatures(rec.bestFeatures, |rec.tfidfVectorizer.vocab|)
      && forall k :: k in rec.entityUtterancesToEntityNames ==> rec.entityUtterancesToEntityNames[k] != []
    ensures r.Ok? ==> ValidState(r.value)
    ensures r.Ok? ==>
      && rec.languageCode in languages
      && r.value.language == languages[rec.languageCode]
      && r.value.vectorizer == rec.tfidfVectorizer
      && r.value.bestFeatures == rec.bestFeatures
      && r.value.pvalueThreshold == rec.pvalueThreshold
      && r.value.entityUtterancesToEntityNames.Keys == rec.entityUtterancesToEntityNames.Keys
      && forall k, n :: k in rec.entityUtterancesToEntityNames ==>
           (n in r.value.entityUtterancesToEntityNames[k] <==> n in rec.entityUtterancesToEntityNames[k])
  {
    if rec.languageCode !in languages then Err(InvalidInput)
    else if !ValidVectorizer(rec.tfidfVectorizer)
         || !ValidBestFeatures(rec.bestFeatures, |rec.tfidfVectorizer.vocab|)
         || exists k :: k in rec.entityUtterancesToEntityNames && rec.entityUtterancesToEntityNames[k] == []
    then Err(CorruptedRecord)
    else
      var names := ListsToNames(rec.entityUtterancesToEntityNames);
      assert forall k :: k in names ==> names[k] != {} by {
        forall k | k in names ensures names[k] != {} {
          assert rec.entityUtterancesToEntityNames[k][0] in names[k];
        }
      }
      Ok(FittedState(languages[rec.languageCode], rec.tfidfVectorizer, rec.bestFeatures,
                     rec.pvalueThreshold, names))
  }

  /** Writing the name sets out as lists and reading them back gives the same sets. */
  lemma NamesRoundTrip(index: Index)
    ensures ListsToNames(NamesToLists(index)) == index
  {
    var back := ListsToNames(NamesToLists(index));
    forall k | k in index ensures back[k] == index[k] {
      assert forall n :: n in back[k] <==> n in index[k];
    }
  }

  /**
   * The lists are read as sets: two records whose lists hold the same names
   * per key, in whatever order and with whatever repeats, read back alike.
   */
  lemma ListsToNamesIgnoresOrder(a: map<string, seq<string>>, b: map<string, seq<string>>)
    requires a.Keys == b.Keys
    requires forall k, n :: k in a ==> (n in a[k] <==> n in b[k])
    ensures ListsToNames(a) == ListsToNames(b)
  {
    var ra, rb := ListsToNames(a), ListsToNames(b);
    forall k | k in ra ensures ra[k] == rb[k] {
      assert forall n :: n in ra[k] <==> n in rb[k];
    }
  }

  /** Round trip: reading back what `to_dict` wrote restores the fitted featurizer exactly. */
  lemma RoundTrip(s: FittedState, languages: map<string, Language>)
    requires ValidState(s)
    requires s.language.isoCode in languages && languages[s.language.isoCode] == s.language
    ensures FromRecord(ToRecord(s), languages) == Ok(s)
  {
    var lists := NamesToLists(s.entityUtterancesToEntityNames);
    forall k | k in lists ensures lists[k] != [] {
      var n :| n in s.entityUtterancesToEntityNames[k];
      assert n in lists[k];
    }
    NamesRoundTrip(s.entityUtterancesToEntityNames);
  }

  /**
   * The other way round: writing out what `from_dict` read gives back the
   * record up to the order and repeats inside each entity-name list.
   */
  lemma RecordRoundTrip(rec: FeaturizerRecord, languages: map<string, Language>)
    requires FromRecord(rec, languages).Ok?
    requires languages[rec.languageCode].isoCode == rec.languageCode
    ensures var back := ToRecord(FromRecord(rec, languages).value);
      && back.languageCode == rec.languageCode
      && back.tfidfVectorizer == rec.tfidfVectorizer
      && back.bestFeatures == rec.bestFeatures
      && back.pvalueThreshold == rec.pvalueThreshold
      && back.entityUtterancesToEntityNames.Keys == rec.entityUtterancesToEntityNames.Keys
      && forall k, n :: k in rec.entityUtterancesToEntityNames ==>
           (n in back.entityUtterancesToEntityNames[k] <==> n in rec.entityUtterancesToEntityNames[k])
  {
  }
}
