/**
 * `get_utterances_entities`: the lookup table from an utterance string to the
 * names of the dataset entities that can produce it.
 */
module EntityIndex {

  /** One record of an entity's `data` list. */
  datatype EntityValue = EntityValue(value: string, synonyms: seq<string>)

  /** A dataset entity: its name (the key in the dataset's `entities` dict), its data and `use_synonyms`. */
  datatype Entity = Entity(name: string, data: seq<EntityValue>, useSynonyms: bool)

  /** Utterance string -> set of entity names. */
  type Index = map<string, set<string>>

  /** The strings one entity contributes, in source order: each value, then its synonyms if they are used. */
  function Utterances(data: seq<EntityValue>, useSynonyms: bool): seq<string>
  {
    if data == [] then []
    else [data[0].value] + (if useSynonyms then data[0].synonyms else []) + Utterances(data[1..], useSynonyms)
  }

  /** A string is contributed exactly when it is a value, or a synonym while synonyms are used. */
  lemma {:induction false} UtterancesMembership(data: seq<EntityValue>, useSynonyms: bool)
    ensures forall u :: u in Utterances(data, useSynonyms) <==>
      exists d :: d in data && (u == d.value || (useSynonyms && u in d.synonyms))
  {
    if data != [] {
      UtterancesMembership(data[1..], useSynonyms);
      assert forall d :: d in data <==> d == data[0] || d in data[1..];
    }
  }

  /** `index[key].add(name)`, creating the key if absent. */
  function Add(index: Index, key: string, name: string): Index
  {
    index[key := (if key in index then index[key] else {}) + {name}]
  }

  /** Adds `name` under `key(u)` for every `u` in `us`, left to right. */
  function AddAll(index: Index, us: seq<string>, key: string -> string, name: string): Index
    decreases |us|
  {
    if us == [] then index
    else AddAll(Add(index, key(us[0]), name), us[1..], key, name)
  }

  /**
   * After `AddAll`, a key holds a name exactly when it held it before or the
   * name is the one added and some added string has that key; no set is emptied.
   */
  lemma {:induction false} AddAllMembership(index: Index, us: seq<string>, key: string -> string, name: string)
    ensures forall k :: k in AddAll(index, us, key, name) <==> k in index || exists u :: u in us && key(u) == k
    ensures forall k, n :: k in AddAll(index, us, key, name) && n in AddAll(index, us, key, name)[k] <==>
      (k in index && n in index[k]) || (n == name && exists u :: u in us && key(u) == k)
    ensures (forall k :: k in index ==> index[k] != {}) ==>
      forall k :: k in AddAll(index, us, key, name) ==> AddAll(index, us, key, name)[k] != {}
    decreases |us|
  {
    if us != [] {
      AddAllMembership(Add(index, key(us[0]), name), us[1..], key, name);
      assert forall u :: u in us <==> u == us[0] || u in us[1..];
    }
  }

  /**
   * The index built over `entities` in order, each utterance filed under
   * `key(utterance)`; `get_utterances_entities` files it under itself.
   */
  function IndexBy(entities: seq<Entity>, key: string -> string): Index
  {
    if entities == [] then map[]
    else
      var e := entities[|entities| - 1];
      AddAll(IndexBy(entities[..|entities| - 1], key), Utterances(e.data, e.useSynonyms), key, e.name)
  }

  /** The key `get_utterances_entities` files a string under: the string itself. */
  function Verbatim(u: string): string
  {
    u
  }

  /**
   * `get_utterances_entities(dataset)`: strings are kept verbatim; a name is
   * filed under a string only when an entity of that name produces it, and
   * every string an entity produces is filed with that entity's name.
   */
  function UtterancesEntities(entities: seq<Entity>): (index: Index)
    ensures forall k, n :: k in index && n in index[k] ==> exists e :: e in entities && e.name == n && Produces(e, k)
    ensures forall e, u :: e in entities && Produces(e, u) ==> u in index && e.name in index[u]
  {
    var index := IndexBy(entities, Verbatim);
    assert forall k, n :: k in index && n in index[k] ==> exists e :: e in entities && e.name == n && Produces(e, k) by {
      forall k, n | k in index && n in index[k] ensures exists e :: e in entities && e.name == n && Produces(e, k) {
        VerbatimMembership(entities, k, n);
      }
    }
    assert forall e, u :: e in entities && Produces(e, u) ==> u in index && e.name in index[u] by {
      forall e, u | e in entities && Produces(e, u) ensures u in index && e.name in index[u] {
        VerbatimMembership(entities, u, e.name);
      }
    }
    index
  }

  /** Under the verbatim key a name is filed under exactly the strings its entities produce. */
  lemma VerbatimMembership(entities: seq<Entity>, k: string, n: string)
    ensures (k in IndexBy(entities, Verbatim) && n in IndexBy(entities, Verbatim)[k]) <==>
      exists e :: e in entities && e.name == n && Produces(e, k)
  {
    IndexByMembership(entities, Verbatim, k, n);
    if k in IndexBy(entities, Verbatim) && n in IndexBy(entities, Verbatim)[k] {
      var e, u :| e in entities && e.name == n && Produces(e, u) && Verbatim(u) == k;
      assert e in entities && e.name == n && Produces(e, k);
    }
    if exists e :: e in entities && e.name == n && Produces(e, k) {
      var e :| e in entities && e.name == n && Produces(e, k);
      assert Verbatim(k) == k;
    }
  }

  /** Every key of the index maps to a non-empty set of names. */
  lemma {:induction false} IndexByNonEmpty(entities: seq<Entity>, key: string -> string)
    ensures forall k :: k in IndexBy(entities, key) ==> IndexBy(entities, key)[k] != {}
  {
    if entities != [] {
      var e := entities[|entities| - 1];
      IndexByNonEmpty(entities[..|entities| - 1], key);
      AddAllMembership(IndexBy(entities[..|entities| - 1], key), Utterances(e.data, e.useSynonyms), key, e.name);
    }
  }

  /** Entity `e` produces `u`: it is one of its values, or one of its synonyms while synonyms are used. */
  ghost predicate Produces(e: Entity, u: string)
  {
    exists d :: d in e.data && (u == d.value || (e.useSynonyms && u in d.synonyms))
  }

  /**
   * The index holds `n` under `k` exactly when some entity named `n` produces
   * a string whose key is `k`; names from different entities accumulate.
   */
  lemma {:induction false} IndexByMembership(entities: seq<Entity>, key: string -> string, k: string, n: string)
    ensures (k in IndexBy(entities, key) && n in IndexBy(entities, key)[k]) <==>
      exists e, u :: e in entities && e.name == n && Produces(e, u) && key(u) == k
  {
    if entities != [] {
      var init := entities[..|entities| - 1];
      var e := entities[|entities| - 1];
      IndexByMembership(init, key, k, n);
      assert forall e' :: e' in entities <==> e' in init || e' == e;
      var us := Utterances(e.data, e.useSynonyms);
      AddAllMembership(IndexBy(init, key), us, key, e.name);
      UtterancesMembership(e.data, e.useSynonyms);
      assert forall u :: u in us <==> Produces(e, u);
    }
  }

  /** A key is present exactly when some entity produces a string with that key. */
  lemma IndexByKeys(entities: seq<Entity>, key: string -> string, k: string)
    ensures k in IndexBy(entities, key) <==>
      exists e, u :: e in entities && Produces(e, u) && key(u) == k
  {
    IndexByNonEmpty(entities, key);
    if k in IndexBy(entities, key) {
      var n :| n in IndexBy(entities, key)[k];
      IndexByMembership(entities, key, k, n);
    } else {
      forall e, u | e in entities && Produces(e, u) && key(u) == k ensures false {
        IndexByMembership(entities, key, k, e.name);
      }
    }
  }

  /**
   * In `get_utterances_entities`, every value of every entity is a key whose
   * set holds that entity's name, and so is every synonym when `use_synonyms` is set.
   */
  lemma ValuesAndUsedSynonymsAreKeys(entities: seq<Entity>, e: Entity, d: EntityValue, u: string)
    requires e in entities && d in e.data
    requires u == d.value || (e.useSynonyms && u in d.synonyms)
    ensures u in UtterancesEntities(entities) && e.name in UtterancesEntities(entities)[u]
  {
    IndexByMembership(entities, Verbatim, u, e.name);
    assert Produces(e, u) && Verbatim(u) == u;
  }

  /**
   * Keys are the produced strings verbatim: a string is a key only if some
   * entity has it as a value, or as a synonym with `use_synonyms` set; an
   * unused synonym contributes nothing.
   */
  lemma KeysAreVerbatim(entities: seq<Entity>, u: string)
    ensures u in UtterancesEntities(entities) <==>
      exists e, d :: e in entities && d in e.data && (u == d.value || (e.useSynonyms && u in d.synonyms))
  {
    IndexByKeys(entities, Verbatim, u);
    forall e, d | e in entities && d in e.data && (u == d.value || (e.useSynonyms && u in d.synonyms))
      ensures u in UtterancesEntities(entities)
    {
      assert Produces(e, u) && Verbatim(u) == u;
    }
    if u in UtterancesEntities(entities) {
      var e, v :| e in entities && Produces(e, v) && Verbatim(v) == u;
      var d :| d in e.data && (v == d.value || (e.useSynonyms && v in d.synonyms));
    }
  }

  /** The index does not depend on the order in which entities are visited. */
  lemma IndexByOrderIndependent(a: seq<Entity>, b: seq<Entity>, key: string -> string)
    requires forall e :: e in a <==> e in b
    ensures IndexBy(a, key) == IndexBy(b, key)
  {
    var ra, rb := IndexBy(a, key), IndexBy(b, key);
    forall k ensures k in ra <==> k in rb {
      IndexByKeys(a, key, k);
      IndexByKeys(b, key, k);
    }
    forall k | k in ra ensures ra[k] == rb[k] {
      forall n ensures n in ra[k] <==> n in rb[k] {
        IndexByMembership(a, key, k, n);
        IndexByMembership(b, key, k, n);
      }
    }
  }
}
