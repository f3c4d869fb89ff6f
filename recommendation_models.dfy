// The recommendation data (recommendations/models.py): interaction rows and their weights, the
// pre-computed product similarities and the settings singleton.
module RecommendationModels {
  import opened Wrappers

  // ---------------------------------------------------------------- RecommendationSettings

  /**
   * The recommendation settings: hybrid weights (content, collaborative, popularity), the
   * content feature weights, the time-decay rate and the collaborative-filtering threshold.
   */
  datatype RecSettings = RecSettings(
    weightContentBased: real,
    weightCollaborative: real,
    weightPopularity: real,
    featureCountryWeight: real,
    featureRoastWeight: real,
    featureBeanWeight: real,
    featurePriceWeight: real,
    timeDecayRate: real,
    isActive: bool,
    minInteractionsForCf: int)

  const RecDefaults := RecSettings(0.35, 0.40, 0.25, 0.25, 0.30, 0.25, 0.20, 0.050, true, 3)

  predicate UnitInterval(x: real) { 0.0 <= x <= 1.0 }

  /** The field validators: every weight in [0, 1], the decay rate in [0.001, 1], the threshold at least 1. */
  predicate RecFieldsValid(s: RecSettings)
  {
    UnitInterval(s.weightContentBased) && UnitInterval(s.weightCollaborative) && UnitInterval(s.weightPopularity) &&
    UnitInterval(s.featureCountryWeight) && UnitInterval(s.featureRoastWeight) &&
    UnitInterval(s.featureBeanWeight) && UnitInterval(s.featurePriceWeight) &&
    0.001 <= s.timeDecayRate <= 1.0 && s.minInteractionsForCf >= 1
  }

  /** The defaults pass the validators, and both groups of weights sum to one. */
  lemma RecDefaultsValid()
    ensures RecFieldsValid(RecDefaults)
    ensures RecDefaults.weightContentBased + RecDefaults.weightCollaborative + RecDefaults.weightPopularity == 1.0
    ensures RecDefaults.featureCountryWeight + RecDefaults.featureRoastWeight +
            RecDefaults.featureBeanWeight + RecDefaults.featurePriceWeight == 1.0
  {
  }

  /** The settings table, keyed by primary key. */
  class RecSettingsTable {
    var rows: map<int, RecSettings>

    constructor ()
      ensures rows == map[]
    {
      rows := map[];
    }

    /**
     * save(): an instance without a primary key takes the existing row's key when there is one,
     * otherwise the database's next key; the row is then written under that key.
     */
    method Save(s: RecSettings, pk: Option<int>, nextKey: int) returns (key: int)
      requires nextKey !in rows
      modifies this
      ensures pk.Some? ==> key == pk.value
      ensures pk.None? && old(rows) != map[] ==> key in old(rows) && forall j :: j in old(rows) ==> key <= j
      ensures pk.None? && old(rows) == map[] ==> key == nextKey
      ensures rows == old(rows)[key := s]
      ensures pk.None? ==> |rows.Keys| == if old(rows) == map[] then 1 else |old(rows).Keys|
    {
      if pk.None? && rows != map[] {
        // objects.first(): the row with the smallest key
        ghost var least := MinKey(rows.Keys);
        key :| key in rows && forall j :: j in rows ==> key <= j;
      } else if pk.None? {
        key := nextKey;
      } else {
        key := pk.value;
      }
      if pk.None? && old(rows) != map[] {
        assert rows[key := s].Keys == rows.Keys;
      } else if pk.None? {
        assert rows[key := s].Keys == {key};
      }
      rows := rows[key := s];
    }

    /** get_settings(): get-or-create on key 1 with the defaults. */
    method GetSettings() returns (s: RecSettings)
      modifies this
      ensures 1 in rows && s == rows[1]
      ensures 1 in old(rows) ==> rows == old(rows)
      ensures 1 !in old(rows) ==> rows == old(rows)[1 := RecDefaults] && s == RecDefaults
    {
      if 1 !in rows {
        rows := rows[1 := RecDefaults];
      }
      s := rows[1];
    }
  }

  /** The least element of a non-empty set of keys. */
  ghost function MinKey(keys: set<int>): (k: int)
    requires keys != {}
    ensures k in keys && forall j :: j in keys ==> k <= j
    decreases |keys|
  {
    assert exists x :: x in keys by {
      HasElement(keys);
    }
    var x :| x in keys;
    if keys == {x} then x
    else
      var rest := MinKey(keys - {x});
      assert forall j :: j in keys ==> j == x || j in keys - {x};
      if x <= rest then x else rest
  }

  lemma HasElement(s: set<int>)
    requires s != {}
    ensures exists x :: x in s
  {
    if forall x :: x !in s {
      NoElementIsEmpty(s);
    }
  }

  lemma NoElementIsEmpty(s: set<int>)
    requires forall x :: x !in s
    ensures s == {}
  {
    assert forall x :: x in s <==> x in {};
  }

  /** A lone settings row stays lone: saving a new instance never adds a second one. */
  lemma SaveKeepsSingleton(rows: map<int, RecSettings>, key: int, s: RecSettings)
    requires |rows.Keys| == 1 && key in rows
    ensures |rows[key := s].Keys| == 1
  {
    assert rows[key := s].Keys == rows.Keys;
  }

  // ---------------------------------------------------------------- UserProductInteraction

  /** INTERACTION_WEIGHTS. */
  const InteractionWeights: map<string, real> :=
    map["view" := 1.0, "cart" := 3.0, "purchase" := 5.0, "favorite" := 4.0, "review" := 4.5]

  /** The weight of an interaction type; types outside the table weigh 1.0. */
  function InteractionWeight(interactionType: string): (w: real)
    ensures interactionType in InteractionWeights ==> w == InteractionWeights[interactionType]
    ensures interactionType !in InteractionWeights ==> w == 1.0
    ensures 1.0 <= w <= 5.0
  {
    if interactionType in InteractionWeights then InteractionWeights[interactionType] else 1.0
  }

  /** A purchase outweighs every other kind of interaction; a view weighs least. */
  lemma PurchaseWeighsMost(t: string)
    ensures InteractionWeight(t) <= InteractionWeight("purchase")
    ensures InteractionWeight("view") <= InteractionWeight(t)
  {
  }

  /** One row per (user, product, interaction type). */
  datatype InteractionKey = InteractionKey(user: int, product: int, interactionType: string)

  /** An interaction row: how many times, and when last (a timestamp in seconds). */
  datatype Interaction = Interaction(key: InteractionKey, interactionCount: nat, lastInteraction: int)

  /** weighted_score: the type's weight times the interaction count. */
  function WeightedScore(i: Interaction): (r: real)
    ensures i.interactionCount as real <= r <= 5.0 * i.interactionCount as real
  {
    InteractionWeight(i.key.interactionType) * i.interactionCount as real
  }

  /** Each repetition of an interaction adds exactly its type's weight. */
  lemma WeightedScoreStep(i: Interaction)
    ensures WeightedScore(i.(interactionCount := i.interactionCount + 1)) ==
            WeightedScore(i) + InteractionWeight(i.key.interactionType)
  {
  }

  /** The interaction table: keyed by (user, product, type), so at most one row per key. */
  class InteractionTable {
    var rows: map<InteractionKey, Interaction>

    ghost predicate Valid()
      reads this
    {
      forall k :: k in rows ==> rows[k].key == k
    }

    constructor ()
      ensures Valid() && rows == map[]
    {
      rows := map[];
    }
  }

  // ---------------------------------------------------------------- ProductSimilarity

  /** A stored similarity from product a to product b. */
  datatype SimilarityRow = SimilarityRow(productA: int, productB: int, similarityScore: real)

  /** The similarity table, replaced in full by each batch computation. */
  class SimilarityTable {
    var rows: seq<SimilarityRow>

    constructor ()
      ensures rows == []
    {
      rows := [];
    }
  }
}
