// The catalogue forms (products/forms.py): the product form's weight rule (the 100 g weight is
// always offered) and the uniqueness validators of the reference-data forms.
module ProductForms {
  import opened Wrappers
  import opened Text

  /** The grams of the base weight every product is offered in. */
  const BaseGrams := 100

  /**
   * clean_available_weights: without a 100 g weight in the database the selection is returned
   * as is; otherwise a missing selection becomes the 100 g weight alone, and a selection without
   * it gets it appended.
   */
  function CleanAvailableWeights(weights: Option<seq<int>>, default: Option<int>): (r: Option<seq<int>>)
    ensures default.None? ==> r == weights
    ensures default.Some? ==> r.Some? && default.value in r.value
    ensures default.Some? && weights.None? ==> r == Some([default.value])
    ensures default.Some? && weights.Some? ==> weights.value <= r.value
    ensures default.Some? && weights.Some? && default.value in weights.value ==> r == weights
    ensures default.Some? && weights.Some? && default.value !in weights.value ==> r.value == weights.value + [default.value]
  {
    match default
    case None => weights
    case Some(d) =>
      match weights
      case None => Some([d])
      case Some(ws) => if d in ws then weights else Some(ws + [d])
  }

  /**
   * Cleaning is idempotent, adds at most the default weight, and never drops or reorders a
   * selected weight.
   */
  lemma CleanAvailableWeightsIdempotent(weights: Option<seq<int>>, default: Option<int>)
    ensures CleanAvailableWeights(CleanAvailableWeights(weights, default), default) == CleanAvailableWeights(weights, default)
    ensures weights.Some? && default.Some? ==>
      forall w :: w in CleanAvailableWeights(weights, default).value <==> w in weights.value || w == default.value
  {
  }

  /** The saved product's weight set (its many-to-many relation). */
  class ProductWeights {
    var weights: set<int>

    constructor ()
      ensures weights == {}
    {
      weights := {};
    }

    /**
     * save(commit=True): the relation is set to the cleaned selection and the 100 g weight is
     * added; without commit nothing is written.
     */
    method Save(cleaned: seq<int>, commit: bool, default: Option<int>)
      modifies this
      ensures !commit ==> weights == old(weights)
      ensures commit ==> weights == (set w | w in cleaned) + (if default.Some? then {default.value} else {})
      ensures commit && default.Some? ==> default.value in weights
    {
      if commit {
        weights := set w | w in cleaned;
        if default.Some? {
          weights := weights + {default.value};
        }
      }
    }
  }

  // ---------------------------------------------------------------- reference data

  /** A country, roast level or bean type row, by primary key and name. */
  datatype NamedRow = NamedRow(id: int, name: string)

  /** A weight row. */
  datatype WeightRow = WeightRow(id: int, grams: int, priceMultiplier: int)

  datatype RefKind = CountryRef | RoastLevelRef | BeanTypeRef

  function Label(kind: RefKind): string
  {
    match kind
    case CountryRef => "Country"
    case RoastLevelRef => "Roast level"
    case BeanTypeRef => "Bean type"
  }

  /** Some row other than `self` has this name, ignoring case (filter(name__iexact=...).exclude(pk=self)). */
  predicate NameTaken(rows: seq<NamedRow>, name: string, self: Option<int>)
  {
    exists i :: 0 <= i < |rows| && (self.None? || rows[i].id != self.value) && EqualsIgnoreCase(rows[i].name, name)
  }

  /** The "already exists" message of the reference forms and views. */
  function AlreadyExists(kind: RefKind, name: string): string
  {
    Label(kind) + " \"" + name + "\" already exists"
  }

  /**
   * clean_name of the country, roast level and bean type forms: the name is stripped (the
   * required field refuses an empty one) and must not match another row's name ignoring case.
   */
  function CleanName(rows: seq<NamedRow>, raw: string, self: Option<int>, kind: RefKind): (r: Result<string>)
    ensures r.Ok? <==> Strip(raw) != "" && !NameTaken(rows, Strip(raw), self)
    ensures r.Ok? ==> r.value == Strip(raw)
    ensures Strip(raw) != "" && NameTaken(rows, Strip(raw), self) ==> r == Err(AlreadyExists(kind, Strip(raw)))
  {
    var name := Strip(raw);
    if name == "" then Err("This field is required.")
    else if NameTaken(rows, name, self) then Err(AlreadyExists(kind, name))
    else Ok(name)
  }

  /** clean_grams of the weight form: no other weight may have the same grams. */
  function CleanGrams(rows: seq<WeightRow>, grams: int, self: Option<int>): (r: Result<int>)
    ensures r.Ok? <==> forall i :: 0 <= i < |rows| && (self.None? || rows[i].id != self.value) ==> rows[i].grams != grams
    ensures r.Ok? ==> r.value == grams
  {
    if exists i :: 0 <= i < |rows| && (self.None? || rows[i].id != self.value) && rows[i].grams == grams then
      Err("Weight " + IntToString(grams) + "g already exists")
    else Ok(grams)
  }

  /** No two rows share a name, ignoring case. */
  predicate NamesUnique(rows: seq<NamedRow>)
  {
    forall i, j :: 0 <= i < j < |rows| ==> !EqualsIgnoreCase(rows[i].name, rows[j].name)
  }

  /** Case-insensitive equality is symmetric and transitive. */
  lemma EqualsIgnoreCaseEquivalence(a: string, b: string, c: string)
    ensures EqualsIgnoreCase(a, b) ==> EqualsIgnoreCase(b, a)
    ensures EqualsIgnoreCase(a, b) && EqualsIgnoreCase(b, c) ==> EqualsIgnoreCase(a, c)
  {
  }

  /** Adding a row whose name passed CleanName keeps the names unique. */
  lemma CreateKeepsNamesUnique(rows: seq<NamedRow>, raw: string, id: int, kind: RefKind)
    requires NamesUnique(rows)
    requires CleanName(rows, raw, None, kind).Ok?
    ensures NamesUnique(rows + [NamedRow(id, CleanName(rows, raw, None, kind).value)])
  {
    var name := CleanName(rows, raw, None, kind).value;
    var r := rows + [NamedRow(id, name)];
    forall i, j | 0 <= i < j < |r|
      ensures !EqualsIgnoreCase(r[i].name, r[j].name)
    {
      if j == |rows| {
        assert r[i] == rows[i];
      }
    }
  }
}
