/**
  The ranking half of the hybrid recommender, from the point where every
  retrieved candidate carries its semantic similarity (`sem_sim`): numeric
  filtering against the catalogue, the hybrid score, the stable descending
  sort and the truncations of `semantic_retrieve_and_rank`.
 */
module Ranking {
  import opened Wrappers
  import opened Seqs
  import opened Strings
  import opened Catalogue

  /** One retrieved embedding record with its cosine similarity to the query. */
  datatype Candidate = Candidate(id: Option<string>, category: Option<string>, text: Option<string>, semSim: real)

  /**
    The user's stored `preferences`. Missing lists are empty, a missing
    budget is "", and a user without a profile has `NoPreferences`.
   */
  datatype Preferences = Preferences(
    preferredBrands: seq<string>,
    categories: seq<string>,
    budget: string,
    minRating: Option<real>)

  const NoPreferences := Preferences([], [], "", None)

  /** A value of `BUDGET_THRESHOLDS`: a price in rupees, or `float("inf")`. */
  datatype Threshold = Finite(amount: nat) | Unbounded

  const LowBudget: nat := 15000
  const MidBudget: nat := 40000

  /**
    `BUDGET_THRESHOLDS.get(budget.lower())`: only "low", "mid" and "high",
    in any letter case, name a threshold.
   */
  function BudgetThreshold(budget: string): (r: Option<Threshold>)
    ensures r.Some? <==> Lower(budget) == "low" || Lower(budget) == "mid" || Lower(budget) == "high"
    ensures r.Some? && r.value.Finite? ==> r.value.amount == LowBudget || r.value.amount == MidBudget
  {
    var key := Lower(budget);
    if key == "low" then Some(Finite(LowBudget))
    else if key == "mid" then Some(Finite(MidBudget))
    else if key == "high" then Some(Unbounded)
    else None
  }

  /** The lookup ignores letter case: "LOW", "Low" and "low" agree. */
  lemma {:induction false} BudgetThresholdIgnoresCase(a: string, b: string)
    requires Lower(a) == Lower(b)
    ensures BudgetThreshold(a) == BudgetThreshold(b)
  {
  }

  lemma BudgetExamples()
    ensures BudgetThreshold("LOW") == Some(Finite(15000))
    ensures BudgetThreshold("Mid") == Some(Finite(40000))
    ensures BudgetThreshold("high") == Some(Unbounded)
    ensures BudgetThreshold("medium") == None
  {
    assert Lower("LOW") == "low";
    assert Lower("Mid") == "mid";
    assert Lower("high") == "high";
    assert Lower("medium") == "medium";
  }

  // ---------------------------------------------------------------------------
  // apply_numeric_filters
  // ---------------------------------------------------------------------------

  /** The fate of one candidate in the filter loop; `Raise` is an uncaught `int()` failure. */
  datatype Verdict = Keep | Drop | Raise

  datatype RankError = StockNotAnInteger(candidate: Candidate)

  /** `products_map.get(pid)`. */
  function Lookup(m: map<string, Product>, id: Option<string>): Option<Product>
  {
    if id.Some? && id.value in m then Some(m[id.value]) else None
  }

  predicate Exceeds(x: real, cap: Threshold)
  {
    cap.Finite? && x > cap.amount as real
  }

  /** `price is None or float(price) > price_max`; a failed conversion is swallowed. */
  predicate PriceRejects(price: Value, cap: Threshold)
  {
    IsNone(price) || (ToFloat(price).Some? && Exceeds(ToFloat(price).value, cap))
  }

  /** `rating is None or float(rating) < rating_min`; a failed conversion is swallowed. */
  predicate RatingRejects(rating: Value, least: real)
  {
    IsNone(rating) || (ToFloat(rating).Some? && ToFloat(rating).value < least)
  }

  /**
    `stock is None or int(stock) <= 0` on `p.get("stock", 0)`; `int()` is not
    guarded. A stock is kept exactly when it converts to a positive integer,
    and the check raises exactly when a present, non-null stock does not
    convert; a missing stock reads as 0 and is dropped.
   */
  function StockVerdict(stock: Value): (r: Verdict)
    ensures r == Keep <==> !IsNone(stock) && ToInt(stock).Some? && ToInt(stock).value > 0
    ensures r == Raise <==> !IsNone(stock) && ToInt(stock).None?
  {
    if stock.Absent? || stock.Null? then Drop
    else match ToInt(stock)
      case None => Raise
      case Some(n) => if n <= 0 then Drop else Keep
  }

  /**
    One iteration of the loop of `apply_numeric_filters`. A candidate
    without a catalogue entry is dropped, and the uncaught `int()` failure
    escapes exactly when the candidate passes the price and rating checks
    and reaches a stock check its stock fails to convert for.
   */
  function Screen(c: Candidate, m: map<string, Product>, priceMax: Option<Threshold>,
                  ratingMin: Option<real>, inStockOnly: bool): (r: Verdict)
    ensures Lookup(m, c.id).None? ==> r == Drop
    ensures r == Raise <==>
              && inStockOnly && Lookup(m, c.id).Some?
              && !(priceMax.Some? && PriceRejects(Lookup(m, c.id).value.price, priceMax.value))
              && !(ratingMin.Some? && RatingRejects(Lookup(m, c.id).value.rating, ratingMin.value))
              && StockVerdict(Lookup(m, c.id).value.stock) == Raise
  {
    match Lookup(m, c.id)
    case None => Drop
    case Some(p) =>
      if priceMax.Some? && PriceRejects(p.price, priceMax.value) then Drop
      else if ratingMin.Some? && RatingRejects(p.rating, ratingMin.value) then Drop
      else if inStockOnly then StockVerdict(p.stock)
      else Keep
  }

  function Admits(m: map<string, Product>, priceMax: Option<Threshold>,
                  ratingMin: Option<real>, inStockOnly: bool): Candidate -> bool
  {
    c => Screen(c, m, priceMax, ratingMin, inStockOnly) == Keep
  }

  /** A product passes the stock rule: a stock is present and converts to a positive integer. */
  predicate InStock(p: Product)
  {
    !IsNone(p.stock) && ToInt(p.stock).Some? && ToInt(p.stock).value > 0
  }

  /**
    `apply_numeric_filters`: keeps, in order, exactly the candidates the loop
    keeps, or fails with the first candidate whose stock `int()` rejects.
   */
  function ApplyNumericFilters(cs: seq<Candidate>, m: map<string, Product>, priceMax: Option<Threshold>,
                               ratingMin: Option<real>, inStockOnly: bool): (r: Result<seq<Candidate>, RankError>)
    ensures r.Failure? <==> exists i :: 0 <= i < |cs| && Screen(cs[i], m, priceMax, ratingMin, inStockOnly) == Raise
    ensures r.Failure? ==>
              exists i :: 0 <= i < |cs| && r.error == StockNotAnInteger(cs[i])
                && Screen(cs[i], m, priceMax, ratingMin, inStockOnly) == Raise
                && forall j :: 0 <= j < i ==> Screen(cs[j], m, priceMax, ratingMin, inStockOnly) != Raise
    ensures r.Success? ==> r.value == Filter(cs, Admits(m, priceMax, ratingMin, inStockOnly))
    decreases |cs|
  {
    if |cs| == 0 then Success([])
    else
      var v := Screen(cs[0], m, priceMax, ratingMin, inStockOnly);
      if v == Raise then Failure(StockNotAnInteger(cs[0]))
      else
        var tail := ApplyNumericFilters(cs[1..], m, priceMax, ratingMin, inStockOnly);
        assert forall i :: 1 <= i < |cs| ==> cs[i] == cs[1..][i - 1];
        assert Admits(m, priceMax, ratingMin, inStockOnly)(cs[0]) == (v == Keep);
        match tail
        case Failure(e) =>
          assert exists i :: (0 <= i < |cs| && e == StockNotAnInteger(cs[i])
                && Screen(cs[i], m, priceMax, ratingMin, inStockOnly) == Raise
                && forall j :: 0 <= j < i ==> Screen(cs[j], m, priceMax, ratingMin, inStockOnly) != Raise) by {
            var i :| 0 <= i < |cs[1..]| && e == StockNotAnInteger(cs[1..][i])
                && Screen(cs[1..][i], m, priceMax, ratingMin, inStockOnly) == Raise
                && forall j :: 0 <= j < i ==> Screen(cs[1..][j], m, priceMax, ratingMin, inStockOnly) != Raise;
            assert forall j :: 1 <= j < i + 1 ==> cs[j] == cs[1..][j - 1];
          }
          Failure(e)
        case Success(rest) => Success(if v == Keep then [cs[0]] + rest else rest)
  }

  /**
    What the filter keeps: a candidate is admitted exactly when its id is in
    the catalogue, its product has a price (at most the cap, when the price
    converts) if a cap is set, a rating (at least the minimum, when it
    converts) if a minimum is set, and, with `in_stock_only`, a stock that
    converts to a positive integer.
   */
  lemma ScreenKeepIff(c: Candidate, m: map<string, Product>, priceMax: Option<Threshold>,
                      ratingMin: Option<real>, inStockOnly: bool)
    ensures Screen(c, m, priceMax, ratingMin, inStockOnly) == Keep <==>
      && c.id.Some? && c.id.value in m
      && (priceMax.Some? ==>
            (!IsNone(m[c.id.value].price)
             && (ToFloat(m[c.id.value].price).Some? ==> !Exceeds(ToFloat(m[c.id.value].price).value, priceMax.value))))
      && (ratingMin.Some? ==>
            (!IsNone(m[c.id.value].rating)
             && (ToFloat(m[c.id.value].rating).Some? ==> ToFloat(m[c.id.value].rating).value >= ratingMin.value)))
      && (inStockOnly ==> InStock(m[c.id.value]))
  {
  }

  /**
    Every candidate the filter returns is in the input, in input order, and
    carries a catalogue product; with `in_stock_only` that product's stock
    is present and positive (a missing stock counts as 0 and is dropped).
   */
  lemma FilteredAreAvailable(cs: seq<Candidate>, m: map<string, Product>, priceMax: Option<Threshold>,
                             ratingMin: Option<real>, inStockOnly: bool)
    requires ApplyNumericFilters(cs, m, priceMax, ratingMin, inStockOnly).Success?
    ensures var out := ApplyNumericFilters(cs, m, priceMax, ratingMin, inStockOnly).value;
      && IsSubsequence(out, cs)
      && forall x :: x in out ==>
           && x.id.Some? && x.id.value in m
           && (inStockOnly ==> InStock(m[x.id.value]) && !m[x.id.value].stock.Absent?)
           && (priceMax.Some? ==> !IsNone(m[x.id.value].price))
           && (ratingMin.Some? ==> !IsNone(m[x.id.value].rating))
  {
    var out := ApplyNumericFilters(cs, m, priceMax, ratingMin, inStockOnly).value;
    FilterIsSubsequence(cs, Admits(m, priceMax, ratingMin, inStockOnly));
    forall x | x in out
      ensures x.id.Some? && x.id.value in m
      ensures inStockOnly ==> InStock(m[x.id.value]) && !m[x.id.value].stock.Absent?
      ensures priceMax.Some? ==> !IsNone(m[x.id.value].price)
      ensures ratingMin.Some? ==> !IsNone(m[x.id.value].rating)
    {
      var i :| 0 <= i < |out| && out[i] == x;
      assert Admits(m, priceMax, ratingMin, inStockOnly)(x);
      ScreenKeepIff(x, m, priceMax, ratingMin, inStockOnly);
    }
  }

  // ---------------------------------------------------------------------------
  // compute_hybrid_score
  // ---------------------------------------------------------------------------

  const SemanticWeight: real := 0.7
  const BrandBoost: real := 0.12
  const CategoryBoost: real := 0.08
  const PricePenalty: real := 0.05

  /** The lower-cased preference list, as a set. */
  function Preferred(xs: seq<string>): set<string>
  {
    set x | x in xs :: Lower(x)
  }

  /** `brand and brand in pref_brands`, on the lower-cased `str(p.get("brand") or "")`. */
  predicate BrandMatches(p: Product, prefs: Preferences)
  {
    var brand := Lower(TextOrEmpty(p.brand));
    brand != "" && brand in Preferred(prefs.preferredBrands)
  }

  predicate CategoryMatches(p: Product, prefs: Preferences)
  {
    var category := Lower(TextOrEmpty(p.category));
    category != "" && category in Preferred(prefs.categories)
  }

  function RealMin(a: real, b: real): real { if a <= b then a else b }

  /**
    The price proximity term against a finite budget `t`: a bonus growing
    as the price falls below `t`, a penalty growing with the excess above
    `t` but capped once the excess reaches `t`.
   */
  function Proximity(t: nat, price: real): (r: real)
    ensures price <= t as real ==> 0.0 <= r
    ensures 0.0 <= price <= t as real ==> r < PricePenalty
    ensures t as real < price ==> -PricePenalty < r <= 0.0
  {
    var tr := t as real;
    if price <= tr then
      FractionBelowOne(tr - price, tr + 1.0);
      (tr - price) / (tr + 1.0) * PricePenalty
    else
      var over := RealMin(price - tr, tr);
      FractionBelowOne(over, tr + 1.0);
      -(over / (tr + 1.0)) * PricePenalty
  }

  /**
    The price term of the score. Without a budget, with the unbounded
    ("high") budget or with a price that does not convert it contributes
    nothing; otherwise it is a real above `-PricePenalty`, negative only for
    a price over the budget, and below `PricePenalty` for a non-negative price.
   */
  function PriceTerm(threshold: Option<Threshold>, price: Value): (r: real)
    ensures threshold.None? || threshold.value.Unbounded? || ToFloat(price).None? ==> r == 0.0
    ensures -PricePenalty < r
    ensures ToFloat(price).Some? && 0.0 <= ToFloat(price).value ==> r < PricePenalty
    ensures r < 0.0 ==> threshold.Some? && threshold.value.Finite? && ToFloat(price).Some?
                        && ToFloat(price).value > threshold.value.amount as real
  {
    if threshold.Some? && threshold.value.Finite? && ToFloat(price).Some? then
      Proximity(threshold.value.amount, ToFloat(price).value)
    else 0.0
  }

  /** `(rating - 3) / 10` when the rating converts. */
  function RatingTerm(rating: Value): (r: real)
    ensures ToFloat(rating).None? ==> r == 0.0
    ensures ToFloat(rating).Some? && 0.0 <= ToFloat(rating).value <= 5.0 ==> -0.3 <= r <= 0.2
  {
    match ToFloat(rating)
    case Some(x) => (x - 3.0) / 10.0
    case None => 0.0
  }

  /** Everything the score adds to the weighted similarity; it depends on the product only. */
  function ProductBonus(p: Product, prefs: Preferences): real
  {
    (if BrandMatches(p, prefs) then BrandBoost else 0.0)
    + (if CategoryMatches(p, prefs) then CategoryBoost else 0.0)
    + PriceTerm(BudgetThreshold(prefs.budget), p.price)
    + RatingTerm(p.rating)
  }

  /**
    The hybrid score of a candidate whose catalogue entry is `p`. With a
    similarity in [-1, 1], a rating in [0, 5] and a non-negative price
    whenever they convert, the score lies in (-1.05, 1.15).
   */
  function HybridScore(c: Candidate, p: Product, prefs: Preferences): (r: real)
    ensures && -1.0 <= c.semSim <= 1.0
            && (ToFloat(p.rating).Some? ==> 0.0 <= ToFloat(p.rating).value <= 5.0)
            && (ToFloat(p.price).Some? ==> 0.0 <= ToFloat(p.price).value)
            ==> -1.05 < r < 1.15
  {
    SemanticWeight * c.semSim + ProductBonus(p, prefs)
  }

  /** A cheaper product never gets a smaller price term. */
  lemma ProximityAntitone(t: nat, a: real, b: real)
    requires a <= b
    ensures Proximity(t, a) >= Proximity(t, b)
  {
    var den := t as real + 1.0;
    if b <= t as real {
      DivMonotone(t as real - b, t as real - a, den);
    } else if a <= t as real {
      DivMonotone(0.0, t as real - a, den);
    } else {
      DivMonotone(RealMin(a - t as real, t as real), RealMin(b - t as real, t as real), den);
    }
  }

  lemma DivMonotone(x: real, y: real, den: real)
    requires x <= y && den > 0.0
    ensures x / den <= y / den
  {
    assert y / den - x / den == (y - x) / den;
  }

  lemma FractionBelowOne(d: real, den: real)
    requires den > 0.0
    ensures 0.0 <= d ==> 0.0 <= d / den
    ensures d < den ==> d / den < 1.0
  {
    assert d / den + (den - d) / den == den / den;
    assert den / den == 1.0;
    if d < den {
      assert (den - d) / den > 0.0;
    }
  }

  /**
    For the same product, a higher semantic similarity gives a strictly
    higher score: the boosts never override the order of equal products.
   */
  lemma ScoreStrictlyMonotoneInSimilarity(c1: Candidate, c2: Candidate, p: Product, prefs: Preferences)
    requires c1.semSim < c2.semSim
    ensures HybridScore(c1, p, prefs) < HybridScore(c2, p, prefs)
  {
  }

  // ---------------------------------------------------------------------------
  // The price term as written, with infinities and NaN
  // ---------------------------------------------------------------------------

  /**
    The exact reals extended with the two infinities and NaN. The special
    values follow the IEEE 754 rules; finite operands are combined exactly,
    with no rounding to a double.
   */
  datatype Ext = Real(r: real) | PosInf | NegInf | NaN

  function Neg(a: Ext): Ext
  {
    match a
    case Real(x) => Real(-x)
    case PosInf => NegInf
    case NegInf => PosInf
    case NaN => NaN
  }

  /** Addition: opposite infinities give NaN, as in IEEE 754; finite sums are exact. */
  function Add(a: Ext, b: Ext): Ext
  {
    match (a, b)
    case (NaN, _) => NaN
    case (_, NaN) => NaN
    case (PosInf, NegInf) => NaN
    case (NegInf, PosInf) => NaN
    case (PosInf, _) => PosInf
    case (_, PosInf) => PosInf
    case (NegInf, _) => NegInf
    case (_, NegInf) => NegInf
    case (Real(x), Real(y)) => Real(x + y)
  }

  function Sub(a: Ext, b: Ext): Ext { Add(a, Neg(b)) }

  /** Multiplication by a positive finite factor; finite products are exact. */
  function Scale(a: Ext, k: real): Ext
    requires k > 0.0
  {
    match a
    case Real(x) => Real(x * k)
    case _ => a
  }

  /** Division by a positive divisor: infinity over infinity is NaN, as in IEEE 754; finite quotients are exact. */
  function Div(a: Ext, b: Ext): Ext
    requires b == PosInf || (b.Real? && b.r > 0.0)
  {
    match (a, b)
    case (NaN, _) => NaN
    case (Real(x), Real(y)) => Real(x / y)
    case (Real(_), _) => Real(0.0)
    case (_, PosInf) => NaN
    case (PosInf, _) => PosInf
    case (NegInf, _) => NegInf
  }

  /** `a <= b` on values that are not NaN. */
  predicate AtMost(a: Ext, b: Ext)
  {
    match (a, b)
    case (NaN, _) => false
    case (_, NaN) => false
    case (NegInf, _) => true
    case (_, PosInf) => true
    case (Real(x), Real(y)) => x <= y
    case _ => false
  }

  function ExtMin(a: Ext, b: Ext): Ext
  {
    if AtMost(b, a) then b else a
  }

  function AsExt(t: Threshold): (r: Ext)
    ensures r == PosInf || (r.Real? && r.r >= 0.0)
  {
    match t
    case Finite(n) => Real(n as real)
    case Unbounded => PosInf
  }

  /** The proximity term of the loop body in `Ext` arithmetic, for a threshold `t` and a price `x`. */
  function ProximityAsWritten(t: Ext, x: real): Ext
    requires t == PosInf || (t.Real? && t.r >= 0.0)
  {
    var den := Add(t, Real(1.0));
    if AtMost(Real(x), t) then Scale(Div(Sub(t, Real(x)), den), PricePenalty)
    else Neg(Scale(Div(ExtMin(Sub(Real(x), t), t), den), PricePenalty))
  }

  /** The price term exactly as the loop computes it, `float("inf")` included. */
  function PriceTermAsWritten(threshold: Option<Threshold>, price: Value): Ext
  {
    if threshold.None? || ToFloat(price).None? then Real(0.0)
    else ProximityAsWritten(AsExt(threshold.value), ToFloat(price).value)
  }

  lemma ProximityAsWrittenFinite(t: nat, x: real)
    ensures ProximityAsWritten(Real(t as real), x) == Real(Proximity(t, x))
  {
    var tr := t as real;
    var den := Add(Real(tr), Real(1.0));
    assert den == Real(tr + 1.0);
    if x <= tr {
      assert Sub(Real(tr), Real(x)) == Real(tr - x);
      assert Div(Real(tr - x), den) == Real((tr - x) / (tr + 1.0));
    } else {
      var over := RealMin(x - tr, tr);
      assert Sub(Real(x), Real(tr)) == Real(x - tr);
      assert ExtMin(Real(x - tr), Real(tr)) == Real(over);
      assert Div(Real(over), den) == Real(over / (tr + 1.0));
      assert -(over / (tr + 1.0) * PricePenalty) == -(over / (tr + 1.0)) * PricePenalty;
    }
  }

  /** For a finite budget the computation as written is the price term of the model. */
  lemma PriceTermAsWrittenFinite(t: nat, price: Value)
    ensures PriceTermAsWritten(Some(Finite(t)), price) == Real(PriceTerm(Some(Finite(t)), price))
  {
    if ToFloat(price).Some? {
      ProximityAsWrittenFinite(t, ToFloat(price).value);
    }
  }

  /**
    For the "high" budget the computation as written is `inf / inf`, NaN, for
    every price that converts: the score of every such product becomes NaN.
   */
  lemma HighBudgetPriceTermIsNaN(price: Value)
    requires ToFloat(price).Some?
    ensures PriceTermAsWritten(BudgetThreshold("high"), price) == NaN
  {
    BudgetExamples();
    var x := ToFloat(price).value;
    assert AtMost(Real(x), PosInf);
    assert Sub(PosInf, Real(x)) == PosInf;
    assert Add(PosInf, Real(1.0)) == PosInf;
    assert ProximityAsWritten(PosInf, x) == NaN;
  }

  /** A concrete case: budget "high" and a price of 100. */
  lemma HighBudgetExample()
    ensures PriceTermAsWritten(BudgetThreshold("high"), Num(100.0)) == NaN
    ensures PriceTerm(BudgetThreshold("high"), Num(100.0)) == 0.0
  {
    HighBudgetPriceTermIsNaN(Num(100.0));
  }

  /** One output entry: the candidate, its score and its product (`{}` when unknown). */
  datatype Scored = Scored(candidate: Candidate, score: real, product: Product)

  function ScoreOf(s: Scored): real { s.score }

  function SemSimOf(c: Candidate): real { c.semSim }

  /** `products_map.get(pid, {})`. */
  function ProductFor(m: map<string, Product>, id: Option<string>): Product
  {
    Lookup(m, id).GetOr(EmptyProduct)
  }

  function ScoreOne(c: Candidate, m: map<string, Product>, prefs: Preferences): Scored
  {
    var p := ProductFor(m, c.id);
    Scored(c, HybridScore(c, p, prefs), p)
  }

  /** An entry carries its candidate's product and the hybrid score of that pair. */
  predicate WellScored(x: Scored, m: map<string, Product>, prefs: Preferences)
  {
    x.product == ProductFor(m, x.candidate.id) && x.score == HybridScore(x.candidate, x.product, prefs)
  }

  /** The `scored` list before sorting: one entry per candidate, in input order. */
  function ScoreAll(cs: seq<Candidate>, m: map<string, Product>, prefs: Preferences): (r: seq<Scored>)
    ensures |r| == |cs|
    ensures forall i :: 0 <= i < |cs| ==> r[i] == ScoreOne(cs[i], m, prefs)
  {
    if |cs| == 0 then [] else [ScoreOne(cs[0], m, prefs)] + ScoreAll(cs[1..], m, prefs)
  }

  lemma ScoreAllMembers(cs: seq<Candidate>, m: map<string, Product>, prefs: Preferences, x: Scored)
    requires x in multiset(ScoreAll(cs, m, prefs))
    ensures x.candidate in cs && WellScored(x, m, prefs)
  {
    var u := ScoreAll(cs, m, prefs);
    var i :| 0 <= i < |u| && u[i] == x;
    assert x == ScoreOne(cs[i], m, prefs);
  }

  /**
    `compute_hybrid_score`: one entry per candidate (a permutation of the
    unsorted entries), each carrying its candidate, its product and that
    pair's hybrid score, ordered by non-increasing score.
   */
  function ComputeHybridScore(cs: seq<Candidate>, m: map<string, Product>, prefs: Preferences): (r: seq<Scored>)
    ensures |r| == |cs|
    ensures multiset(r) == multiset(ScoreAll(cs, m, prefs))
    ensures SortedDesc(r, ScoreOf)
    ensures forall i :: 0 <= i < |r| ==> r[i].candidate in cs && WellScored(r[i], m, prefs)
  {
    var r := SortDesc(ScoreAll(cs, m, prefs), ScoreOf);
    ComputeHybridScoreMembers(cs, m, prefs, r);
    r
  }

  lemma ComputeHybridScoreMembers(cs: seq<Candidate>, m: map<string, Product>, prefs: Preferences, r: seq<Scored>)
    requires multiset(r) == multiset(ScoreAll(cs, m, prefs))
    ensures forall i :: 0 <= i < |r| ==> r[i].candidate in cs && WellScored(r[i], m, prefs)
  {
    forall i | 0 <= i < |r|
      ensures r[i].candidate in cs && WellScored(r[i], m, prefs)
    {
      assert r[i] in multiset(r);
      ScoreAllMembers(cs, m, prefs, r[i]);
    }
  }

  /** Equal scores keep the candidates' input order (Python's sort is stable). */
  lemma ComputeHybridScoreIsStable(cs: seq<Candidate>, m: map<string, Product>, prefs: Preferences, k: real)
    ensures WithKey(ComputeHybridScore(cs, m, prefs), ScoreOf, k) == WithKey(ScoreAll(cs, m, prefs), ScoreOf, k)
  {
    SortDescIsStable(ScoreAll(cs, m, prefs), ScoreOf, k);
  }

  // ---------------------------------------------------------------------------
  // semantic_retrieve_and_rank, after similarity
  // ---------------------------------------------------------------------------

  /** `max(top_k * 3, top_k)`. */
  function PoolSize(topK: int): int { Max(topK * 3, topK) }

  function SortedBySimilarity(cands: seq<Candidate>): seq<Candidate>
  {
    SortDesc(cands, SemSimOf)
  }

  /**
    The candidates kept for filtering: the head of the similarity order,
    `3 * top_k` of them or all when there are fewer, most similar first.
   */
  function Pool(cands: seq<Candidate>, topK: int): (r: seq<Candidate>)
    ensures topK >= 0 ==> |r| == Min(3 * topK, |cands|)
    ensures topK < 0 ==> |r| == Max(0, |cands| + topK)
    ensures multiset(r) <= multiset(cands)
    ensures SortedDesc(r, SemSimOf)
  {
    var s := SortedBySimilarity(cands);
    var r := TakePrefix(s, PoolSize(topK));
    PrefixOfSortedIsSorted(s, r, SemSimOf);
    assert s == r + s[|r|..];
    r
  }

  /** The candidates the truncation discards. */
  function Overflow(cands: seq<Candidate>, topK: int): seq<Candidate>
  {
    SortedBySimilarity(cands)[|Pool(cands, topK)|..]
  }

  /**
    The pool and the overflow split the candidates, the pool holds at most
    `3 * top_k` of them, and no discarded candidate is more similar to the
    query than a kept one.
   */
  lemma PoolIsMostSimilar(cands: seq<Candidate>, topK: int)
    ensures multiset(Pool(cands, topK)) + multiset(Overflow(cands, topK)) == multiset(cands)
    ensures topK >= 0 ==> |Pool(cands, topK)| == Min(3 * topK, |cands|)
    ensures forall x, y :: x in Pool(cands, topK) && y in Overflow(cands, topK) ==> x.semSim >= y.semSim
  {
    var s := SortedBySimilarity(cands);
    var pool := Pool(cands, topK);
    var rest := Overflow(cands, topK);
    assert s == pool + rest;
    forall x, y | x in pool && y in rest
      ensures x.semSim >= y.semSim
    {
      var i :| 0 <= i < |pool| && pool[i] == x;
      var j :| 0 <= j < |rest| && rest[j] == y;
      assert s[i] == x && s[|pool| + j] == y;
    }
  }

  /** The numeric filters `semantic_retrieve_and_rank` derives from the profile. */
  function PriceCap(prefs: Preferences): Option<Threshold>
  {
    BudgetThreshold(prefs.budget)
  }

  /** An entry of the final ranking: an admitted pooled candidate with its catalogue product and score. */
  predicate Admitted(x: Scored, cands: seq<Candidate>, catalogue: seq<Product>, prefs: Preferences, topK: int)
  {
    var m := LoadProducts(catalogue);
    && x.candidate in Pool(cands, topK)
    && Screen(x.candidate, m, PriceCap(prefs), prefs.minRating, true) == Keep
    && x.candidate.id.Some? && x.candidate.id.value in m
    && x.product == m[x.candidate.id.value]
    && x.score == HybridScore(x.candidate, x.product, prefs)
  }

  /** The pooled candidates the filter keeps, in pool order. */
  function Survivors(cands: seq<Candidate>, catalogue: seq<Product>, prefs: Preferences, topK: int): seq<Candidate>
  {
    Filter(Pool(cands, topK), Admits(LoadProducts(catalogue), PriceCap(prefs), prefs.minRating, true))
  }

  /**
    Filtered and scored pool, before the final `[:top_k]`: every pooled
    candidate the filter keeps, scored once, and nothing else; entries with
    equal scores stay in pool order, so the cut breaks ties by similarity.
   */
  function Ranked(cands: seq<Candidate>, catalogue: seq<Product>, prefs: Preferences, topK: int)
    : (r: Result<seq<Scored>, RankError>)
    ensures r.Success? ==> SortedDesc(r.value, ScoreOf)
    ensures r.Success? ==>
              multiset(r.value) == multiset(ScoreAll(Survivors(cands, catalogue, prefs, topK), LoadProducts(catalogue), prefs))
    ensures r.Success? ==>
              forall y :: y in Pool(cands, topK)
                && Screen(y, LoadProducts(catalogue), PriceCap(prefs), prefs.minRating, true) == Keep
                ==> exists i :: 0 <= i < |r.value| && r.value[i].candidate == y
    ensures r.Success? ==> forall i :: 0 <= i < |r.value| ==> Admitted(r.value[i], cands, catalogue, prefs, topK)
    ensures r.Success? ==> forall k ::
              WithKey(r.value, ScoreOf, k)
              == WithKey(ScoreAll(Survivors(cands, catalogue, prefs, topK), LoadProducts(catalogue), prefs), ScoreOf, k)
    ensures r.Failure? <==>
              exists i :: 0 <= i < |Pool(cands, topK)|
                && Screen(Pool(cands, topK)[i], LoadProducts(catalogue), PriceCap(prefs), prefs.minRating, true) == Raise
  {
    var m := LoadProducts(catalogue);
    var pool := Pool(cands, topK);
    match ApplyNumericFilters(pool, m, PriceCap(prefs), prefs.minRating, true)
    case Failure(e) => Failure(e)
    case Success(filtered) =>
      var ranked := ComputeHybridScore(filtered, m, prefs);
      RankedAdmitted(cands, catalogue, prefs, topK, filtered, ranked);
      RankedComplete(cands, catalogue, prefs, topK, filtered, ranked);
      assert forall k :: WithKey(ranked, ScoreOf, k) == WithKey(ScoreAll(filtered, m, prefs), ScoreOf, k) by {
        forall k {
          ComputeHybridScoreIsStable(filtered, m, prefs, k);
        }
      }
      Success(ranked)
  }

  /** Every pooled candidate the filter keeps has an entry in the ranking. */
  lemma RankedComplete(cands: seq<Candidate>, catalogue: seq<Product>, prefs: Preferences, topK: int,
                       filtered: seq<Candidate>, ranked: seq<Scored>)
    requires filtered == Survivors(cands, catalogue, prefs, topK)
    requires multiset(ranked) == multiset(ScoreAll(filtered, LoadProducts(catalogue), prefs))
    ensures forall y :: y in Pool(cands, topK)
              && Screen(y, LoadProducts(catalogue), PriceCap(prefs), prefs.minRating, true) == Keep
              ==> exists i :: 0 <= i < |ranked| && ranked[i].candidate == y
  {
    var m := LoadProducts(catalogue);
    var admits := Admits(m, PriceCap(prefs), prefs.minRating, true);
    forall y | y in Pool(cands, topK) && Screen(y, m, PriceCap(prefs), prefs.minRating, true) == Keep
      ensures exists i :: 0 <= i < |ranked| && ranked[i].candidate == y
    {
      assert admits(y);
      assert y in filtered;
      var j :| 0 <= j < |filtered| && filtered[j] == y;
      var scored := ScoreAll(filtered, m, prefs);
      assert scored[j].candidate == y;
      assert scored[j] in multiset(ranked);
      var i :| 0 <= i < |ranked| && ranked[i] == scored[j];
    }
  }

  lemma RankedAdmitted(cands: seq<Candidate>, catalogue: seq<Product>, prefs: Preferences, topK: int,
                       filtered: seq<Candidate>, ranked: seq<Scored>)
    requires filtered == Survivors(cands, catalogue, prefs, topK)
    requires forall i :: 0 <= i < |ranked| ==>
               ranked[i].candidate in filtered && WellScored(ranked[i], LoadProducts(catalogue), prefs)
    ensures forall i :: 0 <= i < |ranked| ==> Admitted(ranked[i], cands, catalogue, prefs, topK)
  {
    var m := LoadProducts(catalogue);
    forall i | 0 <= i < |ranked|
      ensures Admitted(ranked[i], cands, catalogue, prefs, topK)
    {
      var x := ranked[i];
      var j :| 0 <= j < |filtered| && filtered[j] == x.candidate;
      assert Admits(m, PriceCap(prefs), prefs.minRating, true)(x.candidate);
      assert Screen(x.candidate, m, PriceCap(prefs), prefs.minRating, true) == Keep;
    }
  }

  /**
    `semantic_retrieve_and_rank` given the similarities: at most `top_k`
    entries (for a non-negative `top_k`), the best-scored head of the
    ranking, in non-increasing score order, each an admitted candidate with
    its catalogue product and score; it fails exactly when some pooled
    candidate reaching the stock check has a stock `int()` rejects.
   */
  function RetrieveAndRank(cands: seq<Candidate>, catalogue: seq<Product>, prefs: Preferences, topK: int)
    : (r: Result<seq<Scored>, RankError>)
    ensures r.Failure? <==>
              exists i :: 0 <= i < |Pool(cands, topK)|
                && Screen(Pool(cands, topK)[i], LoadProducts(catalogue), PriceCap(prefs), prefs.minRating, true) == Raise
    ensures r.Success? ==> topK >= 0 ==> |r.value| == Min(topK, |Ranked(cands, catalogue, prefs, topK).value|)
    ensures r.Success? ==> topK < 0 ==> |r.value| == Max(0, |Ranked(cands, catalogue, prefs, topK).value| + topK)
    ensures r.Success? ==> SortedDesc(r.value, ScoreOf)
    ensures r.Success? ==> r.value <= Ranked(cands, catalogue, prefs, topK).value
    ensures r.Success? ==>
              forall i, j :: 0 <= i < |r.value| <= j < |Ranked(cands, catalogue, prefs, topK).value| ==>
                r.value[i].score >= Ranked(cands, catalogue, prefs, topK).value[j].score
    ensures r.Success? ==> forall i :: 0 <= i < |r.value| ==> Admitted(r.value[i], cands, catalogue, prefs, topK)
  {
    match Ranked(cands, catalogue, prefs, topK)
    case Failure(e) => Failure(e)
    case Success(ranked) =>
      TopOfRanking(ranked, topK, cands, catalogue, prefs);
      Success(TakePrefix(ranked, topK))
  }

  /** The first `top_k` entries of a sorted ranking are sorted, admitted and score at least as high as the rest. */
  lemma TopOfRanking(ranked: seq<Scored>, topK: int, cands: seq<Candidate>, catalogue: seq<Product>,
                     prefs: Preferences)
    requires SortedDesc(ranked, ScoreOf)
    requires forall i :: 0 <= i < |ranked| ==> Admitted(ranked[i], cands, catalogue, prefs, topK)
    ensures var top := TakePrefix(ranked, topK);
      && (topK >= 0 ==> |top| == Min(topK, |ranked|))
      && (topK < 0 ==> |top| == Max(0, |ranked| + topK))
      && SortedDesc(top, ScoreOf)
      && top <= ranked
      && (forall i, j :: 0 <= i < |top| <= j < |ranked| ==> top[i].score >= ranked[j].score)
      && (forall i :: 0 <= i < |top| ==> Admitted(top[i], cands, catalogue, prefs, topK))
  {
    var top := TakePrefix(ranked, topK);
    PrefixOfSortedIsSorted(ranked, top, ScoreOf);
    forall i, j | 0 <= i < |top| <= j < |ranked|
      ensures top[i].score >= ranked[j].score
    {
      assert top[i] == ranked[i];
      assert ScoreOf(ranked[i]) >= ScoreOf(ranked[j]);
    }
    forall i | 0 <= i < |top|
      ensures Admitted(top[i], cands, catalogue, prefs, topK)
    {
      assert top[i] == ranked[i];
    }
  }
}
