/**
  Raw product records as `json.load` yields them from the catalogue files,
  Python's conversions of their fields, and `load_products`, which indexes
  the records by identifier.
 */
module Catalogue {
  import opened Wrappers
  import opened Strings

  /** A JSON value in a numeric slot (`price`, `rating`, `stock`); `Absent` is a missing key. */
  datatype Value = Absent | Null | Bool(b: bool) | Num(x: real) | Str(s: string) | Compound

  /** A JSON value in a textual slot (`_id`, `id`, `name`, ...); `NoText` is a missing key. */
  datatype Text = NoText | NullText | Text(s: string)

  /**
    One product object of a catalogue file. `docId` is the `_id` key;
    `specifications` keeps the object's entries in iteration order.
   */
  datatype Product = Product(
    docId: Text,
    id: Text,
    name: Text,
    brand: Text,
    category: Text,
    description: Text,
    price: Value,
    rating: Value,
    stock: Value,
    specifications: Option<seq<(string, string)>>,
    reviews: Option<seq<string>>,
    tags: Option<seq<string>>)

  /** The empty object `{}`. */
  const EmptyProduct := Product(NoText, NoText, NoText, NoText, NoText, NoText,
                                Absent, Absent, Absent, None, None, None)

  /** `p.get(key)` returned `None`. */
  predicate IsNone(v: Value) { v.Absent? || v.Null? }

  /** Python truthiness of a textual slot. */
  predicate Truthy(t: Text) { t.Text? && t.s != "" }

  /** `str(t or "")`. */
  function TextOrEmpty(t: Text): string
  {
    if Truthy(t) then t.s else ""
  }

  /**
    `float(v)`; `None` stands for the `TypeError`/`ValueError` it raises.
    Numbers convert to themselves, booleans to 1.0 and 0.0, strings exactly
    when they are decimal numerals, and whatever `int()` converts other than
    a float, `float()` converts to the same value. A string numeral is worth
    its digits read as one number, divided by ten per digit after the point.
   */
  function ToFloat(v: Value): (r: Option<real>)
    ensures v.Num? ==> r == Some(v.x)
    ensures v.Bool? ==> r == Some(if v.b then 1.0 else 0.0)
    ensures v.Str? ==> (r.Some? <==> DecimalNumeral(v.s))
    ensures v.Str? && r.Some? ==> r.value == DecimalValue(v.s)
    ensures IsNone(v) || v.Compound? ==> r.None?
    ensures !v.Num? && ToInt(v).Some? ==> r == Some(ToInt(v).value as real)
  {
    match v
    case Num(x) => Some(x)
    case Bool(b) => Some(if b then 1.0 else 0.0)
    case Str(s) => ParseDecimal(s)
    case _ => None
  }

  /** `int(x)` of a float truncates toward zero. */
  function Truncate(x: real): (r: int)
    ensures 0.0 <= x ==> 0 <= r && r as real <= x < r as real + 1.0
    ensures x < 0.0 ==> r <= 0 && r as real - 1.0 < x <= r as real
  {
    if x >= 0.0 then x.Floor else -((-x).Floor)
  }

  /**
    `int(v)`; `None` stands for the exception it raises. Floats are
    truncated toward zero, booleans give 1 and 0, and strings convert
    exactly when they are integer numerals.
   */
  function ToInt(v: Value): (r: Option<int>)
    ensures v.Num? ==> r == Some(Truncate(v.x))
    ensures v.Bool? ==> r == Some(if v.b then 1 else 0)
    ensures v.Str? ==> (r.Some? <==> IntNumeral(v.s))
    ensures IsNone(v) || v.Compound? ==> r.None?
  {
    match v
    case Num(x) => Some(Truncate(x))
    case Bool(b) => Some(if b then 1 else 0)
    case Str(s) => ParseInt(s)
    case _ => None
  }

  /** `int(x) <= 0` exactly when `x < 1`. */
  lemma TruncatePositive(x: real)
    ensures Truncate(x) > 0 <==> x >= 1.0
  {
  }

  /**
    `p.get("_id") or p.get("id")`, kept only when truthy: a key exists
    exactly when one of the two is a non-empty string, `_id` wins when both
    are, and a key is never "".
   */
  function KeyOf(p: Product): (r: Option<string>)
    ensures r.Some? <==> Truthy(p.docId) || Truthy(p.id)
    ensures r.Some? ==> r.value != ""
    ensures Truthy(p.docId) ==> r == Some(p.docId.s)
    ensures !Truthy(p.docId) && Truthy(p.id) ==> r == Some(p.id.s)
  {
    if Truthy(p.docId) then Some(p.docId.s)
    else if Truthy(p.id) then Some(p.id.s)
    else None
  }

  /**
    `load_products` over the concatenated contents of the catalogue files:
    a product is indexed under `_id` when that is truthy and under `id`
    otherwise, products with neither are skipped, and the last product
    carrying a key is the one kept under it.
   */
  function LoadProducts(ps: seq<Product>): (m: map<string, Product>)
    ensures "" !in m
    ensures IndexesAll(m, ps)
    ensures LastOneWins(m, ps)
    decreases |ps|
  {
    if |ps| == 0 then map[]
    else
      var front := ps[..|ps| - 1];
      var last := ps[|ps| - 1];
      var m := LoadProducts(front);
      assert ps == front + [last];
      LoadProductsStep(m, front, last);
      Index(m, last)
  }

  /** One iteration of the loop in `load_products`. */
  function Index(m: map<string, Product>, p: Product): map<string, Product>
  {
    match KeyOf(p)
    case None => m
    case Some(k) => m[k := p]
  }

  /** `m` holds exactly the truthy keys of `ps`. */
  ghost predicate IndexesAll(m: map<string, Product>, ps: seq<Product>)
  {
    forall k :: k in m <==> exists i :: 0 <= i < |ps| && KeyOf(ps[i]) == Some(k)
  }

  /** Under each key, `m` holds the last product of `ps` carrying that key. */
  ghost predicate LastOneWins(m: map<string, Product>, ps: seq<Product>)
  {
    forall k :: k in m ==>
      exists i :: 0 <= i < |ps| && KeyOf(ps[i]) == Some(k) && m[k] == ps[i]
        && forall j :: i < j < |ps| ==> KeyOf(ps[j]) != Some(k)
  }

  lemma LoadProductsStep(m: map<string, Product>, front: seq<Product>, p: Product)
    requires IndexesAll(m, front) && LastOneWins(m, front)
    ensures IndexesAll(Index(m, p), front + [p])
    ensures LastOneWins(Index(m, p), front + [p])
  {
    IndexStepKeys(m, front, p);
    IndexStepValues(m, front, p);
  }

  lemma IndexStepKeys(m: map<string, Product>, front: seq<Product>, p: Product)
    requires IndexesAll(m, front)
    ensures IndexesAll(Index(m, p), front + [p])
  {
    var ps := front + [p];
    var m' := Index(m, p);
    forall k
      ensures k in m' <==> exists i :: 0 <= i < |ps| && KeyOf(ps[i]) == Some(k)
    {
      if KeyOf(p) == Some(k) {
        assert KeyOf(ps[|front|]) == Some(k);
      } else {
        assert k in m' <==> k in m;
        if k in m {
          var i :| 0 <= i < |front| && KeyOf(front[i]) == Some(k);
          assert ps[i] == front[i];
        }
        if exists i :: 0 <= i < |ps| && KeyOf(ps[i]) == Some(k) {
          var i :| 0 <= i < |ps| && KeyOf(ps[i]) == Some(k);
          assert i < |front| && ps[i] == front[i];
        }
      }
    }
  }

  lemma IndexStepValues(m: map<string, Product>, front: seq<Product>, p: Product)
    requires LastOneWins(m, front)
    ensures LastOneWins(Index(m, p), front + [p])
  {
    var ps := front + [p];
    var m' := Index(m, p);
    forall k | k in m'
      ensures exists i :: 0 <= i < |ps| && KeyOf(ps[i]) == Some(k) && m'[k] == ps[i]
                && forall j :: i < j < |ps| ==> KeyOf(ps[j]) != Some(k)
    {
      if KeyOf(p) == Some(k) {
        var i := |front|;
        assert KeyOf(ps[i]) == Some(k) && m'[k] == ps[i];
      } else {
        assert k in m && m'[k] == m[k];
        var i :| 0 <= i < |front| && KeyOf(front[i]) == Some(k) && m[k] == front[i]
                 && forall j :: i < j < |front| ==> KeyOf(front[j]) != Some(k);
        assert ps[i] == front[i];
        forall j | i < j < |ps|
          ensures KeyOf(ps[j]) != Some(k)
        {
          if j < |front| {
            assert ps[j] == front[j];
          }
        }
      }
    }
  }
}
