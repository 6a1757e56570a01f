/**
  The text each catalogue product is embedded as (`dict_to_text` and the
  `merged_text` template of `process_file`), the records written to the
  embeddings files, and how the ranking reads them back as candidates.
 */
module Embeddings {
  import opened Wrappers
  import opened Strings
  import opened Catalogue
  import Ranking

  /** `f"{p.get(key, '')}"` for a textual slot: a missing key renders as "", `null` as "None". */
  function Render(t: Text): string
  {
    match t
    case NoText => ""
    case NullText => "None"
    case Text(s) => s
  }

  /** The `f"{key}: {value}"` segments of a specifications object, in iteration order. */
  function SpecSegments(d: seq<(string, string)>): (r: seq<string>)
    ensures |r| == |d|
    ensures forall i :: 0 <= i < |d| ==> r[i] == d[i].0 + ": " + d[i].1
  {
    if |d| == 0 then [] else [d[0].0 + ": " + d[0].1] + SpecSegments(d[1..])
  }

  /**
    `dict_to_text`: the segments joined by ". ". An empty object gives "",
    one entry gives its segment alone, and `n > 0` entries give the segments
    and `n - 1` separators; `DictToTextSnoc` gives each longer text.
   */
  function DictToText(d: seq<(string, string)>): (r: string)
    ensures |d| == 0 ==> r == ""
    ensures |d| == 1 ==> r == d[0].0 + ": " + d[0].1
    ensures |d| > 0 ==> |r| == TotalLength(SpecSegments(d)) + (|d| - 1) * 2
  {
    if |d| == 0 then ""
    else
      JoinLength(". ", SpecSegments(d));
      Join(". ", SpecSegments(d))
  }

  /**
    Adding one entry to a non-empty object appends ". ", the key, ": " and
    the value: the text is the entries in order with one separator between
    neighbours.
   */
  lemma DictToTextSnoc(d: seq<(string, string)>, key: string, value: string)
    requires |d| > 0
    ensures DictToText(d + [(key, value)]) == DictToText(d) + ". " + key + ": " + value
  {
    assert SpecSegments(d + [(key, value)]) == SpecSegments(d) + [key + ": " + value];
    JoinSnoc(". ", SpecSegments(d), key + ": " + value);
  }

  function SpecsText(p: Product): string { DictToText(p.specifications.GetOr([])) }

  /** `". ".join(p.get("reviews", []))`. */
  function ReviewsText(p: Product): string { Join(". ", p.reviews.GetOr([])) }

  /** `", ".join(p.get("tags", []))`. */
  function TagsText(p: Product): string { Join(", ", p.tags.GetOr([])) }

  /** The `merged_text` f-string of `process_file`; the template adds exactly 74 characters to the rendered fields. */
  function MergedText(p: Product): (r: string)
    ensures |r| == |Render(p.name)| + |Render(p.brand)| + |Render(p.category)|
              + |Render(p.description)| + |SpecsText(p)| + |ReviewsText(p)| + |TagsText(p)| + 74
  {
    Render(p.name) + ". "
    + "Brand: " + Render(p.brand) + ". "
    + "Category: " + Render(p.category) + ". "
    + "Description: " + Render(p.description) + ". "
    + "Specifications: " + SpecsText(p) + ". "
    + "Reviews: " + ReviewsText(p) + ". "
    + "Tags: " + TagsText(p) + "."
  }

  /** The seven labelled sections of the template, in order. */
  function Sections(p: Product): seq<string>
  {
    [ Render(p.name),
      "Brand: " + Render(p.brand),
      "Category: " + Render(p.category),
      "Description: " + Render(p.description),
      "Specifications: " + SpecsText(p),
      "Reviews: " + ReviewsText(p),
      "Tags: " + TagsText(p) ]
  }

  /**
    The template is the seven sections name, Brand, Category, Description,
    Specifications, Reviews and Tags, separated by ". " and closed by ".".
   */
  lemma {:induction false} MergedTextIsSections(p: Product)
    ensures MergedText(p) == Join(". ", Sections(p)) + "."
  {
    var s := Sections(p);
    var t0 := Render(p.name);
    var t1 := t0 + ". " + "Brand: " + Render(p.brand);
    var t2 := t1 + ". " + "Category: " + Render(p.category);
    var t3 := t2 + ". " + "Description: " + Render(p.description);
    var t4 := t3 + ". " + "Specifications: " + SpecsText(p);
    var t5 := t4 + ". " + "Reviews: " + ReviewsText(p);
    var t6 := t5 + ". " + "Tags: " + TagsText(p);
    assert Join(". ", s[..1]) == t0;
    JoinSnocAt(s, 1);
    assert Join(". ", s[..2]) == t1;
    JoinSnocAt(s, 2);
    assert Join(". ", s[..3]) == t2;
    JoinSnocAt(s, 3);
    assert Join(". ", s[..4]) == t3;
    JoinSnocAt(s, 4);
    assert Join(". ", s[..5]) == t4;
    JoinSnocAt(s, 5);
    assert Join(". ", s[..6]) == t5;
    JoinSnocAt(s, 6);
    assert s[..7] == s;
  }

  /** The first `k + 1` parts joined extend the first `k` parts joined by one separator and part `k`. */
  lemma JoinSnocAt(s: seq<string>, k: nat)
    requires 0 < k < |s|
    ensures Join(". ", s[..k + 1]) == Join(". ", s[..k]) + ". " + s[k]
  {
    assert s[..k + 1] == s[..k] + [s[k]];
    JoinSnoc(". ", s[..k], s[k]);
  }

  /**
    Missing fields and lists render as empty strings: the text of `{}` is
    the bare labels, 74 characters in all.
   */
  lemma BareProductText()
    ensures Sections(EmptyProduct)
         == ["", "Brand: ", "Category: ", "Description: ", "Specifications: ", "Reviews: ", "Tags: "]
    ensures |MergedText(EmptyProduct)| == 74
  {
    var p := EmptyProduct;
    assert SpecSegments([]) == [];
    assert SpecsText(p) == "" && ReviewsText(p) == "" && TagsText(p) == "";
    var s := Sections(p);
    assert s[1] == "Brand: " && s[2] == "Category: " && s[3] == "Description: ";
    assert s[4] == "Specifications: " && s[5] == "Reviews: " && s[6] == "Tags: ";
  }

  /** One entry of an embeddings file; `id` is `p.get("_id")` (null when missing). */
  datatype Record = Record(id: Option<string>, category: string, text: string)

  function DocIdOf(p: Product): Option<string>
  {
    if p.docId.Text? then Some(p.docId.s) else None
  }

  /**
    `process_file(category)` apart from the embedding call and the file I/O:
    one record per product, in order, carrying the product's `_id`, the
    file's category (not the product's) and its merged text.
   */
  method ProcessFile(category: string, products: seq<Product>) returns (out: seq<Record>)
    ensures |out| == |products|
    ensures forall i :: 0 <= i < |products| ==>
              out[i].id == DocIdOf(products[i]) && out[i].category == category
              && out[i].text == MergedText(products[i])
  {
    out := [];
    for i := 0 to |products|
      invariant |out| == i
      invariant forall j :: 0 <= j < i ==>
                  out[j].id == DocIdOf(products[j]) && out[j].category == category
                  && out[j].text == MergedText(products[j])
    {
      var p := products[i];
      out := out + [Record(DocIdOf(p), category, MergedText(p))];
    }
  }

  /**
    `load_all_embeddings` followed by the candidate construction of
    `semantic_retrieve_and_rank`: record `i` paired with similarity `i`.
   */
  function AttachSimilarities(records: seq<Record>, sims: seq<real>): (r: seq<Ranking.Candidate>)
    requires |sims| == |records|
    ensures |r| == |records|
    ensures forall i :: 0 <= i < |records| ==>
              r[i] == Ranking.Candidate(records[i].id, Some(records[i].category), Some(records[i].text), sims[i])
  {
    if |records| == 0 then []
    else [Ranking.Candidate(records[0].id, Some(records[0].category), Some(records[0].text), sims[0])]
         + AttachSimilarities(records[1..], sims[1..])
  }
}
