/** The four token categories of pipeline_sample_metrics_token_categories.py
    (`category_conditions`) and the threshold test shared by masking and relabelling. */
module Categories {
  import opened Wrappers
  import opened Strings

  /** Category ids '1' to '4'. */
  datatype Category = C1 | C2 | C3 | C4

  /** The condition pair of a category: (observed == predicted, observed == 'O'). */
  function Conditions(c: Category): (bool, bool) {
    match c
    case C1 => (true, true)
    case C2 => (false, true)
    case C3 => (true, false)
    case C4 => (false, false)
  }

  /** The lookup `category_conditions[category_id]`: only the four ids are keys. */
  function ParseCategory(id: string): (r: Option<Category>)
    ensures r.Some? <==> id in ["1", "2", "3", "4"]
  {
    if id == "1" then Some(C1)
    else if id == "2" then Some(C2)
    else if id == "3" then Some(C3)
    else if id == "4" then Some(C4)
    else None
  }

  /** The category test of `mask_category` and `relabel_category`: the observed tag is not
      a mask tag and the pair (observed == predicted, observed == 'O') is the category's. */
  predicate InCategory(observed: string, predicted: string, c: Category) {
    && !EndsWith(observed, "MASK")
    && (observed == predicted) == Conditions(c).0
    && (observed == "O") == Conditions(c).1
  }

  /** The threshold rule: strictly below for direction 'left', strictly above otherwise. */
  predicate Exceeds(value: real, threshold: real, direction: string) {
    if direction == "left" then value < threshold else value > threshold
  }

  /** The category of a pair of tags, if the observed tag is not a mask tag. */
  function CategoryOf(observed: string, predicted: string): (r: Option<Category>)
    ensures r.Some? ==> InCategory(observed, predicted, r.value)
  {
    if EndsWith(observed, "MASK") then None
    else if observed == predicted then (if observed == "O" then Some(C1) else Some(C3))
    else (if observed == "O" then Some(C2) else Some(C4))
  }

  /** The categories partition the tag pairs whose observed tag does not end with `MASK`:
      such a pair is in exactly one category, and a mask tag is in none. */
  lemma CategoriesPartition(observed: string, predicted: string)
    ensures EndsWith(observed, "MASK") ==>
              forall c: Category :: !InCategory(observed, predicted, c)
    ensures !EndsWith(observed, "MASK") ==>
              && CategoryOf(observed, predicted).Some?
              && forall c: Category :: InCategory(observed, predicted, c) <==> c == CategoryOf(observed, predicted).value
  {
  }

  /** Category 2 and 4 tokens are mispredicted, 1 and 3 correctly predicted; 1 and 2 are
      observed as 'O'. */
  lemma CategoryMeaning(observed: string, predicted: string, c: Category)
    requires InCategory(observed, predicted, c)
    ensures (c == C1 || c == C3) <==> observed == predicted
    ensures (c == C1 || c == C2) <==> observed == "O"
  {
  }
}
