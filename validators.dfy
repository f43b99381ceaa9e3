/** The custom recipe-input check of backend/api/validators.py: a first-error
    scan of the ingredient list and the tag list, whose message is kept in an
    instance field that is never reset. */
module Validators {
  import opened Common

  /** One entry of the request's `ingredients` list. */
  datatype IngredientInput = IngredientInput(id: int, amount: int)

  /** The validated attributes: the ingredient entries and the ids of the tags. */
  datatype Attrs = Attrs(ingredients: seq<IngredientInput>, tags: seq<int>)

  /** The messages the check can record. */
  datatype Message =
    | IngredientsMissing
    | AmountBelowOne(ingredientId: int)
    | IngredientsRepeated
    | TagsMissing
    | TagsRepeated

  /** The text of each message. Every text is non-empty, so the source's
      truthiness test `if self.error_message:` means "a message was recorded". */
  function Text(m: Message): (s: string)
    ensures |s| > 0
  {
    match m
    case IngredientsMissing => "Ингредиенты не переданы"
    case AmountBelowOne(id) => "Кол-во ингредиента " + IntToDecimal(id) + " меньше 1."
    case IngredientsRepeated => "Ингредиенты повторяются"
    case TagsMissing => "Теги не переданы"
    case TagsRepeated => "Теги повторяются"
  }

  /** The ids of a list of ingredient entries, in order. */
  function Ids(ings: seq<IngredientInput>): (ids: seq<int>)
    ensures |ids| == |ings|
    ensures forall i :: 0 <= i < |ings| ==> ids[i] == ings[i].id
  {
    seq(|ings|, i requires 0 <= i < |ings| => ings[i].id)
  }

  /** The position of the first entry whose amount is below 1, or the length
      of the list when there is none: the point where the scan stops. */
  function FirstBadAmount(ings: seq<IngredientInput>): (k: nat)
    ensures k <= |ings|
    ensures forall i :: 0 <= i < k ==> ings[i].amount >= 1
    ensures k < |ings| ==> ings[k].amount < 1
  {
    if ings == [] then 0
    else if ings[0].amount < 1 then 0
    else 1 + FirstBadAmount(ings[1..])
  }

  /** `len(xs) != len(set(xs))`. */
  predicate HasRepeats(xs: seq<int>)
  {
    |SetOf(xs)| != |xs|
  }

  /** The message recorded after the ingredient part of the check, given the
      message `prev` already held by the instance. */
  function IngredientPhase(prev: Option<Message>, ings: seq<IngredientInput>): Option<Message>
  {
    if ings == [] then Some(IngredientsMissing)
    else
      var k := FirstBadAmount(ings);
      var scanned := Ids(ings[..k]);
      var afterScan := if k < |ings| then Some(AmountBelowOne(ings[k].id)) else prev;
      if |scanned| > 0 && HasRepeats(scanned) then Some(IngredientsRepeated) else afterScan
  }

  /** The message held after a whole call; the call also returns it. */
  function Outcome(prev: Option<Message>, attrs: Attrs): Option<Message>
  {
    var em := IngredientPhase(prev, attrs.ingredients);
    if em.Some? then em
    else if attrs.tags == [] then Some(TagsMissing)
    else if HasRepeats(attrs.tags) then Some(TagsRepeated)
    else None
  }

  /** Input that passes every check: a non-empty ingredient list whose amounts
      are all at least 1 and whose ids are pairwise distinct, and a non-empty
      tag list without repeated ids. */
  predicate Acceptable(attrs: Attrs)
  {
    && attrs.ingredients != []
    && (forall i :: 0 <= i < |attrs.ingredients| ==> attrs.ingredients[i].amount >= 1)
    && Distinct(Ids(attrs.ingredients))
    && attrs.tags != []
    && Distinct(attrs.tags)
  }

  class RecipeCreateValidation {
    /** The last message recorded by any call; `None` on a fresh instance. */
    var errorMessage: Option<Message>

    constructor ()
      ensures errorMessage == None
    {
      errorMessage := None;
    }

    /** `run_custom_validation`: checks the ingredients, then (only if no
        message is held) the tags, and returns the message held at the end. */
    method RunCustomValidation(attrs: Attrs) returns (r: Option<Message>)
      modifies this
      ensures errorMessage == Outcome(old(errorMessage), attrs)
      ensures r == errorMessage
    {
      var ings := attrs.ingredients;
      if ings == [] {
        errorMessage := Some(IngredientsMissing);
      } else {
        var ingredientsList: seq<int> := [];
        var i := 0;
        while i < |ings|
          invariant 0 <= i <= FirstBadAmount(ings)
          invariant ingredientsList == Ids(ings[..i])
          invariant errorMessage == old(errorMessage)
        {
          if ings[i].amount < 1 {
            errorMessage := Some(AmountBelowOne(ings[i].id));
            break;
          }
          ingredientsList := ingredientsList + [ings[i].id];
          i := i + 1;
        }
        assert i == FirstBadAmount(ings);
        assert errorMessage == (if i < |ings| then Some(AmountBelowOne(ings[i].id)) else old(errorMessage));
        if |ingredientsList| > 0 && |SetOf(ingredientsList)| != |ingredientsList| {
          errorMessage := Some(IngredientsRepeated);
        }
      }
      if errorMessage.Some? {
        return errorMessage;
      }
      if attrs.tags == [] {
        errorMessage := Some(TagsMissing);
      } else if |SetOf(attrs.tags)| != |attrs.tags| {
        errorMessage := Some(TagsRepeated);
      }
      if errorMessage.Some? {
        return errorMessage;
      }
      return None;
    }
  }

  /** An empty ingredient list is reported as missing whatever the tags are and
      whatever the instance held before. */
  lemma EmptyIngredientsReported(prev: Option<Message>, attrs: Attrs)
    requires attrs.ingredients == []
    ensures Outcome(prev, attrs) == Some(IngredientsMissing)
  {
  }

  /** The scan stops at the first entry with an amount below 1 and names its id,
      unless the entries scanned before it repeat an id. */
  lemma FirstBadAmountReported(prev: Option<Message>, attrs: Attrs, k: nat)
    requires k < |attrs.ingredients|
    requires attrs.ingredients[k].amount < 1
    requires forall i :: 0 <= i < k ==> attrs.ingredients[i].amount >= 1
    requires Distinct(Ids(attrs.ingredients[..k]))
    ensures Outcome(prev, attrs) == Some(AmountBelowOne(attrs.ingredients[k].id))
  {
    assert FirstBadAmount(attrs.ingredients) == k;
    DistinctIffSetSize(Ids(attrs.ingredients[..k]));
  }

  /** A repeated id among the entries scanned before the first bad amount
      replaces any amount message with "repeated". */
  lemma RepeatedIngredientReported(prev: Option<Message>, attrs: Attrs, i: nat, j: nat)
    requires i < j < FirstBadAmount(attrs.ingredients)
    requires attrs.ingredients[i].id == attrs.ingredients[j].id
    ensures Outcome(prev, attrs) == Some(IngredientsRepeated)
  {
    var k := FirstBadAmount(attrs.ingredients);
    var scanned := Ids(attrs.ingredients[..k]);
    assert scanned[i] == scanned[j];
    DistinctIffSetSize(scanned);
  }

  /** The scan's stopping point is determined by the entries up to it: an
      entry below 1 preceded only by entries of at least 1 is where it stops. */
  lemma FirstBadAmountAt(ings: seq<IngredientInput>, k: nat)
    requires k < |ings| && ings[k].amount < 1
    requires forall i :: 0 <= i < k ==> ings[i].amount >= 1
    ensures FirstBadAmount(ings) == k
  {
  }

  /** The scan breaks at the first bad amount, so the entries after it are
      never looked at: replacing them by anything (a repeated id included)
      leaves the outcome unchanged, whatever message the instance held. */
  lemma RepeatAfterBadAmountIgnored(prev: Option<Message>, attrs: Attrs, rest: seq<IngredientInput>)
    requires FirstBadAmount(attrs.ingredients) < |attrs.ingredients|
    ensures var k := FirstBadAmount(attrs.ingredients);
      Outcome(prev, attrs.(ingredients := attrs.ingredients[..k + 1] + rest)) == Outcome(prev, attrs)
  {
    var ings := attrs.ingredients;
    var k := FirstBadAmount(ings);
    var other := ings[..k + 1] + rest;
    assert other[k] == ings[k];
    assert forall i :: 0 <= i < k ==> other[i] == ings[i];
    FirstBadAmountAt(other, k);
    assert other[..k] == ings[..k];
  }

  /** Once the ingredient part has recorded or kept a message, the tags are not
      examined and that message is the result. */
  lemma IngredientErrorsTakePrecedence(prev: Option<Message>, attrs: Attrs, otherTags: seq<int>)
    requires IngredientPhase(prev, attrs.ingredients).Some?
    ensures Outcome(prev, attrs) == IngredientPhase(prev, attrs.ingredients)
    ensures Outcome(prev, attrs) == Outcome(prev, attrs.(tags := otherTags))
  {
  }

  /** With a clean ingredient list on a fresh instance, an empty tag list is
      reported as missing and a repeated tag id as repeated. */
  lemma TagErrorsReported(attrs: Attrs)
    requires attrs.ingredients != []
    requires forall i :: 0 <= i < |attrs.ingredients| ==> attrs.ingredients[i].amount >= 1
    requires Distinct(Ids(attrs.ingredients))
    ensures attrs.tags == [] ==> Outcome(None, attrs) == Some(TagsMissing)
    ensures attrs.tags != [] && !Distinct(attrs.tags) ==> Outcome(None, attrs) == Some(TagsRepeated)
  {
    var ings := attrs.ingredients;
    assert FirstBadAmount(ings) == |ings|;
    assert ings[..|ings|] == ings;
    DistinctIffSetSize(Ids(ings));
    DistinctIffSetSize(attrs.tags);
  }

  /** On a fresh instance the call returns `None` exactly for acceptable input. */
  lemma FreshInstanceAcceptsExactlyValidInput(attrs: Attrs)
    ensures Outcome(None, attrs) == None <==> Acceptable(attrs)
  {
    var ings := attrs.ingredients;
    DistinctIffSetSize(attrs.tags);
    if ings != [] {
      var k := FirstBadAmount(ings);
      DistinctIffSetSize(Ids(ings[..k]));
      if k == |ings| {
        assert ings[..k] == ings;
      } else {
        assert !(forall i :: 0 <= i < |ings| ==> ings[i].amount >= 1);
      }
    }
  }

  /** Only the lower bound is enforced: an amount far above the column's
      maximum of 32000 passes. */
  lemma NoUpperBoundChecked()
    ensures Outcome(None, Attrs([IngredientInput(1, 1000000)], [1])) == None
  {
    FreshInstanceAcceptsExactlyValidInput(Attrs([IngredientInput(1, 1000000)], [1]));
  }

  /** The message is never reset: an instance that holds a message returns a
      message from every later call, even for acceptable input. */
  lemma StickyErrorMessage(prev: Option<Message>, attrs: Attrs)
    requires prev.Some?
    ensures Outcome(prev, attrs).Some?
    ensures Acceptable(attrs) ==> Outcome(prev, attrs) == prev
  {
    var ings := attrs.ingredients;
    if Acceptable(attrs) {
      var k := FirstBadAmount(ings);
      assert k == |ings|;
      assert ings[..k] == ings;
      DistinctIffSetSize(Ids(ings));
    }
  }
}
