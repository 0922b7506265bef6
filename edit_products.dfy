/**
 * EditProductsActivity: the product list of a recognised dish is edited in place (add, edit,
 * delete through dialogs), then the dish is renamed from the name field and sent to
 * GeminiService for stage 2. Dialog and list views are left out; what remains is the state the
 * handlers change.
 */
module EditProducts {
  import opened Wrappers
  import opened Models
  import opened Reply

  const FillAllFields: string := "Заповніть всі поля"
  const AnalysisFailedPrefix: string := "Помилка аналізу: "

  /** `toDoubleOrNull() ?: 0.0`: an unparseable weight counts as 0. */
  function ParsedWeight(weight: Option<real>): (r: real)
    ensures weight.None? ==> r == 0.0
    ensures weight.Some? ==> r == weight.value
  {
    weight.GetOr(0.0)
  }

  /** The dialogs accept a non-empty name and a positive weight. */
  predicate Acceptable(name: string, weight: real) {
    name != [] && weight > 0.0
  }

  /** An unparseable weight is always rejected, whatever the name. */
  lemma UnparsedWeightRejected(name: string)
    ensures !Acceptable(name, ParsedWeight(None))
  {
  }

  /** The list after `add`: one more element, at the end. */
  function Appended(products: seq<Product>, p: Product): (r: seq<Product>)
    ensures |r| == |products| + 1 && r[|products|] == p
    ensures forall j :: 0 <= j < |products| ==> r[j] == products[j]
  {
    products + [p]
  }

  /** The list after `products[i] = p`: only element `i` differs. */
  function Replaced(products: seq<Product>, i: nat, p: Product): (r: seq<Product>)
    requires i < |products|
    ensures |r| == |products| && r[i] == p
    ensures forall j :: 0 <= j < |products| && j != i ==> r[j] == products[j]
  {
    products[i := p]
  }

  /** The list after `removeAt(i)`: elements before `i` stay, later ones move down by one. */
  function Removed(products: seq<Product>, i: nat): (r: seq<Product>)
    requires i < |products|
    ensures |r| == |products| - 1
    ensures forall j :: 0 <= j < i ==> r[j] == products[j]
    ensures forall j :: i <= j < |r| ==> r[j] == products[j + 1]
  {
    products[..i] + products[i + 1..]
  }

  /** Deleting the element just added gives back the list before the add. */
  lemma RemoveUndoesAppend(products: seq<Product>, p: Product)
    ensures Removed(Appended(products, p), |products|) == products
  {
    assert Appended(products, p)[..|products|] == products;
  }

  /** Putting the old element back undoes an edit. */
  lemma ReplaceUndoesReplace(products: seq<Product>, i: nat, p: Product)
    requires i < |products|
    ensures Replaced(Replaced(products, i, p), i, products[i]) == products
  {
  }

  /** A deletion removes exactly one occurrence of the element at `i` and nothing else. */
  lemma RemovedMultiset(products: seq<Product>, i: nat)
    requires i < |products|
    ensures multiset(Removed(products, i)) + multiset{products[i]} == multiset(products)
  {
    assert products == products[..i] + [products[i]] + products[i + 1..];
  }

  /** An edit exchanges one occurrence of the old element for the new one. */
  lemma ReplacedMultiset(products: seq<Product>, i: nat, p: Product)
    requires i < |products|
    ensures multiset(Replaced(products, i, p)) + multiset{products[i]} == multiset(products) + multiset{p}
  {
    assert products == products[..i] + [products[i]] + products[i + 1..];
    assert Replaced(products, i, p) == products[..i] + [p] + products[i + 1..];
  }

  /** The message the failure toast shows after its prefix, where the services compose one. */
  function FailureToast(e: ServiceError): (r: Option<string>)
    ensures r.Some? <==> Message(e).Some?
    ensures r.Some? ==> r.value == AnalysisFailedPrefix + Message(e).value
  {
    match Message(e)
    case Some(m) => Some(AnalysisFailedPrefix + m)
    case None => None
  }

  class EditProductsActivity {
    /** The dish being edited; its product list is changed in place by the dialogs. */
    var food: Food
    var analyzeEnabled: bool
    var progressVisible: bool
    /** Whether the `FillAllFields` toast has been shown by a dialog. */
    var rejected: bool
    /** The last stage-2 failure, shown as a toast (see `FailureToast`). */
    var failure: Option<ServiceError>
    /** The analysed dish handed on to the results screen, once stage 2 succeeds. */
    var forwarded: Option<Food>
    var finished: bool
    /**
     * The screen's `GeminiService` stage-2 call; in the app it is
     * `GeminiService.AnalyzeNutrition` with the build's key and the HTTP transport fixed.
     */
    const analyze: Food -> Result<Food, ServiceError>

    constructor(food: Food, analyze: Food -> Result<Food, ServiceError>)
      ensures this.food == food && this.analyze == analyze && analyzeEnabled && !progressVisible
      ensures !rejected && failure.None? && forwarded.None? && !finished
    {
      this.food := food;
      this.analyze := analyze;
      analyzeEnabled := true;
      progressVisible := false;
      rejected := false;
      failure := None;
      forwarded := None;
      finished := false;
    }

    /** The "add" dialog's positive button. */
    method AddProduct(name: string, weight: Option<real>)
      modifies this
      ensures var w := ParsedWeight(weight);
        if Acceptable(name, w) then
          food == old(food).(products := Appended(old(food.products), Product(name, w))) && rejected == old(rejected)
        else
          food == old(food) && rejected
      ensures analyzeEnabled == old(analyzeEnabled) && progressVisible == old(progressVisible)
      ensures failure == old(failure) && forwarded == old(forwarded) && finished == old(finished)
    {
      var w := ParsedWeight(weight);
      if Acceptable(name, w) {
        food := food.(products := food.products + [Product(name, w)]);
      } else {
        rejected := true;
      }
    }

    /** The "edit" dialog's positive button for the product at `position`; the old nutrition is dropped. */
    method EditProduct(position: nat, name: string, weight: Option<real>)
      requires position < |food.products|
      modifies this
      ensures var w := ParsedWeight(weight);
        if Acceptable(name, w) then
          food == old(food).(products := Replaced(old(food.products), position, Product(name, w))) && rejected == old(rejected)
        else
          food == old(food) && rejected
      ensures analyzeEnabled == old(analyzeEnabled) && progressVisible == old(progressVisible)
      ensures failure == old(failure) && forwarded == old(forwarded) && finished == old(finished)
    {
      var w := ParsedWeight(weight);
      if Acceptable(name, w) {
        food := food.(products := food.products[position := Product(name, w)]);
      } else {
        rejected := true;
      }
    }

    /** The delete button of the row at `position`. */
    method DeleteProduct(position: nat)
      requires position < |food.products|
      modifies this
      ensures food == old(food).(products := Removed(old(food.products), position))
      ensures analyzeEnabled == old(analyzeEnabled) && progressVisible == old(progressVisible)
      ensures rejected == old(rejected) && failure == old(failure)
      ensures forwarded == old(forwarded) && finished == old(finished)
    {
      food := food.(products := food.products[..position] + food.products[position + 1..]);
    }

    /**
     * The analyse button: the name field becomes the dish name, then the whole dish goes to
     * stage 2 with the button disabled and the progress bar shown until the call returns. On
     * success the analysed dish, not the edited one, is handed on and the screen closes; on
     * failure the edited dish stays and the button is enabled again.
     */
    method Analyze(nameText: string)
      modifies this
      ensures food == old(food).(name := nameText)
      ensures analyzeEnabled && !progressVisible && rejected == old(rejected)
      ensures var result := analyze(food);
        if result.Ok? then
          forwarded == Some(result.value) && finished && failure == old(failure)
        else
          failure == Some(result.error) && forwarded == old(forwarded) && finished == old(finished)
    {
      food := food.(name := nameText);
      progressVisible := true;
      analyzeEnabled := false;
      var result := analyze(food);
      progressVisible := false;
      analyzeEnabled := true;
      if result.Ok? {
        forwarded := Some(result.value);
        finished := true;
      } else {
        failure := Some(result.error);
      }
    }
  }
}
