/** What a pod's node selector and node affinity mean, and what the accelerator rewrite does to
    that meaning. Values only; the rewrite in place is in PodBuilder. */
module Placement {
  import opened JsonMerge
  import opened GpuFit

  datatype Op = In | NotIn | Exists | DoesNotExist

  datatype Requirement = Requirement(key: string, op: Op, values: seq<string>)

  /** One of the ORed terms; `fields` are its field selectors. */
  datatype TermValue = TermValue(expressions: seq<Requirement>, fields: seq<Requirement>)

  /** `terms` is the required node affinity, `rest` everything else: preferred terms, pod affinity. */
  datatype AffinityValue = AffinityValue(terms: Option<seq<TermValue>>, rest: Json)

  datatype PodValue = PodValue(selector: map<string, string>, affinity: AffinityValue)

  datatype Node = Node(labels: map<string, string>, fields: map<string, string>)

  predicate Meets(r: Requirement, attributes: map<string, string>) {
    match r.op
    case In => r.key in attributes && attributes[r.key] in r.values
    case NotIn => r.key in attributes ==> attributes[r.key] !in r.values
    case Exists => r.key in attributes
    case DoesNotExist => r.key !in attributes
  }

  predicate MeetsAll(t: TermValue, node: Node) {
    && (forall i | 0 <= i < |t.expressions| :: Meets(t.expressions[i], node.labels))
    && (forall i | 0 <= i < |t.fields| :: Meets(t.fields[i], node.fields))
  }

  predicate EmptyTerm(t: TermValue) {
    t.expressions == [] && t.fields == []
  }

  /** A term without requirements matches nothing. */
  predicate TermMatches(t: TermValue, node: Node) {
    !EmptyTerm(t) && MeetsAll(t, node)
  }

  predicate Admits(pod: PodValue, node: Node) {
    && (forall k | k in pod.selector :: k in node.labels && node.labels[k] == pod.selector[k])
    && (pod.affinity.terms.Some? ==>
          exists i | 0 <= i < |pod.affinity.terms.value| :: TermMatches(pod.affinity.terms.value[i], node))
  }

  const CLASS_LABEL := "model-fleet.sqe.io/gpu-class"
  const PRODUCT_LABEL := "nvidia.com/gpu.product"

  predicate NamesProduct(t: TermValue) {
    exists i | 0 <= i < |t.expressions| :: t.expressions[i].key == PRODUCT_LABEL
  }

  function ProductTerm(t: TermValue, products: seq<string>): TermValue {
    t.(expressions := t.expressions + [Requirement(PRODUCT_LABEL, In, products)])
  }

  function ProductTerms(ts: seq<TermValue>, products: seq<string>): seq<TermValue> {
    seq(|ts|, i requires 0 <= i < |ts| => ProductTerm(ts[i], products))
  }

  /** The terms the rewrite works on: a missing list counts as one empty term. */
  function TermsToRewrite(a: AffinityValue): seq<TermValue> {
    if a.terms.Some? then a.terms.value else [TermValue([], [])]
  }

  function WithProducts(pod: PodValue, products: seq<string>): Result<PodValue> {
    if products == [] || "" in products then Err(BadProducts)
    else
      var chosen := if PRODUCT_LABEL in pod.selector then pod.selector[PRODUCT_LABEL] else "";
      if chosen != "" then (if chosen in products then Ok(pod) else Err(ProductSelectorConflict))
      else
        var terms := TermsToRewrite(pod.affinity);
        if exists i | 0 <= i < |terms| :: NamesProduct(terms[i]) then Err(ProductAffinityConflict)
        else Ok(pod.(affinity := pod.affinity.(terms := Some(ProductTerms(terms, products)))))
  }

  function WithClass(pod: PodValue, name: string): Result<PodValue> {
    if CLASS_LABEL in pod.selector && pod.selector[CLASS_LABEL] != name then Err(ClassConflict)
    else Ok(pod.(selector := pod.selector[CLASS_LABEL := name]))
  }

  function Placed(pod: PodValue, name: string, products: Option<seq<string>>): Result<PodValue> {
    match WithClass(pod, name)
    case Err(e) => Err(e)
    case Ok(labelled) => if products.Some? then WithProducts(labelled, products.value) else Ok(labelled)
  }

  /** The node is of the selected class and, where products are given, of one of them. */
  predicate Wanted(name: string, products: Option<seq<string>>, node: Node) {
    && "model-fleet.sqe.io/gpu-class" in node.labels && node.labels["model-fleet.sqe.io/gpu-class"] == name
    && (products.Some? ==>
          "nvidia.com/gpu.product" in node.labels && node.labels["nvidia.com/gpu.product"] in products.value)
  }

  /** The submitted pod has a term without requirements among its ORed terms. */
  predicate HasEmptyTerm(pod: PodValue) {
    pod.affinity.terms.Some? && exists i | 0 <= i < |pod.affinity.terms.value| :: EmptyTerm(pod.affinity.terms.value[i])
  }

  predicate SelectorAdmits(pod: PodValue, node: Node) {
    forall k | k in pod.selector :: k in node.labels && node.labels[k] == pod.selector[k]
  }

  lemma ProductTermMatches(t: TermValue, products: seq<string>, node: Node)
    ensures TermMatches(ProductTerm(t, products), node)
       <==> MeetsAll(t, node) && PRODUCT_LABEL in node.labels && node.labels[PRODUCT_LABEL] in products
  {
    var added, rewritten := Requirement(PRODUCT_LABEL, In, products), ProductTerm(t, products);
    assert rewritten.expressions[|t.expressions|] == added;
    assert forall i | 0 <= i < |t.expressions| :: rewritten.expressions[i] == t.expressions[i];
    assert forall i | 0 <= i < |rewritten.expressions| ::
           i == |t.expressions| || rewritten.expressions[i] == t.expressions[i];
  }

  /** The rewrite adds the product to every term; what it cannot keep is that a term without
      requirements matched nothing. */
  lemma ProductMeaning(pod: PodValue, products: seq<string>, node: Node)
    requires WithProducts(pod, products).Ok?
    ensures Admits(WithProducts(pod, products).value, node)
       <==> PRODUCT_LABEL in node.labels && node.labels[PRODUCT_LABEL] in products && SelectorAdmits(pod, node)
            && (Admits(pod, node) || (WithProducts(pod, products).value != pod && HasEmptyTerm(pod)))
  {
    var after := WithProducts(pod, products).value;
    var chosen := if PRODUCT_LABEL in pod.selector then pod.selector[PRODUCT_LABEL] else "";
    if chosen == "" {
      var ts := TermsToRewrite(pod.affinity);
      forall i | 0 <= i < |ts|
        ensures TermMatches(after.affinity.terms.value[i], node)
           <==> MeetsAll(ts[i], node) && PRODUCT_LABEL in node.labels && node.labels[PRODUCT_LABEL] in products
      {
        ProductTermMatches(ts[i], products, node);
      }
      assert forall i | 0 <= i < |ts| && EmptyTerm(ts[i]) :: MeetsAll(ts[i], node);
      if pod.affinity.terms.None? {
        assert EmptyTerm(ts[0]);
      } else {
        if HasEmptyTerm(pod) {
          var i :| 0 <= i < |ts| && EmptyTerm(ts[i]);
          assert after.affinity.terms.value[i].expressions != pod.affinity.terms.value[i].expressions;
        }
      }
    }
  }

  /** The step rewrites the affinity: products are given and the selector names none. */
  predicate Rewrites(pod: PodValue, products: Option<seq<string>>) {
    products.Some? && !(PRODUCT_LABEL in pod.selector && pod.selector[PRODUCT_LABEL] != "")
  }

  lemma ClassMeaning(pod: PodValue, name: string, node: Node)
    requires WithClass(pod, name).Ok?
    ensures SelectorAdmits(WithClass(pod, name).value, node)
       <==> SelectorAdmits(pod, node) && CLASS_LABEL in node.labels && node.labels[CLASS_LABEL] == name
    ensures forall products :: Rewrites(WithClass(pod, name).value, products) <==> Rewrites(pod, products)
  {
    var labelled := WithClass(pod, name).value;
    assert forall k | k in pod.selector :: k in labelled.selector && labelled.selector[k] == pod.selector[k];
    assert CLASS_LABEL in labelled.selector && labelled.selector[CLASS_LABEL] == name;
    assert PRODUCT_LABEL in labelled.selector ==> PRODUCT_LABEL in pod.selector;
  }

  /** For every node: the rewritten pod admits it if and only if the submitted one did and the node
      is of the wanted class and products. The premise, checked before the call, is that no term
      without requirements is rewritten. */
  lemma PlacementMeaning(pod: PodValue, name: string, products: Option<seq<string>>, node: Node)
    requires Placed(pod, name, products).Ok? && !(HasEmptyTerm(pod) && Rewrites(pod, products))
    ensures Admits(Placed(pod, name, products).value, node) <==> Admits(pod, node) && Wanted(name, products, node)
    ensures Placed(pod, name, products).value.affinity.rest == pod.affinity.rest
  {
    ClassMeaning(pod, name, node);
    if products.Some? {
      ProductMeaning(WithClass(pod, name).value, products.value, node);
    }
  }

  /** Exactly what happens otherwise: a term without requirements, which admitted no node, comes to
      admit every node of the wanted class and products that the node selector admits. */
  lemma EmptyTermWidens(pod: PodValue, name: string, products: seq<string>, node: Node)
    requires Placed(pod, name, Some(products)).Ok? && HasEmptyTerm(pod) && Rewrites(pod, Some(products))
    ensures Admits(Placed(pod, name, Some(products)).value, node)
       <==> SelectorAdmits(pod, node) && Wanted(name, Some(products), node)
  {
    var labelled := WithClass(pod, name).value;
    var after := WithProducts(labelled, products).value;
    ClassMeaning(pod, name, node);
    ProductMeaning(labelled, products, node);
    var i :| 0 <= i < |pod.affinity.terms.value| && EmptyTerm(pod.affinity.terms.value[i]);
    assert after.affinity.terms.value[i].expressions != labelled.affinity.terms.value[i].expressions;
  }

  /** The placed pod admits exactly the wanted nodes among those the submitted one admitted. */
  ghost predicate KeepsMeaning(pod: PodValue, name: string, products: Option<seq<string>>)
    requires Placed(pod, name, products).Ok?
  {
    forall node :: Admits(Placed(pod, name, products).value, node)
                   <==> Admits(pod, node) && Wanted(name, products, node)
  }

  /** The exact condition: no term without requirements is rewritten, or the terms of the pod admit
      every wanted node that its selector admits, so that widening them to those adds nothing. */
  lemma MeaningKeptIff(pod: PodValue, name: string, products: Option<seq<string>>)
    requires Placed(pod, name, products).Ok?
    ensures KeepsMeaning(pod, name, products)
       <==> (HasEmptyTerm(pod) && Rewrites(pod, products) ==>
               forall node | SelectorAdmits(pod, node) && Wanted(name, products, node) :: Admits(pod, node))
  {
    if HasEmptyTerm(pod) && Rewrites(pod, products) {
      forall node
        ensures Admits(Placed(pod, name, products).value, node)
                <==> SelectorAdmits(pod, node) && Wanted(name, products, node)
      {
        EmptyTermWidens(pod, name, products.value, node);
      }
    } else {
      forall node
        ensures Admits(Placed(pod, name, products).value, node) <==> Admits(pod, node) && Wanted(name, products, node)
      {
        PlacementMeaning(pod, name, products, node);
      }
    }
  }

  /** A pod that admitted nothing and, after the rewrite, admits a node. */
  lemma EmptyTermExample() returns (pod: PodValue, node: Node)
    ensures Placed(pod, "gpu-24gb", Some(["L4"])).Ok? && !Admits(pod, node)
    ensures Admits(Placed(pod, "gpu-24gb", Some(["L4"])).value, node)
  {
    pod := PodValue(map[], AffinityValue(Some([TermValue([], [])]), Null));
    node := Node(map[CLASS_LABEL := "gpu-24gb", PRODUCT_LABEL := "L4"], map[]);
    var labelled := WithClass(pod, "gpu-24gb").value;
    assert TermsToRewrite(labelled.affinity) == [TermValue([], [])];
    assert EmptyTerm(pod.affinity.terms.value[0]);
    EmptyTermWidens(pod, "gpu-24gb", ["L4"], node);
  }
}
