/** Label selectors (`controller/k8s/api/src/labels.rs`). */
module Labels {
  import opened Base

  type Labels = map<string, string>

  datatype Operator = In | NotIn

  datatype Expression = Expression(key: string, operator: Operator, values: set<string>)

  datatype Selector = Selector(matchLabels: Option<Labels>, matchExpressions: Option<seq<Expression>>)

  predicate ExprMatches(e: Expression, labels: Labels) {
    match e.operator
    case In => e.key in labels && labels[e.key] in e.values
    case NotIn => if e.key in labels then labels[e.key] in e.values else true
  }

  function Expressions(s: Selector): seq<Expression> {
    if s.matchExpressions.Some? then s.matchExpressions.value else []
  }

  predicate LabelsMatch(s: Selector, labels: Labels) {
    s.matchLabels.Some? ==>
      forall k | k in s.matchLabels.value :: k in labels && labels[k] == s.matchLabels.value[k]
  }

  predicate Matches(s: Selector, labels: Labels) {
    && (forall e | e in Expressions(s) :: ExprMatches(e, labels))
    && LabelsMatch(s, labels)
  }

  /** What Kubernetes defines the operators to mean. */
  predicate ExprMeans(e: Expression, labels: Labels) {
    match e.operator
    case In => e.key in labels && labels[e.key] in e.values
    case NotIn => e.key !in labels || labels[e.key] !in e.values
  }

  predicate Means(s: Selector, labels: Labels) {
    && (s.matchExpressions.Some? ==> forall e | e in s.matchExpressions.value :: ExprMeans(e, labels))
    && (s.matchLabels.Some? ==> s.matchLabels.value.Items <= labels.Items)
  }

  /** A `NotIn` expression whose key the labels carry: the branch that is inverted. */
  predicate Inverted(e: Expression, labels: Labels) {
    e.operator == NotIn && e.key in labels
  }

  /** The rest of the selector, about which code and definition agree. */
  predicate RestMatches(s: Selector, labels: Labels) {
    && (forall e | e in Expressions(s) && !Inverted(e, labels) :: ExprMatches(e, labels))
    && LabelsMatch(s, labels)
  }

  /** One expression is evaluated as Kubernetes defines it exactly when it is not an inverted one. */
  lemma ExprMatchesAsDefined(e: Expression, labels: Labels)
    ensures ExprMatches(e, labels) == ExprMeans(e, labels) <==> !Inverted(e, labels)
  {
  }

  lemma LabelsMatchMeaning(s: Selector, labels: Labels)
    ensures LabelsMatch(s, labels) <==> (s.matchLabels.Some? ==> s.matchLabels.value.Items <= labels.Items)
  {
    if s.matchLabels.Some? {
      var wanted := s.matchLabels.value;
      assert forall k | k in wanted :: (k, wanted[k]) in wanted.Items;
    }
  }

  /** Exactly when a whole selector is evaluated as Kubernetes defines it: no inverted expression,
      or the rest fails anyway, or the inverted ones disagree among themselves so that both
      readings fail. */
  lemma MatchesAsDefined(s: Selector, labels: Labels)
    ensures Matches(s, labels) == Means(s, labels) <==>
              || (forall e | e in Expressions(s) :: !Inverted(e, labels))
              || !RestMatches(s, labels)
              || ((exists e :: e in Expressions(s) && Inverted(e, labels) && labels[e.key] in e.values)
                  && (exists e :: e in Expressions(s) && Inverted(e, labels) && labels[e.key] !in e.values))
  {
    LabelsMatchMeaning(s, labels);
    assert Means(s, labels) <==> (forall e | e in Expressions(s) :: ExprMeans(e, labels)) && LabelsMatch(s, labels);
  }

  /** The inversion is visible on a selector that excludes one value. */
  lemma NotInIsInverted()
    ensures exists s: Selector, labels: Labels :: Matches(s, labels) && !Means(s, labels)
    ensures exists s: Selector, labels: Labels :: !Matches(s, labels) && Means(s, labels)
  {
    var e := Expression("env", NotIn, {"prod"});
    var s := Selector(None, Some([e]));
    var prod: Labels := map["env" := "prod"];
    var dev: Labels := map["env" := "dev"];
    assert e in Expressions(s);
    LabelsMatchMeaning(s, prod);
    LabelsMatchMeaning(s, dev);
    assert Matches(s, prod) && !Means(s, prod);
    assert !Matches(s, dev) && Means(s, dev);
  }
}
