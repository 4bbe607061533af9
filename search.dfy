/** The filter behind `GET /agents`: five criteria, each imposing nothing
    when it is unset or empty (Python truthiness), combined with AND, and
    the order-preserving selection of the registry's agents that pass. */
module Search {
  import opened Types

  /** The query parameters of the listing. Each one is optional. */
  datatype SearchParams = SearchParams(
    capabilities: Option<seq<string>>,
    tags: Option<seq<string>>,
    author: Option<string>,
    pricingModel: Option<string>,
    query: Option<string>)

  const NoCriteria: SearchParams := SearchParams(None, None, None, None, None)

  /** Truthiness of an optional list or string: set and non-empty. */
  predicate Given<T>(o: Option<seq<T>>) {
    o.Some? && |o.value| > 0
  }

  /** `str.lower()` on one character, for the ASCII letters. */
  function LowerChar(c: char): char {
    if 'A' <= c <= 'Z' then (c as int - 'A' as int + 'a' as int) as char else c
  }

  /** `str.lower()`: the same string with every letter folded to lower case. */
  function Lower(s: string): (r: string)
    ensures |r| == |s|
    ensures forall i :: 0 <= i < |s| ==> r[i] == LowerChar(s[i])
  {
    if s == [] then [] else [LowerChar(s[0])] + Lower(s[1..])
  }

  /** Lower-casing twice is lower-casing once. */
  lemma LowerIdempotent(s: string)
    ensures Lower(Lower(s)) == Lower(s)
  {
  }

  /** Python's `q in s` on strings: `q` occurs in `s` as a contiguous run. */
  function Contains(s: string, q: string): bool
    decreases |s|
  {
    q <= s || (s != [] && Contains(s[1..], q))
  }

  /** `q` occurs in `s` starting at index `i`. */
  predicate OccursAt(s: string, q: string, i: int) {
    0 <= i <= |s| - |q| && s[i..i + |q|] == q
  }

  /** `Contains` holds exactly when some window of `s` equals `q`. */
  lemma {:induction false} ContainsIff(s: string, q: string)
    ensures Contains(s, q) <==> exists i :: OccursAt(s, q, i)
    decreases |s|
  {
    if q <= s {
      assert OccursAt(s, q, 0);
    }
    if s != [] {
      ContainsIff(s[1..], q);
      if exists i :: OccursAt(s[1..], q, i) {
        var i :| OccursAt(s[1..], q, i);
        assert s[i + 1..i + 1 + |q|] == s[1..][i..i + |q|];
        assert OccursAt(s, q, i + 1);
      }
      if exists i :: OccursAt(s, q, i) {
        var i :| OccursAt(s, q, i);
        if i == 0 {
          assert q <= s;
        } else {
          assert s[1..][i - 1..i - 1 + |q|] == s[i..i + |q|];
          assert OccursAt(s[1..], q, i - 1);
        }
      }
    }
  }

  /** A query holding a character the text lacks cannot occur in it. */
  lemma {:induction false} MissingCharExcludes(s: string, q: string, c: char)
    requires c in q && c !in s
    ensures !Contains(s, q)
    decreases |s|
  {
    if s != [] {
      MissingCharExcludes(s[1..], q, c);
    }
  }

  predicate CapabilityCriterion(a: Agent, s: SearchParams) {
    Given(s.capabilities) ==>
      exists c :: c in a.reg.capabilities && c.name in s.capabilities.value
  }

  predicate TagCriterion(a: Agent, s: SearchParams) {
    Given(s.tags) ==> exists t :: t in a.reg.tags && t in s.tags.value
  }

  predicate AuthorCriterion(a: Agent, s: SearchParams) {
    Given(s.author) ==> a.reg.author == s.author.value
  }

  predicate PricingCriterion(a: Agent, s: SearchParams) {
    Given(s.pricingModel) ==> a.reg.pricingModel == Some(s.pricingModel.value)
  }

  /** The lower-cased query `q` occurs in the lower-cased name or description
      of the agent, or of one of its capabilities. */
  predicate TextMatches(a: Agent, q: string) {
    || Contains(Lower(a.reg.name), q)
    || Contains(Lower(a.reg.description), q)
    || exists c :: c in a.reg.capabilities &&
         (Contains(Lower(c.name), q) || Contains(Lower(c.description), q))
  }

  predicate QueryCriterion(a: Agent, s: SearchParams) {
    Given(s.query) ==> TextMatches(a, Lower(s.query.value))
  }

  /** The agent passes every criterion of the listing. */
  predicate Matches(a: Agent, s: SearchParams) {
    && CapabilityCriterion(a, s)
    && TagCriterion(a, s)
    && AuthorCriterion(a, s)
    && PricingCriterion(a, s)
    && QueryCriterion(a, s)
  }

  /** The agents of `agents` that pass, in the order given. Defined on the
      last element so that it follows a left-to-right scan. */
  function Select(agents: seq<Agent>, s: SearchParams): (r: seq<Agent>)
    ensures |r| <= |agents|
  {
    if agents == [] then []
    else
      var last := agents[|agents| - 1];
      Select(agents[..|agents| - 1], s) + (if Matches(last, s) then [last] else [])
  }

  /** Exactly the passing agents are selected. */
  lemma {:induction false} SelectMembers(agents: seq<Agent>, s: SearchParams)
    ensures forall a :: a in Select(agents, s) <==> a in agents && Matches(a, s)
  {
    if agents != [] {
      var init := agents[..|agents| - 1];
      SelectMembers(init, s);
      assert agents == init + [agents[|agents| - 1]];
    }
  }

  /** Selection keeps relative order: it distributes over concatenation. */
  lemma {:induction false} SelectConcat(xs: seq<Agent>, ys: seq<Agent>, s: SearchParams)
    ensures Select(xs + ys, s) == Select(xs, s) + Select(ys, s)
    decreases |ys|
  {
    if ys == [] {
      assert xs + ys == xs;
    } else {
      var init := ys[..|ys| - 1];
      SelectConcat(xs, init, s);
      assert (xs + ys)[..|xs + ys| - 1] == xs + init;
    }
  }

  predicate DistinctIds(agents: seq<Agent>) {
    forall i, j :: 0 <= i < j < |agents| ==> agents[i].id != agents[j].id
  }

  /** No agent is selected twice when the input holds each id once. */
  lemma {:induction false} SelectDistinct(agents: seq<Agent>, s: SearchParams)
    requires DistinctIds(agents)
    ensures DistinctIds(Select(agents, s))
  {
    if agents != [] {
      var init := agents[..|agents| - 1];
      var last := agents[|agents| - 1];
      SelectDistinct(init, s);
      SelectMembers(init, s);
      var r := Select(init, s);
      forall a | a in r ensures a.id != last.id {
        var k :| 0 <= k < |init| && init[k] == a;
        assert agents[k] == a;
      }
    }
  }

  /** With no criterion given (unset or empty), every agent is listed, in order. */
  lemma {:induction false} SelectUnconstrained(agents: seq<Agent>, s: SearchParams)
    requires !Given(s.capabilities) && !Given(s.tags) && !Given(s.author)
    requires !Given(s.pricingModel) && !Given(s.query)
    ensures Select(agents, s) == agents
  {
    if agents != [] {
      SelectUnconstrained(agents[..|agents| - 1], s);
    }
  }

  /** The query criterion ignores the case of the query. */
  lemma QueryIgnoresCase(a: Agent, s: SearchParams, q: string)
    requires s.query == Some(q)
    ensures QueryCriterion(a, s) <==> QueryCriterion(a, s.(query := Some(Lower(q))))
  {
    LowerIdempotent(q);
  }

  /** Two tag filters select disjoint agents when no agent carries tags from both. */
  lemma TagFiltersDisjoint(agents: seq<Agent>, t1: seq<string>, t2: seq<string>)
    requires |t1| > 0 && |t2| > 0
    requires forall a :: a in agents ==>
      !((exists t :: t in a.reg.tags && t in t1) && (exists t :: t in a.reg.tags && t in t2))
    ensures forall a :: a in Select(agents, NoCriteria.(tags := Some(t1))) ==>
      a !in Select(agents, NoCriteria.(tags := Some(t2)))
  {
    SelectMembers(agents, NoCriteria.(tags := Some(t1)));
    SelectMembers(agents, NoCriteria.(tags := Some(t2)));
  }

  const SummarQuery: SearchParams := NoCriteria.(query := Some("summar"))

  lemma SummarIsLower()
    ensures Lower("summar") == "summar"
  {
  }

  /** An agent named "Text Summarizer", like the demo client's, passes the query "summar". */
  lemma SummarizerMatches(a: Agent)
    requires a.reg.name == "Text Summarizer"
    ensures Matches(a, SummarQuery)
  {
    var q := "summar";
    SummarIsLower();
    var l := Lower(a.reg.name);
    assert l[5..11] == q by {
      forall i | 5 <= i < 11 ensures l[i] == q[i - 5] {
        assert l[i] == LowerChar(a.reg.name[i]);
      }
    }
    assert OccursAt(l, q, 5);
    ContainsIff(l, q);
  }

  /** Text without the letter 'u' in either case never holds the query "summar". */
  lemma NoSummar(t: string)
    requires 'u' !in t && 'U' !in t
    ensures !Contains(Lower(t), "summar")
  {
  }

  /** An agent none of whose texts hold the letter 'u' fails the query "summar". */
  lemma NoSummarExcluded(a: Agent)
    requires 'u' !in a.reg.name && 'U' !in a.reg.name
    requires 'u' !in a.reg.description && 'U' !in a.reg.description
    requires forall c :: c in a.reg.capabilities ==>
      'u' !in c.name && 'U' !in c.name && 'u' !in c.description && 'U' !in c.description
    ensures !Matches(a, SummarQuery)
  {
    SummarIsLower();
    NoSummar(a.reg.name);
    NoSummar(a.reg.description);
    forall c | c in a.reg.capabilities
      ensures !Contains(Lower(c.name), "summar") && !Contains(Lower(c.description), "summar")
    {
      NoSummar(c.name);
      NoSummar(c.description);
    }
  }

  lemma ClassifierNameLacksU()
    ensures 'u' !in "Image Classifier" && 'U' !in "Image Classifier"
  {
  }

  /** The query "summar" lists the summarizer and not an image classifier
      whose description and capabilities do not mention it. */
  lemma QueryExample(summarizer: Agent, classifier: Agent)
    requires summarizer.reg.name == "Text Summarizer"
    requires classifier.reg.name == "Image Classifier"
    requires 'u' !in classifier.reg.description && 'U' !in classifier.reg.description
    requires forall c :: c in classifier.reg.capabilities ==>
      'u' !in c.name && 'U' !in c.name && 'u' !in c.description && 'U' !in c.description
    ensures Select([summarizer, classifier], SummarQuery) == [summarizer]
  {
    SummarizerMatches(summarizer);
    ClassifierNameLacksU();
    NoSummarExcluded(classifier);
    assert [summarizer, classifier][..1] == [summarizer];
    assert [summarizer][..0] == [];
  }
}
