/** Dependency edges between markets, and the deterministic pair loop that produces them. */
module Dependency {
  import opened Prelude
  import opened Names

  /** Every producer clamps: the deterministic constants, the catalog and the extractor alike. */
  type Confidence = x: real | 0.0 <= x <= 1.0 witness 0.0

  datatype Relation = MutualExclusive | Implies | Complementary | Partition

  datatype Edge = Edge(marketA: string, marketB: string, relation: Relation, confidence: Confidence)

  /** Keys are injective: an unordered pair for the symmetric relations, an ordered one for `Implies`. */
  datatype Key = Directed(left: string, right: string) | Undirected(ends: set<string>, relation: Relation)

  function Clamp(x: real): Confidence {
    Max(0.0, Min(1.0, x))
  }

  function KeyOf(e: Edge): Key {
    if e.relation.Implies? then Directed(e.marketA, e.marketB) else Undirected({e.marketA, e.marketB}, e.relation)
  }

  function WithSortedMarkets(e: Edge): Edge {
    if e.relation.Implies? || !Lexical(e.marketB, e.marketA) then e
    else e.(marketA := e.marketB, marketB := e.marketA)
  }

  /** Sorting the endpoints never changes which edge it is. */
  lemma SortingKeepsKey(e: Edge)
    ensures KeyOf(WithSortedMarkets(e)) == KeyOf(e)
  {
    assert {e.marketA, e.marketB} == {e.marketB, e.marketA};
  }

  /** Two edges are the same when they relate the same two markets alike, in the same direction if they have one. */
  lemma SameKeyIff(e: Edge, f: Edge)
    ensures KeyOf(e) == KeyOf(f) <==>
      && e.relation == f.relation
      && ((e.marketA == f.marketA && e.marketB == f.marketB)
          || (e.relation != Implies && e.marketA == f.marketB && e.marketB == f.marketA))
  {
    if KeyOf(e) == KeyOf(f) && !e.relation.Implies? {
      assert e.marketA in {f.marketA, f.marketB} && e.marketB in {f.marketA, f.marketB};
      assert f.marketA in {e.marketA, e.marketB} && f.marketB in {e.marketA, e.marketB};
    }
  }

  /** Sorting keeps the relation and the confidence, and puts the ends of an edge without direction in order. */
  lemma SortedEndsAre(e: Edge)
    ensures var r := WithSortedMarkets(e);
      && r.relation == e.relation && r.confidence == e.confidence
      && (if e.relation == Implies || e.marketA == e.marketB || Lexical(e.marketA, e.marketB) then
            r.marketA == e.marketA && r.marketB == e.marketB
          else r.marketA == e.marketB && r.marketB == e.marketA)
  {
    LexicalIsTotal();
  }

  predicate Touches(e: Edge, market: string) {
    e.marketA == market || e.marketB == market
  }

  function Inside(markets: set<string>): Edge -> bool {
    (e: Edge) => e.marketA in markets && e.marketB in markets
  }
}
