/** Customer segments derived from the composite RFM score by a threshold cascade. */
module Segments {

  /** The five segments, from the most to the least valuable. */
  datatype Segment = BestCustomers | LoyalCustomers | PotentialLoyalists | AtRisk | ChurnedCustomers

  /** The label written to the `Customer_Segment` column. */
  function Name(s: Segment): string {
    match s
    case BestCustomers => "Best Customers"
    case LoyalCustomers => "Loyal Customers"
    case PotentialLoyalists => "Potential Loyalists"
    case AtRisk => "At Risk"
    case ChurnedCustomers => "Churned Customers"
  }

  const SegmentNames: set<string> :=
    {"Best Customers", "Loyal Customers", "Potential Loyalists", "At Risk", "Churned Customers"}

  /** Position in the segment order: 4 for the best segment down to 0 for churned. */
  function Rank(s: Segment): nat {
    match s
    case BestCustomers => 4
    case LoyalCustomers => 3
    case PotentialLoyalists => 2
    case AtRisk => 1
    case ChurnedCustomers => 0
  }

  /**
   The cascade `>= 10`, `>= 8`, `>= 6`, `>= 4`, else churned, evaluated top-down;
   the contract states the disjoint score interval belonging to each segment.
   */
  function SegmentOf(score: int): (s: Segment)
    ensures s == BestCustomers <==> 10 <= score
    ensures s == LoyalCustomers <==> 8 <= score < 10
    ensures s == PotentialLoyalists <==> 6 <= score < 8
    ensures s == AtRisk <==> 4 <= score < 6
    ensures s == ChurnedCustomers <==> score < 4
  {
    if score >= 10 then BestCustomers
    else if score >= 8 then LoyalCustomers
    else if score >= 6 then PotentialLoyalists
    else if score >= 4 then AtRisk
    else ChurnedCustomers
  }

  /** Distinct segments carry distinct labels, so the label column identifies the segment. */
  lemma NameInjective(a: Segment, b: Segment)
    ensures Name(a) == Name(b) <==> a == b
    ensures Name(a) in SegmentNames
  {
  }

  /** A higher score never yields a lower-ranked segment. */
  lemma SegmentMonotone(a: int, b: int)
    requires a <= b
    ensures Rank(SegmentOf(a)) <= Rank(SegmentOf(b))
  {
  }

  /**
   The segment of every reachable score 3..12; each of the five segment labels
   is the label of some reachable score, so none of them is dead.
   */
  lemma SegmentsOnScoreRange()
    ensures SegmentOf(3) == ChurnedCustomers
    ensures SegmentOf(4) == AtRisk && SegmentOf(5) == AtRisk
    ensures SegmentOf(6) == PotentialLoyalists && SegmentOf(7) == PotentialLoyalists
    ensures SegmentOf(8) == LoyalCustomers && SegmentOf(9) == LoyalCustomers
    ensures SegmentOf(10) == BestCustomers && SegmentOf(11) == BestCustomers && SegmentOf(12) == BestCustomers
    ensures forall name :: name in SegmentNames ==> exists k :: 3 <= k <= 12 && Name(SegmentOf(k)) == name
  {
    assert Name(SegmentOf(3)) == Name(ChurnedCustomers) && Name(SegmentOf(4)) == Name(AtRisk);
    assert Name(SegmentOf(6)) == Name(PotentialLoyalists) && Name(SegmentOf(8)) == Name(LoyalCustomers);
    assert Name(SegmentOf(10)) == Name(BestCustomers);
  }
}
