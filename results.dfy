/**
 * Rows of the results table as the analytics code reads them
 * (backend/services/supabase_service.py), and the list filters it applies.
 */
module ResultRows {
  import opened PyValue

  /** `r.get("participated", True) and not r.get("cancelled", False)`. */
  predicate Participates(r: Dict) {
    Truthy(GetOr(r, "participated", Bool(true))) && !Truthy(GetOr(r, "cancelled", Bool(false)))
  }

  /** `r.get("points") is not None or r.get("total_points") is not None`. */
  predicate HasPoints(r: Dict) {
    Get(r, "points") != Null || Get(r, "total_points") != Null
  }

  /** The number of elements of `xs` that satisfy `p`. */
  function CountIf(xs: seq<Dict>, p: Dict -> bool): (n: nat)
    ensures n <= |xs|
  {
    if |xs| == 0 then 0
    else CountIf(xs[..|xs| - 1], p) + (if p(xs[|xs| - 1]) then 1 else 0)
  }

  /** `[x for x in xs if p(x)]`. */
  function Filter(xs: seq<Dict>, p: Dict -> bool): (r: seq<Dict>)
    ensures |r| == CountIf(xs, p)
    ensures forall x :: x in r <==> x in xs && p(x)
  {
    if |xs| == 0 then []
    else
      var init := Filter(xs[..|xs| - 1], p);
      assert forall x :: x in xs <==> x in xs[..|xs| - 1] || x == xs[|xs| - 1] by {
        assert xs == xs[..|xs| - 1] + [xs[|xs| - 1]];
      }
      if p(xs[|xs| - 1]) then init + [xs[|xs| - 1]] else init
  }
}
