/**
 * The summary `main` prints after parsing: it first checks that some step was
 * found (otherwise it reports that no validation loss data was found and exits
 * with status 1), and only then takes the count, the least and greatest step
 * and the least and greatest loss.
 */
module Summary {
  import opened Wrappers
  import opened Numbers
  import opened LogPattern
  import opened LogExtractor

  /** The figures printed for a non-empty series. */
  datatype Stats = Stats(count: nat, minStep: nat, maxStep: nat, minLoss: Decimal, maxLoss: Decimal)

  /** `min()` over the steps, scanning from the front and replacing the minimum only by a smaller step. */
  function MinStep(xs: seq<nat>): (m: nat)
    requires |xs| > 0
    ensures m in xs && forall x :: x in xs ==> m <= x
    decreases |xs|
  {
    if |xs| == 1 then xs[0]
    else
      var init := xs[..|xs| - 1];
      assert forall x :: x in xs ==> x in init || x == xs[|xs| - 1];
      var m := MinStep(init);
      if xs[|xs| - 1] < m then xs[|xs| - 1] else m
  }

  /** `max()` over the steps, scanning from the front and replacing the maximum only by a greater step. */
  function MaxStep(xs: seq<nat>): (m: nat)
    requires |xs| > 0
    ensures m in xs && forall x :: x in xs ==> x <= m
    decreases |xs|
  {
    if |xs| == 1 then xs[0]
    else
      var init := xs[..|xs| - 1];
      assert forall x :: x in xs ==> x in init || x == xs[|xs| - 1];
      var m := MaxStep(init);
      if xs[|xs| - 1] > m then xs[|xs| - 1] else m
  }

  /**
   * The position of the loss `min()` returns: one of least value, and the first
   * of them, since a later loss replaces the minimum only when it is smaller.
   */
  function MinLossAt(ds: seq<Decimal>): (k: nat)
    requires |ds| > 0
    ensures k < |ds| && forall j :: 0 <= j < |ds| ==> Value(ds[k]) <= Value(ds[j])
    ensures forall j :: 0 <= j < k ==> Value(ds[k]) < Value(ds[j])
    decreases |ds|
  {
    if |ds| == 1 then 0
    else
      var k := MinLossAt(ds[..|ds| - 1]);
      if Value(ds[|ds| - 1]) < Value(ds[k]) then |ds| - 1 else k
  }

  /**
   * The position of the loss `max()` returns: one of greatest value, and the first
   * of them, since a later loss replaces the maximum only when it is greater.
   */
  function MaxLossAt(ds: seq<Decimal>): (k: nat)
    requires |ds| > 0
    ensures k < |ds| && forall j :: 0 <= j < |ds| ==> Value(ds[j]) <= Value(ds[k])
    ensures forall j :: 0 <= j < k ==> Value(ds[j]) < Value(ds[k])
    decreases |ds|
  {
    if |ds| == 1 then 0
    else
      var k := MaxLossAt(ds[..|ds| - 1]);
      if Value(ds[|ds| - 1]) > Value(ds[k]) then |ds| - 1 else k
  }

  /**
   * What `main` reports for a parsed series: None where it exits because no step
   * was found, otherwise the count and the extremes of the steps and the losses.
   */
  function Summarize(s: LossSeries): (r: Option<Stats>)
    requires |s.steps| == |s.losses|
    ensures r.None? <==> s.steps == []
    ensures r.Some? ==> r.value.count == |s.steps| && r.value.minStep <= r.value.maxStep
    ensures r.Some? ==> r.value.minStep in s.steps && r.value.maxStep in s.steps
    ensures r.Some? ==> forall x :: x in s.steps ==> r.value.minStep <= x <= r.value.maxStep
    ensures r.Some? ==> r.value.minLoss in s.losses && r.value.maxLoss in s.losses
    ensures r.Some? ==> forall d :: d in s.losses ==> Value(r.value.minLoss) <= Value(d) <= Value(r.value.maxLoss)
  {
    if s.steps == [] then None
    else
      var lo, hi := MinLossAt(s.losses), MaxLossAt(s.losses);
      Some(Stats(|s.steps|, MinStep(s.steps), MaxStep(s.steps), s.losses[lo], s.losses[hi]))
  }

  /**
   * After a successful parse, `main` stops before taking any minimum or maximum
   * exactly when the pattern occurs in no line of the log.
   */
  lemma SummaryGuard(lines: seq<string>)
    ensures Extract(lines).Success? ==>
      (Summarize(Extract(lines).value).None? <==> forall j, o :: 0 <= j < |lines| ==> !Occurs(lines[j], o))
  {
    NoMatchingLines(lines);
  }

  /** Steps 10, 20, 30 with losses 2.5, 2.1, 1.9 give steps 10 to 30 and losses 1.9 to 2.5. */
  lemma SummaryExample()
    ensures Summarize(LossSeries([10, 20, 30], [Decimal(25, 1), Decimal(21, 1), Decimal(19, 1)]))
         == Some(Stats(3, 10, 30, Decimal(19, 1), Decimal(25, 1)))
  {
    var ds := [Decimal(25, 1), Decimal(21, 1), Decimal(19, 1)];
    assert MinLossAt(ds) == 2 && MaxLossAt(ds) == 0 by {
      assert Value(ds[0]) == 2.5 && Value(ds[1]) == 2.1 && Value(ds[2]) == 1.9;
    }
    assert MinStep([10, 20, 30]) == 10 && MaxStep([10, 20, 30]) == 30;
  }
}
