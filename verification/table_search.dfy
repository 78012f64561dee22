/** The lower-bound search the interpolator runs on the table: the first
    row whose engine speed is not below the query. The functional
    definition below is the reference; `BinarySearch` is the halving search
    of the standard library, proved to return the same index on every table
    ordered by engine speed (the ordering every caller provides; the standard
    search itself needs only the rows partitioned by `rpm < q`, and on any
    such table `LowerBoundUnique` shows the reference finds the same
    partition point). */
module TableSearch {
  import opened ChartTypes

  /** Engine speeds never decrease along the table. */
  predicate RpmNondecreasing(t: seq<DataPoint>) {
    forall i, j :: 0 <= i < j < |t| ==> t[i].rpm <= t[j].rpm
  }

  /** Engine speeds strictly increase along the table. */
  predicate RpmIncreasing(t: seq<DataPoint>) {
    forall i, j :: 0 <= i < j < |t| ==> t[i].rpm < t[j].rpm
  }

  /** The index of the first row whose engine speed is at least `q`, or
      `|t|` when there is none. */
  function LowerBound(t: seq<DataPoint>, q: real): (i: nat)
    ensures i <= |t|
    ensures forall j :: 0 <= j < i ==> t[j].rpm < q
    ensures i < |t| ==> q <= t[i].rpm
  {
    if t == [] then 0
    else if q <= t[0].rpm then 0
    else 1 + LowerBound(t[1..], q)
  }

  /** The three conditions of `LowerBound` pin the index down: any index
      meeting them is the lower bound. */
  lemma LowerBoundUnique(t: seq<DataPoint>, q: real, i: nat)
    requires i <= |t|
    requires forall j :: 0 <= j < i ==> t[j].rpm < q
    requires i < |t| ==> q <= t[i].rpm
    ensures i == LowerBound(t, q)
  {
    var b := LowerBound(t, q);
  }

  /** On an ordered table the lower bound splits the rows exactly: the rows
      before it are the ones below the query. */
  lemma LowerBoundPartition(t: seq<DataPoint>, q: real)
    requires RpmNondecreasing(t)
    ensures forall j :: 0 <= j < |t| ==> (j < LowerBound(t, q) <==> t[j].rpm < q)
  {
  }

  /** A query equal to a row's engine speed finds exactly that row when the
      speeds are strictly increasing. */
  lemma LowerBoundAtRow(t: seq<DataPoint>, k: int)
    requires RpmIncreasing(t)
    requires 0 <= k < |t|
    ensures LowerBound(t, t[k].rpm) == k
  {
  }

  /** A query strictly after row `k` and not after row `k + 1` finds row
      `k + 1`. */
  lemma LowerBoundInGap(t: seq<DataPoint>, k: int, q: real)
    requires RpmNondecreasing(t)
    requires 0 <= k < |t| - 1
    requires t[k].rpm < q <= t[k + 1].rpm
    ensures LowerBound(t, q) == k + 1
  {
  }

  /** The lower bound never moves backwards as the query grows. */
  lemma LowerBoundMonotone(t: seq<DataPoint>, q1: real, q2: real)
    requires RpmNondecreasing(t)
    requires q1 <= q2
    ensures LowerBound(t, q1) <= LowerBound(t, q2)
  {
    LowerBoundPartition(t, q1);
    LowerBoundPartition(t, q2);
  }

  /** The halving search on an ordered table. */
  method BinarySearch(t: seq<DataPoint>, q: real) returns (i: nat)
    requires RpmNondecreasing(t)
    ensures i == LowerBound(t, q)
  {
    var lo, hi := 0, |t|;
    while lo < hi
      invariant 0 <= lo <= hi <= |t|
      invariant forall j :: 0 <= j < lo ==> t[j].rpm < q
      invariant forall j :: hi <= j < |t| ==> q <= t[j].rpm
      decreases hi - lo
    {
      var mid := lo + (hi - lo) / 2;
      if t[mid].rpm < q {
        lo := mid + 1;
      } else {
        hi := mid;
      }
    }
    i := lo;
    LowerBoundUnique(t, q, i);
  }
}
