/** The job-array ranges of scripts/err_check.py (43-72, 94-107, 169-174): which array ids belong to which
    algorithm, and which run of it. */
module JobArray {
  import opened Wrappers
  import opened Selection

  datatype Range = Range(low: int, high: int, name: string)

  datatype Run = Run(name: string, id: int)

  predicate Contains(r: Range, id: int) {
    r.low <= id <= r.high
  }

  // ---------- Building the ranges ----------

  /** One more than the bound before branch i, whether or not that branch gave a range. */
  function Low(bounds: seq<int>, i: nat): int
    requires i <= |bounds|
  {
    if i == 0 then 1 else bounds[i - 1] + 1
  }

  /** The ranges of the first n branches. */
  function Branches(bounds: seq<int>, names: seq<string>, n: nat): seq<Range>
    requires n <= |bounds|
  {
    if n == 0 then []
    else
      var i := n - 1;
      Branches(bounds, names, i) + BranchRange(bounds, names, i)
  }

  /** The ids after the last bound go to the last name. */
  function Rest(bounds: seq<int>, names: seq<string>, maxId: int): seq<Range>
    requires |names| > 0
  {
    var low := Low(bounds, |bounds|);
    if low <= maxId && (|names| > |bounds| || |bounds| > 0) then [Range(low, maxId, names[|names| - 1])] else []
  }

  function Ranges(bounds: seq<int>, names: seq<string>, maxId: int): seq<Range> {
    if |names| == 0 then [] else Branches(bounds, names, |bounds|) + Rest(bounds, names, maxId)
  }

  /** The loop of parse_slurm_algos, after its regular expressions found the numbers and the names. */
  method ParseSlurmAlgos(bounds: seq<int>, names: seq<string>, maxId: int) returns (ranges: seq<Range>)
    ensures ranges == Ranges(bounds, names, maxId)
  {
    if |names| == 0 {
      return [];
    }
    ranges := [];
    var low := 1;
    for i := 0 to |bounds|
      invariant low == Low(bounds, i) && ranges == Branches(bounds, names, i)
    {
      var high := bounds[i];
      assert Branches(bounds, names, i + 1) == Branches(bounds, names, i) + BranchRange(bounds, names, i);
      if i < |names| && high >= low {
        ranges := ranges + [Range(low, high, names[i])];
      }
      low := high + 1;
    }
    if low <= maxId && |names| > |bounds| {
      ranges := ranges + [Range(low, maxId, names[|names| - 1])];
    } else if low <= maxId && |bounds| > 0 {
      ranges := ranges + [Range(low, maxId, names[|names| - 1])];
    }
  }

  /** Bounds as the scripts write them: increasing, from 1 to the last array id. */
  predicate Increasing(bounds: seq<int>, maxId: int) {
    && maxId >= 1
    && (forall i :: 0 <= i < |bounds| ==> 1 <= bounds[i] <= maxId)
    && (forall i, j :: 0 <= i < j < |bounds| ==> bounds[i] < bounds[j])
  }

  function Min(a: nat, b: nat): nat {
    if a <= b then a else b
  }

  lemma {:induction false} BranchesClosed(bounds: seq<int>, names: seq<string>, maxId: int, n: nat)
    requires Increasing(bounds, maxId) && n <= |bounds|
    ensures |Branches(bounds, names, n)| == Min(n, |names|)
    ensures forall i :: 0 <= i < Min(n, |names|) ==>
              Branches(bounds, names, n)[i] == Range(Low(bounds, i), bounds[i], names[i])
  {
    if n == 0 {
    } else {
      var i := n - 1;
      BranchesClosed(bounds, names, maxId, i);
      assert Low(bounds, i) <= bounds[i];
    }
  }

  // ---------- The ranges partition the ids ----------

  predicate Covered(ranges: seq<Range>, id: int) {
    exists i :: 0 <= i < |ranges| && Contains(ranges[i], id)
  }

  ghost predicate Disjoint(ranges: seq<Range>) {
    forall i, j, id :: 0 <= i < j < |ranges| && Contains(ranges[i], id) ==> !Contains(ranges[j], id)
  }

  /** Every id from 1 to maxId is in exactly one range, and no other id is in any. */
  ghost predicate Partition(ranges: seq<Range>, maxId: int) {
    Disjoint(ranges) && forall id :: Covered(ranges, id) <==> 1 <= id <= maxId
  }

  ghost predicate Ascending(ranges: seq<Range>, maxId: int) {
    && (forall i :: 0 <= i < |ranges| ==> 1 <= ranges[i].low <= ranges[i].high <= maxId)
    && (forall i, j :: 0 <= i < j < |ranges| ==> ranges[i].high < ranges[j].low)
  }

  lemma AscendingIsDisjoint(ranges: seq<Range>, maxId: int)
    requires Ascending(ranges, maxId)
    ensures Disjoint(ranges) && forall id :: Covered(ranges, id) ==> 1 <= id <= maxId
  {
  }

  ghost predicate Below(ranges: seq<Range>, low: int) {
    forall i :: 0 <= i < |ranges| ==> ranges[i].high < low
  }

  lemma OneMoreAscends(ranges: seq<Range>, r: Range, maxId: int)
    requires Ascending(ranges, maxId) && Below(ranges, r.low) && 1 <= r.low <= r.high <= maxId
    ensures Ascending(ranges + [r], maxId) && Below(ranges + [r], r.high + 1)
  {
  }

  lemma {:induction false} BranchesAscend(bounds: seq<int>, names: seq<string>, maxId: int, n: nat)
    requires Increasing(bounds, maxId) && n <= |bounds|
    ensures Ascending(Branches(bounds, names, n), maxId) && Below(Branches(bounds, names, n), Low(bounds, n))
  {
    if n == 0 {
    } else {
      var i := n - 1;
      BranchesAscend(bounds, names, maxId, i);
      var before := Branches(bounds, names, i);
      assert Low(bounds, i) <= bounds[i];
      if i < |names| {
        OneMoreAscends(before, Range(Low(bounds, i), bounds[i], names[i]), maxId);
      }
    }
  }

  lemma RangesAscend(bounds: seq<int>, names: seq<string>, maxId: int)
    requires Increasing(bounds, maxId)
    ensures Ascending(Ranges(bounds, names, maxId), maxId)
  {
    var n := |bounds|;
    BranchesAscend(bounds, names, maxId, n);
    var low := Low(bounds, n);
    assert 1 <= low;
    if |names| > 0 && |Rest(bounds, names, maxId)| > 0 {
      OneMoreAscends(Branches(bounds, names, n), Range(low, maxId, names[|names| - 1]), maxId);
    }
  }

  /** The branch that holds id, if one does. */
  lemma {:induction false} FindBranch(bounds: seq<int>, id: int, n: nat) returns (i: nat)
    requires n <= |bounds| && 1 <= id
    ensures i <= n && Low(bounds, i) <= id
    ensures i < n ==> id <= bounds[i]
  {
    if n == 0 {
      i := 0;
    } else {
      i := FindBranch(bounds, id, n - 1);
      if i == n - 1 && bounds[n - 1] < id {
        i := n;
      }
    }
  }

  /** The ranges partition the array ids exactly when every bound has a name. */
  lemma RangesPartition(bounds: seq<int>, names: seq<string>, maxId: int)
    requires Increasing(bounds, maxId) && |names| > 0
    ensures Partition(Ranges(bounds, names, maxId), maxId) <==> |names| >= |bounds|
  {
    var ranges := Ranges(bounds, names, maxId);
    RangesAscend(bounds, names, maxId);
    AscendingIsDisjoint(ranges, maxId);
    if |names| >= |bounds| {
      forall id | 1 <= id <= maxId ensures Covered(ranges, id) {
        EveryIdCovered(bounds, names, maxId, id);
      }
    } else {
      NamelessBranchMissed(bounds, names, maxId);
    }
  }

  lemma NamelessBranchMissed(bounds: seq<int>, names: seq<string>, maxId: int)
    requires Increasing(bounds, maxId) && |bounds| > |names| > 0
    ensures !Covered(Ranges(bounds, names, maxId), bounds[|names|])
  {
    var missed := bounds[|names|];
    BranchesClosed(bounds, names, maxId, |bounds|);
    assert forall i :: 0 <= i < |names| ==> bounds[i] < missed;
    assert missed <= bounds[|bounds| - 1];
  }

  lemma EveryIdCovered(bounds: seq<int>, names: seq<string>, maxId: int, id: int)
    requires Increasing(bounds, maxId) && |names| >= |bounds| && |names| > 0 && 1 <= id <= maxId
    ensures Covered(Ranges(bounds, names, maxId), id)
  {
    BranchesClosed(bounds, names, maxId, |bounds|);
    var i := FindBranch(bounds, id, |bounds|);
    assert Contains(Ranges(bounds, names, maxId)[i], id);
  }

  // ---------- Looking an id up ----------

  function Lookup(id: int, ranges: seq<Range>): Option<Run> {
    if |ranges| == 0 then None
    else if Contains(ranges[0], id) then Some(Run(ranges[0].name, id - ranges[0].low + 1))
    else Lookup(id, ranges[1..])
  }

  method ArrayIdToAlgoRun(id: int, ranges: seq<Range>) returns (run: Option<Run>)
    ensures run == Lookup(id, ranges)
  {
    for i := 0 to |ranges|
      invariant Lookup(id, ranges) == Lookup(id, ranges[i..])
    {
      if ranges[i].low <= id <= ranges[i].high {
        return Some(Run(ranges[i].name, id - ranges[i].low + 1));
      }
      assert ranges[i..][1..] == ranges[i + 1..];
    }
    return None;
  }

  lemma {:induction false} LookupFinds(id: int, ranges: seq<Range>) returns (i: nat)
    ensures Lookup(id, ranges).Some? <==> Covered(ranges, id)
    ensures Covered(ranges, id) ==>
      && i < |ranges| && Contains(ranges[i], id) && (forall j :: 0 <= j < i ==> !Contains(ranges[j], id))
      && Lookup(id, ranges) == Some(Run(ranges[i].name, id - ranges[i].low + 1))
  {
    if |ranges| == 0 || Contains(ranges[0], id) {
      i := 0;
    } else {
      var rest := ranges[1..];
      var j := LookupFinds(id, rest);
      assert Covered(ranges, id) <==> Covered(rest, id) by {
        assert forall k :: 0 <= k < |rest| ==> rest[k] == ranges[k + 1];
      }
      i := j + 1;
    }
  }

  ghost predicate Distinct<T>(s: seq<T>) {
    forall i, j :: 0 <= i < j < |s| ==> s[i] != s[j]
  }

  /** No two ids have the same algorithm and run number. */
  ghost predicate Injective(ranges: seq<Range>) {
    forall a, b :: Covered(ranges, a) && Lookup(a, ranges) == Lookup(b, ranges) ==> a == b
  }

  lemma DistinctNamesInject(ranges: seq<Range>)
    requires forall i, j :: 0 <= i < j < |ranges| ==> ranges[i].name != ranges[j].name
    ensures Injective(ranges)
  {
    forall a, b | Covered(ranges, a) && Lookup(a, ranges) == Lookup(b, ranges) ensures a == b {
      var i := LookupFinds(a, ranges);
      var j := LookupFinds(b, ranges);
    }
  }

  /** Every id has its own (algorithm, run) exactly when the last name is not used twice: there are more names
      than bounds, or no ids are left after the last bound. */
  lemma LookupInjective(bounds: seq<int>, names: seq<string>, maxId: int)
    requires Increasing(bounds, maxId) && |names| > 0 && Distinct(names)
    ensures Injective(Ranges(bounds, names, maxId)) <==> |names| > |bounds| || bounds[|bounds| - 1] == maxId
  {
    var ranges := Ranges(bounds, names, maxId);
    BranchesClosed(bounds, names, maxId, |bounds|);
    if |names| > |bounds| || bounds[|bounds| - 1] == maxId {
      DistinctNamesInject(ranges);
    } else {
      RangesAscend(bounds, names, maxId);
      AscendingIsDisjoint(ranges, maxId);
      var i, j := |names| - 1, |ranges| - 1;
      var a, b := ranges[i].low, ranges[j].low;
      assert Contains(ranges[i], a) && Contains(ranges[j], b);
      var ia := LookupFinds(a, ranges);
      var jb := LookupFinds(b, ranges);
      assert ia == i && jb == j;
      assert Lookup(a, ranges) == Lookup(b, ranges);
    }
  }

  /** One bound, one name: ids 1 and 31 of 60 are both taken for the first run. */
  lemma RunsCollide()
    ensures var ranges := Ranges([30], ["BBR"], 60);
            Partition(ranges, 60) && Lookup(1, ranges) == Lookup(31, ranges) == Some(Run("BBR", 1))
  {
    RangesPartition([30], ["BBR"], 60);
    BranchesClosed([30], ["BBR"], 60, 1);
    var ranges := Ranges([30], ["BBR"], 60);
    assert ranges == [Range(1, 30, "BBR"), Range(31, 60, "BBR")];
    assert Contains(ranges[1], 31);
    var i := LookupFinds(31, ranges);
  }

  // ---------- The summary ----------

  function InRange(ids: set<int>, low: int, high: int): set<int> {
    set id | id in ids && low <= id <= high
  }

  datatype Row = Row(name: string, remaining: int, total: nat, count: nat)

  /** The row of a range: how many existing ids it has, how many corrupted ones, and the difference. */
  ghost predicate IsRowOf(row: Row, r: Range, corrupted: set<int>, existing: set<int>) {
    && row.name == r.name
    && row.total == |InRange(existing, r.low, r.high)| && row.count == |InRange(corrupted, r.low, r.high)|
    && row.remaining == row.total - row.count
  }

  method CountInRange(ids: set<int>, low: int, high: int) returns (n: int)
    ensures n == |InRange(ids, low, high)|
  {
    n := 0;
    var todo, done: set<int> := ids, {};
    while todo != {}
      invariant done !! todo && done + todo == ids && n == |InRange(done, low, high)|
      decreases |todo|
    {
      assert (forall x :: x !in todo) ==> todo == {};
      var id :| id in todo;
      OneMoreInRange(done, id, low, high);
      if low <= id <= high {
        n := n + 1;
      }
      todo, done := todo - {id}, done + {id};
    }
  }

  lemma OneMoreInRange(ids: set<int>, id: int, low: int, high: int)
    requires id !in ids
    ensures |InRange(ids + {id}, low, high)| == |InRange(ids, low, high)| + if low <= id <= high then 1 else 0
  {
    var before := InRange(ids, low, high);
    assert InRange(ids + {id}, low, high) == if low <= id <= high then before + {id} else before;
  }

  method RunSummary(ranges: seq<Range>, corrupted: set<int>, existing: set<int>) returns (rows: seq<Row>)
    ensures |rows| == |ranges| && forall i :: 0 <= i < |rows| ==> IsRowOf(rows[i], ranges[i], corrupted, existing)
  {
    rows := [];
    for i := 0 to |ranges|
      invariant |rows| == i && forall j :: 0 <= j < i ==> IsRowOf(rows[j], ranges[j], corrupted, existing)
    {
      var total := CountInRange(existing, ranges[i].low, ranges[i].high);
      var count := CountInRange(corrupted, ranges[i].low, ranges[i].high);
      rows := rows + [Row(ranges[i].name, total - count, total, count)];
    }
  }

  function SumTotals(ranges: seq<Range>, ids: set<int>): nat {
    if |ranges| == 0 then 0
    else |InRange(ids, ranges[0].low, ranges[0].high)| + SumTotals(ranges[1..], ids)
  }

  function CoveredIds(ranges: seq<Range>, ids: set<int>): set<int> {
    set id | id in ids && Covered(ranges, id)
  }

  lemma CoveredTail(ranges: seq<Range>, id: int)
    requires |ranges| > 0
    ensures Covered(ranges, id) <==> Contains(ranges[0], id) || Covered(ranges[1..], id)
  {
    var rest := ranges[1..];
    if Covered(rest, id) {
      var i :| 0 <= i < |rest| && Contains(rest[i], id);
      assert Contains(ranges[i + 1], id);
    }
    if Covered(ranges, id) && !Contains(ranges[0], id) {
      var i :| 0 <= i < |ranges| && Contains(ranges[i], id);
      assert Contains(rest[i - 1], id);
    }
  }

  /** Over disjoint ranges the totals add up to the covered ids. */
  lemma {:induction false} TotalsOfDisjoint(ranges: seq<Range>, ids: set<int>)
    requires Disjoint(ranges)
    ensures SumTotals(ranges, ids) == |CoveredIds(ranges, ids)|
  {
    var all := CoveredIds(ranges, ids);
    if |ranges| == 0 {
      assert all == {};
    } else {
      var rest := ranges[1..];
      DisjointTail(ranges);
      TotalsOfDisjoint(rest, ids);
      var here, there := InRange(ids, ranges[0].low, ranges[0].high), CoveredIds(rest, ids);
      forall id ensures id in all <==> id in here + there {
        CoveredTail(ranges, id);
      }
      assert all == here + there;
      assert here !! there;
    }
  }

  lemma DisjointTail(ranges: seq<Range>)
    requires Disjoint(ranges) && |ranges| > 0
    ensures Disjoint(ranges[1..])
    ensures forall id :: Contains(ranges[0], id) ==> !Covered(ranges[1..], id)
  {
    var rest := ranges[1..];
    assert forall k :: 0 <= k < |rest| ==> rest[k] == ranges[k + 1];
  }

  /** The totals always add up to the existing ids of the array exactly when every bound has a name. */
  lemma SummaryAddsUp(bounds: seq<int>, names: seq<string>, maxId: int)
    requires Increasing(bounds, maxId) && |names| > 0
    ensures |names| >= |bounds| <==>
            forall ids :: SumTotals(Ranges(bounds, names, maxId), ids) == |InRange(ids, 1, maxId)|
  {
    var ranges := Ranges(bounds, names, maxId);
    RangesAscend(bounds, names, maxId);
    AscendingIsDisjoint(ranges, maxId);
    if |names| >= |bounds| {
      RangesPartition(bounds, names, maxId);
      forall ids ensures SumTotals(ranges, ids) == |InRange(ids, 1, maxId)| {
        TotalsOfDisjoint(ranges, ids);
        assert InRange(ids, 1, maxId) == CoveredIds(ranges, ids);
      }
    } else {
      var missed := bounds[|names|];
      var ids := {missed};
      NamelessBranchMissed(bounds, names, maxId);
      TotalsOfDisjoint(ranges, ids);
      assert CoveredIds(ranges, ids) == {};
      assert InRange(ids, 1, maxId) == {missed};
      assert SumTotals(ranges, ids) != |InRange(ids, 1, maxId)|;
    }
  }

  /** Corrupted jobs are among the existing ones: then `remaining` counts the others, and is never negative. */
  lemma RemainingCounts(row: Row, r: Range, corrupted: set<int>, existing: set<int>)
    requires corrupted <= existing && IsRowOf(row, r, corrupted, existing)
    ensures row.remaining == |InRange(existing - corrupted, r.low, r.high)|
  {
    var bad, good := InRange(corrupted, r.low, r.high), InRange(existing - corrupted, r.low, r.high);
    assert InRange(existing, r.low, r.high) == bad + good && bad !! good;
  }

  // ---------- The ranges and the lookup, branch by branch ----------

  /** Branch i has a name and an id of its own. */
  function GivesRange(bounds: seq<int>, names: seq<string>): int -> bool {
    (i: int) => 0 <= i < |bounds| && i < |names| && bounds[i] >= Low(bounds, i)
  }

  ghost function IsBranchRange(bounds: seq<int>, names: seq<string>): (int, Range) -> bool {
    (i: int, r: Range) => 0 <= i < |bounds| && i < |names| && r == Range(Low(bounds, i), bounds[i], names[i])
  }

  function BranchRange(bounds: seq<int>, names: seq<string>, i: nat): seq<Range>
    requires i < |bounds|
  {
    if i < |names| && bounds[i] >= Low(bounds, i) then [Range(Low(bounds, i), bounds[i], names[i])] else []
  }

  /** For any bounds, increasing or not: exactly the branches with a name and an id give a range, in order. */
  lemma {:induction false} BranchesSelected(bounds: seq<int>, names: seq<string>, n: nat)
    requires n <= |bounds|
    ensures Selects(Branches(bounds, names, n), Indices(n), GivesRange(bounds, names), IsBranchRange(bounds, names))
  {
    if n == 0 {
    } else {
      var i := n - 1;
      BranchesSelected(bounds, names, i);
      OneMoreSelected(Branches(bounds, names, i), Indices(i), BranchRange(bounds, names, i), i,
                      GivesRange(bounds, names), IsBranchRange(bounds, names));
    }
  }

  /** ... and after them the ids behind the last bound, if there are any, go to the last name. */
  lemma RangesAre(bounds: seq<int>, names: seq<string>, maxId: int)
    requires |names| > 0
    ensures var last := Low(bounds, |bounds|);
            Ranges(bounds, names, maxId) == Branches(bounds, names, |bounds|)
              + if last <= maxId then [Range(last, maxId, names[|names| - 1])] else []
    ensures forall r :: r in Ranges(bounds, names, maxId) ==> r.low <= r.high
  {
    BranchesNonEmpty(bounds, names, |bounds|);
  }

  lemma {:induction false} BranchesNonEmpty(bounds: seq<int>, names: seq<string>, n: nat)
    requires n <= |bounds|
    ensures forall r :: r in Branches(bounds, names, n) ==> r.low <= r.high
  {
    if n == 0 {
    } else {
      BranchesNonEmpty(bounds, names, n - 1);
    }
  }

  /** Every id belongs to the branch of its bound: it has the name of that branch and its number within it, or no
      run at all where the branch has no name; ids behind the last bound have the last name. */
  lemma LookupOf(bounds: seq<int>, names: seq<string>, maxId: int, id: int, i: nat)
    requires Increasing(bounds, maxId) && |names| > 0 && 1 <= id <= maxId
    requires i <= |bounds| && Low(bounds, i) <= id && (i < |bounds| ==> id <= bounds[i])
    ensures var low := Low(bounds, i);
            Lookup(id, Ranges(bounds, names, maxId)) ==
              if i == |bounds| then Some(Run(names[|names| - 1], id - low + 1))
              else if i < |names| then Some(Run(names[i], id - low + 1)) else None
  {
    var ranges := Ranges(bounds, names, maxId);
    if i < |bounds| && i >= |names| {
      NamelessMissed(bounds, names, maxId, id, i);
      var k := LookupFinds(id, ranges);
    } else {
      var at := RangeOfBranch(bounds, names, maxId, i);
      RangesAscend(bounds, names, maxId);
      LookupAt(ranges, maxId, id, at);
    }
  }

  lemma RangeOfBranch(bounds: seq<int>, names: seq<string>, maxId: int, i: nat) returns (at: nat)
    requires Increasing(bounds, maxId) && |names| > 0 && i <= |bounds| && Low(bounds, i) <= maxId
    requires i < |names| || i == |bounds|
    ensures at < |Ranges(bounds, names, maxId)|
    ensures i < |bounds| ==> Ranges(bounds, names, maxId)[at] == Range(Low(bounds, i), bounds[i], names[i])
    ensures i == |bounds| ==> Ranges(bounds, names, maxId)[at] == Range(Low(bounds, i), maxId, names[|names| - 1])
  {
    BranchesClosed(bounds, names, maxId, |bounds|);
    at := if i < |bounds| then i else |Branches(bounds, names, |bounds|)|;
  }

  lemma LookupAt(ranges: seq<Range>, maxId: int, id: int, at: nat)
    requires Ascending(ranges, maxId) && at < |ranges| && Contains(ranges[at], id)
    ensures Lookup(id, ranges) == Some(Run(ranges[at].name, id - ranges[at].low + 1))
  {
    AscendingIsDisjoint(ranges, maxId);
    var k := LookupFinds(id, ranges);
    assert k == at;
  }

  lemma NamelessMissed(bounds: seq<int>, names: seq<string>, maxId: int, id: int, i: nat)
    requires Increasing(bounds, maxId) && |names| > 0 && |names| <= i < |bounds|
    requires Low(bounds, i) <= id <= bounds[i]
    ensures !Covered(Ranges(bounds, names, maxId), id)
  {
    BranchesClosed(bounds, names, maxId, |bounds|);
    var ranges := Ranges(bounds, names, maxId);
    assert id <= bounds[|bounds| - 1];
    forall k | 0 <= k < |ranges| ensures !Contains(ranges[k], id) {
      if k < |names| {
        assert bounds[k] <= bounds[i - 1] < id;
      }
    }
  }
}
