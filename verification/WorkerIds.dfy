/** How many workers a connection has and which ids they get (core/main.go, start). */
module WorkerIds {

  const WORKERS_PER_GROUP := 9
  const MAX_WORKERS := 108

  /** The worker count that start settles on. */
  function NormalizeWorkers(requested: int): (n: nat)
    ensures n % 9 == 0 && 9 <= n <= 108
    ensures requested >= 9 ==> n <= requested
    ensures forall m: nat :: m % 9 == 0 && m <= requested && m <= 108 ==> m <= n
  {
    var a := if requested > MAX_WORKERS then MAX_WORKERS else requested;
    var b := if a < WORKERS_PER_GROUP then WORKERS_PER_GROUP else a;
    (b / WORKERS_PER_GROUP) * WORKERS_PER_GROUP
  }

  /** The i-th id of group g, both from 0. */
  function IdOf(g: nat, i: nat): nat {
    WORKERS_PER_GROUP * g + i + 1
  }

  /** The id counter runs on from group to group. */
  method AssignIds(numGroups: nat) returns (ids: seq<seq<nat>>)
    ensures |ids| == numGroups
    ensures forall g :: 0 <= g < numGroups ==> |ids[g]| == 9
    ensures forall g, i :: 0 <= g < numGroups && 0 <= i < 9 ==> ids[g][i] == 9 * g + i + 1
  {
    ids := [];
    var counter := 1;
    for g := 0 to numGroups
      invariant |ids| == g && counter == IdOf(g, 0)
      invariant forall h :: 0 <= h < g ==> |ids[h]| == WORKERS_PER_GROUP
      invariant forall h, i :: 0 <= h < g && 0 <= i < WORKERS_PER_GROUP ==> ids[h][i] == IdOf(h, i)
    {
      var group := [];
      for i := 0 to WORKERS_PER_GROUP
        invariant |group| == i && counter == IdOf(g, i)
        invariant forall k :: 0 <= k < i ==> group[k] == IdOf(g, k)
      {
        group := group + [counter];
        counter := counter + 1;
      }
      ids := ids + [group];
    }
  }

  /** Every id from 1 to the normalized worker count belongs to exactly one place in one group. */
  lemma IdsArePartitioned(requested: int, id: nat)
    requires 1 <= id <= NormalizeWorkers(requested)
    ensures var g, i := (id - 1) / WORKERS_PER_GROUP, (id - 1) % WORKERS_PER_GROUP;
            && g < NormalizeWorkers(requested) / WORKERS_PER_GROUP && IdOf(g, i) == id
            && forall h: nat, j: nat :: j < WORKERS_PER_GROUP && IdOf(h, j) == id ==> h == g && j == i
  {
  }
}
