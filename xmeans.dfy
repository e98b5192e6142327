/** The X-means split/refine loop of src/xmeans.rs. `next_centroids`
    visits the clusters in centroid order. A cluster with more than five
    points gets a two-way k-means split, and the split replaces the old
    centroid unless the old BIC is strictly lower. `final_centroids`
    repeats rounds of this, with a k-means refit between rounds (over the
    candidate centroid buffer, see README), until
    a round's stop test holds or `limit` rounds have run.

    The k-means library and the BIC scorer are outside this model: they are
    the fields of an `Oracles` value, and their results are taken as given. */
module XMeans {
  import opened Float64
  import opened Chunking

  /** `kmeans::KMeansState<f64>`, as far as this code reads it: the flat
      centroid buffer, the cluster index of every point, the distortion. */
  datatype KMeansState = KMeansState(centroids: seq<real>, assignments: seq<nat>, distsum: F64)

  /** The calls this code makes into code outside the model.
      - split(points, n, shape): `KMeans::new(points, n, shape).kmeans_lloyd(2, 100,
        init_random_partition, ..)`; its random choices are folded into the function.
      - refit(buf, n, shape, k): `KMeans::new(buf, n, shape).kmeans_lloyd(k, 100,
        <initialiser that installs buf as the centroids>, ..)`.
      - bic(rows, state): `compute_bic(&rows, &state)`. */
  datatype Oracles = Oracles(
    split: (seq<real>, nat, nat) -> KMeansState,
    refit: (seq<real>, nat, nat, nat) -> KMeansState,
    bic: (seq<seq<real>>, KMeansState) -> F64)

  /** What `next_centroids` needs so as not to panic: a first row to read
      the dimension from (`wrapped_data[0]`), a non-zero dimension
      (`chunks(0)` panics), and a row for every assigned point. */
  predicate Shaped(data: seq<seq<real>>, state: KMeansState)
  {
    |data| > 0 && |data[0]| > 0 && |state.assignments| <= |data|
  }

  /** `shape`: the dimension, read from the first row. */
  function Shape(data: seq<seq<real>>): nat
    requires |data| > 0
  {
    |data[0]|
  }

  /** The rows of the points assigned to cluster c, in ascending point
      order, concatenated (the filter/flat_map pipeline). */
  function Gather(data: seq<seq<real>>, asg: seq<nat>, c: nat): seq<real>
    requires |asg| <= |data|
    decreases |asg|
  {
    if asg == [] then []
    else Gather(data, asg[..|asg| - 1], c) + (if asg[|asg| - 1] == c then data[|asg| - 1] else [])
  }

  /** How many points are assigned to cluster c. */
  function Members(asg: seq<nat>, c: nat): nat
    decreases |asg|
  {
    if asg == [] then 0
    else Members(asg[..|asg| - 1], c) + (if asg[|asg| - 1] == c then 1 else 0)
  }

  /** The centroid buffer cut into one row per cluster. */
  function CentroidRows(data: seq<seq<real>>, state: KMeansState): seq<seq<real>>
    requires Shaped(data, state)
  {
    Chunks(state.centroids, Shape(data))
  }

  /** `cluster_data` of cluster i. */
  function ClusterData(data: seq<seq<real>>, state: KMeansState, i: nat): seq<real>
    requires Shaped(data, state)
  {
    Gather(data, state.assignments, i)
  }

  /** `cluster_data_len`: the flat length divided by the dimension. */
  function ClusterSize(data: seq<seq<real>>, state: KMeansState, i: nat): nat
    requires Shaped(data, state)
  {
    |ClusterData(data, state, i)| / Shape(data)
  }

  /** The two-way split proposed for cluster i. */
  function Proposal(data: seq<seq<real>>, state: KMeansState, o: Oracles, i: nat): KMeansState
    requires Shaped(data, state)
  {
    o.split(ClusterData(data, state, i), ClusterSize(data, state, i), Shape(data))
  }

  /** Cluster i is replaced by its split: it has more than five points and
      the old BIC is not strictly below the new one. */
  predicate Splits(data: seq<seq<real>>, state: KMeansState, o: Oracles, i: nat)
    requires Shaped(data, state)
  {
    var rows := Chunks(ClusterData(data, state, i), Shape(data));
    ClusterSize(data, state, i) > 5 &&
    !Lt(o.bic(rows, state), o.bic(rows, Proposal(data, state, o, i)))
  }

  /** What cluster i with centroid `centroid` adds to the new buffer: one
      loop iteration of `next_centroids`. */
  function Contribution(data: seq<seq<real>>, state: KMeansState, o: Oracles, i: nat, centroid: seq<real>): seq<real>
    requires Shaped(data, state)
  {
    var shape := Shape(data);
    var clusterData := Gather(data, state.assignments, i);
    var clusterLen := |clusterData| / shape;
    if clusterLen <= 5 then centroid
    else
      var result := o.split(clusterData, clusterLen, shape);
      var rows := Chunks(clusterData, shape);
      if Lt(o.bic(rows, state), o.bic(rows, result)) then centroid else result.centroids
  }

  /** The buffer after the first m clusters. */
  function NextUpTo(data: seq<seq<real>>, state: KMeansState, o: Oracles, m: nat): seq<real>
    requires Shaped(data, state) && m <= |CentroidRows(data, state)|
  {
    if m == 0 then []
    else NextUpTo(data, state, o, m - 1) + Contribution(data, state, o, m - 1, CentroidRows(data, state)[m - 1])
  }

  /** The buffer `next_centroids` returns. */
  function NextSpec(data: seq<seq<real>>, state: KMeansState, o: Oracles): seq<real>
    requires Shaped(data, state)
  {
    NextUpTo(data, state, o, |CentroidRows(data, state)|)
  }

  /** `next_centroids`: one round of split attempts, appending to a
      growing buffer. */
  method NextCentroids(data: seq<seq<real>>, state: KMeansState, o: Oracles) returns (next: seq<real>)
    requires Shaped(data, state)
    ensures next == NextSpec(data, state, o)
  {
    next := [];
    var shape := |data[0]|;
    var centroids := Chunks(state.centroids, shape);
    for clusterI := 0 to |centroids|
      invariant next == NextUpTo(data, state, o, clusterI)
    {
      var centroid := centroids[clusterI];
      var clusterData := Gather(data, state.assignments, clusterI);
      var clusterDataLen := |clusterData| / shape;
      if clusterDataLen <= 5 {
        next := next + centroid;
        continue;
      }
      var kmeansResult := o.split(clusterData, clusterDataLen, shape);
      var wrappedClusterData := Chunks(clusterData, shape);
      var oldBic := o.bic(wrappedClusterData, state);
      var newBic := o.bic(wrappedClusterData, kmeansResult);
      if Lt(oldBic, newBic) {
        next := next + centroid;
      } else {
        next := next + kmeansResult.centroids;
      }
    }
  }

  // ---------------------------------------------------------------------
  // Gathering a cluster's points

  /** With rows of `shape` numbers, a cluster's data holds exactly `shape`
      numbers per member. */
  lemma {:induction false} GatherSize(data: seq<seq<real>>, asg: seq<nat>, c: nat, shape: nat)
    requires |asg| <= |data|
    requires forall j :: 0 <= j < |asg| ==> |data[j]| == shape
    ensures |Gather(data, asg, c)| == shape * Members(asg, c)
    decreases |asg|
  {
    if asg != [] {
      var last := |asg| - 1;
      var m := Members(asg[..last], c);
      GatherSize(data, asg[..last], c, shape);
      if asg[last] == c {
        assert |data[last]| == shape;
        assert shape * (m + 1) == shape * m + shape;
      }
    }
  }

  /** Gathering a prefix of the points gives a prefix of the gathered data. */
  lemma {:induction false} GatherPrefix(data: seq<seq<real>>, asg: seq<nat>, c: nat, j: nat)
    requires |asg| <= |data| && j <= |asg|
    ensures var before := Gather(data, asg[..j], c);
      |before| <= |Gather(data, asg, c)| && Gather(data, asg, c)[..|before|] == before
    decreases |asg| - j
  {
    if j == |asg| {
      assert asg[..j] == asg;
    } else {
      var prefix := asg[..|asg| - 1];
      GatherPrefix(data, prefix, c, j);
      assert prefix[..j] == asg[..j];
    }
  }

  /** A member's row sits in the gathered data right after the rows of
      the members before it: the data is in ascending point order. */
  lemma GatherRowAt(data: seq<seq<real>>, asg: seq<nat>, c: nat, j: nat)
    requires |asg| <= |data| && j < |asg| && asg[j] == c
    ensures var before := Gather(data, asg[..j], c);
      var all := Gather(data, asg, c);
      |before| + |data[j]| <= |all| && all[|before|..|before| + |data[j]|] == data[j]
  {
    var before := Gather(data, asg[..j], c);
    assert asg[..j + 1][..j] == asg[..j];
    assert Gather(data, asg[..j + 1], c) == before + data[j];
    GatherPrefix(data, asg, c, j + 1);
  }

  /** `cluster_data_len` is the number of points assigned to the cluster
      when every row has the dimension of the first. */
  lemma ClusterSizeIsMembers(data: seq<seq<real>>, state: KMeansState, i: nat)
    requires Shaped(data, state)
    requires forall j :: 0 <= j < |data| ==> |data[j]| == Shape(data)
    ensures ClusterSize(data, state, i) == Members(state.assignments, i)
  {
    var m := Members(state.assignments, i);
    GatherSize(data, state.assignments, i, Shape(data));
    MulDiv(Shape(data), m);
  }

  lemma MulDiv(a: nat, b: nat)
    requires a > 0
    ensures (a * b) / a == b
  {
    var q: int := (a * b) / a;
    var r: int := (a * b) % a;
    assert a * q + r == a * b;
    assert a * (b - q) == r;
    if b - q >= 1 {
      assert false;
    } else if b - q <= -1 {
      assert false;
    }
  }

  /** Sum of Members(asg, c) over the clusters c < k. */
  function TotalMembers(asg: seq<nat>, k: nat): nat
  {
    if k == 0 then 0 else TotalMembers(asg, k - 1) + Members(asg, k - 1)
  }

  lemma {:induction false} TotalMembersLast(asg: seq<nat>, k: nat)
    requires asg != []
    ensures TotalMembers(asg, k) ==
      TotalMembers(asg[..|asg| - 1], k) + (if asg[|asg| - 1] < k then 1 else 0)
    decreases k
  {
    if k > 0 {
      TotalMembersLast(asg, k - 1);
    }
  }

  lemma {:induction false} TotalMembersNone(k: nat)
    ensures TotalMembers([], k) == 0
  {
    if k > 0 {
      TotalMembersNone(k - 1);
    }
  }

  /** When every assignment names one of the k clusters, the clusters'
      member counts add up to the number of points: each point is gathered
      into exactly one cluster. */
  lemma {:induction false} MembersPartition(asg: seq<nat>, k: nat)
    requires forall j :: 0 <= j < |asg| ==> asg[j] < k
    ensures TotalMembers(asg, k) == |asg|
    decreases |asg|
  {
    if asg == [] {
      TotalMembersNone(k);
    } else {
      var prefix := asg[..|asg| - 1];
      TotalMembersLast(asg, k);
      assert forall j :: 0 <= j < |prefix| ==> prefix[j] == asg[j];
      MembersPartition(prefix, k);
      assert asg[|asg| - 1] < k;
    }
  }

  // ---------------------------------------------------------------------
  // The per-cluster decision

  /** A cluster contributes its split exactly when Splits holds, and its
      own centroid otherwise. */
  lemma ContributionChoice(data: seq<seq<real>>, state: KMeansState, o: Oracles, i: nat, centroid: seq<real>)
    requires Shaped(data, state)
    ensures Contribution(data, state, o, i, centroid) ==
      if Splits(data, state, o, i) then Proposal(data, state, o, i).centroids else centroid
  {
  }

  /** A cluster of at most five points keeps its centroid and no split is
      tried for it. */
  lemma SmallClusterKept(data: seq<seq<real>>, state: KMeansState, o: Oracles, i: nat, centroid: seq<real>)
    requires Shaped(data, state)
    requires forall j :: 0 <= j < |data| ==> |data[j]| == Shape(data)
    requires Members(state.assignments, i) <= 5
    ensures !Splits(data, state, o, i)
    ensures Contribution(data, state, o, i, centroid) == centroid
  {
    ClusterSizeIsMembers(data, state, i);
  }

  /** Above five points the old centroid survives only on a strictly lower
      old BIC: equal scores, and a NaN on either side, choose the split. */
  lemma SplitOnTieOrNaN(data: seq<seq<real>>, state: KMeansState, o: Oracles, i: nat)
    requires Shaped(data, state)
    requires ClusterSize(data, state, i) > 5
    ensures var rows := Chunks(ClusterData(data, state, i), Shape(data));
      var oldBic := o.bic(rows, state);
      var newBic := o.bic(rows, Proposal(data, state, o, i));
      (oldBic == newBic || oldBic.NaN? || newBic.NaN?) ==> Splits(data, state, o, i)
  {
    var rows := Chunks(ClusterData(data, state, i), Shape(data));
    LtStrict(o.bic(rows, state), o.bic(rows, Proposal(data, state, o, i)), o.bic(rows, state));
  }

  // ---------------------------------------------------------------------
  // The whole round

  /** The split oracle keeps its contract: two centroids of `shape` numbers. */
  ghost predicate SplitGivesTwo(o: Oracles, shape: nat)
  {
    forall points: seq<real>, n: nat :: |o.split(points, n, shape).centroids| == 2 * shape
  }

  /** How many of the first m clusters split. */
  function SplitCount(data: seq<seq<real>>, state: KMeansState, o: Oracles, m: nat): nat
    requires Shaped(data, state)
  {
    if m == 0 then 0
    else SplitCount(data, state, o, m - 1) + (if Splits(data, state, o, m - 1) then 1 else 0)
  }

  lemma {:induction false} SplitCountZero(data: seq<seq<real>>, state: KMeansState, o: Oracles, m: nat)
    requires Shaped(data, state)
    ensures SplitCount(data, state, o, m) <= m
    ensures SplitCount(data, state, o, m) == 0 <==> forall i :: 0 <= i < m ==> !Splits(data, state, o, i)
    decreases m
  {
    if m > 0 {
      SplitCountZero(data, state, o, m - 1);
    }
  }

  /** A kept cluster adds its own row; a split one adds the split's two. */
  lemma ContributionLength(data: seq<seq<real>>, state: KMeansState, o: Oracles, i: nat, centroid: seq<real>)
    requires Shaped(data, state) && SplitGivesTwo(o, Shape(data)) && |centroid| == Shape(data)
    ensures |Contribution(data, state, o, i, centroid)| ==
      Shape(data) * (if Splits(data, state, o, i) then 2 else 1)
  {
    ContributionChoice(data, state, o, i, centroid);
  }

  /** Every cluster adds one row, and a second one if it splits. */
  lemma {:induction false} NextUpToLength(data: seq<seq<real>>, state: KMeansState, o: Oracles, m: nat)
    requires Shaped(data, state) && SplitGivesTwo(o, Shape(data))
    requires m <= |CentroidRows(data, state)|
    requires forall i :: 0 <= i < m ==> |CentroidRows(data, state)[i]| == Shape(data)
    ensures |NextUpTo(data, state, o, m)| == Shape(data) * (m + SplitCount(data, state, o, m))
    decreases m
  {
    if m > 0 {
      var shape := Shape(data);
      var prev := NextUpTo(data, state, o, m - 1);
      var c := Contribution(data, state, o, m - 1, CentroidRows(data, state)[m - 1]);
      var s' := SplitCount(data, state, o, m - 1);
      var d := if Splits(data, state, o, m - 1) then 2 else 1;
      NextUpToLength(data, state, o, m - 1);
      ContributionLength(data, state, o, m - 1, CentroidRows(data, state)[m - 1]);
      assert SplitCount(data, state, o, m) == s' + d - 1;
      assert |NextUpTo(data, state, o, m)| == |prev| + |c|;
      AddRows(shape, m - 1 + s', d, m + SplitCount(data, state, o, m), |prev|, |c|);
    }
  }

  /** x numbers in b rows and y in d rows make b + d rows. */
  lemma AddRows(shape: nat, b: nat, d: nat, t: nat, x: nat, y: nat)
    requires x == shape * b && y == shape * d && t == b + d
    ensures x + y == shape * t
  {
    Distribute(shape, b, d);
  }

  lemma Distribute(a: nat, b: nat, c: nat)
    ensures a * b + a * c == a * (b + c)
  {
  }

  /** With a centroid buffer of k whole rows and a split oracle that keeps
      its contract, the new buffer holds k plus the number of splits rows:
      a whole number of rows, between k and 2k. */
  lemma NextLength(data: seq<seq<real>>, state: KMeansState, o: Oracles, k: nat)
    requires Shaped(data, state) && SplitGivesTwo(o, Shape(data))
    requires |state.centroids| == Shape(data) * k
    ensures |NextSpec(data, state, o)| == Shape(data) * (k + SplitCount(data, state, o, k))
    ensures Shape(data) * k <= |NextSpec(data, state, o)| <= Shape(data) * (2 * k)
  {
    var shape := Shape(data);
    var rows := CentroidRows(data, state);
    ChunksExact(state.centroids, shape, k);
    assert |rows| == k;
    assert forall i :: 0 <= i < k ==> |rows[i]| == shape;
    NextUpToLength(data, state, o, k);
    SplitCountZero(data, state, o, k);
    var s := SplitCount(data, state, o, k);
    RowBounds(shape, k, s, |NextSpec(data, state, o)|);
  }

  /** shape·(k + s) numbers with s ≤ k lie between k and 2k rows. */
  lemma RowBounds(shape: nat, k: nat, s: nat, n: nat)
    requires n == shape * (k + s) && s <= k
    ensures shape * k <= n <= shape * (2 * k)
  {
    MulMonotone(shape, k, k + s);
    MulMonotone(shape, k + s, 2 * k);
  }

  lemma MulMonotone(a: nat, b: nat, c: nat)
    requires b <= c
    ensures a * b <= a * c
  {
  }

  lemma {:induction false} NextUpToUnsplit(data: seq<seq<real>>, state: KMeansState, o: Oracles, m: nat)
    requires Shaped(data, state) && m <= |CentroidRows(data, state)|
    requires forall i :: 0 <= i < m ==> !Splits(data, state, o, i)
    ensures NextUpTo(data, state, o, m) == Flatten(CentroidRows(data, state)[..m])
    decreases m
  {
    if m > 0 {
      var rows := CentroidRows(data, state);
      NextUpToUnsplit(data, state, o, m - 1);
      ContributionChoice(data, state, o, m - 1, rows[m - 1]);
      assert rows[..m] == rows[..m - 1] + [rows[m - 1]];
      FlattenAppend(rows[..m - 1], [rows[m - 1]]);
      assert Flatten([rows[m - 1]]) == rows[m - 1] + Flatten([rows[m - 1]][1..]);
    }
  }

  /** A round in which no cluster splits returns the centroid buffer
      unchanged, element for element. */
  lemma NoSplitIdentity(data: seq<seq<real>>, state: KMeansState, o: Oracles)
    requires Shaped(data, state)
    requires forall i :: 0 <= i < |CentroidRows(data, state)| ==> !Splits(data, state, o, i)
    ensures NextSpec(data, state, o) == state.centroids
  {
    var rows := CentroidRows(data, state);
    NextUpToUnsplit(data, state, o, |rows|);
    assert rows[..|rows|] == rows;
    FlattenChunks(state.centroids, Shape(data));
  }

  /** With whole rows and a split oracle that keeps its contract, the
      buffer keeps its length exactly when no cluster splits. */
  lemma SameLengthIffNoSplit(data: seq<seq<real>>, state: KMeansState, o: Oracles, k: nat)
    requires Shaped(data, state) && SplitGivesTwo(o, Shape(data))
    requires |state.centroids| == Shape(data) * k
    ensures |NextSpec(data, state, o)| == |state.centroids| <==>
      forall i :: 0 <= i < k ==> !Splits(data, state, o, i)
  {
    NextLength(data, state, o, k);
    SplitCountZero(data, state, o, k);
    var s := SplitCount(data, state, o, k);
    Distribute(Shape(data), k, s);
    if s > 0 {
      MulMonotone(Shape(data), 1, s);
    }
  }

  // ---------------------------------------------------------------------
  // The refinement loop

  /** The test that ends `final_centroids` early. AsWritten is the
      source's `next.len() / shape == last_state.centroids.len()`, which
      sets a row count against a flat length; Intended compares the two
      buffers' lengths. */
  datatype StopRule = AsWritten | Intended

  predicate Converged(rule: StopRule, next: seq<real>, current: seq<real>, shape: nat)
    requires shape > 0
  {
    match rule
    case AsWritten => |next| / shape == |current|
    case Intended => |next| == |current|
  }

  /** The refit oracle keeps the k-means contract of one assignment per
      point, so the refitted state can start the next round. */
  ghost predicate RefitKeepsPoints(o: Oracles)
  {
    forall buf: seq<real>, n: nat, shape: nat, k: nat :: |o.refit(buf, n, shape, k).assignments| <= n
  }

  /** The centroids `final_centroids` returns after at most `limit` rounds. */
  function Refine(data: seq<seq<real>>, state: KMeansState, o: Oracles, limit: nat, rule: StopRule): seq<real>
    requires Shaped(data, state) && RefitKeepsPoints(o)
    decreases limit
  {
    if limit == 0 then state.centroids
    else
      var next := NextSpec(data, state, o);
      if Converged(rule, next, state.centroids, Shape(data)) then next
      else Refine(data, o.refit(next, |data|, Shape(data), |next|), o, limit - 1, rule)
  }

  /** One round of `Refine`: the refitted state can start the next round. */
  lemma RefineStep(data: seq<seq<real>>, state: KMeansState, o: Oracles, limit: nat, rule: StopRule)
    requires Shaped(data, state) && RefitKeepsPoints(o) && limit > 0
    ensures var next := NextSpec(data, state, o);
      var refit := o.refit(next, |data|, Shape(data), |next|);
      Shaped(data, refit) &&
      Refine(data, state, o, limit, rule) ==
        if Converged(rule, next, state.centroids, Shape(data)) then next
        else Refine(data, refit, o, limit - 1, rule)
  {
  }

  /** `final_centroids`: rounds of `next_centroids` and refits, at most
      `limit` of them, returning early once the stop test holds. The
      source's test is `rule == AsWritten`. */
  method FinalCentroids(data: seq<seq<real>>, state: KMeansState, o: Oracles, limit: nat, rule: StopRule)
    returns (r: seq<real>, ghost rounds: nat)
    requires Shaped(data, state) && RefitKeepsPoints(o)
    ensures r == Refine(data, state, o, limit, rule)
    ensures rounds <= limit && (rounds == 0 <==> limit == 0)
  {
    var shape := |data[0]|;
    var lastState := state;
    rounds := 0;
    for round := 0 to limit
      invariant Shaped(data, lastState)
      invariant rounds == round
      invariant Refine(data, lastState, o, limit - round, rule) == Refine(data, state, o, limit, rule)
    {
      RefineStep(data, lastState, o, limit - round, rule);
      var next := NextCentroids(data, lastState, o);
      rounds := rounds + 1;
      if Converged(rule, next, lastState.centroids, shape) {
        return next, rounds;
      }
      lastState := o.refit(next, |data|, shape, |next|);
    }
    r := lastState.centroids;
  }

  /** With no rounds allowed the input centroids come back unchanged. */
  lemma RefineNoRounds(data: seq<seq<real>>, state: KMeansState, o: Oracles, rule: StopRule)
    requires Shaped(data, state) && RefitKeepsPoints(o)
    ensures Refine(data, state, o, 0, rule) == state.centroids
  {
  }

  /** The intended test stops exactly at a round where no cluster splits,
      and then hands back the current centroids: refinement is idempotent
      at convergence. */
  lemma IntendedStopsAtConvergence(data: seq<seq<real>>, state: KMeansState, o: Oracles, limit: nat, k: nat)
    requires Shaped(data, state) && RefitKeepsPoints(o) && SplitGivesTwo(o, Shape(data))
    requires |state.centroids| == Shape(data) * k
    ensures Converged(Intended, NextSpec(data, state, o), state.centroids, Shape(data)) <==>
      forall i :: 0 <= i < k ==> !Splits(data, state, o, i)
    ensures (forall i :: 0 <= i < k ==> !Splits(data, state, o, i)) ==>
      Refine(data, state, o, limit, Intended) == state.centroids
  {
    SameLengthIffNoSplit(data, state, o, k);
    ChunksExact(state.centroids, Shape(data), k);
    if forall i :: 0 <= i < k ==> !Splits(data, state, o, i) {
      NoSplitIdentity(data, state, o);
    }
  }

  /** For one-dimensional points the source's test is the intended one. */
  lemma {:induction false} AsWrittenRightForScalars(data: seq<seq<real>>, state: KMeansState, o: Oracles, limit: nat)
    requires Shaped(data, state) && RefitKeepsPoints(o) && Shape(data) == 1
    ensures Refine(data, state, o, limit, AsWritten) == Refine(data, state, o, limit, Intended)
    decreases limit
  {
    if limit > 0 {
      var next := NextSpec(data, state, o);
      assert Converged(AsWritten, next, state.centroids, 1) == Converged(Intended, next, state.centroids, 1);
      if !Converged(Intended, next, state.centroids, 1) {
        AsWrittenRightForScalars(data, o.refit(next, |data|, 1, |next|), o, limit - 1);
      }
    }
  }

  /** For two-dimensional points the source's test fires exactly when
      every cluster splits, the opposite of convergence. */
  lemma AsWrittenPairsStopOnAllSplit(data: seq<seq<real>>, state: KMeansState, o: Oracles, k: nat)
    requires Shaped(data, state) && SplitGivesTwo(o, Shape(data)) && Shape(data) == 2
    requires |state.centroids| == 2 * k
    ensures Converged(AsWritten, NextSpec(data, state, o), state.centroids, 2) <==>
      SplitCount(data, state, o, k) == k
  {
    NextLength(data, state, o, k);
  }

  /** A concrete run where the source's test misses convergence: one
      two-dimensional point, one cluster that is too small to split, so the
      round changes nothing, yet the loop goes on to a refit and returns
      the refit's centroids instead. */
  lemma AsWrittenMissesConvergence()
    ensures var data := [[0.0, 0.0]];
      var state := KMeansState([1.0, 1.0], [0], NaN);
      var o := Oracles((p, n, s) => KMeansState([], [], NaN), (b, n, s, k) => KMeansState([], [], NaN), (r, st) => NaN);
      Shaped(data, state) && RefitKeepsPoints(o) &&
      !Splits(data, state, o, 0) &&
      NextSpec(data, state, o) == state.centroids &&
      Refine(data, state, o, 1, Intended) == state.centroids &&
      Refine(data, state, o, 1, AsWritten) == []
  {
    var data := [[0.0, 0.0]];
    var state := KMeansState([1.0, 1.0], [0], NaN);
    var o := Oracles((p, n, s) => KMeansState([], [], NaN), (b, n, s, k) => KMeansState([], [], NaN), (r, st) => NaN);
    assert Gather(data, [0], 0) == [0.0, 0.0] by {
      assert [0][..0] == [];
    }
    assert Chunks(state.centroids, 2) == [[1.0, 1.0]];
    assert ClusterSize(data, state, 0) == 1;
    assert NextSpec(data, state, o) == [1.0, 1.0] by {
      assert NextUpTo(data, state, o, 1) == NextUpTo(data, state, o, 0) + [1.0, 1.0];
    }
  }
}
