/** From detections to a grid: grouped into rows by the labels of a clustering, sorted, numbered and validated. */
module GridDetection {
  import opened Options
  import opened Sequences
  import opened OrderedMaps
  import opened Groups
  import opened StableSort
  import opened PlanogramModel

  datatype ClusterItem = ClusterItem(box: Box, sku: string, track: Option<int>)

  function CenterY(i: ClusterItem): real {
    (i.box.y1 + i.box.y2) / 2.0
  }

  function LeftEdge(i: ClusterItem): real {
    i.box.x1
  }

  function SumY(cluster: seq<ClusterItem>): real {
    if cluster == [] then 0.0 else SumY(cluster[..|cluster| - 1]) + CenterY(cluster[|cluster| - 1])
  }

  function MeanY(cluster: seq<ClusterItem>): real {
    if cluster == [] then 0.0 else SumY(cluster) / |cluster| as real
  }

  // ---------------------------------------------------------------------------
  // Grouping by label
  // ---------------------------------------------------------------------------

  /** The items with one label, in order. */
  function WithLabel(items: seq<ClusterItem>, labels: seq<int>, group: int): seq<ClusterItem>
    requires |labels| == |items|
  {
    if items == [] then []
    else
      var n := |items| - 1;
      WithLabel(items[..n], labels[..n], group) + (if labels[n] == group then [items[n]] else [])
  }

  /** The items that are not noise. */
  function NotNoise(items: seq<ClusterItem>, labels: seq<int>): seq<ClusterItem>
    requires |labels| == |items|
  {
    if items == [] then []
    else
      var n := |items| - 1;
      NotNoise(items[..n], labels[..n]) + (if labels[n] >= 0 then [items[n]] else [])
  }

  type Clusters = seq<Binding<int, seq<ClusterItem>>>

  function Grouped(items: seq<ClusterItem>, labels: seq<int>): Clusters
    requires |labels| == |items|
  {
    if items == [] then []
    else
      var n := |items| - 1;
      var m := Grouped(items[..n], labels[..n]);
      if labels[n] < 0 then m else Put(m, labels[n], items[n])
  }

  /** A cluster is exactly the items with its label; noise has none, and no cluster is empty. */
  lemma {:induction false} GroupedExactly(items: seq<ClusterItem>, labels: seq<int>, group: int)
    requires |labels| == |items|
    ensures var same := WithLabel(items, labels, group);
      Get(Grouped(items, labels), group) == if group >= 0 && same != [] then Some(same) else None
  {
    if items != [] {
      var n := |items| - 1;
      GroupedExactly(items[..n], labels[..n], group);
      var m := Grouped(items[..n], labels[..n]);
      if labels[n] >= 0 {
        PutGroups(m, labels[n], items[n], group);
      }
      assert WithLabel(items[..n], labels[..n], group) + [] == WithLabel(items[..n], labels[..n], group);
      hide Get, Put;
    }
  }

  /** Grouping keeps every item that is not noise exactly once. */
  lemma {:induction false} GroupedKeeps(items: seq<ClusterItem>, labels: seq<int>)
    requires |labels| == |items|
    ensures Unique(Grouped(items, labels))
    ensures multiset(Flat(Values(Grouped(items, labels)))) == multiset(NotNoise(items, labels))
  {
    if items != [] {
      var n := |items| - 1;
      GroupedKeeps(items[..n], labels[..n]);
      var m := Grouped(items[..n], labels[..n]);
      assert NotNoise(items[..n], labels[..n]) + [] == NotNoise(items[..n], labels[..n]);
      if labels[n] >= 0 {
        PutAdds(m, labels[n], items[n]);
        hide Get, Put, Unique, Values, Flat;
      }
    }
  }

  lemma {:induction false} ValuesNotEmpty(m: Clusters)
    requires Unique(m) && forall k: int | Get(m, k).Some? :: Get(m, k).value != []
    ensures forall i | 0 <= i < |Values(m)| :: Values(m)[i] != []
  {
    if m != [] {
      var front, last := m[..|m| - 1], m[|m| - 1];
      assert Get(m, last.key) == Some(last.value);
      forall k: int | Get(front, k).Some?
        ensures Get(front, k).value != []
      {
        assert Get(m, k) == Get(front, k);
      }
      ValuesNotEmpty(front);
    }
  }

  // ---------------------------------------------------------------------------
  // Rows and grid
  // ---------------------------------------------------------------------------

  function ToItem(i: ClusterItem, index: nat): Item {
    Item(index, Clamped(i.box), i.sku, i.track)
  }

  /** Sorted items with their positions as numbers. */
  function ToItems(sorted: seq<ClusterItem>): seq<Item> {
    if sorted == [] then [] else ToItems(sorted[..|sorted| - 1]) + [ToItem(sorted[|sorted| - 1], |sorted| - 1)]
  }

  lemma {:induction false} ToItemsAt(sorted: seq<ClusterItem>, i: nat)
    requires i < |sorted|
    ensures |ToItems(sorted)| == |sorted| && ToItems(sorted)[i] == ToItem(sorted[i], i)
  {
    ToItemsLength(sorted);
    if i < |sorted| - 1 {
      ToItemsAt(sorted[..|sorted| - 1], i);
    }
  }

  lemma {:induction false} ToItemsLength(sorted: seq<ClusterItem>)
    ensures |ToItems(sorted)| == |sorted|
  {
    if sorted != [] {
      ToItemsLength(sorted[..|sorted| - 1]);
    }
  }

  /** Clamping coordinates does not disturb the order, so sorted items become a row the validators accept. */
  lemma {:induction false} ToItemsOrdered(sorted: seq<ClusterItem>)
    requires Ordered(sorted, LeftEdge)
    ensures ItemsNumbered(ToItems(sorted)) && Ordered(ToItems(sorted), ItemX)
  {
    ToItemsLength(sorted);
    forall i | 0 <= i < |sorted|
      ensures ToItems(sorted)[i] == ToItem(sorted[i], i)
    {
      ToItemsAt(sorted, i);
    }
    hide ToItems;
  }

  function RowOf(cluster: seq<ClusterItem>, index: nat): Row {
    Row(index, MeanY(cluster), ToItems(SortedBy(cluster, LeftEdge)))
  }

  function RowsOf(clusters: seq<seq<ClusterItem>>): seq<Row> {
    if clusters == [] then [] else RowsOf(clusters[..|clusters| - 1]) + [RowOf(clusters[|clusters| - 1], |clusters| - 1)]
  }

  lemma {:induction false} RowsOfAt(clusters: seq<seq<ClusterItem>>, i: nat)
    requires i < |clusters|
    ensures |RowsOf(clusters)| == |clusters| && RowsOf(clusters)[i] == RowOf(clusters[i], i)
  {
    RowsOfLength(clusters);
    if i < |clusters| - 1 {
      RowsOfAt(clusters[..|clusters| - 1], i);
    }
  }

  lemma {:induction false} RowsOfLength(clusters: seq<seq<ClusterItem>>)
    ensures |RowsOf(clusters)| == |clusters|
  {
    if clusters != [] {
      RowsOfLength(clusters[..|clusters| - 1]);
    }
  }

  lemma {:induction false} RowOfIsValid(cluster: seq<ClusterItem>, index: nat)
    requires cluster != []
    ensures var r := RowOf(cluster, index);
      MakeRow(index, MeanY(cluster), r.items) == if MeanY(cluster) < 0.0 then None else Some(r)
    ensures MeanY(cluster) >= 0.0 ==> ValidRow(RowOf(cluster, index))
  {
    hide MeanY, SortedBy, Ordered, MakeRow, ItemsNumbered;
    SortedByIsSorted(cluster, LeftEdge);
    var sorted := SortedBy(cluster, LeftEdge);
    ToItemsOrdered(sorted);
    ToItemsLength(sorted);
    OrderedRowPasses(index, MeanY(cluster), ToItems(sorted));
  }

  /** The clusters in the order of their rows, top to bottom. */
  function RowClusters(items: seq<ClusterItem>, labels: seq<int>): seq<seq<ClusterItem>>
    requires |labels| == |items|
  {
    SortedBy(Values(Grouped(items, labels)), MeanY)
  }

  /** Detection fails on nothing, on noise alone, and on a row whose mean lies above the image. */
  function Detect(items: seq<ClusterItem>, labels: seq<int>): Option<Grid>
    requires |labels| == |items|
  {
    var clusters := RowClusters(items, labels);
    if clusters == [] || MeanY(clusters[0]) < 0.0 then None else Some(Grid(RowsOf(clusters)))
  }

  lemma {:induction false} RowClustersNotEmpty(items: seq<ClusterItem>, labels: seq<int>)
    requires |labels| == |items|
    ensures forall i | 0 <= i < |RowClusters(items, labels)| :: RowClusters(items, labels)[i] != []
    ensures Ordered(RowClusters(items, labels), MeanY)
  {
    var m := Grouped(items, labels);
    GroupedKeeps(items, labels);
    forall k: int | Get(m, k).Some?
      ensures Get(m, k).value != []
    {
      GroupedExactly(items, labels, k);
    }
    ValuesNotEmpty(m);
    hide Grouped, Values, SortedBy, Ordered, MeanY;
    SortedByIsSorted(Values(m), MeanY);
    forall i | 0 <= i < |RowClusters(items, labels)|
      ensures RowClusters(items, labels)[i] != []
    {
      SortedMember(Values(m), MeanY, RowClusters(items, labels)[i]);
    }
  }

  lemma {:induction false} MeansFollow(clusters: seq<seq<ClusterItem>>, i: nat)
    requires i < |clusters| && Ordered(clusters, MeanY)
    ensures MeanY(clusters[0]) <= MeanY(clusters[i])
  {
    hide MeanY;
    if i > 0 {
      MeansFollow(clusters, i - 1);
    }
  }

  /** A detected grid satisfies the validators, which therefore never refuse it. */
  lemma {:induction false} DetectedIsValid(items: seq<ClusterItem>, labels: seq<int>)
    requires |labels| == |items|
    ensures Detect(items, labels).Some? ==>
      ValidGrid(Detect(items, labels).value) && MakeGrid(Detect(items, labels).value.rows) == Detect(items, labels)
  {
    var clusters := RowClusters(items, labels);
    RowClustersNotEmpty(items, labels);
    if Detect(items, labels).Some? {
      hide RowClusters, MeanY, MakeGrid, ValidRow;
      RowsOfLength(clusters);
      forall i | 0 <= i < |clusters|
        ensures RowsOf(clusters)[i] == RowOf(clusters[i], i) && ValidRow(RowsOf(clusters)[i])
      {
        RowsOfAt(clusters, i);
        MeansFollow(clusters, i);
        RowOfIsValid(clusters[i], i);
      }
      hide RowsOf;
      OrderedGridPasses(RowsOf(clusters));
    }
  }

  // ---------------------------------------------------------------------------
  // Nothing lost
  // ---------------------------------------------------------------------------

  /** A detection as a grid keeps it. */
  function Clean(i: ClusterItem): ClusterItem {
    i.(box := Clamped(i.box))
  }

  function Content(i: Item): ClusterItem {
    ClusterItem(i.box, i.sku, i.track)
  }

  function Contents(rows: seq<Row>): seq<ClusterItem> {
    if rows == [] then [] else Contents(rows[..|rows| - 1]) + Map(rows[|rows| - 1].items, Content)
  }

  lemma {:induction false} ItemsContent(sorted: seq<ClusterItem>)
    ensures Map(ToItems(sorted), Content) == Map(sorted, Clean)
  {
    if sorted != [] {
      ItemsContent(sorted[..|sorted| - 1]);
      var t := ToItems(sorted);
      assert t[..|t| - 1] == ToItems(sorted[..|sorted| - 1]);
    }
  }

  lemma {:induction false} RowsContent(clusters: seq<seq<ClusterItem>>)
    ensures multiset(Contents(RowsOf(clusters))) == multiset(Map(Flat(clusters), Clean))
  {
    if clusters != [] {
      var front, last := clusters[..|clusters| - 1], clusters[|clusters| - 1];
      RowsContent(front);
      var rows := RowsOf(clusters);
      assert rows[..|rows| - 1] == RowsOf(front);
      var sorted := SortedBy(last, LeftEdge);
      ItemsContent(sorted);
      SortedByIsSorted(last, LeftEdge);
      MapRearranged(sorted, last, Clean);
      MapConcat(Flat(front), last, Clean);
      hide SortedBy, ToItems, Map;
    }
  }

  /** Every detection that is not noise is in the grid exactly once, and nothing else is. */
  lemma {:induction false} DetectedKeepsAll(items: seq<ClusterItem>, labels: seq<int>)
    requires |labels| == |items| && Detect(items, labels).Some?
    ensures multiset(Contents(Detect(items, labels).value.rows)) == multiset(Map(NotNoise(items, labels), Clean))
  {
    hide Grouped, Values, SortedBy, MeanY, Flat, Map, Contents, RowsOf, NotNoise;
    var clusters := RowClusters(items, labels);
    RowsContent(clusters);
    var values := Values(Grouped(items, labels));
    SortedByIsSorted(values, MeanY);
    FlatRearranged(clusters, values);
    GroupedKeeps(items, labels);
    MapRearranged(Flat(clusters), NotNoise(items, labels), Clean);
  }

  lemma {:induction false} NothingKept(items: seq<ClusterItem>, labels: seq<int>)
    requires |labels| == |items|
    ensures Grouped(items, labels) == [] <==> NotNoise(items, labels) == []
  {
    if items != [] {
      NothingKept(items[..|items| - 1], labels[..|items| - 1]);
    }
  }

  lemma {:induction false} SumNotNegative(cluster: seq<ClusterItem>)
    requires forall i | 0 <= i < |cluster| :: CenterY(cluster[i]) >= 0.0
    ensures SumY(cluster) >= 0.0
  {
    if cluster != [] {
      SumNotNegative(cluster[..|cluster| - 1]);
    }
  }

  lemma {:induction false} MeanNotNegative(cluster: seq<ClusterItem>)
    requires forall i | 0 <= i < |cluster| :: CenterY(cluster[i]) >= 0.0
    ensures MeanY(cluster) >= 0.0
  {
    SumNotNegative(cluster);
    hide SumY, CenterY;
    if cluster != [] {
      assert SumY(cluster) == MeanY(cluster) * |cluster| as real;
    }
  }

  lemma {:induction false} ClusterMeanNotNegative(items: seq<ClusterItem>, labels: seq<int>,
                                                  cluster: seq<ClusterItem>)
    requires |labels| == |items| && forall i | 0 <= i < |items| :: CenterY(items[i]) >= 0.0
    requires cluster in Values(Grouped(items, labels))
    ensures MeanY(cluster) >= 0.0
  {
    hide MeanY, CenterY, Get, Values, Grouped, WithLabel, Unique;
    GroupedKeeps(items, labels);
    ValueIsCluster(Grouped(items, labels), cluster);
    var k: int :| Get(Grouped(items, labels), k) == Some(cluster);
    GroupedExactly(items, labels, k);
    LabelledFrom(items, labels, k);
    MeanNotNegative(cluster);
  }

  lemma {:induction false} ValuesLength(m: Clusters)
    ensures |Values(m)| == |m|
  {
    if m != [] {
      ValuesLength(m[..|m| - 1]);
    }
  }

  /** With centres inside the image detection fails on noise alone. */
  lemma {:induction false} DetectsUnlessNoise(items: seq<ClusterItem>, labels: seq<int>)
    requires |labels| == |items| && forall i | 0 <= i < |items| :: CenterY(items[i]) >= 0.0
    ensures Detect(items, labels).None? <==> NotNoise(items, labels) == []
  {
    hide MeanY, CenterY, Values, Grouped, NotNoise, SortedBy, Ordered;
    var values, clusters := Values(Grouped(items, labels)), RowClusters(items, labels);
    NothingKept(items, labels);
    ValuesLength(Grouped(items, labels));
    SortedByIsSorted(values, MeanY);
    if clusters != [] {
      SortedMember(values, MeanY, clusters[0]);
      ClusterMeanNotNegative(items, labels, clusters[0]);
    }
  }

  lemma {:induction false} ValueIsCluster(m: Clusters, v: seq<ClusterItem>)
    requires v in Values(m) && Unique(m)
    ensures exists k: int :: Get(m, k) == Some(v)
  {
    var front, last := m[..|m| - 1], m[|m| - 1];
    if v == last.value {
      assert Get(m, last.key) == Some(v);
    } else {
      ValueIsCluster(front, v);
      var k: int :| Get(front, k) == Some(v);
      assert Get(m, k) == Some(v);
    }
  }

  lemma {:induction false} LabelledFrom(items: seq<ClusterItem>, labels: seq<int>, group: int)
    requires |labels| == |items|
    ensures forall i | 0 <= i < |WithLabel(items, labels, group)| :: WithLabel(items, labels, group)[i] in items
  {
    if items != [] {
      LabelledFrom(items[..|items| - 1], labels[..|items| - 1], group);
    }
  }

  function EdgeSum(cluster: seq<ClusterItem>): real {
    if cluster == [] then 0.0
    else EdgeSum(cluster[..|cluster| - 1]) + cluster[|cluster| - 1].box.y1 + cluster[|cluster| - 1].box.y2
  }

  lemma {:induction false} SumOfEdges(cluster: seq<ClusterItem>)
    ensures 2.0 * SumY(cluster) == EdgeSum(cluster)
  {
    if cluster != [] {
      SumOfEdges(cluster[..|cluster| - 1]);
    }
  }

  /** The height of a row is the mean of the upper and lower edges of all its boxes. */
  lemma {:induction false} MeanOfEdges(cluster: seq<ClusterItem>)
    requires cluster != []
    ensures MeanY(cluster) * |cluster| as real * 2.0 == EdgeSum(cluster)
  {
    SumOfEdges(cluster);
    assert MeanY(cluster) * |cluster| as real == SumY(cluster);
  }
}
