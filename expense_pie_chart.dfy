/** The expense pie chart (frontend/src/components/ExpensePieChart.tsx):
    the rows are grouped into one bucket per category, in the order the
    categories first occur, by a reduce that searches its accumulator and
    either adds to the bucket found or pushes a new one. */
module ExpensePieChart {
  import opened Common
  import SummaryCards

  datatype Bucket = Bucket(name: string, value: real)

  /** The distinct categories of the rows, in order of first occurrence. */
  function FirstSeen(ts: seq<Transaction>): (cs: seq<string>)
    ensures |cs| <= |ts|
    ensures cs == [] <==> ts == []
  {
    if ts == [] then []
    else
      var earlier := FirstSeen(ts[..|ts| - 1]);
      if ts[|ts| - 1].category in earlier then earlier else earlier + [ts[|ts| - 1].category]
  }

  /** The sum of the amounts of the rows whose category is `c`. */
  function CategoryTotal(ts: seq<Transaction>, c: string): real
  {
    if ts == [] then 0.0
    else CategoryTotal(ts[..|ts| - 1], c) + (if ts[|ts| - 1].category == c then ts[|ts| - 1].amount else 0.0)
  }

  /** One bucket per name in `cs`, holding that category's total. */
  function Buckets(cs: seq<string>, ts: seq<Transaction>): (bs: seq<Bucket>)
    ensures |bs| == |cs|
    ensures forall k :: 0 <= k < |cs| ==> bs[k] == Bucket(cs[k], CategoryTotal(ts, cs[k]))
  {
    if cs == [] then [] else Buckets(cs[..|cs| - 1], ts) + [Bucket(cs[|cs| - 1], CategoryTotal(ts, cs[|cs| - 1]))]
  }

  /** What the chart is meant to show: for each category, in order of first
      occurrence, the total of its rows. */
  function Grouping(ts: seq<Transaction>): seq<Bucket>
  {
    Buckets(FirstSeen(ts), ts)
  }

  /** The sum of the bucket values. */
  function SumValues(bs: seq<Bucket>): real
  {
    if bs == [] then 0.0 else SumValues(bs[..|bs| - 1]) + bs[|bs| - 1].value
  }

  predicate Distinct(cs: seq<string>) {
    forall j, k :: 0 <= j < k < |cs| ==> cs[j] != cs[k]
  }

  /** Some row has category `c`. */
  predicate Occurs(ts: seq<Transaction>, c: string) {
    exists m :: 0 <= m < |ts| && ts[m].category == c
  }

  /** No category gets two buckets. */
  lemma {:induction false} FirstSeenDistinct(ts: seq<Transaction>)
    ensures Distinct(FirstSeen(ts))
    decreases |ts|
  {
    if ts != [] {
      FirstSeenDistinct(ts[..|ts| - 1]);
    }
  }

  /** Every bucket name is the category of some row, and every row's
      category has a bucket. */
  lemma {:induction false} FirstSeenCovers(ts: seq<Transaction>, c: string)
    ensures c in FirstSeen(ts) <==> Occurs(ts, c)
    decreases |ts|
  {
    if ts != [] {
      var init := ts[..|ts| - 1];
      FirstSeenCovers(init, c);
      if Occurs(init, c) {
        var m :| 0 <= m < |init| && init[m].category == c;
        assert ts[m].category == c;
      }
      if Occurs(ts, c) && !Occurs(init, c) {
        var m :| 0 <= m < |ts| && ts[m].category == c;
      }
    }
  }

  /** A category's position is fixed once its bucket exists: the buckets
      of any prefix of the rows are a prefix of the buckets of all rows,
      which is what ordering by first occurrence means. */
  lemma {:induction false} FirstSeenPrefix(ts: seq<Transaction>, n: nat)
    requires n <= |ts|
    ensures FirstSeen(ts[..n]) <= FirstSeen(ts)
    decreases |ts|
  {
    if n < |ts| {
      assert ts[..n] == ts[..|ts| - 1][..n];
      FirstSeenPrefix(ts[..|ts| - 1], n);
    } else {
      assert ts[..n] == ts;
    }
  }

  /** A category with no rows totals zero. */
  lemma {:induction false} TotalOfAbsent(ts: seq<Transaction>, c: string)
    requires !Occurs(ts, c)
    ensures CategoryTotal(ts, c) == 0.0
    decreases |ts|
  {
    if ts != [] {
      var init := ts[..|ts| - 1];
      assert forall m :: 0 <= m < |init| ==> init[m] == ts[m];
      TotalOfAbsent(init, c);
    }
  }

  /** Adding one row to the end adds its amount to the bucket sum exactly
      when its category is one of the names. */
  lemma {:induction false} SumValuesStep(cs: seq<string>, ts: seq<Transaction>, t: Transaction)
    requires Distinct(cs)
    ensures SumValues(Buckets(cs, ts + [t])) ==
      SumValues(Buckets(cs, ts)) + (if t.category in cs then t.amount else 0.0)
    decreases |cs|
  {
    if cs != [] {
      var init := cs[..|cs| - 1];
      assert (ts + [t])[..|ts + [t]| - 1] == ts;
      SumValuesStep(init, ts, t);
      assert cs == init + [cs[|cs| - 1]];
      assert t.category in cs <==> t.category in init || t.category == cs[|cs| - 1];
      if t.category == cs[|cs| - 1] {
        assert t.category !in init;
      }
    }
  }

  /** The buckets together hold exactly the total of all rows: merging
      adds, it never overwrites or drops an amount. */
  lemma {:induction false} GroupingSum(ts: seq<Transaction>)
    ensures SumValues(Grouping(ts)) == SummaryCards.TotalExpenses(ts)
    decreases |ts|
  {
    if ts != [] {
      var init := ts[..|ts| - 1];
      var t := ts[|ts| - 1];
      assert ts == init + [t];
      GroupingSum(init);
      var cs := FirstSeen(init);
      FirstSeenDistinct(init);
      SumValuesStep(cs, init, t);
      if t.category !in cs {
        FirstSeenCovers(init, t.category);
        TotalOfAbsent(init, t.category);
        var bs := Buckets(cs + [t.category], ts);
        assert bs[..|bs| - 1] == Buckets(cs, ts);
      }
    }
  }

  /** The reduce step when the accumulator already has the row's category
      at index `j`: that bucket's value grows by the amount, nothing else
      changes. */
  lemma GroupingStepFound(ts: seq<Transaction>, i: nat, j: nat)
    requires i < |ts|
    requires j < |Grouping(ts[..i])| && Grouping(ts[..i])[j].name == ts[i].category
    ensures Grouping(ts[..i + 1]) ==
      Grouping(ts[..i])[j := Bucket(ts[i].category, Grouping(ts[..i])[j].value + ts[i].amount)]
  {
    var pre := ts[..i];
    assert ts[..i + 1][..i] == pre;
    var cs := FirstSeen(pre);
    assert FirstSeen(ts[..i + 1]) == cs;
    FirstSeenDistinct(pre);
  }

  /** The reduce step when the row's category is new: one bucket holding
      the row's amount is pushed. */
  lemma GroupingStepNew(ts: seq<Transaction>, i: nat)
    requires i < |ts|
    requires forall k :: 0 <= k < |Grouping(ts[..i])| ==> Grouping(ts[..i])[k].name != ts[i].category
    ensures Grouping(ts[..i + 1]) == Grouping(ts[..i]) + [Bucket(ts[i].category, ts[i].amount)]
  {
    var pre := ts[..i];
    assert ts[..i + 1][..i] == pre;
    var cs := FirstSeen(pre);
    assert ts[i].category !in cs by {
      assert forall k :: 0 <= k < |cs| ==> cs[k] == Grouping(pre)[k].name;
    }
    FirstSeenCovers(pre, ts[i].category);
    TotalOfAbsent(pre, ts[i].category);
    var post := ts[..i + 1];
    assert post[..|post| - 1] == pre && post[|post| - 1] == ts[i];
    assert FirstSeen(post) == cs + [ts[i].category];
    var g := Grouping(post);
    var h := Grouping(pre) + [Bucket(ts[i].category, ts[i].amount)];
    assert |g| == |h|;
    forall k | 0 <= k < |g| ensures g[k] == h[k] {
      if k < |cs| {
        assert CategoryTotal(post, cs[k]) == CategoryTotal(pre, cs[k]);
      }
    }
  }

  /** `acc.find((item) => item.name === curr.category)`: the first bucket
      with that name, if any. */
  method FindBucket(acc: seq<Bucket>, name: string) returns (found: Option<nat>)
    ensures found.Some? ==>
      (found.value < |acc| && acc[found.value].name == name
       && forall k :: 0 <= k < found.value ==> acc[k].name != name)
    ensures found.None? ==> forall k :: 0 <= k < |acc| ==> acc[k].name != name
  {
    var k := 0;
    while k < |acc|
      invariant k <= |acc|
      invariant forall m :: 0 <= m < k ==> acc[m].name != name
    {
      if acc[k].name == name {
        return Some(k);
      }
      k := k + 1;
    }
    return None;
  }

  /** The component's reduce, step by step: it computes the grouping. */
  method GroupByCategory(ts: seq<Transaction>) returns (data: seq<Bucket>)
    ensures data == Grouping(ts)
  {
    data := [];
    var i := 0;
    while i < |ts|
      invariant i <= |ts|
      invariant data == Grouping(ts[..i])
    {
      var existing := FindBucket(data, ts[i].category);
      if existing.Some? {
        var j := existing.value;
        GroupingStepFound(ts, i, j);
        data := data[j := Bucket(data[j].name, data[j].value + ts[i].amount)];
      } else {
        GroupingStepNew(ts, i);
        data := data + [Bucket(ts[i].category, ts[i].amount)];
      }
      i := i + 1;
    }
    assert ts[..i] == ts;
  }

  const Colors: seq<string> := ["#0088FE", "#00C49F", "#FFBB28", "#FF8042", "#8884d8", "#82ca9d"]

  /** `COLORS[index % COLORS.length]`: always a valid index. */
  function ColorIndex(index: nat): (c: nat)
    ensures c < |Colors|
    ensures index < |Colors| ==> c == index
  {
    index % |Colors|
  }

  /** Any six consecutive slices have six different colours. */
  lemma NeighbouringSlicesDiffer(i: nat, j: nat)
    requires i < j < i + |Colors|
    ensures Colors[ColorIndex(i)] != Colors[ColorIndex(j)]
  {
    assert ColorIndex(i) != ColorIndex(j);
    assert Colors[0][1..3] == "00" && Colors[1][1..3] == "00";
    assert Colors[0][3] != Colors[1][3];
    assert Colors[2][3] != Colors[3][3];
    assert Colors[4][3] != Colors[5][3];
    assert forall a :: 0 <= a < 6 ==> Colors[a][1] == (if a < 2 then '0' else if a < 4 then 'F' else '8');
  }

  /** What the component renders: the "No data" panel, or one slice per
      bucket coloured by its position. */
  datatype Chart = NoData | Pie(slices: seq<(Bucket, string)>)

  function Render(data: seq<Bucket>): (chart: Chart)
    ensures chart.NoData? <==> data == []
    ensures chart.Pie? ==>
      (|chart.slices| == |data|
       && forall k :: 0 <= k < |data| ==> chart.slices[k] == (data[k], Colors[ColorIndex(k)]))
  {
    if |data| == 0 then NoData
    else Pie(seq(|data|, k requires 0 <= k < |data| => (data[k], Colors[ColorIndex(k)])))
  }

  /** The "No data" panel appears exactly when there are no rows. */
  lemma NoDataIffNoRows(ts: seq<Transaction>)
    ensures Render(Grouping(ts)).NoData? <==> ts == []
  {
  }
}
