/** The data behind the file-type pie chart (ts/src/fileTypeTime.ts): the file
    types with the most time, at most five, largest first. The array sort of
    the source is stable, so file types with equal time keep their order. */
module PieData {
  import opened Records

  /** One slice; the percentage of the source is not modelled. */
  datatype PieDataItem = PieDataItem(name: string, time: int)

  /** How many slices the chart shows. */
  const TopCount: nat := 5

  function ToItems(fileTypes: seq<FileType>): (r: seq<PieDataItem>)
    ensures |r| == |fileTypes|
    ensures forall i :: 0 <= i < |r| ==> r[i].name == fileTypes[i].name && r[i].time == fileTypes[i].totalTime
  {
    seq(|fileTypes|, i requires 0 <= i < |fileTypes| => PieDataItem(fileTypes[i].name, fileTypes[i].totalTime))
  }

  /** Largest time first. */
  ghost predicate SortedByTime(s: seq<PieDataItem>) {
    forall i, j :: 0 <= i < j < |s| ==> s[i].time >= s[j].time
  }

  /** The items of `s` whose time is `t`, in their order in `s`. */
  function WithTime(s: seq<PieDataItem>, t: int): seq<PieDataItem> {
    if s == [] then []
    else (if s[0].time == t then [s[0]] else []) + WithTime(s[1..], t)
  }

  /** Puts `x` in front of the first item whose time is not larger, so that
      `x` stays ahead of the items with its own time. */
  function Insert(x: PieDataItem, s: seq<PieDataItem>): (r: seq<PieDataItem>)
    ensures |r| == |s| + 1
  {
    if s == [] || s[0].time <= x.time then [x] + s
    else [s[0]] + Insert(x, s[1..])
  }

  /** Inserting adds `x` and loses nothing. */
  lemma {:induction false} InsertPermutes(x: PieDataItem, s: seq<PieDataItem>)
    ensures multiset(Insert(x, s)) == multiset(s) + multiset{x}
  {
    if s != [] && s[0].time > x.time {
      assert s == [s[0]] + s[1..];
      InsertPermutes(x, s[1..]);
    }
  }

  /** The stable sort by time, largest first. */
  function SortByTime(s: seq<PieDataItem>): (r: seq<PieDataItem>)
    ensures |r| == |s|
    ensures multiset(r) == multiset(s)
  {
    if s == [] then []
    else
      assert s == [s[0]] + s[1..];
      InsertPermutes(s[0], SortByTime(s[1..]));
      Insert(s[0], SortByTime(s[1..]))
  }

  /** `preparePieData`: the file types by time, largest first, cut to five. */
  function PreparePieData(data: TrackingData): (r: seq<PieDataItem>)
    reads data
    ensures |r| == if |data.fileTypes| < TopCount then |data.fileTypes| else TopCount
  {
    var sorted := SortByTime(ToItems(data.fileTypes));
    sorted[..if |sorted| < TopCount then |sorted| else TopCount]
  }

  lemma {:induction false} InsertSorted(x: PieDataItem, s: seq<PieDataItem>)
    requires SortedByTime(s)
    ensures SortedByTime(Insert(x, s))
  {
    if s != [] && s[0].time > x.time {
      var rest := Insert(x, s[1..]);
      InsertSorted(x, s[1..]);
      InsertPermutes(x, s[1..]);
      // Every item of `rest` is `x` or an item of s[1..], so none is larger than s[0].
      forall j | 0 <= j < |rest| ensures s[0].time >= rest[j].time {
        assert rest[j] in multiset(rest);
        if rest[j] != x {
          assert rest[j] in multiset(s[1..]);
          var k :| 0 <= k < |s[1..]| && s[1..][k] == rest[j];
          assert s[k + 1] == rest[j];
        }
      }
    }
  }

  lemma {:induction false} InsertWithTime(x: PieDataItem, s: seq<PieDataItem>, t: int)
    ensures WithTime(Insert(x, s), t) == if x.time == t then [x] + WithTime(s, t) else WithTime(s, t)
  {
    var r := Insert(x, s);
    if s == [] || s[0].time <= x.time {
      assert r[1..] == s;
    } else {
      InsertWithTime(x, s[1..], t);
      assert r[0] == s[0] && r[1..] == Insert(x, s[1..]);
      if x.time == t {
        assert s[0].time != t;
      }
    }
  }

  /** The sort puts the largest time first. */
  lemma {:induction false} SortByTimeSorted(s: seq<PieDataItem>)
    ensures SortedByTime(SortByTime(s))
  {
    if s != [] {
      SortByTimeSorted(s[1..]);
      InsertSorted(s[0], SortByTime(s[1..]));
    }
  }

  /** The sort is stable: the items of any one time keep their order. */
  lemma {:induction false} SortByTimeStable(s: seq<PieDataItem>, t: int)
    ensures WithTime(SortByTime(s), t) == WithTime(s, t)
  {
    if s != [] {
      SortByTimeStable(s[1..], t);
      InsertWithTime(s[0], SortByTime(s[1..]), t);
    }
  }

  /** The chart data: at most five slices, largest first, each one a file type
      with its time, and no file type left out has more time than one shown. */
  lemma PreparePieDataTopFive(data: TrackingData)
    ensures var r, items := PreparePieData(data), ToItems(data.fileTypes);
            && SortedByTime(r)
            && multiset(r) <= multiset(items)
            && forall x, y :: x in r && y in multiset(items) - multiset(r) ==> x.time >= y.time
  {
    var items := ToItems(data.fileTypes);
    var sorted := SortByTime(items);
    var n := if |sorted| < TopCount then |sorted| else TopCount;
    SortByTimeSorted(items);
    PrefixIsTop(sorted, n);
  }

  /** The first `n` items of a list sorted by time are a top-`n` selection. */
  lemma PrefixIsTop(sorted: seq<PieDataItem>, n: nat)
    requires SortedByTime(sorted) && n <= |sorted|
    ensures var r := sorted[..n];
            && SortedByTime(r)
            && multiset(r) <= multiset(sorted)
            && forall x, y :: x in r && y in multiset(sorted) - multiset(r) ==> x.time >= y.time
  {
    var r, rest := sorted[..n], sorted[n..];
    assert sorted == r + rest;
    assert multiset(sorted) == multiset(r) + multiset(rest);
    forall x, y | x in r && y in multiset(sorted) - multiset(r) ensures x.time >= y.time {
      assert y in multiset(rest);
      PrefixBeatsRest(sorted, n, x, y);
    }
  }

  lemma PrefixBeatsRest(sorted: seq<PieDataItem>, n: nat, x: PieDataItem, y: PieDataItem)
    requires SortedByTime(sorted) && n <= |sorted| && x in sorted[..n] && y in sorted[n..]
    ensures x.time >= y.time
  {
    var i :| 0 <= i < n && sorted[..n][i] == x;
    var j :| 0 <= j < |sorted| - n && sorted[n..][j] == y;
    assert sorted[i] == x && sorted[n + j] == y;
  }

  /** Slices of equal time appear in the order of their file types, and a
      file type of a shown time is only dropped after every earlier one of
      that time is shown. */
  lemma PreparePieDataStable(data: TrackingData, t: int)
    ensures var r, items := PreparePieData(data), ToItems(data.fileTypes);
            var shown, all := WithTime(r, t), WithTime(items, t);
            |shown| <= |all| && shown == all[..|shown|]
  {
    var items := ToItems(data.fileTypes);
    var sorted := SortByTime(items);
    var n := if |sorted| < TopCount then |sorted| else TopCount;
    SortByTimeStable(items, t);
    WithTimePrefix(sorted, n, t);
  }

  lemma {:induction false} WithTimeConcat(a: seq<PieDataItem>, b: seq<PieDataItem>, t: int)
    ensures WithTime(a + b, t) == WithTime(a, t) + WithTime(b, t)
  {
    if a != [] {
      assert (a + b)[1..] == a[1..] + b;
      WithTimeConcat(a[1..], b, t);
    } else {
      assert a + b == b;
    }
  }

  /** Filtering a prefix gives a prefix of the filtered whole. */
  lemma WithTimePrefix(s: seq<PieDataItem>, n: nat, t: int)
    requires n <= |s|
    ensures var p, all := WithTime(s[..n], t), WithTime(s, t);
            |p| <= |all| && p == all[..|p|]
  {
    assert s == s[..n] + s[n..];
    WithTimeConcat(s[..n], s[n..], t);
  }
}
