/**
 * The order in which snapshots are processed: `sorted(time_dirs, key=float)`, that is,
 * by numeric time, ascending, and stable, so that names with equal times (such as `1` and
 * `1.0`) keep the order of the directory listing.
 */
module TimeOrder {
  import opened Runtime

  /** The sort key of a snapshot name; only names that parse are ever sorted. */
  function TimeOf(name: string, parseFloat: FloatParser): real {
    match parseFloat(name)
    case Some(t) => t
    case None => 0.0
  }

  /** Ascending by numeric time. */
  predicate SortedByTime(names: seq<string>, parseFloat: FloatParser) {
    forall i, j :: 0 <= i < j < |names| ==> TimeOf(names[i], parseFloat) <= TimeOf(names[j], parseFloat)
  }

  /** Places `x` into a sorted sequence, after every name whose time is not greater. */
  function InsertByTime(x: string, names: seq<string>, parseFloat: FloatParser): seq<string> {
    if names == [] then [x]
    else if TimeOf(x, parseFloat) < TimeOf(names[0], parseFloat) then [x] + names
    else [names[0]] + InsertByTime(x, names[1..], parseFloat)
  }

  /** `sorted(names, key=float)`: insertion from left to right, which keeps equal times in order. */
  function SortByTime(names: seq<string>, parseFloat: FloatParser): seq<string> {
    if names == [] then []
    else InsertByTime(names[|names| - 1], SortByTime(names[..|names| - 1], parseFloat), parseFloat)
  }

  /** Insertion adds exactly `x`. */
  lemma {:induction false} InsertByTimePermutes(x: string, names: seq<string>, parseFloat: FloatParser)
    ensures multiset(InsertByTime(x, names, parseFloat)) == multiset(names) + multiset{x}
    decreases |names|
  {
    if names != [] && TimeOf(x, parseFloat) >= TimeOf(names[0], parseFloat) {
      InsertByTimePermutes(x, names[1..], parseFloat);
      assert names == [names[0]] + names[1..];
    }
  }

  /** Insertion into a sorted sequence leaves it sorted. */
  lemma {:induction false} InsertByTimeSorted(x: string, names: seq<string>, parseFloat: FloatParser)
    requires SortedByTime(names, parseFloat)
    ensures SortedByTime(InsertByTime(x, names, parseFloat), parseFloat)
    decreases |names|
  {
    if names != [] && TimeOf(x, parseFloat) >= TimeOf(names[0], parseFloat) {
      var head := names[0];
      var tail := InsertByTime(x, names[1..], parseFloat);
      InsertByTimeSorted(x, names[1..], parseFloat);
      InsertByTimePermutes(x, names[1..], parseFloat);
      forall j | 0 <= j < |tail| ensures TimeOf(head, parseFloat) <= TimeOf(tail[j], parseFloat) {
        assert tail[j] in multiset(tail);
        if tail[j] != x {
          assert tail[j] in names[1..];
        }
      }
      var r := [head] + tail;
      forall i, j | 0 <= i < j < |r| ensures TimeOf(r[i], parseFloat) <= TimeOf(r[j], parseFloat) {
        if i > 0 {
          assert r[i] == tail[i - 1] && r[j] == tail[j - 1];
        } else {
          assert r[j] == tail[j - 1];
        }
      }
    }
  }

  /** The sort yields an ascending permutation of its input. */
  lemma {:induction false} SortByTimeSortsAndPermutes(names: seq<string>, parseFloat: FloatParser)
    ensures SortedByTime(SortByTime(names, parseFloat), parseFloat)
    ensures multiset(SortByTime(names, parseFloat)) == multiset(names)
    decreases |names|
  {
    if names != [] {
      var init := names[..|names| - 1];
      var last := names[|names| - 1];
      SortByTimeSortsAndPermutes(init, parseFloat);
      InsertByTimeSorted(last, SortByTime(init, parseFloat), parseFloat);
      InsertByTimePermutes(last, SortByTime(init, parseFloat), parseFloat);
      assert names == init + [last];
    }
  }

  /** The names whose time is `t`, in their order in `names`. */
  function AtTime(names: seq<string>, t: real, parseFloat: FloatParser): seq<string> {
    if names == [] then []
    else (if TimeOf(names[0], parseFloat) == t then [names[0]] else []) + AtTime(names[1..], t, parseFloat)
  }

  lemma {:induction false} AtTimeConcat(a: seq<string>, b: seq<string>, t: real, parseFloat: FloatParser)
    ensures AtTime(a + b, t, parseFloat) == AtTime(a, t, parseFloat) + AtTime(b, t, parseFloat)
    decreases |a|
  {
    if a == [] {
      assert a + b == b;
    } else {
      assert (a + b)[1..] == a[1..] + b;
      AtTimeConcat(a[1..], b, t, parseFloat);
    }
  }

  /** Inserting `x` adds it behind the names of a sorted sequence that share its time. */
  lemma {:induction false} InsertByTimeAtTime(x: string, names: seq<string>, t: real, parseFloat: FloatParser)
    requires SortedByTime(names, parseFloat)
    ensures AtTime(InsertByTime(x, names, parseFloat), t, parseFloat)
            == AtTime(names, t, parseFloat) + AtTime([x], t, parseFloat)
    decreases |names|
  {
    if names == [] {
    } else if TimeOf(x, parseFloat) < TimeOf(names[0], parseFloat) {
      AtTimeConcat([x], names, t, parseFloat);
      if TimeOf(x, parseFloat) == t {
        NoneAtEarlierTime(names, t, parseFloat);
      }
    } else {
      InsertByTimeAtTime(x, names[1..], t, parseFloat);
    }
  }

  /** A sorted sequence whose first time exceeds `t` holds no name at time `t`. */
  lemma {:induction false} NoneAtEarlierTime(names: seq<string>, t: real, parseFloat: FloatParser)
    requires SortedByTime(names, parseFloat)
    requires names != [] && t < TimeOf(names[0], parseFloat)
    ensures AtTime(names, t, parseFloat) == []
    decreases |names|
  {
    if |names| > 1 {
      NoneAtEarlierTime(names[1..], t, parseFloat);
    }
  }

  /**
   * The sort is stable: for every time `t`, the names with that time appear in the
   * sorted sequence in the same order as in the input.
   */
  lemma {:induction false} SortByTimeIsStable(names: seq<string>, t: real, parseFloat: FloatParser)
    ensures AtTime(SortByTime(names, parseFloat), t, parseFloat) == AtTime(names, t, parseFloat)
    decreases |names|
  {
    if names != [] {
      var init := names[..|names| - 1];
      var last := names[|names| - 1];
      SortByTimeIsStable(init, t, parseFloat);
      SortByTimeSortsAndPermutes(init, parseFloat);
      InsertByTimeAtTime(last, SortByTime(init, parseFloat), t, parseFloat);
      assert names == init + [last];
      AtTimeConcat(init, [last], t, parseFloat);
    }
  }
}
