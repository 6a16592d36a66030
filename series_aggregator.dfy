/**
 * The time-series aggregation (`analyze_series`): keep the listed directories whose names
 * are positive times, visit them in ascending time, read the `T`, `rho` and `p` fields of
 * each, drop a snapshot when any of the three reads yields nothing, and otherwise append
 * one row of statistics to six parallel lists.
 *
 * The directory listing is a sequence of entries, the files below the case directory are a
 * function from (snapshot name, field name) to the file's lines, and `np.mean` is a
 * parameter. `np.max` and `np.min` are exact on the values they are given, so they are
 * modelled as the greatest and least element.
 */
module SeriesAggregator {
  import opened Runtime
  import opened FieldReader
  import opened TimeOrder

  /** One name from `os.listdir(case_dir)`, and whether `os.path.isdir` holds for it. */
  datatype Entry = Entry(name: string, isDir: bool)

  /** The lines of `<case_dir>/<snapshot>/<field>`, or `None` when that file does not exist. */
  type FileSystem = (string, string) -> Option<seq<string>>

  /** `np.mean`, whose floating-point summation is not modelled. */
  type Mean = seq<real> -> real

  /** The six lists `analyze_series` returns, in its order. */
  datatype Series = Series(times: seq<real>, tMax: seq<real>, rhoMin: seq<real>,
                           rhoMax: seq<real>, pMax: seq<real>, pAvg: seq<real>)
  {
    /** All six lists have one entry per kept snapshot. */
    predicate Aligned() {
      |tMax| == |times| && |rhoMin| == |times| && |rhoMax| == |times|
      && |pMax| == |times| && |pAvg| == |times|
    }
  }

  /** What one snapshot contributes: an exception, nothing, or one row of statistics. */
  datatype Snapshot =
    | Failed(fault: Fault)
    | Skipped
    | Row(time: real, tMax: real, rhoMin: real, rhoMax: real, pMax: real, pAvg: real)

  /** `np.max` of a non-empty field. */
  function Max(values: seq<real>): (m: real)
    requires values != []
    ensures m in values && forall v :: v in values ==> v <= m
  {
    if |values| == 1 then values[0]
    else
      var rest := Max(values[1..]);
      assert values == [values[0]] + values[1..];
      if values[0] >= rest then values[0] else rest
  }

  /** `np.min` of a non-empty field. */
  function Min(values: seq<real>): (m: real)
    requires values != []
    ensures m in values && forall v :: v in values ==> m <= v
  {
    if |values| == 1 then values[0]
    else
      var rest := Min(values[1..]);
      assert values == [values[0]] + values[1..];
      if values[0] <= rest then values[0] else rest
  }

  /** A name that `float()` accepts with a value above zero. */
  predicate PositiveTime(name: string, parseFloat: FloatParser) {
    match parseFloat(name)
    case Some(t) => t > 0.0
    case None => false
  }

  /** A listed entry that the first loop keeps. */
  predicate IsTimeDir(e: Entry, parseFloat: FloatParser) {
    e.isDir && PositiveTime(e.name, parseFloat)
  }

  /** `name` is listed as a directory. */
  predicate ListedDir(entries: seq<Entry>, name: string) {
    exists k :: 0 <= k < |entries| && entries[k] == Entry(name, true)
  }

  /** The first loop: the directory names that are positive times, in listing order. */
  function TimeDirs(entries: seq<Entry>, parseFloat: FloatParser): (r: seq<string>)
    ensures forall n :: n in r ==> ListedDir(entries, n) && PositiveTime(n, parseFloat)
    ensures forall k :: 0 <= k < |entries| && IsTimeDir(entries[k], parseFloat) ==> entries[k].name in r
  {
    if entries == [] then []
    else
      var init := entries[..|entries| - 1];
      var last := entries[|entries| - 1];
      var prev := TimeDirs(init, parseFloat);
      assert forall k :: 0 <= k < |init| ==> init[k] == entries[k];
      assert forall n :: ListedDir(init, n) ==> ListedDir(entries, n);
      if IsTimeDir(last, parseFloat) then prev + [last.name] else prev
  }

  /** A field read that returned a non-empty array. */
  predicate Usable(read: Outcome<Option<seq<real>>>) {
    read.Ok? && read.value.Some? && read.value.value != []
  }

  /**
   * The exception a snapshot ends the run with: that of the first of the three reads to
   * raise, or numpy's zero-size error when all three returned arrays.
   */
  function FirstFault(tRead: Outcome<Option<seq<real>>>, rhoRead: Outcome<Option<seq<real>>>,
                      pRead: Outcome<Option<seq<real>>>): Fault
  {
    if tRead.Raised? then tRead.error
    else if rhoRead.Raised? then rhoRead.error
    else if pRead.Raised? then pRead.error
    else ZeroSizeReduction
  }

  /**
   * What one snapshot yields from its three field reads. It yields a row exactly when all
   * three reads return non-empty arrays, and is skipped exactly when no read raised and one
   * of them returned nothing; otherwise the first exception, in the order `T`, `rho`, `p`,
   * ends the run.
   */
  function Summarise(dir: string, tRead: Outcome<Option<seq<real>>>, rhoRead: Outcome<Option<seq<real>>>,
                     pRead: Outcome<Option<seq<real>>>, parseFloat: FloatParser, mean: Mean): (s: Snapshot)
    ensures s.Row? <==> Usable(tRead) && Usable(rhoRead) && Usable(pRead)
    ensures s.Skipped? <==>
              && !tRead.Raised? && !rhoRead.Raised? && !pRead.Raised?
              && (tRead.value.None? || rhoRead.value.None? || pRead.value.None?)
    ensures s.Failed? ==> s.fault == FirstFault(tRead, rhoRead, pRead)
    ensures s.Row? ==>
              && s.time == TimeOf(dir, parseFloat)
              && s.tMax in tRead.value.value && (forall v :: v in tRead.value.value ==> v <= s.tMax)
              && s.rhoMin in rhoRead.value.value && s.rhoMax in rhoRead.value.value
              && (forall v :: v in rhoRead.value.value ==> s.rhoMin <= v <= s.rhoMax)
              && s.pMax in pRead.value.value && (forall v :: v in pRead.value.value ==> v <= s.pMax)
              && s.pAvg == mean(pRead.value.value)
  {
    if tRead.Raised? then Failed(tRead.error)
    else if rhoRead.Raised? then Failed(rhoRead.error)
    else if pRead.Raised? then Failed(pRead.error)
    else if tRead.value.None? || rhoRead.value.None? || pRead.value.None? then Skipped
    else
      var t := tRead.value.value;
      var rho := rhoRead.value.value;
      var p := pRead.value.value;
      if t == [] || rho == [] || p == [] then Failed(ZeroSizeReduction)
      else Row(TimeOf(dir, parseFloat), Max(t), Min(rho), Max(rho), Max(p), mean(p))
  }

  /** One pass of the second loop: read `T`, `rho` and `p` of the snapshot, then summarise them. */
  function Step(dir: string, files: FileSystem, parseInt: IntParser, parseFloat: FloatParser,
                mean: Mean): Snapshot
  {
    Summarise(dir, ReadField(files(dir, "T"), parseInt, parseFloat),
              ReadField(files(dir, "rho"), parseInt, parseFloat),
              ReadField(files(dir, "p"), parseInt, parseFloat), parseFloat, mean)
  }

  /** What visiting a snapshot directory yields. */
  type Visit = string -> Snapshot

  /** `Step` with the case directory's files and the parse functions fixed. */
  function Visitor(files: FileSystem, parseInt: IntParser, parseFloat: FloatParser, mean: Mean): Visit {
    dir => Step(dir, files, parseInt, parseFloat, mean)
  }

  /** The second loop over `dirs`: rows appended in order, the first exception ending the run. */
  function Collect(dirs: seq<string>, visit: Visit): Outcome<Series> {
    if dirs == [] then Ok(Series([], [], [], [], [], []))
    else
      match Collect(dirs[..|dirs| - 1], visit)
      case Raised(e) => Raised(e)
      case Ok(s) =>
        match visit(dirs[|dirs| - 1])
        case Failed(e) => Raised(e)
        case Skipped => Ok(s)
        case Row(t, a, b, c, d, e) =>
          Ok(Series(s.times + [t], s.tMax + [a], s.rhoMin + [b], s.rhoMax + [c], s.pMax + [d], s.pAvg + [e]))
  }

  /** The snapshots of `dirs` that yield a row, in order. */
  function Completed(dirs: seq<string>, visit: Visit): (r: seq<string>)
    ensures forall d :: d in r ==> d in dirs && visit(d).Row?
    ensures forall j :: 0 <= j < |dirs| && visit(dirs[j]).Row? ==> dirs[j] in r
  {
    if dirs == [] then []
    else
      var init := dirs[..|dirs| - 1];
      var last := dirs[|dirs| - 1];
      var prev := Completed(init, visit);
      assert forall j :: 0 <= j < |init| ==> init[j] == dirs[j];
      if visit(last).Row? then prev + [last] else prev
  }

  /**
   * The first loop is an order-preserving filter: the names kept from two runs of the
   * listing are those of each run, in listing order.
   */
  lemma {:induction false} TimeDirsConcat(a: seq<Entry>, b: seq<Entry>, parseFloat: FloatParser)
    ensures TimeDirs(a + b, parseFloat) == TimeDirs(a, parseFloat) + TimeDirs(b, parseFloat)
    decreases |b|
  {
    if b == [] {
      assert a + b == a;
    } else {
      var init := b[..|b| - 1];
      TimeDirsConcat(a, init, parseFloat);
      assert (a + b)[..|a + b| - 1] == a + init;
      assert (a + b)[|a + b| - 1] == b[|b| - 1];
    }
  }

  /** Keeping the snapshots that yield a row is an order-preserving filter. */
  lemma {:induction false} CompletedConcat(a: seq<string>, b: seq<string>, visit: Visit)
    ensures Completed(a + b, visit) == Completed(a, visit) + Completed(b, visit)
    decreases |b|
  {
    if b == [] {
      assert a + b == a;
    } else {
      var init := b[..|b| - 1];
      CompletedConcat(a, init, visit);
      assert (a + b)[..|a + b| - 1] == a + init;
      assert (a + b)[|a + b| - 1] == b[|b| - 1];
    }
  }

  /** A run that raises ends with the exception of the first snapshot that fails. */
  lemma {:induction false} CollectFirstFault(dirs: seq<string>, visit: Visit)
    requires Collect(dirs, visit).Raised?
    ensures exists j :: 0 <= j < |dirs| && visit(dirs[j]).Failed?
                        && Collect(dirs, visit).error == visit(dirs[j]).fault
                        && forall i :: 0 <= i < j ==> !visit(dirs[i]).Failed?
    decreases |dirs|
  {
    var init := dirs[..|dirs| - 1];
    assert forall i :: 0 <= i < |init| ==> init[i] == dirs[i];
    if Collect(init, visit).Raised? {
      CollectFirstFault(init, visit);
    } else {
      CollectRaisesIff(init, visit);
      var j := |dirs| - 1;
      assert visit(dirs[j]).Failed? && Collect(dirs, visit).error == visit(dirs[j]).fault;
    }
  }

  /** `analyze_series(case_dir)`. */
  function Analyze(entries: seq<Entry>, files: FileSystem, parseInt: IntParser, parseFloat: FloatParser,
                   mean: Mean): Outcome<Series>
  {
    Collect(SortByTime(TimeDirs(entries, parseFloat), parseFloat), Visitor(files, parseInt, parseFloat, mean))
  }

  /** Once the run has raised, later snapshots change nothing. */
  lemma {:induction false} RaisedIsFinal(dirs: seq<string>, k: nat, visit: Visit)
    requires k <= |dirs|
    requires Collect(dirs[..k], visit).Raised?
    ensures Collect(dirs, visit) == Collect(dirs[..k], visit)
    decreases |dirs| - k
  {
    if k < |dirs| {
      var init := dirs[..|dirs| - 1];
      assert init[..k] == dirs[..k];
      RaisedIsFinal(init, k, visit);
    } else {
      assert dirs[..k] == dirs;
    }
  }

  /**
   * The six lists are aligned: they have one entry per snapshot that yields a row, and
   * entry `i` of every list is the statistic of the `i`-th such snapshot.
   */
  lemma {:induction false} CollectAligned(dirs: seq<string>, visit: Visit)
    requires Collect(dirs, visit).Ok?
    ensures var s := Collect(dirs, visit).value;
            var done := Completed(dirs, visit);
            && s.Aligned() && |s.times| == |done|
            && forall i :: 0 <= i < |done| ==>
                 visit(done[i]) == Row(s.times[i], s.tMax[i], s.rhoMin[i], s.rhoMax[i], s.pMax[i], s.pAvg[i])
    decreases |dirs|
  {
    if dirs != [] {
      CollectAligned(dirs[..|dirs| - 1], visit);
    }
  }

  /** The run raises exactly when some snapshot it visits raises. */
  lemma {:induction false} CollectRaisesIff(dirs: seq<string>, visit: Visit)
    ensures Collect(dirs, visit).Raised? <==> exists j :: 0 <= j < |dirs| && visit(dirs[j]).Failed?
    decreases |dirs|
  {
    if dirs != [] {
      var init := dirs[..|dirs| - 1];
      CollectRaisesIff(init, visit);
      assert forall j :: 0 <= j < |init| ==> init[j] == dirs[j];
    }
  }

  /** Dropping the snapshots without a row keeps ascending time order. */
  lemma {:induction false} CompletedSorted(dirs: seq<string>, visit: Visit, parseFloat: FloatParser)
    requires SortedByTime(dirs, parseFloat)
    ensures SortedByTime(Completed(dirs, visit), parseFloat)
    decreases |dirs|
  {
    if dirs != [] {
      var init := dirs[..|dirs| - 1];
      var last := dirs[|dirs| - 1];
      CompletedSorted(init, visit, parseFloat);
      var prev := Completed(init, visit);
      forall i | 0 <= i < |prev| ensures TimeOf(prev[i], parseFloat) <= TimeOf(last, parseFloat) {
        assert prev[i] in init;
      }
    }
  }

  /** Every time in the result is positive, and the times never decrease. */
  lemma TimesAscendPositive(entries: seq<Entry>, files: FileSystem, parseInt: IntParser,
                            parseFloat: FloatParser, mean: Mean)
    requires Analyze(entries, files, parseInt, parseFloat, mean).Ok?
    ensures var times := Analyze(entries, files, parseInt, parseFloat, mean).value.times;
            && (forall i :: 0 <= i < |times| ==> times[i] > 0.0)
            && (forall i, j :: 0 <= i < j < |times| ==> times[i] <= times[j])
  {
    var kept := TimeDirs(entries, parseFloat);
    var order := SortByTime(kept, parseFloat);
    var visit := Visitor(files, parseInt, parseFloat, mean);
    SortByTimeSortsAndPermutes(kept, parseFloat);
    CompletedSorted(order, visit, parseFloat);
    CollectAligned(order, visit);
    var done := Completed(order, visit);
    var times := Collect(order, visit).value.times;
    forall i | 0 <= i < |done| ensures times[i] == TimeOf(done[i], parseFloat) > 0.0 {
      assert done[i] in order;
      assert done[i] in multiset(order);
      assert done[i] in kept;
    }
  }

  /** The first loop of `analyze_series`: keep the directories whose names are positive times. */
  method ListTimeDirs(entries: seq<Entry>, parseFloat: FloatParser) returns (timeDirs: seq<string>)
    ensures timeDirs == TimeDirs(entries, parseFloat)
  {
    timeDirs := [];
    for k := 0 to |entries|
      invariant timeDirs == TimeDirs(entries[..k], parseFloat)
    {
      assert entries[..k + 1][..k] == entries[..k];
      var entry := entries[k];
      if entry.isDir {
        var t := parseFloat(entry.name);
        if t.Some? && t.value > 0.0 {
          timeDirs := timeDirs + [entry.name];
        }
      }
    }
    assert entries[..|entries|] == entries;
  }

  /** The body of the second loop: read `T`, `rho` and `p` of one snapshot and summarise them. */
  method VisitSnapshot(dir: string, files: FileSystem, parseInt: IntParser, parseFloat: FloatParser,
                       mean: Mean) returns (snapshot: Snapshot)
    ensures snapshot == Step(dir, files, parseInt, parseFloat, mean)
  {
    var tField := ReadScalarField(files(dir, "T"), parseInt, parseFloat);
    if tField.Raised? {
      return Failed(tField.error);
    }
    var rhoField := ReadScalarField(files(dir, "rho"), parseInt, parseFloat);
    if rhoField.Raised? {
      return Failed(rhoField.error);
    }
    var pField := ReadScalarField(files(dir, "p"), parseInt, parseFloat);
    if pField.Raised? {
      return Failed(pField.error);
    }
    if tField.value.None? || rhoField.value.None? || pField.value.None? {
      return Skipped;
    }
    var t, rho, p := tField.value.value, rhoField.value.value, pField.value.value;
    if t == [] || rho == [] || p == [] {
      return Failed(ZeroSizeReduction);
    }
    return Row(TimeOf(dir, parseFloat), Max(t), Min(rho), Max(rho), Max(p), mean(p));
  }

  /** `analyze_series`: list the snapshots, sort them by time, and visit them in that order. */
  method AnalyzeSeries(entries: seq<Entry>, files: FileSystem, parseInt: IntParser, parseFloat: FloatParser,
                       mean: Mean) returns (r: Outcome<Series>)
    ensures r == Analyze(entries, files, parseInt, parseFloat, mean)
  {
    var timeDirs := ListTimeDirs(entries, parseFloat);
    var order := SortByTime(timeDirs, parseFloat);
    ghost var visit := Visitor(files, parseInt, parseFloat, mean);
    var times, tMax, rhoMin, rhoMax, pMax, pAvg := [], [], [], [], [], [];
    for k := 0 to |order|
      invariant Collect(order[..k], visit) == Ok(Series(times, tMax, rhoMin, rhoMax, pMax, pAvg))
    {
      assert order[..k + 1][..k] == order[..k];
      var snapshot := VisitSnapshot(order[k], files, parseInt, parseFloat, mean);
      match snapshot
      case Failed(e) =>
        RaisedIsFinal(order, k + 1, visit);
        return Raised(e);
      case Skipped =>
      case Row(time, a, b, c, d, e) =>
        times, tMax, rhoMin, rhoMax, pMax, pAvg :=
          times + [time], tMax + [a], rhoMin + [b], rhoMax + [c], pMax + [d], pAvg + [e];
    }
    assert order[..|order|] == order;
    return Ok(Series(times, tMax, rhoMin, rhoMax, pMax, pAvg));
  }
}
