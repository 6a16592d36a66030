/**
 * The reader for one scalar field file (`read_scalar_field`): a header line naming a
 * non-uniform scalar list, the declared element count on the next line, an opening line
 * that is skipped unread, one number per line, and a line holding `)` that ends the block.
 *
 * The file is its list of lines (as `readlines` returns them), or `None` when it does not
 * exist. Python's `int()` and `float()` are not modelled: they are the partial functions
 * `parseInt` and `parseFloat`, passed in.
 */
module FieldReader {
  import opened Runtime
  import opened Lines

  /** The header found by the scan: the declared count and the index of the first data line. */
  datatype Header = Header(count: int, start: nat)

  /** A line that announces the field's values. */
  predicate IsHeader(line: string) {
    Contains(line, "nonuniform") && Contains(line, "List<scalar>")
  }

  /**
   * The header scan moves past line `j`: it is no header, or it is a header whose
   * next line exists and is not an integer.
   */
  predicate Passed(lines: seq<string>, j: nat, parseInt: IntParser)
    requires j < |lines|
  {
    !IsHeader(lines[j]) || (j + 1 < |lines| && parseInt(StripSpace(lines[j + 1])).None?)
  }

  /** Line `i` is a header and the next line holds its count. */
  predicate CountedHeaderAt(lines: seq<string>, i: nat, parseInt: IntParser) {
    i + 1 < |lines| && IsHeader(lines[i]) && parseInt(StripSpace(lines[i + 1])).Some?
  }

  /** Line `i` is where the scan settles on its header: every earlier line is passed. */
  predicate FirstHeaderAt(lines: seq<string>, i: nat, parseInt: IntParser) {
    CountedHeaderAt(lines, i, parseInt) && forall j :: 0 <= j < i ==> Passed(lines, j, parseInt)
  }

  /** The last line is a header and the scan reaches it: reading its count line raises `IndexError`. */
  predicate HeaderOnLastLine(lines: seq<string>, parseInt: IntParser) {
    |lines| > 0 && IsHeader(lines[|lines| - 1])
    && forall j :: 0 <= j < |lines| - 1 ==> Passed(lines, j, parseInt)
  }

  /** The first line at or after `from` that stops the header scan, or `|lines|` if none does. */
  function FirstStop(lines: seq<string>, parseInt: IntParser, from: nat): (r: nat)
    requires from <= |lines|
    ensures from <= r <= |lines|
    ensures forall j :: from <= j < r ==> Passed(lines, j, parseInt)
    ensures r < |lines| ==> !Passed(lines, r, parseInt)
    decreases |lines| - from
  {
    if from == |lines| || !Passed(lines, from, parseInt) then from
    else FirstStop(lines, parseInt, from + 1)
  }

  /** What the header scan yields when it stops at line `j`. */
  function HeaderAt(lines: seq<string>, parseInt: IntParser, j: nat): Outcome<Option<Header>>
    requires j <= |lines|
  {
    if j == |lines| then Ok(None)
    else if j + 1 == |lines| then Raised(IndexOutOfRange)
    else match parseInt(StripSpace(lines[j + 1]))
      case Some(n) => Ok(Some(Header(n, j + 3)))
      case None => Ok(None)  // not reached: a line that stops the scan has a count
  }

  /** The first loop of `read_scalar_field`: find the header, its count and where the data starts. */
  function ScanHeader(lines: seq<string>, parseInt: IntParser): (r: Outcome<Option<Header>>)
    ensures r.Raised? <==> HeaderOnLastLine(lines, parseInt)
    ensures r.Raised? ==> r.error == IndexOutOfRange
    ensures r == Ok(None) <==> forall j :: 0 <= j < |lines| ==> Passed(lines, j, parseInt)
    ensures r.Ok? && r.value.Some? ==>
              r.value.value.start >= 3 && FirstHeaderAt(lines, r.value.value.start - 3, parseInt)
              && parseInt(StripSpace(lines[r.value.value.start - 2])) == Some(r.value.value.count)
  {
    var stop := FirstStop(lines, parseInt, 0);
    assert HeaderOnLastLine(lines, parseInt) ==> stop == |lines| - 1 by {
      if HeaderOnLastLine(lines, parseInt) {
        assert !Passed(lines, |lines| - 1, parseInt);
        assert stop >= |lines| - 1;
      }
    }
    HeaderAt(lines, parseInt, stop)
  }

  /** Python's `lines[start:]`, which is empty when `start` lies past the end. */
  function Rest(lines: seq<string>, start: nat): seq<string> {
    if start <= |lines| then lines[start..] else []
  }

  /** The lines the second loop reads: those before the first line containing `)`. */
  function DataBlock(rest: seq<string>): (r: seq<string>)
    ensures |r| <= |rest| && r == rest[..|r|]
    ensures forall k :: 0 <= k < |r| ==> ')' !in r[k]
    ensures |r| < |rest| ==> ')' in rest[|r|]
  {
    if rest == [] || ')' in rest[0] then [] else [rest[0]] + DataBlock(rest[1..])
  }

  /**
   * The value one data line contributes: its text with surrounding white space and
   * semicolons removed, parsed as a float; nothing for an empty or unparsable line.
   */
  function CellValue(line: string, parseFloat: FloatParser): Option<real> {
    var cell := StripCell(line);
    if cell == [] then None else parseFloat(cell)
  }

  /** The values of the data lines, in file order; the lines without one are skipped. */
  function CellValues(block: seq<string>, parseFloat: FloatParser): (r: seq<real>)
    ensures |r| <= |block|
  {
    if block == [] then []
    else
      var prev := CellValues(block[..|block| - 1], parseFloat);
      match CellValue(block[|block| - 1], parseFloat)
      case Some(v) => prev + [v]
      case None => prev
  }

  /** `read_scalar_field(path)`, where `file` is the file's lines or `None` if it does not exist. */
  function ReadField(file: Option<seq<string>>, parseInt: IntParser, parseFloat: FloatParser)
    : (r: Outcome<Option<seq<real>>>)
    ensures file.None? ==> r == Ok(None)
    ensures file.Some? ==> (r.Raised? <==> HeaderOnLastLine(file.value, parseInt))
    ensures r.Raised? ==> r.error == IndexOutOfRange
    ensures file.Some? && (forall j :: 0 <= j < |file.value| ==> Passed(file.value, j, parseInt))
            ==> r == Ok(None)
    ensures r.Ok? && r.value.Some? ==>
              file.Some? && exists i: nat :: FirstHeaderAt(file.value, i, parseInt)
                                           && parseInt(StripSpace(file.value[i + 1])) == Some(|r.value.value|)
  {
    match file
    case None => Ok(None)
    case Some(lines) =>
      match ScanHeader(lines, parseInt)
      case Raised(e) => Raised(e)
      case Ok(None) => Ok(None)
      case Ok(Some(h)) =>
        var values := CellValues(DataBlock(Rest(lines, h.start)), parseFloat);
        if |values| == h.count then Ok(Some(values)) else Ok(None)
  }

  /** Joining two runs of data lines joins their values. */
  lemma {:induction false} CellValuesConcat(a: seq<string>, b: seq<string>, parseFloat: FloatParser)
    ensures CellValues(a + b, parseFloat) == CellValues(a, parseFloat) + CellValues(b, parseFloat)
    decreases |b|
  {
    if b != [] {
      var init := b[..|b| - 1];
      CellValuesConcat(a, init, parseFloat);
      var last := b[|b| - 1];
      assert (a + b)[..|a + b| - 1] == a + init;
      assert (a + b)[|a + b| - 1] == last;
      match CellValue(last, parseFloat)
      case Some(v) =>
        assert CellValues(b, parseFloat) == CellValues(init, parseFloat) + [v];
        assert CellValues(a + b, parseFloat) == CellValues(a + init, parseFloat) + [v];
      case None =>
        assert CellValues(b, parseFloat) == CellValues(init, parseFloat);
        assert CellValues(a + b, parseFloat) == CellValues(a + init, parseFloat);
    } else {
      assert a + b == a;
    }
  }

  /** The data block of a run of `)`-free lines followed by a `)` line is exactly that run. */
  lemma DataBlockEndsAtCloser(body: seq<string>, closer: string, post: seq<string>)
    requires forall k :: 0 <= k < |body| ==> ')' !in body[k]
    requires ')' in closer
    ensures DataBlock(body + [closer] + post) == body
  {
    var rest := body + [closer] + post;
    var block := DataBlock(rest);
    assert ')' in rest[|body|];
    assert forall k :: 0 <= k < |body| ==> rest[k] == body[k];
    assert |block| == |body|;
    assert block == rest[..|body|] == body;
  }

  /** A blank or unparsable line between two runs contributes nothing and hides nothing. */
  lemma SkippedLineContributesNothing(a: seq<string>, line: string, b: seq<string>, parseFloat: FloatParser)
    requires CellValue(line, parseFloat).None?
    ensures CellValues(a + [line] + b, parseFloat) == CellValues(a + b, parseFloat)
  {
    CellValuesConcat(a + [line], b, parseFloat);
    CellValuesConcat(a, [line], parseFloat);
    CellValuesConcat(a, b, parseFloat);
    assert CellValues([line], parseFloat) == [] by {
      assert [line][..0] == [];
    }
  }

  /** When every data line holds a number, the values are exactly those numbers, in file order. */
  lemma {:induction false} CellValuesAllParse(block: seq<string>, parseFloat: FloatParser)
    requires forall j :: 0 <= j < |block| ==> CellValue(block[j], parseFloat).Some?
    ensures |CellValues(block, parseFloat)| == |block|
    ensures forall k :: 0 <= k < |block| ==>
              Some(CellValues(block, parseFloat)[k]) == CellValue(block[k], parseFloat)
    decreases |block|
  {
    if block != [] {
      var init := block[..|block| - 1];
      var last := CellValue(block[|block| - 1], parseFloat);
      assert forall j :: 0 <= j < |init| ==> init[j] == block[j];
      CellValuesAllParse(init, parseFloat);
      var prev := CellValues(init, parseFloat);
      assert CellValues(block, parseFloat) == prev + [last.value];
    }
  }

  /**
   * Once the first counted header is known to be line `i`, the field is the values of the
   * lines from `i + 3` up to the first `)` line, provided there are exactly as many as the
   * count declares, and nothing otherwise.
   */
  lemma ReadFieldFromHeader(lines: seq<string>, i: nat, parseInt: IntParser, parseFloat: FloatParser)
    requires FirstHeaderAt(lines, i, parseInt)
    ensures var values := CellValues(DataBlock(Rest(lines, i + 3)), parseFloat);
            var count := parseInt(StripSpace(lines[i + 1])).value;
            ReadField(Some(lines), parseInt, parseFloat)
              == if |values| == count then Ok(Some(values)) else Ok(None)
  {
    assert !Passed(lines, i, parseInt);
    assert FirstStop(lines, parseInt, 0) == i;
  }

  /**
   * A well-formed field file — lines the scan passes, the header, the count, an opening
   * line that is never looked at, one number per line and a closing line — reads back
   * as exactly those numbers, in order.
   */
  lemma ReadWellFormedField(lines: seq<string>, pre: seq<string>, header: string, countLine: string,
                            opener: string, body: seq<string>, closer: string, post: seq<string>,
                            parseInt: IntParser, parseFloat: FloatParser)
    requires lines == pre + [header, countLine, opener] + body + [closer] + post
    requires forall j :: 0 <= j < |pre| ==> Passed(lines, j, parseInt)
    requires IsHeader(header) && parseInt(StripSpace(countLine)) == Some(|body|)
    requires forall k :: 0 <= k < |body| ==> ')' !in body[k] && CellValue(body[k], parseFloat).Some?
    requires ')' in closer
    ensures var r := ReadField(Some(lines), parseInt, parseFloat);
            && r.Ok? && r.value.Some? && |r.value.value| == |body|
            && forall k :: 0 <= k < |body| ==> Some(r.value.value[k]) == CellValue(body[k], parseFloat)
  {
    var i := |pre|;
    assert lines[i] == header && lines[i + 1] == countLine;
    assert FirstHeaderAt(lines, i, parseInt);
    ReadFieldFromHeader(lines, i, parseInt, parseFloat);
    assert Rest(lines, i + 3) == body + [closer] + post;
    DataBlockEndsAtCloser(body, closer, post);
    CellValuesAllParse(body, parseFloat);
  }

  /** `read_scalar_field`, line by line: the header scan, then the data loop, then the count check. */
  method ReadScalarField(file: Option<seq<string>>, parseInt: IntParser, parseFloat: FloatParser)
    returns (r: Outcome<Option<seq<real>>>)
    ensures r == ReadField(file, parseInt, parseFloat)
  {
    if file.None? {
      return Ok(None);
    }
    var lines := file.value;
    var header: Option<Header> := None;
    var i := 0;
    while i < |lines|
      invariant i <= |lines|
      invariant FirstStop(lines, parseInt, i) == FirstStop(lines, parseInt, 0)
    {
      if IsHeader(lines[i]) {
        if i + 1 == |lines| {
          return Raised(IndexOutOfRange);
        }
        var count := parseInt(StripSpace(lines[i + 1]));
        if count.Some? {
          header := Some(Header(count.value, i + 3));
          break;
        }
      }
      i := i + 1;
    }
    if header.None? {
      return Ok(None);
    }
    var h := header.value;
    assert ScanHeader(lines, parseInt) == Ok(Some(h));
    var values := ReadValues(Rest(lines, h.start), parseFloat);
    if |values| != h.count {
      return Ok(None);
    }
    return Ok(Some(values));
  }

  /** The data loop of `read_scalar_field`: collect values until the first line containing `)`. */
  method ReadValues(rest: seq<string>, parseFloat: FloatParser) returns (values: seq<real>)
    ensures values == CellValues(DataBlock(rest), parseFloat)
  {
    values := [];
    var k := 0;
    while k < |rest|
      invariant k <= |rest|
      invariant forall j :: 0 <= j < k ==> ')' !in rest[j]
      invariant values == CellValues(rest[..k], parseFloat)
    {
      if ')' in rest[k] {
        break;
      }
      assert rest[..k + 1][..k] == rest[..k];
      var cell := StripCell(rest[k]);
      if cell != [] {
        var v := parseFloat(cell);
        if v.Some? {
          values := values + [v.value];
        }
      }
      k := k + 1;
    }
    assert DataBlock(rest) == rest[..k];
  }
}
