/** The few `str` operations the field reader relies on: `isspace`, `strip` and `in`. */
module Lines {

  /** The characters for which Python's `str.isspace()` holds; `str.strip()` with no argument removes them. */
  predicate IsSpace(c: char) {
    var n := c as int;
    (9 <= n <= 13) || (28 <= n <= 32) || n == 0x85 || n == 0xA0 || n == 0x1680
    || (0x2000 <= n <= 0x200A) || n == 0x2028 || n == 0x2029 || n == 0x202F
    || n == 0x205F || n == 0x3000
  }

  /** The statement terminator removed by `.strip(';')`. */
  predicate IsSemicolon(c: char) {
    c == ';'
  }

  /** `sub` stands in `s` starting at index `i`. */
  predicate OccursAt(s: string, sub: string, i: nat) {
    i + |sub| <= |s| && s[i..i + |sub|] == sub
  }

  /** Drops the leading characters that satisfy `drop`. */
  function TrimStart(s: string, drop: char -> bool): string {
    if s != [] && drop(s[0]) then TrimStart(s[1..], drop) else s
  }

  /** Drops the trailing characters that satisfy `drop`. */
  function TrimEnd(s: string, drop: char -> bool): string {
    if s != [] && drop(s[|s| - 1]) then TrimEnd(s[..|s| - 1], drop) else s
  }

  /** Python's `s.strip(chars)`, with the stripped characters given by `drop`. */
  function Strip(s: string, drop: char -> bool): string {
    TrimEnd(TrimStart(s, drop), drop)
  }

  /** `r` is the slice of `s` at `i`, and every character of `s` outside that slice is dropped. */
  predicate TrimmedAt(s: string, r: string, i: nat, drop: char -> bool) {
    && OccursAt(s, r, i)
    && (forall k :: 0 <= k < i ==> drop(s[k]))
    && (forall k :: i + |r| <= k < |s| ==> drop(s[k]))
  }

  /** TrimStart removes a run of dropped characters and stops at the first kept one. */
  lemma {:induction false} TrimStartShape(s: string, drop: char -> bool)
    ensures var r := TrimStart(s, drop);
      && |r| <= |s|
      && TrimmedAt(s, r, |s| - |r|, drop)
      && (r == [] || !drop(r[0]))
    decreases |s|
  {
    if s != [] && drop(s[0]) {
      TrimStartShape(s[1..], drop);
      var r := TrimStart(s[1..], drop);
      assert s[1..][|s| - 1 - |r|..] == s[|s| - |r|..];
      forall k | 0 < k < |s| - |r| ensures drop(s[k]) {
        assert s[k] == s[1..][k - 1];
      }
    }
  }

  /** TrimEnd removes a run of dropped characters and stops at the last kept one. */
  lemma {:induction false} TrimEndShape(s: string, drop: char -> bool)
    ensures var r := TrimEnd(s, drop);
      && |r| <= |s|
      && TrimmedAt(s, r, 0, drop)
      && (r == [] || !drop(r[|r| - 1]))
    decreases |s|
  {
    if s != [] && drop(s[|s| - 1]) {
      TrimEndShape(s[..|s| - 1], drop);
      var r := TrimEnd(s[..|s| - 1], drop);
      assert s[..|s| - 1][..|r|] == s[..|r|];
      forall k | |r| <= k < |s| - 1 ensures drop(s[k]) {
        assert s[k] == s[..|s| - 1][k];
      }
    }
  }

  /**
   * `Strip(s, drop)` is a middle slice of `s` that neither starts nor ends with a dropped
   * character, everything outside it being dropped characters.
   */
  lemma StripShape(s: string, drop: char -> bool)
    ensures var r := Strip(s, drop);
      && (exists i: nat :: TrimmedAt(s, r, i, drop))
      && (r == [] || (!drop(r[0]) && !drop(r[|r| - 1])))
  {
    var head := TrimStart(s, drop);
    var r := TrimEnd(head, drop);
    TrimStartShape(s, drop);
    TrimEndShape(head, drop);
    var i: nat := |s| - |head|;
    assert head == s[i..];
    assert r == head[..|r|];
    forall k | i + |r| <= k < |s| ensures drop(s[k]) {
      assert s[k] == head[k - i];
    }
    assert TrimmedAt(s, r, i, drop);
    assert Strip(s, drop) == r;
  }

  /** `line.strip()`. */
  function StripSpace(line: string): string {
    Strip(line, IsSpace)
  }

  /** `line.strip().strip(';')`, the cleaning applied to every data line. */
  function StripCell(line: string): string {
    Strip(Strip(line, IsSpace), IsSemicolon)
  }

  /** A character that `line.strip().strip(';')` may remove. */
  predicate IsSpaceOrSemicolon(c: char) {
    IsSpace(c) || IsSemicolon(c)
  }

  /**
   * The text of a data line is a slice of the line that neither starts nor ends with a
   * semicolon, and every character cut away is white space or a semicolon. White space
   * inside the outer semicolons stays (`"1.0 ;"` becomes `"1.0 "`).
   */
  lemma StripCellShape(line: string)
    ensures var cell := StripCell(line);
      && (exists i: nat :: TrimmedAt(line, cell, i, IsSpaceOrSemicolon))
      && (cell == [] || (!IsSemicolon(cell[0]) && !IsSemicolon(cell[|cell| - 1])))
  {
    var inner := Strip(line, IsSpace);
    var cell := Strip(inner, IsSemicolon);
    StripShape(line, IsSpace);
    StripShape(inner, IsSemicolon);
    var i: nat :| TrimmedAt(line, inner, i, IsSpace);
    var j: nat :| TrimmedAt(inner, cell, j, IsSemicolon);
    assert inner == line[i..i + |inner|];
    assert cell == inner[j..j + |cell|];
    forall k | 0 <= k < i + j ensures IsSpaceOrSemicolon(line[k]) {
      if k >= i {
        assert line[k] == inner[k - i];
      }
    }
    forall k | i + j + |cell| <= k < |line| ensures IsSpaceOrSemicolon(line[k]) {
      if k < i + |inner| {
        assert line[k] == inner[k - i];
      }
    }
    assert OccursAt(line, cell, i + j) by {
      forall k | 0 <= k < |cell| ensures line[i + j + k] == cell[k] {
        assert cell[k] == inner[j + k];
        assert inner[j + k] == line[i + j + k];
      }
      assert line[i + j..i + j + |cell|] == cell;
    }
    assert TrimmedAt(line, cell, i + j, IsSpaceOrSemicolon);
    assert StripCell(line) == cell;
  }

  /** Python's `sub in s` on strings: `sub` occurs somewhere in `s` as a contiguous run. */
  predicate Contains(s: string, sub: string) {
    exists i: nat | i <= |s| :: OccursAt(s, sub, i)
  }
}
