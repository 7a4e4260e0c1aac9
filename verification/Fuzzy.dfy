/** Approximate substring search of automatic reservations: the two-row table of
    `fuzzyContains` decides exactly whether some substring of the target lies within a quarter of
    the keyword's length of the keyword, measured in single-rune edits. */
module Fuzzy {

  type Rune = r: int | 0 <= r <= 0x10FFFF

  // ----- What an approximate match means: an edit script, independent of any table

  /** One step of an alignment that reads a source text and writes another text. */
  datatype Edit = Keep(c: Rune) | Substitute(was: Rune, now: Rune) | Insert(c: Rune) | Delete(c: Rune)

  ghost function ReadBy(edit: Edit): seq<Rune> {
    match edit case Keep(c) => [c] case Substitute(w, _) => [w] case Insert(_) => [] case Delete(c) => [c]
  }

  ghost function WrittenBy(edit: Edit): seq<Rune> {
    match edit case Keep(c) => [c] case Substitute(_, n) => [n] case Insert(c) => [c] case Delete(_) => []
  }

  ghost function Reads(script: seq<Edit>): seq<Rune> {
    if script == [] then [] else Reads(script[..|script| - 1]) + ReadBy(script[|script| - 1])
  }

  ghost function Writes(script: seq<Edit>): seq<Rune> {
    if script == [] then [] else Writes(script[..|script| - 1]) + WrittenBy(script[|script| - 1])
  }

  /** Every edit except keeping a rune costs one. */
  ghost function Cost(script: seq<Edit>): nat {
    if script == [] then 0
    else Cost(script[..|script| - 1]) + if script[|script| - 1].Keep? then 0 else 1
  }

  lemma AppendEdit(rest: seq<Edit>, edit: Edit)
    ensures Reads(rest + [edit]) == Reads(rest) + ReadBy(edit)
    ensures Writes(rest + [edit]) == Writes(rest) + WrittenBy(edit)
    ensures Cost(rest + [edit]) == Cost(rest) + if edit.Keep? then 0 else 1
  {
    assert (rest + [edit])[..|rest|] == rest;
  }

  ghost predicate WithinEdits(source: seq<Rune>, result: seq<Rune>, limit: nat) {
    exists script :: Reads(script) == source && Writes(script) == result && Cost(script) <= limit
  }

  ghost predicate ApproximatelyContains(target: seq<Rune>, pattern: seq<Rune>, limit: nat) {
    exists from, to | 0 <= from <= to <= |target| :: WithinEdits(target[from..to], pattern, limit)
  }

  // ----- The table

  function Min(a: int, b: int): int { if a < b then a else b }

  /** The table entry after consuming all of `target` and all of `pattern`: the alignment may begin
      anywhere in the target, so the first column is zero. */
  ghost function Cell(target: seq<Rune>, pattern: seq<Rune>): nat
    decreases |target| + |pattern|
  {
    var n, m := |target|, |pattern|;
    if m == 0 then 0
    else if n == 0 then m
    else
      var t, p := target[..n - 1], pattern[..m - 1];
      Min(Min(Cell(t, pattern) + 1, Cell(target, p) + 1),
          Cell(t, p) + if target[n - 1] == pattern[m - 1] then 0 else 1)
  }

  /** `script` turns the suffix of `target` beginning at `from` into `pattern` for exactly `cost`. */
  ghost predicate Aligns(target: seq<Rune>, from: nat, script: seq<Edit>, pattern: seq<Rune>, cost: nat) {
    from <= |target| && Reads(script) == target[from..] && Writes(script) == pattern && Cost(script) == cost
  }

  lemma GrowPattern(target: seq<Rune>, from: nat, rest: seq<Edit>, pattern: seq<Rune>, cost: nat)
    requires pattern != [] && Aligns(target, from, rest, pattern[..|pattern| - 1], cost)
    ensures Aligns(target, from, rest + [Insert(pattern[|pattern| - 1])], pattern, cost + 1)
  {
    AppendEdit(rest, Insert(pattern[|pattern| - 1]));
  }

  lemma GrowTarget(target: seq<Rune>, from: nat, rest: seq<Edit>, pattern: seq<Rune>, cost: nat)
    requires target != [] && Aligns(target[..|target| - 1], from, rest, pattern, cost)
    ensures Aligns(target, from, rest + [Delete(target[|target| - 1])], pattern, cost + 1)
  {
    AppendEdit(rest, Delete(target[|target| - 1]));
    assert target[from..] == target[..|target| - 1][from..] + [target[|target| - 1]];
  }

  lemma GrowBoth(target: seq<Rune>, from: nat, rest: seq<Edit>, pattern: seq<Rune>, cost: nat, edit: Edit)
    requires target != [] && pattern != []
    requires Aligns(target[..|target| - 1], from, rest, pattern[..|pattern| - 1], cost)
    requires ReadBy(edit) == [target[|target| - 1]] && WrittenBy(edit) == [pattern[|pattern| - 1]]
    ensures Aligns(target, from, rest + [edit], pattern, cost + if edit.Keep? then 0 else 1)
  {
    AppendEdit(rest, edit);
    assert target[from..] == target[..|target| - 1][from..] + [target[|target| - 1]];
  }

  /** Every entry is the cost of a real alignment of some suffix of the consumed target. */
  lemma {:induction false} CellIsAttained(target: seq<Rune>, pattern: seq<Rune>)
    returns (from: nat, script: seq<Edit>)
    ensures Aligns(target, from, script, pattern, Cell(target, pattern))
    decreases |target| + |pattern|
  {
    var n, m := |target|, |pattern|;
    if m == 0 { return n, []; }
    var rest;
    if n == 0 || Cell(target, pattern) == Cell(target, pattern[..m - 1]) + 1 {
      from, rest := CellIsAttained(target, pattern[..m - 1]);
      GrowPattern(target, from, rest, pattern, Cell(target, pattern[..m - 1]));
      script := rest + [Insert(pattern[m - 1])];
    } else if Cell(target, pattern) == Cell(target[..n - 1], pattern) + 1 {
      from, rest := CellIsAttained(target[..n - 1], pattern);
      GrowTarget(target, from, rest, pattern, Cell(target[..n - 1], pattern));
      script := rest + [Delete(target[n - 1])];
    } else {
      from, rest := CellIsAttained(target[..n - 1], pattern[..m - 1]);
      var edit := if target[n - 1] == pattern[m - 1] then Keep(target[n - 1])
                  else Substitute(target[n - 1], pattern[m - 1]);
      GrowBoth(target, from, rest, pattern, Cell(target[..n - 1], pattern[..m - 1]), edit);
      script := rest + [edit];
    }
  }

  /** Extending an alignment by one edit moves to a neighbouring entry, at most that edit dearer. */
  lemma CellFollowsEdit(target: seq<Rune>, written: seq<Rune>, edit: Edit)
    requires !edit.Insert? ==> target != [] && ReadBy(edit) == [target[|target| - 1]]
    ensures Cell(target, written + WrittenBy(edit))
      <= Cell(if edit.Insert? then target else target[..|target| - 1], written) + if edit.Keep? then 0 else 1
  {
    var pattern := written + WrittenBy(edit);
    if edit.Delete? { assert pattern == written; } else { assert pattern[..|pattern| - 1] == written; }
  }

  lemma ReadsFromTarget(target: seq<Rune>, from: nat, rest: seq<Edit>, edit: Edit)
    requires from <= |target| && Reads(rest) + ReadBy(edit) == target[from..]
    ensures if edit.Insert? then Reads(rest) == target[from..]
            else from < |target| && ReadBy(edit) == [target[|target| - 1]] &&
                 Reads(rest) == target[..|target| - 1][from..]
  {
    if !edit.Insert? {
      assert target[|target| - 1] == target[from..][|target| - 1 - from] == ReadBy(edit)[0];
    }
  }

  /** No alignment of any suffix of the consumed target is cheaper than the entry. */
  lemma {:induction false} CellIsMinimal(target: seq<Rune>, from: nat, script: seq<Edit>)
    requires from <= |target| && Reads(script) == target[from..]
    ensures Cell(target, Writes(script)) <= Cost(script)
    decreases |script|
  {
    if script != [] {
      var rest, last := script[..|script| - 1], script[|script| - 1];
      ReadsFromTarget(target, from, rest, last);
      CellFollowsEdit(target, Writes(rest), last);
      CellIsMinimal(if last.Insert? then target else target[..|target| - 1], from, rest);
    }
  }

  /** The last column answers the question: an entry within the limit exists exactly when an
      approximate occurrence exists. Column zero of the target is never needed, because the empty
      substring is `|pattern|` edits away. */
  lemma LastColumnDecides(target: seq<Rune>, pattern: seq<Rune>, limit: nat)
    requires limit < |pattern|
    ensures ApproximatelyContains(target, pattern, limit)
      <==> exists e | 1 <= e <= |target| :: Cell(target[..e], pattern) <= limit
  {
    if ApproximatelyContains(target, pattern, limit) {
      var from, to :| 0 <= from <= to <= |target| && WithinEdits(target[from..to], pattern, limit);
      var script :| Reads(script) == target[from..to] && Writes(script) == pattern && Cost(script) <= limit;
      assert target[..to][from..] == target[from..to];
      CellIsMinimal(target[..to], from, script);
    }
    if e :| 1 <= e <= |target| && Cell(target[..e], pattern) <= limit {
      var from, script := CellIsAttained(target[..e], pattern);
      assert target[from..e] == target[..e][from..];
      assert WithinEdits(target[from..e], pattern, limit);
    }
  }

  // ----- The program

  /** The library's exact substring search. */
  predicate Contains(target: seq<Rune>, pattern: seq<Rune>) {
    exists i | 0 <= i <= |target| - |pattern| :: OccursAt(target, pattern, i)
  }

  predicate OccursAt(target: seq<Rune>, pattern: seq<Rune>, i: nat)
    requires i + |pattern| <= |target|
  {
    target[i..i + |pattern|] == pattern
  }

  lemma {:induction false} KeepAll(text: seq<Rune>) returns (script: seq<Edit>)
    ensures Reads(script) == text && Writes(script) == text && Cost(script) == 0
    decreases |text|
  {
    script := [];
    if text != [] {
      var rest := KeepAll(text[..|text| - 1]);
      AppendEdit(rest, Keep(text[|text| - 1]));
      script := rest + [Keep(text[|text| - 1])];
    }
  }

  lemma {:induction false} FreeScriptCopies(script: seq<Edit>)
    requires Cost(script) == 0
    ensures Reads(script) == Writes(script)
    decreases |script|
  {
    if script != [] { FreeScriptCopies(script[..|script| - 1]); }
  }

  /** An exact occurrence is the same thing as an occurrence at distance zero. */
  lemma ExactIsDistanceZero(target: seq<Rune>, pattern: seq<Rune>)
    ensures Contains(target, pattern) <==> ApproximatelyContains(target, pattern, 0)
  {
    if i :| 0 <= i <= |target| - |pattern| && OccursAt(target, pattern, i) {
      var script := KeepAll(pattern);
      assert WithinEdits(target[i..i + |pattern|], pattern, 0);
    }
    if ApproximatelyContains(target, pattern, 0) {
      var from, to :| 0 <= from <= to <= |target| && WithinEdits(target[from..to], pattern, 0);
      var script :| Reads(script) == target[from..to] && Writes(script) == pattern && Cost(script) <= 0;
      FreeScriptCopies(script);
      assert to == from + |pattern| && OccursAt(target, pattern, from);
    }
  }

  lemma MoreEditsAllowMore(target: seq<Rune>, pattern: seq<Rune>, low: nat, high: nat)
    requires low <= high && ApproximatelyContains(target, pattern, low)
    ensures ApproximatelyContains(target, pattern, high)
  {
    var from, to :| 0 <= from <= to <= |target| && WithinEdits(target[from..to], pattern, low);
    assert WithinEdits(target[from..to], pattern, high);
  }

  lemma NextCell(row: seq<Rune>, above: seq<Rune>, pattern: seq<Rune>, index: nat, up: int, left: int, corner: int)
    requires |row| > 0 && above == row[..|row| - 1] && index < |pattern|
    requires up == Cell(above, pattern[..index + 1]) && left == Cell(row, pattern[..index])
    requires corner == Cell(above, pattern[..index])
    ensures Cell(row, pattern[..index + 1]) ==
      Min(Min(up + 1, left + 1), corner + if row[|row| - 1] == pattern[index] then 0 else 1)
  {
    assert pattern[..index + 1][..index] == pattern[..index];
  }

  /** Fills one row of the table from the row above it. */
  method FillRow(previous: array<int>, current: array<int>, ghost target: seq<Rune>, k: nat, character: Rune,
                 pattern: seq<Rune>)
    requires previous != current && previous.Length == current.Length == |pattern| + 1
    requires k < |target| && target[k] == character
    requires forall j | 0 <= j <= |pattern| :: previous[j] == Cell(target[..k], pattern[..j])
    modifies current
    ensures forall j | 0 <= j <= |pattern| :: current[j] == Cell(target[..k + 1], pattern[..j])
  {
    current[0] := 0;
    ghost var (row, above) := (target[..k + 1], target[..k]);
    assert row[..k] == above && Cell(row, pattern[..0]) == 0;
    hide Cell;
    for index := 0 to |pattern|
      invariant forall j | 0 <= j <= |pattern| :: previous[j] == Cell(above, pattern[..j])
      invariant forall j | 0 <= j <= index :: current[j] == Cell(row, pattern[..j])
    {
      var cost := 0;
      if character != pattern[index] { cost := 1; }
      NextCell(row, above, pattern, index, previous[index + 1], current[index], previous[index]);
      current[index + 1] := Min(Min(previous[index + 1] + 1, current[index] + 1), previous[index] + cost);
    }
  }

  method FirstRow(pattern: seq<Rune>) returns (row: array<int>)
    ensures fresh(row) && row.Length == |pattern| + 1
    ensures forall j | 0 <= j <= |pattern| :: row[j] == Cell([], pattern[..j])
  {
    row := new int[|pattern| + 1];
    for index := 0 to row.Length
      invariant forall j | 0 <= j < index :: row[j] == j
    {
      row[index] := index;
    }
  }

  /** The part of the search after the exact test: two rows, filled and exchanged for every rune. */
  method SearchTable(target: seq<Rune>, pattern: seq<Rune>, threshold: nat) returns (found: bool)
    requires threshold < |pattern|
    ensures found <==> exists e | 1 <= e <= |target| :: Cell(target[..e], pattern) <= threshold
  {
    var previous := FirstRow(pattern);
    var current := new int[|pattern| + 1];
    assert target[..0] == [] && pattern[..|pattern|] == pattern;
    for k := 0 to |target|
      invariant previous != current && previous.Length == current.Length == |pattern| + 1
      invariant fresh(previous) && fresh(current)
      invariant forall j | 0 <= j <= |pattern| :: previous[j] == Cell(target[..k], pattern[..j])
      invariant forall e | 1 <= e <= k :: Cell(target[..e], pattern) > threshold
    {
      FillRow(previous, current, target, k, target[k], pattern);
      assert current[|pattern|] == Cell(target[..k + 1], pattern);
      if current[|pattern|] <= threshold { return true; }
      previous, current := current, previous;
    }
    return false;
  }

  /** `fuzzyContains`: an exact hit, or an alignment within a quarter of the keyword's length. */
  method FuzzyContains(target: seq<Rune>, keyword: seq<Rune>) returns (found: bool)
    ensures found <==> ApproximatelyContains(target, keyword, |keyword| / 4)
  {
    ExactIsDistanceZero(target, keyword);
    if Contains(target, keyword) { MoreEditsAllowMore(target, keyword, 0, |keyword| / 4); }
    if |keyword| == 0 {
      assert OccursAt(target, keyword, 0);
      return true;
    }
    if Contains(target, keyword) { return true; }
    var threshold := |keyword| / 4;
    if threshold == 0 { return false; }
    LastColumnDecides(target, keyword, threshold);
    found := SearchTable(target, keyword, threshold);
  }
}
