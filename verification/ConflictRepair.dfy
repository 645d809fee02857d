/** Dropping the markers of exactly two conflict blocks whose HEAD side is empty. */
module ConflictRepair {
  import opened Wrappers
  import opened Text

  const HEAD := "<<<<<<< HEAD"
  const MIDDLE := "======="
  const CLOSE := ">>>>>>> "
  const BLOCKS := 2
  const NEWLINE := '\n'

  predicate Closes(line: string) {
    StartsWith(line, CLOSE)
  }

  /** A line that may not appear inside an accepted side. */
  predicate Marker(line: string) {
    StartsWith(line, "<<<<<<<") || StartsWith(line, "=======") || StartsWith(line, "|||||||")
  }

  /** Position of the first closing marker from `start` on. */
  function FirstClose(lines: seq<string>, start: nat): (r: Option<nat>)
    ensures r.Some? ==> start <= r.value < |lines| && Closes(lines[r.value])
                        && forall k :: start <= k < r.value ==> !Closes(lines[k])
    ensures r.None? ==> forall k :: start <= k < |lines| ==> !Closes(lines[k])
    decreases |lines| - start
  {
    if start >= |lines| then None
    else if Closes(lines[start]) then Some(start)
    else FirstClose(lines, start + 1)
  }

  /** Where the block that starts at line 0 ends, if it has the one shape the repair accepts. */
  function BlockEnd(lines: seq<string>): (r: Option<nat>)
    ensures r.Some? ==> 2 <= r.value < |lines|
  {
    var end := FirstClose(lines, 2);
    if |lines| < 2 || lines[1] != MIDDLE || end.None? then None
    else if exists k :: 2 <= k < end.value && Marker(lines[k]) then None
    else end
  }

  datatype Kept = Kept(lines: seq<string>, blocks: nat)

  function Scan(lines: seq<string>): Option<Kept> {
    if lines == [] then
      Some(Kept([], 0))
    else if lines[0] != HEAD then
      var rest := Scan(lines[1..]);
      if rest.None? then None else Some(Kept([lines[0]] + rest.value.lines, rest.value.blocks))
    else
      var end := BlockEnd(lines);
      if end.None? then
        None
      else
        var rest := Scan(lines[end.value + 1..]);
        if rest.None? then None else Some(Kept(lines[2..end.value] + rest.value.lines, rest.value.blocks + 1))
  }

  /** `_drop_empty_head_conflicts`, on the lines of the text. */
  function Drop(lines: seq<string>): Option<seq<string>> {
    var kept := Scan(lines);
    if kept.Some? && kept.value.blocks == BLOCKS then Some(kept.value.lines) else None
  }

  function Repair(text: string): Option<string> {
    var kept := Drop(Split(text, NEWLINE));
    if kept.None? then None else Some(Join(kept.value, NEWLINE))
  }

  function Prepend(lines: seq<string>, blocks: nat, rest: Option<Kept>): Option<Kept> {
    if rest.None? then None else Some(Kept(lines + rest.value.lines, blocks + rest.value.blocks))
  }

  lemma PrependTwice(a: seq<string>, n: nat, b: seq<string>, m: nat, rest: Option<Kept>)
    ensures Prepend(a, n, Prepend(b, m, rest)) == Prepend(a + b, n + m, rest)
    ensures Prepend([], 0, rest) == rest
  {
    if rest.Some? {
      assert a + (b + rest.value.lines) == a + b + rest.value.lines;
      assert [] + rest.value.lines == rest.value.lines;
    }
  }

  /** The scan is its first line or its first block, then the scan of what follows. */
  lemma ScanHead(lines: seq<string>)
    requires lines != []
    ensures lines[0] != HEAD ==> Scan(lines) == Prepend([lines[0]], 0, Scan(lines[1..]))
    ensures lines[0] == HEAD ==>
              var end := BlockEnd(lines);
              Scan(lines) == if end.None? then None else Prepend(lines[2..end.value], 1, Scan(lines[end.value + 1..]))
  {
  }

  /** The loop over `index`, `kept` and `blocks`. */
  method DropConflicts(text: string) returns (r: Option<string>)
    ensures r == Repair(text)
  {
    hide Scan, BlockEnd, Split;
    var lines := Split(text, NEWLINE);
    var kept: seq<string>, blocks: nat, index: nat := [], 0, 0;
    PrependTwice([], 0, [], 0, Scan(lines));
    assert lines[0..] == lines;
    while index < |lines|
      invariant 0 <= index <= |lines|
      invariant Scan(lines) == Prepend(kept, blocks, Scan(lines[index..]))
      decreases |lines| - index
    {
      var ahead := lines[index..];
      ScanHead(ahead);
      if lines[index] != HEAD {
        PrependTwice(kept, blocks, [lines[index]], 0, Scan(ahead[1..]));
        kept := kept + [lines[index]];
        index := index + 1;
        assert lines[index..] == ahead[1..];
      } else {
        var end := BlockEnd(ahead);
        if end.None? {
          return None;
        }
        PrependTwice(kept, blocks, ahead[2..end.value], 1, Scan(ahead[end.value + 1..]));
        kept := kept + ahead[2..end.value];
        blocks := blocks + 1;
        index := index + end.value + 1;
        assert lines[index..] == ahead[end.value + 1..];
      }
    }
    assert lines[index..] == [];
    ScanNothing();
    assert kept + [] == kept;
    if blocks != BLOCKS {
      return None;
    }
    return Some(Join(kept, NEWLINE));
  }

  // ---------------------------------------------------------------- inserting blocks

  ghost predicate Begins(line: string, mark: string) {
    |mark| <= |line| && line[..|mark|] == mark
  }

  function Block(side: seq<string>, close: string): seq<string> {
    ["<<<<<<< HEAD", "======="] + side + [close]
  }

  /** Text outside the blocks: no line opens a conflict. */
  ghost predicate Plain(lines: seq<string>) {
    forall i :: 0 <= i < |lines| ==> lines[i] != "<<<<<<< HEAD"
  }

  /** An accepted side: no marker of any kind. */
  ghost predicate Clean(side: seq<string>) {
    forall i :: 0 <= i < |side| ==>
      && !Begins(side[i], "<<<<<<<") && !Begins(side[i], "=======") && !Begins(side[i], "|||||||")
      && !Begins(side[i], ">>>>>>> ")
  }

  lemma {:induction false} ScanPlain(pre: seq<string>, rest: seq<string>)
    requires Plain(pre)
    ensures Scan(pre + rest) == Prepend(pre, 0, Scan(rest))
  {
    PrependTwice([], 0, [], 0, Scan(rest));
    if pre == [] {
      assert pre + rest == rest;
    } else {
      ScanPlain(pre[1..], rest);
      assert (pre + rest)[1..] == pre[1..] + rest;
      PrependTwice([pre[0]], 0, pre[1..], 0, Scan(rest));
      assert [pre[0]] + pre[1..] == pre;
    }
  }

  lemma ScanBlock(side: seq<string>, close: string, rest: seq<string>)
    requires Clean(side) && Begins(close, ">>>>>>> ")
    ensures Scan(Block(side, close) + rest) == Prepend(side, 1, Scan(rest))
  {
    var lines := Block(side, close) + rest;
    var end := 2 + |side|;
    assert lines[end] == close;
    assert forall k :: 2 <= k < end ==> lines[k] == side[k - 2];
    assert FirstClose(lines, 2) == Some(end);
    assert BlockEnd(lines) == Some(end);
    assert lines[2..end] == side && lines[end + 1..] == rest;
  }

  /** Two blocks around two segments of a text, the sides `s1` and `s2`, each with its closing marker. */
  datatype Conflict = Conflict(
    pre: seq<string>, s1: seq<string>, c1: string, mid: seq<string>, s2: seq<string>, c2: string, post: seq<string>) {
    function Lines(): seq<string> {
      pre + (Block(s1, c1) + (mid + (Block(s2, c2) + post)))
    }

    function Repaired(): seq<string> {
      pre + s1 + mid + s2 + post
    }

    ghost predicate Proper() {
      Plain(pre) && Plain(mid) && Plain(post) && Clean(s1) && Clean(s2) && Begins(c1, ">>>>>>> ") && Begins(c2, ">>>>>>> ")
    }
  }

  /** Inserting two blocks and repairing gives the lines back. */
  lemma DropUndoesInsertion(c: Conflict)
    requires c.Proper()
    ensures Drop(c.Lines()) == Some(c.Repaired())
  {
    hide Scan;
    var Conflict(pre, s1, c1, mid, s2, c2, post) := c;
    ScanPlain(pre, Block(s1, c1) + (mid + (Block(s2, c2) + post)));
    ScanBlock(s1, c1, mid + (Block(s2, c2) + post));
    ScanPlain(mid, Block(s2, c2) + post);
    ScanBlock(s2, c2, post);
    ScanPlain(post, []);
    assert post + [] == post;
    ScanNothing();
    assert pre + (s1 + (mid + (s2 + (post + [])))) == pre + s1 + mid + s2 + post;
  }

  lemma ScanNothing()
    ensures Scan([]) == Some(Kept([], 0))
  {
  }

  /** A scanned text without blocks is itself. */
  lemma {:induction false} NoBlocks(lines: seq<string>)
    requires Scan(lines).Some? && Scan(lines).value.blocks == 0
    ensures Plain(lines) && Scan(lines).value.lines == lines
  {
    if lines != [] {
      NoBlocks(lines[1..]);
      assert lines == [lines[0]] + lines[1..];
    }
  }

  lemma BlockShape(lines: seq<string>)
    requires BlockEnd(lines).Some?
    ensures var end := BlockEnd(lines).value; lines[1] == MIDDLE && Clean(lines[2..end]) && Begins(lines[end], ">>>>>>> ")
  {
  }

  /** The first block of a scanned text. */
  lemma {:induction false} FirstBlock(lines: seq<string>)
    returns (pre: seq<string>, side: seq<string>, close: string, rest: seq<string>)
    requires Scan(lines).Some? && Scan(lines).value.blocks > 0
    ensures lines == pre + (Block(side, close) + rest)
    ensures Plain(pre) && Clean(side) && Begins(close, ">>>>>>> ")
    ensures Scan(rest).Some? && Scan(lines) == Prepend(pre + side, 1, Scan(rest))
  {
    hide Scan, BlockEnd;
    ScanNothing();
    ScanHead(lines);
    if lines[0] != HEAD {
      pre, side, close, rest := FirstBlock(lines[1..]);
      PrependTwice([lines[0]], 0, pre + side, 1, Scan(rest));
      assert [lines[0]] + (pre + side) == [lines[0]] + pre + side;
      pre := [lines[0]] + pre;
      assert lines == [lines[0]] + lines[1..];
    } else {
      BlockShape(lines);
      var end := BlockEnd(lines).value;
      pre, side, close, rest := [], lines[2..end], lines[end], lines[end + 1..];
      assert pre + side == side;
      assert lines == [lines[0], lines[1]] + lines[2..end] + [lines[end]] + lines[end + 1..];
    }
  }

  /** Every accepted input is its output with exactly two such blocks inserted. */
  lemma DropAcceptsOnlyInsertions(lines: seq<string>) returns (c: Conflict)
    requires Drop(lines).Some?
    ensures c.Proper() && lines == c.Lines()
    ensures Drop(lines) == Some(c.Repaired())
  {
    var pre, s1, c1, rest := FirstBlock(lines);
    var mid, s2, c2, post := FirstBlock(rest);
    hide Scan;
    NoBlocks(post);
    assert pre + s1 + (mid + s2 + post) == pre + s1 + mid + s2 + post;
    c := Conflict(pre, s1, c1, mid, s2, c2, post);
  }

  /** On texts: the repair is undone by inserting blocks, whatever lines the segments are cut at. */
  lemma RepairRoundTrip(text: string, c: Conflict)
    requires Split(text, '\n') == c.Repaired()
    requires c.Proper() && Free(c.c1, NEWLINE) && Free(c.c2, NEWLINE)
    ensures Repair(Join(c.Lines(), '\n')) == Some(text)
  {
    SplitParts(text, NEWLINE);
    PartsFree(c);
    SplitOfJoin(c.Lines(), NEWLINE);
    DropUndoesInsertion(c);
    JoinOfSplit(text, NEWLINE);
  }

  /** And on texts too, every accepted input is its output with exactly two such blocks inserted. */
  lemma RepairAcceptsOnlyInsertions(text: string) returns (c: Conflict)
    requires Repair(text).Some?
    ensures c.Proper() && text == Join(c.Lines(), '\n')
    ensures Repair(text) == Some(Join(c.Repaired(), '\n'))
  {
    c := DropAcceptsOnlyInsertions(Split(text, NEWLINE));
    JoinOfSplit(text, NEWLINE);
  }

  lemma PartsFree(c: Conflict)
    requires forall i :: 0 <= i < |c.Repaired()| ==> Free(c.Repaired()[i], NEWLINE)
    requires Free(c.c1, NEWLINE) && Free(c.c2, NEWLINE)
    ensures c.Lines() != [] && forall i :: 0 <= i < |c.Lines()| ==> Free(c.Lines()[i], NEWLINE)
  {
    var all, lines := c.Repaired(), c.Lines();
    assert forall x :: x in c.pre || x in c.s1 || x in c.mid || x in c.s2 || x in c.post ==> x in all;
    forall i | 0 <= i < |lines| ensures Free(lines[i], NEWLINE) {
      var x := lines[i];
      assert x in lines;
      assert x in c.pre || x in c.s1 || x in c.mid || x in c.s2 || x in c.post
             || x == HEAD || x == MIDDLE || x == c.c1 || x == c.c2;
    }
  }
}
