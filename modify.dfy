/**
 * Commands that change the buffer's lines (src/modify.rs): splicing a block
 * of lines before (`insert_into_buffer`) or after (`append_into_buffer`) the
 * line an address resolves to, and the `i` command, which collects the block
 * in input mode and inserts it before `address2`.
 *
 * Resolving an address to a zero-based index is `address_to_index`, which
 * is not part of this model: the operations take it as a function of the
 * address and the buffer's fields.  The only values of it that the module's
 * tests fix are stated by `FitsTests`.
 */
module Modify {
  import opened Wrappers
  import CS = CommandStructs
  import opened LineArrayBuffer
  import IM = InputMode
  import opened EdCommands

  /** The signature of `address_to_index`. */
  type AddressToIndex = (CS.Address, BufferView) -> nat

  /** The values of `address_to_index` the tests rely on. */
  ghost predicate FitsTests(toIndex: AddressToIndex)
  {
    && toIndex(CS.Absolute(0), EMPTY_VIEW) == 0
    && toIndex(CS.Absolute(1), EMPTY_VIEW) == 0
    && toIndex(CS.Absolute(2), ONE_TXT_VIEW) == 1
  }

  /**
   * The lines after splicing `input` in at `index`: absent lines become
   * `input` itself, wherever the index points.
   */
  function Spliced(lines: Option<seq<Line>>, index: nat, input: seq<Line>): seq<Line>
    requires lines.Some? ==> index <= |lines.value|
  {
    match lines
    case None => input
    case Some(ls) => ls[..index] + input + ls[index..]
  }

  /**
   * Splicing keeps the old lines before the index, puts the block right
   * after them, and the remaining old lines after the block; taking the
   * block out again gives back the old lines.
   */
  lemma SplicedPlacesBlock(ls: seq<Line>, index: nat, input: seq<Line>)
    requires index <= |ls|
    ensures var r := Spliced(Some(ls), index, input);
      && |r| == |ls| + |input|
      && r[..index] == ls[..index]
      && r[index..index + |input|] == input
      && r[index + |input|..] == ls[index..]
      && r[..index] + r[index + |input|..] == ls
  {
    var r := Spliced(Some(ls), index, input);
    assert r[..index] == ls[..index];
    assert r[index..index + |input|] == input;
    assert r[index + |input|..] == ls[index..];
  }

  /** Every old line is still there, in the same order, shifted past the block when it came after the index. */
  lemma SplicedKeepsOrder(ls: seq<Line>, index: nat, input: seq<Line>, k: nat)
    requires index <= |ls| && k < |ls|
    ensures var r := Spliced(Some(ls), index, input);
      |r| == |ls| + |input| &&
      r[if k < index then k else k + |input|] == ls[k]
  {
    SplicedPlacesBlock(ls, index, input);
    var r := Spliced(Some(ls), index, input);
    if k >= index {
      assert r[k + |input|] == r[index + |input|..][k - index];
    }
  }

  /** Splicing in no lines leaves existing lines unchanged. */
  lemma SplicedNothing(ls: seq<Line>, index: nat)
    requires index <= |ls|
    ensures Spliced(Some(ls), index, []) == ls
  {
    assert ls[..index] + ls[index..] == ls;
  }

  /**
   * `insert_into_buffer`: puts `lines` before the line `location` resolves
   * to, moves the cursor to just past the block and returns it.
   */
  method InsertIntoBuffer(buffer: LineBuffer, location: CS.Address, lines: seq<Line>, toIndex: AddressToIndex)
    returns (cursor: nat)
    requires buffer.lines.Some? ==> toIndex(location, buffer.View()) <= |buffer.lines.value|
    modifies buffer`lines, buffer`currentLine
    ensures var index := toIndex(location, old(buffer.View()));
      && buffer.lines == Some(Spliced(old(buffer.lines), index, lines))
      && buffer.currentLine == index + |lines|
    ensures cursor == buffer.currentLine
    ensures buffer.filename == old(buffer.filename)
  {
    var index := toIndex(location, buffer.View());
    var inputLinesLen := |lines|;
    match buffer.lines {
      case None =>
        buffer.lines := Some(lines);
      case Some(bufferLines) =>
        buffer.lines := Some(bufferLines[..index] + lines + bufferLines[index..]);
    }
    buffer.currentLine := index + inputLinesLen;
    cursor := buffer.currentLine;
  }

  /**
   * An append splices at one past a resolved index, so it never displaces
   * the first line: the lines up to and including the resolved one stay
   * where they were, and the block lands after them.
   */
  lemma AppendKeepsFirstLine(ls: seq<Line>, index: nat, input: seq<Line>)
    requires index + 1 <= |ls|
    ensures Spliced(Some(ls), index + 1, input)[0] == ls[0]
    ensures Spliced(Some(ls), index + 1, input)[..index + 1] == ls[..index + 1]
  {
    SplicedPlacesBlock(ls, index + 1, input);
  }

  /**
   * `append_into_buffer`: as `insert_into_buffer`, one line further on, so
   * the block goes after the line `location` resolves to.
   */
  method AppendIntoBuffer(buffer: LineBuffer, location: CS.Address, lines: seq<Line>, toIndex: AddressToIndex)
    returns (cursor: nat)
    requires buffer.lines.Some? ==> toIndex(location, buffer.View()) + 1 <= |buffer.lines.value|
    modifies buffer`lines, buffer`currentLine
    ensures var index := toIndex(location, old(buffer.View())) + 1;
      && buffer.lines == Some(Spliced(old(buffer.lines), index, lines))
      && buffer.currentLine == index + |lines|
    ensures cursor == buffer.currentLine
    ensures buffer.filename == old(buffer.filename)
  {
    var index := toIndex(location, buffer.View()) + 1;
    var inputLinesLen := |lines|;
    match buffer.lines {
      case None =>
        buffer.lines := Some(lines);
      case Some(bufferLines) =>
        buffer.lines := Some(bufferLines[..index] + lines + bufferLines[index..]);
    }
    buffer.currentLine := index + inputLinesLen;
    cursor := buffer.currentLine;
  }

  /**
   * The `i` command: collects lines in input mode and inserts them before
   * the command's second address; always continues.
   */
  method Insert(buffer: LineBuffer, command: CS.EdCommand, events: seq<IM.ReadEvent>, toIndex: AddressToIndex)
    returns (status: REPLStatus)
    requires buffer.lines.Some? ==> toIndex(command.address2, buffer.View()) <= |buffer.lines.value|
    modifies buffer`lines, buffer`currentLine
    ensures var index := toIndex(command.address2, old(buffer.View()));
      && buffer.lines == Some(Spliced(old(buffer.lines), index, IM.Collected(events)))
      && buffer.currentLine == index + |IM.Collected(events)|
    ensures buffer.filename == old(buffer.filename)
    ensures status == Continue
  {
    var inputLines := IM.InputMode(events);
    var index := InsertIntoBuffer(buffer, command.address2, inputLines, toIndex);
    status := Continue;
  }

  // ---------------------------------------------------------------------------
  // The module's own tests, replayed on the model.

  /** Inserting `one`, `two`, `three` at `Absolute(0)` into an empty buffer. */
  method BasicInsert(toIndex: AddressToIndex) returns (actual: nat, third: Line)
    requires FitsTests(toIndex)
    ensures actual == 3 && third == "three"
  {
    var buffer := new LineBuffer.Empty();
    assert buffer.View() == EMPTY_VIEW;
    actual := InsertIntoBuffer(buffer, CS.Absolute(0), ["one", "two", "three"], toIndex);
    third := buffer.lines.value[2];
  }

  /** Inserting `alpha` before line 2 of `one.txt`. */
  method InsertMiddle(toIndex: AddressToIndex) returns (actual: nat, length: nat, second: Line)
    requires FitsTests(toIndex)
    ensures actual == 2 && length == 6 && second == "alpha"
  {
    OneTxtLines();
    var buffer := new LineBuffer.FromFile("test_files/one.txt", ONE_TXT);
    assert buffer.View() == ONE_TXT_VIEW;
    actual := InsertIntoBuffer(buffer, CS.Absolute(2), ["alpha"], toIndex);
    length, second := |buffer.lines.value|, buffer.lines.value[1];
  }

  /** Inserting `alpha` at `Absolute(1)` into an empty buffer. */
  method InsertIntoEmpty(toIndex: AddressToIndex) returns (actual: nat, length: nat, first: Line)
    requires FitsTests(toIndex)
    ensures actual == 1 && length == 1 && first == "alpha"
  {
    var buffer := new LineBuffer.Empty();
    assert buffer.View() == EMPTY_VIEW;
    actual := InsertIntoBuffer(buffer, CS.Absolute(1), ["alpha"], toIndex);
    length, first := |buffer.lines.value|, buffer.lines.value[0];
  }

  /** Inserting no lines before line 2 of `one.txt` only moves the cursor. */
  method InsertEmpty(toIndex: AddressToIndex) returns (actual: nat, length: nat, second: Line)
    requires FitsTests(toIndex)
    ensures actual == 1 && length == 5 && second == "two"
  {
    OneTxtLines();
    var buffer := new LineBuffer.FromFile("test_files/one.txt", ONE_TXT);
    assert buffer.View() == ONE_TXT_VIEW;
    actual := InsertIntoBuffer(buffer, CS.Absolute(2), [], toIndex);
    SplicedNothing(ONE_TXT_LINES, 1);
    assert buffer.lines == Some(ONE_TXT_LINES);
    length, second := |buffer.lines.value|, buffer.lines.value[1];
  }

  /** Appending `alpha` after line 2 of `one.txt`. */
  method AppendMiddle(toIndex: AddressToIndex) returns (actual: nat, length: nat, third: Line)
    requires FitsTests(toIndex)
    ensures actual == 3 && length == 6 && third == "alpha"
  {
    OneTxtLines();
    var buffer := new LineBuffer.FromFile("test_files/one.txt", ONE_TXT);
    assert buffer.View() == ONE_TXT_VIEW;
    actual := AppendIntoBuffer(buffer, CS.Absolute(2), ["alpha"], toIndex);
    length, third := |buffer.lines.value|, buffer.lines.value[2];
  }
}
