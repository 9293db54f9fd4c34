/**
 * The editor's line buffer (src/buffer/line_array_buffer.rs): an optional
 * sequence of lines (absent until something is loaded or inserted), an
 * optional remembered file name, and the current-line cursor.
 *
 * Files are not touched here.  What `save` writes is returned as a
 * `SavedFile` whose content is `Serialise(lines)`, and whether the operating
 * system lets `File::create` open the target is a parameter; what
 * `from_file` reads is given as the file's text and split as Rust's
 * `BufRead::lines` splits it.
 */
module LineArrayBuffer {
  import opened Wrappers
  import opened Text

  type Line = string

  /** The buffer's three fields as a value. */
  datatype BufferView = BufferView(lines: Option<seq<Line>>, filename: Option<string>, currentLine: nat)

  // ---------------------------------------------------------------------------
  // The file format: newline-terminated lines.

  function SerialiseLines(ls: seq<Line>): string
  {
    if ls == [] then [] else ls[0] + "\n" + SerialiseLines(ls[1..])
  }

  /** The text `save` writes: every line followed by `\n`; nothing for absent lines. */
  function Serialise(lines: Option<seq<Line>>): string
  {
    match lines
    case None => []
    case Some(ls) => SerialiseLines(ls)
  }

  lemma {:induction false} SerialiseLinesConcat(a: seq<Line>, b: seq<Line>)
    ensures SerialiseLines(a + b) == SerialiseLines(a) + SerialiseLines(b)
  {
    if a == [] {
      assert a + b == b;
    } else {
      assert (a + b)[0] == a[0];
      assert (a + b)[1..] == a[1..] + b;
      SerialiseLinesConcat(a[1..], b);
    }
  }

  /** Position of the first `\n` in `s`, or `|s|` when there is none. */
  function IndexOfNewline(s: string): (i: nat)
    ensures i <= |s| && (i < |s| ==> s[i] == '\n')
  {
    if s == [] || s[0] == '\n' then 0 else 1 + IndexOfNewline(s[1..])
  }

  /** No `\n` comes before the one `IndexOfNewline` finds. */
  lemma {:induction false} NoNewlineBefore(s: string)
    ensures forall j :: 0 <= j < IndexOfNewline(s) ==> s[j] != '\n'
  {
    if s != [] && s[0] != '\n' {
      NoNewlineBefore(s[1..]);
      assert forall j :: 1 <= j < |s| ==> s[j] == s[1..][j - 1];
    }
  }

  /** Drops one `\r` from the end of a line that was terminated by `\n`. */
  function StripCr(l: Line): Line
  {
    if |l| > 0 && l[|l| - 1] == '\r' then l[..|l| - 1] else l
  }

  /**
   * `BufReader::lines`: one entry per `\n`-terminated line with the `\n` (and
   * a `\r` just before it) removed, plus the final unterminated line if the
   * text does not end in `\n`; that last line keeps a trailing `\r`.
   */
  function SplitLines(s: string): seq<Line>
    decreases |s|
  {
    if s == [] then []
    else
      var i := IndexOfNewline(s);
      if i == |s| then [s] else [StripCr(s[..i])] + SplitLines(s[i + 1..])
  }

  /** A line that survives a save and reload unchanged. */
  predicate WellFormedLine(l: Line)
  {
    (forall j :: 0 <= j < |l| ==> l[j] != '\n') && (l == [] || l[|l| - 1] != '\r')
  }

  predicate WellFormedLines(ls: seq<Line>)
  {
    forall k :: 0 <= k < |ls| ==> WellFormedLine(ls[k])
  }

  /** Round trip: reading back saved lines gives the same lines. */
  lemma {:induction false} SplitSerialise(ls: seq<Line>)
    requires WellFormedLines(ls)
    ensures SplitLines(SerialiseLines(ls)) == ls
  {
    if ls != [] {
      var l := ls[0];
      var rest := SerialiseLines(ls[1..]);
      var s := l + "\n" + rest;
      assert WellFormedLine(l);
      NewlineAfterLine(l, rest);
      assert s[..|l|] == l;
      assert s[|l| + 1..] == rest;
      assert WellFormedLines(ls[1..]) by {
        assert forall k :: 0 <= k < |ls| - 1 ==> ls[1..][k] == ls[k + 1];
      }
      SplitSerialise(ls[1..]);
    }
  }

  lemma NewlineAfterLine(l: Line, rest: string)
    requires forall j :: 0 <= j < |l| ==> l[j] != '\n'
    ensures IndexOfNewline(l + "\n" + rest) == |l|
  {
    var s := l + "\n" + rest;
    NoNewlineBefore(s);
    assert forall j :: 0 <= j < |l| ==> s[j] == l[j];
    assert s[|l|] == '\n';
  }

  /**
   * The other way round: text made of `\n`-terminated lines, with no `\r`
   * anywhere, is exactly what saving its lines writes.
   */
  lemma {:induction false} SerialiseSplit(s: string)
    requires Terminated(s) && NoCr(s)
    decreases |s|
    ensures SerialiseLines(SplitLines(s)) == s
  {
    if s != [] {
      TerminatedHasNewline(s);
      var i := IndexOfNewline(s);
      var l, rest := s[..i], s[i + 1..];
      CutAtNewline(s, i);
      SplitFirstLine(s, i);
      SerialiseSplit(rest);
      SerialiseLinesCons(l, SplitLines(rest));
    }
  }

  predicate NoCr(s: string)
  {
    forall j :: 0 <= j < |s| ==> s[j] != '\r'
  }

  predicate Terminated(s: string)
  {
    s == [] || s[|s| - 1] == '\n'
  }

  /** Text that ends in `\n` has a first `\n`. */
  lemma TerminatedHasNewline(s: string)
    requires s != [] && Terminated(s)
    ensures IndexOfNewline(s) < |s|
  {
    NoNewlineBefore(s);
  }

  /** Cutting `\r`-free text at a `\n` gives a line without `\r` and `\r`-free rest. */
  lemma CutAtNewline(s: string, i: nat)
    requires i < |s| && s[i] == '\n' && NoCr(s)
    ensures StripCr(s[..i]) == s[..i]
    ensures s == s[..i] + "\n" + s[i + 1..]
    ensures NoCr(s[i + 1..])
    ensures Terminated(s) ==> Terminated(s[i + 1..])
  {
    if i > 0 {
      assert s[..i][i - 1] == s[i - 1];
    }
    var rest := s[i + 1..];
    assert forall j :: 0 <= j < |rest| ==> rest[j] == s[i + 1 + j];
  }

  /** The first `\n`, at `i`, ends the first line read. */
  lemma SplitFirstLine(s: string, i: nat)
    requires s != [] && i == IndexOfNewline(s) && i < |s|
    ensures SplitLines(s) == [StripCr(s[..i])] + SplitLines(s[i + 1..])
  {
  }

  lemma SerialiseLinesCons(l: Line, ls: seq<Line>)
    ensures SerialiseLines([l] + ls) == l + "\n" + SerialiseLines(ls)
  {
    assert ([l] + ls)[1..] == ls;
  }

  /**
   * A last line that ends in `\r` and has no `\n` after it is read with the
   * `\r`, but once saved it reads back without it.
   */
  lemma ReloadDropsTrailingCr()
    ensures SplitLines("a\r") == ["a\r"]
    ensures SplitLines(SerialiseLines(SplitLines("a\r"))) == ["a"]
  {
    assert IndexOfNewline("a\r") == 2;
    SerialiseLinesCons("a\r", []);
    assert SerialiseLines(["a\r"]) == "a\r\n";
    NewlineAfterLine("a\r", []);
    assert "a\r" + "\n" + [] == "a\r\n";
    assert "a\r\n"[..2] == "a\r";
    assert StripCr("a\r") == "a";
    assert "a\r\n"[3..] == [];
    assert SplitLines("a\r\n") == [StripCr("a\r")] + SplitLines([]);
  }

  // ---------------------------------------------------------------------------
  // Saving: choosing the target file.

  datatype SavedFile = SavedFile(path: string, content: string)

  datatype IoError =
    | InvalidInput(message: string)  // no file name given and none remembered
    | CreateFailed(path: string)      // the operating system refused `File::create`

  datatype SaveStep = SaveStep(after: BufferView, result: Result<SavedFile, IoError>)

  /** The file `save` writes to: the given name, else the remembered one. */
  function SaveTarget(name: Option<string>, stored: Option<string>): Option<string>
  {
    if name.Some? then name else stored
  }

  /** What `save(name)` does to a buffer, and what it returns. */
  function SaveOutcome(v: BufferView, name: Option<string>, createSucceeds: bool): SaveStep
  {
    var after := if name.Some? then v.(filename := name) else v;
    match SaveTarget(name, v.filename)
    case None => SaveStep(after, Err(InvalidInput("No filename provided")))
    case Some(path) =>
      if createSucceeds then SaveStep(after, Ok(SavedFile(path, Serialise(v.lines))))
      else SaveStep(after, Err(CreateFailed(path)))
  }

  /**
   * `save(Some(f))` remembers `f` whether or not the file can then be
   * created, and on success writes the serialised lines to `f`.
   */
  lemma SaveRecordsName(v: BufferView, f: string, createSucceeds: bool)
    ensures SaveOutcome(v, Some(f), createSucceeds).after == v.(filename := Some(f))
    ensures SaveOutcome(v, Some(f), createSucceeds).result ==
      if createSucceeds then Ok(SavedFile(f, Serialise(v.lines))) else Err(CreateFailed(f))
  {
  }

  /**
   * `save(None)` writes to the remembered name and changes nothing; without a
   * remembered name it fails with `InvalidInput`.
   */
  lemma SaveWithoutName(v: BufferView, createSucceeds: bool)
    ensures SaveOutcome(v, None, createSucceeds).after == v
    ensures v.filename.None? ==>
      SaveOutcome(v, None, createSucceeds).result.Err? &&
      SaveOutcome(v, None, createSucceeds).result.error.InvalidInput?
    ensures v.filename.Some? && createSucceeds ==>
      SaveOutcome(v, None, createSucceeds).result == Ok(SavedFile(v.filename.value, Serialise(v.lines)))
  {
  }

  /** Saving never changes the lines or the cursor. */
  lemma SaveKeepsLines(v: BufferView, name: Option<string>, createSucceeds: bool)
    ensures SaveOutcome(v, name, createSucceeds).after.lines == v.lines
    ensures SaveOutcome(v, name, createSucceeds).after.currentLine == v.currentLine
  {
  }

  // ---------------------------------------------------------------------------
  // Character counting.

  /** `lines.iter().map(|s| s.len()).reduce(+).unwrap_or(0)`. */
  function TotalLen(ls: seq<Line>): nat
  {
    if ls == [] then 0 else Utf8Len(ls[0]) + TotalLen(ls[1..])
  }

  lemma {:induction false} TotalLenIsSerialisedSize(ls: seq<Line>)
    ensures TotalLen(ls) + |ls| == Utf8Len(SerialiseLines(ls))
  {
    if ls != [] {
      TotalLenIsSerialisedSize(ls[1..]);
      Utf8LenConcat(ls[0] + "\n", SerialiseLines(ls[1..]));
      Utf8LenConcat(ls[0], "\n");
      assert Utf8Len("\n") == 1;
    }
  }

  class LineBuffer {
    var lines: Option<seq<Line>>
    var filename: Option<string>
    var currentLine: nat

    function View(): BufferView
      reads this
    {
      BufferView(lines, filename, currentLine)
    }

    /** `LineBuffer::empty()`. */
    constructor Empty()
      ensures lines == None && filename == None && currentLine == 0
    {
      lines := None;
      filename := None;
      currentLine := 0;
    }

    /** `LineBuffer::from_file(path)` once the file has been read as `content`. */
    constructor FromFile(path: string, content: string)
      ensures lines == Some(SplitLines(content))
      ensures filename == Some(path) && currentLine == 0
    {
      filename := Some(path);
      lines := Some(SplitLines(content));
      currentLine := 0;
    }

    /**
     * `save(name)`: remembers an explicit name first, then creates the target
     * file and writes the lines to it one by one.
     */
    method Save(name: Option<string>, createSucceeds: bool) returns (r: Result<SavedFile, IoError>)
      modifies this`filename
      ensures View() == SaveOutcome(old(View()), name, createSucceeds).after
      ensures r == SaveOutcome(old(View()), name, createSucceeds).result
    {
      var target: string;
      match name {
        case Some(f) =>
          filename := Some(f);
          target := f;
        case None =>
          match filename {
            case Some(f) =>
              target := f;
            case None =>
              return Err(InvalidInput("No filename provided"));
          }
      }
      if !createSucceeds {
        return Err(CreateFailed(target));
      }
      var written: string := [];
      if lines.Some? {
        var ls := lines.value;
        var i := 0;
        while i < |ls|
          invariant 0 <= i <= |ls|
          invariant filename == old(SaveTarget(name, filename))
          invariant written == SerialiseLines(ls[..i])
        {
          assert ls[..i + 1] == ls[..i] + [ls[i]];
          SerialiseLinesConcat(ls[..i], [ls[i]]);
          written := written + ls[i] + "\n";
          i := i + 1;
        }
        assert ls[..|ls|] == ls;
      }
      r := Ok(SavedFile(target, written));
    }

    /** `char_length()`: UTF-8 bytes of all lines plus one per line, or `None` for absent lines. */
    function CharLength(): Option<nat>
      reads this
    {
      match lines
      case None => None
      case Some(ls) => Some(TotalLen(ls) + |ls|)
    }
  }

  /** `char_length` is the size in bytes of the file `save` writes. */
  lemma CharLengthIsSavedSize(b: LineBuffer)
    ensures b.lines.None? ==> b.CharLength() == None
    ensures b.lines.Some? ==> b.CharLength() == Some(Utf8Len(Serialise(b.lines)))
  {
    if b.lines.Some? {
      TotalLenIsSerialisedSize(b.lines.value);
    }
  }

  // ---------------------------------------------------------------------------
  // The module's own tests, replayed on the model.

  /**
   * The lines of the test file `test_files/one.txt`. The file itself is not
   * part of this model: its tests fix only the first, second and last lines,
   * the count of five and the byte count of 24; `three` and `four` are the
   * evident middle lines and make up exactly those 24 bytes.
   */
  const ONE_TXT_LINES: seq<Line> := ["one", "two", "three", "four", "five"]

  /** The text of `test_files/one.txt`: those lines, each ended by `\n`. */
  const ONE_TXT: string := SerialiseLines(ONE_TXT_LINES)

  /** The fields of `LineBuffer::empty()`. */
  const EMPTY_VIEW := BufferView(None, None, 0)

  /** The fields of `LineBuffer::from_file("test_files/one.txt")`. */
  const ONE_TXT_VIEW := BufferView(Some(ONE_TXT_LINES), Some("test_files/one.txt"), 0)

  lemma OneTxtLines()
    ensures SplitLines(ONE_TXT) == ONE_TXT_LINES
  {
    var ls := ONE_TXT_LINES;
    assert WellFormedLines(ls) by {
      forall k | 0 <= k < 5 ensures WellFormedLine(ls[k]) {
        AsciiLineWellFormed(ls[k]);
      }
    }
    SplitSerialise(ls);
  }

  lemma AsciiLineWellFormed(l: Line)
    requires forall i :: 0 <= i < |l| ==> 'a' <= l[i] <= 'z'
    ensures WellFormedLine(l)
  {
  }

  lemma OneTxtCharCount()
    ensures TotalLen(ONE_TXT_LINES) == 19
  {
    var ls := ONE_TXT_LINES;
    assert ls[1..] == ["two", "three", "four", "five"];
    assert ls[2..] == ["three", "four", "five"];
    assert ls[3..] == ["four", "five"];
    assert ls[4..] == ["five"];
    AsciiLen("one");
    AsciiLen("two");
    AsciiLen("three");
    AsciiLen("four");
    AsciiLen("five");
    assert TotalLen(ls[4..]) == 4 + TotalLen([]);
  }

  lemma AsciiLen(s: string)
    requires forall i :: 0 <= i < |s| ==> 'a' <= s[i] <= 'z'
    ensures Utf8Len(s) == |s|
  {
    Utf8LenAtLeastLength(s);
  }

  /** A new empty buffer has no lines, no file name and the cursor at 0. */
  method EmptyBufferCreate() returns (lines: Option<seq<Line>>, filename: Option<string>, cursor: nat, count: Option<nat>)
    ensures lines == None && filename == None && cursor == 0 && count == None
  {
    var b := new LineBuffer.Empty();
    lines, filename, cursor := b.lines, b.filename, b.currentLine;
    count := b.CharLength();
  }

  /** Loading `one.txt` remembers its name and reads five lines; their count of characters is 24. */
  method FromFileCreate() returns (filename: Option<string>, first: Line, last: Line, count: Option<nat>)
    ensures filename == Some("test_files/one.txt")
    ensures first == "one" && last == "five"
    ensures count == Some(24)
  {
    OneTxtLines();
    OneTxtCharCount();
    var b := new LineBuffer.FromFile("test_files/one.txt", ONE_TXT);
    filename := b.filename;
    first, last := b.lines.value[0], b.lines.value[4];
    count := b.CharLength();
  }

  /** Saving `one.txt` to another file and loading that file gives the same lines. */
  method FileSave() returns (original: Option<seq<Line>>, reloaded: Option<seq<Line>>)
    ensures original == reloaded == Some(ONE_TXT_LINES)
  {
    OneTxtLines();
    var b := new LineBuffer.FromFile("test_files/one.txt", ONE_TXT);
    var r := b.Save(Some("/tmp/out.txt"), true);
    assert r.value.content == ONE_TXT;
    var saved := new LineBuffer.FromFile("/tmp/out.txt", r.value.content);
    original, reloaded := b.lines, saved.lines;
  }
}
