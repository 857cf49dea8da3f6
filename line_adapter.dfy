/** The line adapter through which the legacy parameter-file reader pulls
    in-memory text: fake_fgets_for_nxs over a FakeFileForNXSLoader. It
    behaves like C's fgets (section 7.21.7.2 of ISO/IEC 9899:2011) on the
    stream obtained by ending every line with a newline, except that a line
    which does not fit the buffer is an error instead of being split. */
module LineAdapter {
  import opened NxsErrors

  /** The three things one call can do: return a null pointer (end of
      input), return the buffer (a line was copied), or throw. */
  datatype FgetsOutcome = EndOfInput | Copied | Raised(error: Error)

  /** The NUL character that ends a C string. */
  const Nul: char := 0 as char
  /** The newline character fgets stops after. */
  const Newline: char := 10 as char

  /** The C string a character buffer holds: everything before its first
      NUL character (the whole buffer if it has none). */
  function CString(buf: seq<char>): (r: seq<char>)
    ensures Nul !in r
    ensures |r| <= |buf| && r == buf[..|r|]
    ensures |r| < |buf| ==> buf[|r|] == Nul
  {
    if buf == [] || buf[0] == Nul then [] else [buf[0]] + CString(buf[1..])
  }

  /** The characters ISO C fgets stores when it may store at most `limit`
      of them (count - 1 for a buffer of count): it stops after a newline,
      at end of file, or when the limit is reached. */
  function IsoFgetsRead(stream: seq<char>, limit: nat): (r: seq<char>)
    ensures |r| <= limit && |r| <= |stream|
    ensures r == stream[..|r|]
    ensures forall i :: 0 <= i < |r| - 1 ==> r[i] != Newline
  {
    if limit == 0 || stream == [] then []
    else if stream[0] == Newline then [Newline]
    else [stream[0]] + IsoFgetsRead(stream[1..], limit - 1)
  }

  /** A copied line, read back as a C string, is the line followed by its
      newline terminator (lines hold no NUL characters). */
  lemma {:induction false} CopiedLineReadsBack(buf: seq<char>, line: seq<char>)
    requires Nul !in line
    requires |line| + 2 <= |buf|
    requires buf[..|line|] == line && buf[|line|] == Newline && buf[|line| + 1] == Nul
    ensures CString(buf) == line + [Newline]
  {
    if line == [] {
      assert buf[0] == Newline;
      assert buf[1..][0] == Nul;
      assert CString(buf[1..]) == [];
    } else {
      assert buf[0] == line[0];
      assert buf[1..][..|line[1..]|] == line[1..];
      CopiedLineReadsBack(buf[1..], line[1..]);
      assert [line[0]] + (line[1..] + [Newline]) == line + [Newline];
    }
  }

  /** ISO fgets with a limit of at least |line| + 1 reads exactly the line
      and its newline from a stream where the line comes next. */
  lemma {:induction false} IsoFgetsReadsLine(line: seq<char>, rest: seq<char>, limit: nat)
    requires Newline !in line
    requires |line| + 1 <= limit
    ensures IsoFgetsRead(line + [Newline] + rest, limit) == line + [Newline]
  {
    var stream := line + [Newline] + rest;
    if line == [] {
      assert stream[0] == Newline;
    } else {
      assert stream[0] == line[0];
      assert stream[1..] == line[1..] + [Newline] + rest;
      IsoFgetsReadsLine(line[1..], rest, limit - 1);
      assert [line[0]] + (line[1..] + [Newline]) == line + [Newline];
    }
  }

  /** Whenever the adapter copies a line into a buffer of count characters,
      the C string it leaves there is exactly what ISO fgets would have
      stored for the same buffer: the same text, whatever follows. */
  lemma CopiedAgreesWithIsoFgets(buf: seq<char>, line: seq<char>, rest: seq<char>, count: int)
    requires Nul !in line && Newline !in line
    requires 3 <= count && |line| + 2 < count && count <= |buf|
    requires buf[..|line|] == line && buf[|line|] == Newline && buf[|line| + 1] == Nul
    ensures CString(buf) == IsoFgetsRead(line + [Newline] + rest, count - 1)
  {
    CopiedLineReadsBack(buf, line);
    IsoFgetsReadsLine(line, rest, count - 1);
  }

  /** The adapter is stricter than fgets by one character: at |line| + 2 ==
      count it throws, although fgets would have read the whole line with
      its newline and its NUL would have filled the last cell. */
  lemma RejectedBoundaryLineFitsIsoFgets(line: seq<char>, rest: seq<char>, count: int)
    requires Newline !in line
    requires 3 <= count && |line| + 2 == count
    ensures IsoFgetsRead(line + [Newline] + rest, count - 1) == line + [Newline]
  {
    IsoFgetsReadsLine(line, rest, count - 1);
  }

  /** FakeFileForNXSLoader: the lines of a TextData, its source name (used
      only in error messages), and the iterator m_it as a cursor. */
  class FakeFile {
    const lines: seq<seq<char>>
    const sourceName: seq<char>
    var cursor: nat

    ghost predicate Valid()
      reads this
    {
      cursor <= |lines|
    }

    /** The iterator starts at the first line. */
    constructor (lines: seq<seq<char>>, sourceName: seq<char>)
      ensures Valid()
      ensures this.lines == lines && this.sourceName == sourceName && cursor == 0
    {
      this.lines := lines;
      this.sourceName := sourceName;
      cursor := 0;
    }

    /** fake_fgets_for_nxs(str, count). The caller's buffer holds at least
        count characters, and count is in [3, 1000000000] as the routine
        asserts. */
    method Fgets(str: array<char>, count: int) returns (r: FgetsOutcome)
      requires Valid()
      requires 3 <= count <= 1000000000
      requires count <= str.Length
      modifies this`cursor, str
      ensures Valid()
      // end of input: an empty C string, nothing else touched
      ensures old(cursor) == |lines| ==>
                && r == EndOfInput && cursor == old(cursor)
                && str[0] == Nul
                && str[1..] == old(str[1..])
      // too long: DataLoadError before anything is written
      ensures old(cursor) < |lines| && |lines[old(cursor)]| + 2 >= count ==>
                && r == Raised(DataLoadError) && cursor == old(cursor)
                && str[..] == old(str[..])
      // copied: line, newline, NUL; the rest of the buffer is untouched
      ensures old(cursor) < |lines| && |lines[old(cursor)]| + 2 < count ==>
                var n := |lines[old(cursor)]|;
                && r == Copied && cursor == old(cursor) + 1
                && str[..n] == lines[old(cursor)]
                && str[n] == Newline && str[n + 1] == Nul
                && str[n + 2..] == old(str[n + 2..])
    {
      if cursor == |lines| {
        str[0] := Nul;
        return EndOfInput;
      }
      var nextLine := lines[cursor];
      var n := |nextLine|;
      if n + 2 >= count {
        return Raised(DataLoadError);
      }
      // memcpy(str, &nextLine[0], n)
      for i := 0 to n
        invariant cursor == old(cursor)
        invariant str[..i] == nextLine[..i]
        invariant forall k :: i <= k < str.Length ==> str[k] == old(str[k])
      {
        str[i] := nextLine[i];
        assert str[..i + 1] == str[..i] + [str[i]];
        assert nextLine[..i + 1] == nextLine[..i] + [nextLine[i]];
      }
      str[n] := Newline;
      str[n + 1] := Nul;
      cursor := cursor + 1;
      r := Copied;
    }
  }
}
