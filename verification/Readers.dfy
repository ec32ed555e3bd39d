/** Reading a child process in chunks: records, tree pages, path history, batch metadata and byte ranges. The number of
    bytes a read returns is arbitrary, so every result proved here is independent of the chunking. */
module Readers {
  import opened Numbers
  import opened Text
  import opened Pointer

  const NUL: char := 0 as char
  const RS: char := 0x1e as char
  const CHUNK := 64 * 1024

  /** A child process's standard output. */
  class Pipe {
    const content: string
    var position: nat

    ghost predicate Valid()
      reads this
    {
      position <= |content|
    }

    constructor (output: string)
      ensures Valid() && content == output && position == 0
    {
      content, position := output, 0;
    }

    /** `stdout.read(limit)`: some bytes, none only at the end. */
    method Read(limit: nat) returns (chunk: string)
      requires Valid() && limit > 0
      modifies this
      ensures Valid() && position >= old(position) && chunk == content[old(position)..position] && |chunk| <= limit
      ensures chunk == "" ==> position == |content|
    {
      var available := |content| - position;
      if available == 0 {
        return "";
      }
      var n: nat :| 1 <= n <= available && n <= limit;
      chunk := content[position..position + n];
      position := position + n;
    }
  }

  // ---- splitting what has been read so far ----------------------------------------------------

  function Last(parts: seq<string>): string
    requires parts != []
  {
    parts[|parts| - 1]
  }

  function Front(parts: seq<string>): seq<string>
    requires parts != []
  {
    parts[..|parts| - 1]
  }

  /** Splitting more input only extends the last piece. */
  lemma {:induction false} SplitAppend(a: string, b: string, sep: char)
    ensures Split(a + b, sep) == Front(Split(a, sep)) + Split(Last(Split(a, sep)) + b, sep)
    decreases |a|
  {
    hide Split;
    var i := IndexOf(a, sep);
    if i == |a| {
      assert a[..i] == a;
      SplitPlain(a, sep);
      assert Front([a]) == [];
    } else {
      var head, tail := a[..i], a[i + 1..];
      assert a == head + [sep] + tail && a + b == head + [sep] + (tail + b);
      SplitHead(head, tail, sep);
      SplitHead(head, tail + b, sep);
      SplitAppend(tail, b, sep);
      SplitSplits(head, Split(tail, sep));
    }
  }

  lemma SplitSplits(head: string, rest: seq<string>)
    requires rest != []
    ensures Front([head] + rest) == [head] + Front(rest) && Last([head] + rest) == Last(rest)
  {
  }

  // ---- NUL-terminated records ----------------------------------------------------------------------

  /** The terminated records of an output. */
  function Records(output: string): seq<string> { Front(Split(output, NUL)) }

  function Take(records: seq<string>, maximum: nat): seq<string> { if |records| <= maximum then records else records[..maximum] }

  lemma RecordsGrow(a: string, b: string)
    ensures Records(a + b) == Records(a) + Records(Last(Split(a, NUL)) + b)
    ensures Last(Split(a + b, NUL)) == Last(Split(Last(Split(a, NUL)) + b, NUL))
  {
    SplitAppend(a, b, NUL);
  }

  /** What the reader holds: the records taken and the buffer together amount to what has been read. */
  ghost predicate Holds(records: seq<string>, buffer: string, read: string)
  {
    Records(read) == records + Records(buffer) && Last(Split(read, NUL)) == Last(Split(buffer, NUL))
  }

  lemma HoldsMore(records: seq<string>, buffer: string, read: string, chunk: string)
    requires Holds(records, buffer, read)
    ensures Holds(records, buffer + chunk, read + chunk)
  {
    hide Split;
    RecordsGrow(read, chunk);
    RecordsGrow(buffer, chunk);
  }

  lemma HoldsOneMore(records: seq<string>, record: string, rest: string, read: string)
    requires Holds(records, record + [NUL] + rest, read) && NUL !in record
    ensures Holds(records + [record], rest, read)
  {
    SplitHead(record, rest, NUL);
    assert Front([record] + Split(rest, NUL)) == [record] + Records(rest);
  }

  /** `_read_nul_records`: the first `maximum` records; the error of a failed process only if it gave none. */
  method ReadNulRecords(pipe: Pipe, maximum: nat, failed: bool) returns (result: Result<seq<string>, ()>)
    requires pipe.Valid() && pipe.position == 0
    modifies pipe
    ensures result == (if failed && Take(Records(pipe.content), maximum) == [] then Err(()) else Ok(Take(Records(pipe.content), maximum)))
  {
    hide Split, Records;
    var records: seq<string> := [];
    var buffer := "";
    assert Holds([], "", pipe.content[..0]);
    while |records| < maximum
      invariant pipe.Valid() && |records| <= maximum
      invariant Holds(records, buffer, pipe.content[..pipe.position])
      invariant |records| < maximum ==> NUL !in buffer
      decreases |pipe.content| - pipe.position, maximum - |records|
    {
      ghost var before := pipe.position;
      var chunk := pipe.Read(CHUNK);
      if chunk == "" {
        break;
      }
      HoldsMore(records, buffer, pipe.content[..before], chunk);
      assert pipe.content[..before] + chunk == pipe.content[..pipe.position];
      buffer := buffer + chunk;
      ghost var after := pipe.position;
      while NUL in buffer && |records| < maximum
        invariant pipe.Valid() && pipe.position == after
        invariant |records| <= maximum && Holds(records, buffer, pipe.content[..after])
        decreases |buffer|
      {
        var i := IndexOf(buffer, NUL);
        assert i < |buffer| by { assert buffer[..i] == buffer || i < |buffer|; }
        var record, rest := buffer[..i], buffer[i + 1..];
        assert buffer == record + [NUL] + rest;
        HoldsOneMore(records, record, rest, pipe.content[..after]);
        records, buffer := records + [record], rest;
      }
    }
    TakenIsPrefix(records, buffer, pipe.content, pipe.position, maximum);
    return if failed && records == [] then Err(()) else Ok(records);
  }

  lemma TakenIsPrefix(records: seq<string>, buffer: string, content: string, position: nat, maximum: nat)
    requires position <= |content| && Holds(records, buffer, content[..position]) && |records| <= maximum
    requires |records| < maximum ==> NUL !in buffer && position == |content|
    ensures records == Take(Records(content), maximum)
  {
    assert content == content[..position] + content[position..];
    RecordsGrow(content[..position], content[position..]);
    if |records| < maximum {
      SplitPlain(buffer, NUL);
      assert content[..position] == content;
    }
  }

  // ---- tree pages ---------------------------------------------------------------------------------------

  datatype Page = Page(entries: seq<string>, next: Option<nat>)

  /** The paging half of `list_tree`, over the records the reader returned. */
  function PageOf(listing: seq<string>, limit: nat, offset: nat): Page
  {
    var records := Take(listing, offset + limit + 1);
    var entries := if offset <= |records| then records[offset..] else [];
    Page(Take(entries, limit), if |entries| > limit then Some(offset + limit) else None)
  }

  /** Everything a client collects by following the next offsets. */
  function Followed(listing: seq<string>, limit: nat, offset: nat): seq<string>
    requires limit > 0
    decreases |listing| - offset
  {
    var page := PageOf(listing, limit, offset);
    if page.next.Some? && page.next.value < |listing| then page.entries + Followed(listing, limit, page.next.value) else page.entries
  }

  /** A page is the next slice of the listing, and has a successor exactly when entries remain. */
  lemma PageIsSlice(listing: seq<string>, limit: nat, offset: nat)
    requires offset <= |listing|
    ensures PageOf(listing, limit, offset).entries == listing[offset..Min(offset + limit, |listing|)]
    ensures PageOf(listing, limit, offset).next == if offset + limit < |listing| then Some(offset + limit) else None
  {
    var records := Take(listing, offset + limit + 1);
    if offset + limit < |listing| {
      assert records[offset..][..limit] == listing[offset..offset + limit];
    } else {
      assert records == listing && |listing[offset..]| <= limit;
    }
  }

  /** Pages tile the listing: following them from the start collects every entry once, in order. */
  lemma {:induction false} PagesTile(listing: seq<string>, limit: nat, offset: nat)
    requires limit > 0 && offset <= |listing|
    ensures Followed(listing, limit, offset) == listing[offset..]
    decreases |listing| - offset
  {
    hide PageOf;
    PageIsSlice(listing, limit, offset);
    if offset + limit < |listing| {
      PagesTile(listing, limit, offset + limit);
      assert listing[offset..] == listing[offset..offset + limit] + listing[offset + limit..];
    }
  }

  // ---- byte ranges ------------------------------------------------------------------------------------------

  /** `_parse_byte_range`: no header, a range, or an error. */
  function ParseByteRange(header: Option<string>, size: nat): Result<Option<(int, int)>, ()>
  {
    if header.None? then Ok(None)
    else if !("bytes=" <= header.value) || ',' in header.value then Err(())
    else
      var text := header.value[6..];
      var dash := IndexOf(text, '-');
      if dash == |text| || |text| == 1 then Err(())
      else
        var startText, endText := text[..dash], text[dash + 1..];
        if startText == "" then
          match PyInt(endText)
          case None => Err(())
          case Some(suffix) => if suffix <= 0 || size == 0 then Err(()) else Ok(Some((if size > suffix then size - suffix else 0, size)))
        else
          match PyInt(startText)
          case None => Err(())
          case Some(start) =>
            var end := if endText == "" then Some(size as int) else match PyInt(endText) { case None => None case Some(last) => Some(Min(size, last + 1)) };
            if end.None? || start < 0 || start >= size || end.value <= start then Err(()) else Ok(Some((start, end.value)))
  }

  /** A range that is answered lies inside the blob and is not empty. */
  lemma RangeIsInside(header: Option<string>, size: nat)
    requires ParseByteRange(header, size).Ok? && ParseByteRange(header, size).value.Some?
    ensures var (start, end) := ParseByteRange(header, size).value.value; 0 <= start < end <= size
  {
  }

  lemma NumeralIsPlain(n: nat)
    ensures '-' !in PrintNat(n) && ',' !in PrintNat(n) && PrintNat(n) != ""
  {
    assert !IsDigit('-') && !IsDigit(',');
  }

  lemma HeaderParts(startText: string, endText: string)
    requires '-' !in startText && ',' !in startText && ',' !in endText
    ensures var header := "bytes=" + startText + "-" + endText;
            && "bytes=" <= header && ',' !in header && header[6..] == startText + "-" + endText
            && IndexOf(header[6..], '-') == |startText| && header[6..][..|startText|] == startText
            && header[6..][|startText| + 1..] == endText
  {
    var header := "bytes=" + startText + "-" + endText;
    assert header[6..] == startText + ['-'] + endText;
    IndexOfFirst(startText, '-', endText);
    assert ',' !in "bytes=" && ',' !in "-";
  }

  /** For `first-last` of RFC 9110 section 14.1.2: satisfiable exactly when it is ordered and starts inside the blob;
      the
      last position is clamped. */
  lemma BoundedRange(first: nat, last: nat, size: nat)
    ensures ParseByteRange(Some("bytes=" + PrintNat(first) + "-" + PrintNat(last)), size)
            == if first <= last && first < size then Ok(Some((first as int, Min(size, last + 1)))) else Err(())
  {
    hide PyInt, PrintNat;
    NumeralIsPlain(first);
    NumeralIsPlain(last);
    HeaderParts(PrintNat(first), PrintNat(last));
    PyIntOfNumeral(first);
    PyIntOfNumeral(last);
  }

  /** For `first-`: satisfiable exactly when it starts inside the blob. */
  lemma OpenRange(first: nat, size: nat)
    ensures ParseByteRange(Some("bytes=" + PrintNat(first) + "-"), size)
         == if first < size then Ok(Some((first as int, size as int))) else Err(())
  {
    hide PyInt, PrintNat;
    NumeralIsPlain(first);
    HeaderParts(PrintNat(first), "");
    PyIntOfNumeral(first);
    assert "bytes=" + PrintNat(first) + "-" + "" == "bytes=" + PrintNat(first) + "-";
  }

  /** For the suffix `-length`: satisfiable exactly when neither it nor the blob is empty; a longer suffix is the whole
      blob. */
  lemma SuffixRange(length: nat, size: nat)
    ensures ParseByteRange(Some("bytes=" + "-" + PrintNat(length)), size)
            == if length > 0
            && size > 0 then Ok(Some((if size > length then size - length else 0, size as int))) else Err(())
  {
    hide PyInt, PrintNat;
    NumeralIsPlain(length);
    HeaderParts("", PrintNat(length));
    PyIntOfNumeral(length);
    assert "bytes=" + "" + "-" + PrintNat(length) == "bytes=" + "-" + PrintNat(length);
  }

  /** `_stream_process_range`: exactly the requested slice, or an error if the blob ends before it. */
  method StreamRange(pipe: Pipe, start: nat, end: nat) returns (yielded: string, ok: bool)
    requires pipe.Valid() && pipe.position == 0 && start <= end
    modifies pipe
    ensures ok <==> end <= |pipe.content|
    ensures ok ==> yielded == pipe.content[start..end]
    ensures !ok ==> yielded == if start <= |pipe.content| then pipe.content[start..] else ""
  {
    yielded := "";
    var remainingSkip := start;
    while remainingSkip > 0
      invariant pipe.Valid() && 0 <= remainingSkip && pipe.position == start - remainingSkip
    {
      var chunk := pipe.Read(if remainingSkip < CHUNK then remainingSkip else CHUNK);
      if chunk == "" {
        return "", false;
      }
      remainingSkip := remainingSkip - |chunk|;
    }
    var remainingContent := end - start;
    while remainingContent > 0
      invariant pipe.Valid() && start <= pipe.position && 0 <= remainingContent
                && pipe.position == end - remainingContent && yielded == pipe.content[start..pipe.position]
    {
      var chunk := pipe.Read(if remainingContent < CHUNK then remainingContent else CHUNK);
      if chunk == "" {
        return yielded, false;
      }
      remainingContent := remainingContent - |chunk|;
      yielded := yielded + chunk;
    }
    return yielded, true;
  }

  datatype Response = Full(body: string) | Partial(start: nat, end: nat, body: string) | Unsatisfiable

  /** The range handling of the raw download: a parsed range streams exactly its slice of the blob. */
  method Download(pipe: Pipe, header: Option<string>) returns (response: Response)
    requires pipe.Valid() && pipe.position == 0
    modifies pipe
    ensures match ParseByteRange(header, |pipe.content|)
            case Err(_) => response == Unsatisfiable
            case Ok(None) => response == Full(pipe.content)
            case Ok(Some((start, end))) =>
                   0 <= start < end <= |pipe.content| && response == Partial(start, end, pipe.content[start..end])
  {
    var size := |pipe.content|;
    var parsed := ParseByteRange(header, size);
    if parsed.Err? {
      return Unsatisfiable;
    }
    if parsed.value.None? {
      var body, ok := StreamRange(pipe, 0, size);
      return Full(body);
    }
    RangeIsInside(header, size);
    var body, ok := StreamRange(pipe, parsed.value.value.0, parsed.value.value.1);
    return Partial(parsed.value.value.0, parsed.value.value.1, body);
  }
}
