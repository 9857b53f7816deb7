/**
 * `BotonImportar`: the CSV import button. `processCSV` takes the first line
 * as the header row and turns each later line with as many fields as there
 * are headers into a record. Fields are split on every comma: there is no
 * quoting and no escaping.
 */
module CsvImport {
  import opened Common

  /** A parsed line: header name to trimmed field. */
  type Record = map<string, string>

  const Delimiter: string := ","
  const Newline: string := "\n"

  /**
   * Assigning to `__proto__` with a string value is ignored by JavaScript
   * objects, so a column with that header never becomes a key.
   */
  const ProtoKey: string := "__proto__"

  /** `object[header] = value`. */
  function Assign(acc: Record, header: string, value: string): (r: Record)
    ensures header != ProtoKey ==> r == acc[header := value]
    ensures header == ProtoKey ==> r == acc
  {
    if header == ProtoKey then acc else acc[header := value]
  }

  /** The record the `reduce` over the headers builds, one assignment per column in order. */
  function RecordOf(headers: seq<string>, values: seq<string>): Record
    requires |headers| == |values|
  {
    if |headers| == 0 then map[]
    else Assign(RecordOf(headers[..|headers| - 1], values[..|values| - 1]),
                headers[|headers| - 1], Trim(values[|values| - 1]))
  }

  /** The keys are the header names, except `__proto__`. */
  lemma {:induction false} RecordOfKeys(headers: seq<string>, values: seq<string>)
    requires |headers| == |values|
    ensures forall k :: k in RecordOf(headers, values) <==> k in headers && k != ProtoKey
    decreases |headers|
  {
    if |headers| > 0 {
      var n := |headers| - 1;
      RecordOfKeys(headers[..n], values[..n]);
      assert headers == headers[..n] + [headers[n]];
    }
  }

  /** Each key holds the trimmed field of the LAST column with that name. */
  lemma {:induction false} RecordOfValues(headers: seq<string>, values: seq<string>, i: nat)
    requires |headers| == |values| && i < |headers| && headers[i] != ProtoKey
    requires forall j :: i < j < |headers| ==> headers[j] != headers[i]
    ensures headers[i] in RecordOf(headers, values)
    ensures RecordOf(headers, values)[headers[i]] == Trim(values[i])
    decreases |headers|
  {
    var n := |headers| - 1;
    var h, v := headers[..n], values[..n];
    var prev := RecordOf(h, v);
    assert RecordOf(headers, values) == Assign(prev, headers[n], Trim(values[n]));
    if i < n {
      assert h[i] == headers[i] && v[i] == values[i];
      forall j | i < j < |h| ensures h[j] != h[i] {
        assert h[j] == headers[j];
      }
      RecordOfValues(h, v, i);
      AssignOther(prev, headers[n], Trim(values[n]), headers[i]);
    }
  }

  /** Assigning one header leaves every other key as it was. */
  lemma AssignOther(acc: Record, header: string, value: string, k: string)
    requires k in acc && k != header
    ensures k in Assign(acc, header, value) && Assign(acc, header, value)[k] == acc[k]
  {
  }

  /** Both halves together: which keys the record has, and what each holds. */
  lemma RecordOfContents(headers: seq<string>, values: seq<string>)
    requires |headers| == |values|
    ensures forall k :: k in RecordOf(headers, values) <==> k in headers && k != ProtoKey
    ensures forall i :: 0 <= i < |headers| && headers[i] != ProtoKey
                        && (forall j :: i < j < |headers| ==> headers[j] != headers[i]) ==>
              RecordOf(headers, values)[headers[i]] == Trim(values[i])
  {
    RecordOfKeys(headers, values);
    forall i | 0 <= i < |headers| && headers[i] != ProtoKey
               && (forall j :: i < j < |headers| ==> headers[j] != headers[i])
      ensures RecordOf(headers, values)[headers[i]] == Trim(values[i])
    {
      RecordOfValues(headers, values, i);
    }
  }

  /** The reduce of `processCSV`, one column at a time. */
  method BuildRecord(headers: seq<string>, values: seq<string>) returns (el: Record)
    requires |headers| == |values|
    ensures el == RecordOf(headers, values)
  {
    el := map[];
    var i := 0;
    while i < |headers|
      invariant 0 <= i <= |headers|
      invariant el == RecordOf(headers[..i], values[..i])
    {
      el := Assign(el, headers[i], Trim(values[i]));
      assert headers[..i + 1][..i] == headers[..i];
      assert values[..i + 1][..i] == values[..i];
      i := i + 1;
    }
    assert headers[..i] == headers && values[..i] == values;
  }

  /** `s.split(',').map(h => h.trim())`. */
  function TrimAll(s: seq<string>): (r: seq<string>)
    ensures |r| == |s|
    ensures forall i :: 0 <= i < |s| ==> r[i] == Trim(s[i])
  {
    if |s| == 0 then [] else [Trim(s[0])] + TrimAll(s[1..])
  }

  /**
   * The header line: the text before the first newline. Without a newline,
   * `slice(0, -1)` takes everything but the last character.
   */
  function HeaderText(text: string): string {
    match IndexOf(text, Newline)
    case Some(i) => text[..i]
    case None => if |text| == 0 then "" else text[..|text| - 1]
  }

  /** The data text: after the first newline, or the whole text when there is none. */
  function DataText(text: string): string {
    match IndexOf(text, Newline)
    case Some(i) => text[i + 1..]
    case None => text
  }

  function Headers(text: string): seq<string> {
    TrimAll(Split(HeaderText(text), Delimiter))
  }

  /** A line is kept when it has exactly as many fields as there are headers. */
  predicate Kept(headers: seq<string>, line: string) {
    |Split(line, Delimiter)| == |headers|
  }

  /** `rows.map(...).filter(item => item !== null)`. */
  function ParseRows(headers: seq<string>, lines: seq<string>): (r: seq<Record>)
    ensures |r| <= |lines|
  {
    if |lines| == 0 then []
    else
      var line := lines[0];
      var rest := ParseRows(headers, lines[1..]);
      if Kept(headers, line) then [RecordOf(headers, Split(line, Delimiter))] + rest else rest
  }

  /** `processCSV(str)`. */
  function ProcessCsv(text: string): (r: seq<Record>)
    ensures |r| <= |Split(DataText(text), Newline)|
  {
    ParseRows(Headers(text), Split(DataText(text), Newline))
  }

  /** Lines are parsed independently and their records keep the input order. */
  lemma {:induction false} ParseRowsAppend(headers: seq<string>, a: seq<string>, b: seq<string>)
    ensures ParseRows(headers, a + b) == ParseRows(headers, a) + ParseRows(headers, b)
    decreases |a|
  {
    if |a| == 0 {
      assert a + b == b;
    } else {
      assert (a + b)[0] == a[0];
      assert (a + b)[1..] == a[1..] + b;
      ParseRowsAppend(headers, a[1..], b);
    }
  }

  /** One step of ParseRows: the first line's record, if it is kept, then the rest. */
  lemma ParseRowsCons(headers: seq<string>, lines: seq<string>)
    requires |lines| > 0
    ensures ParseRows(headers, lines)
            == (if Kept(headers, lines[0]) then [RecordOf(headers, Split(lines[0], Delimiter))] else [])
               + ParseRows(headers, lines[1..])
  {
  }

  /** Every record comes from a kept line. */
  lemma {:induction false} RecordsComeFromKeptLines(headers: seq<string>, lines: seq<string>)
    ensures forall r :: r in ParseRows(headers, lines) ==>
              exists i :: 0 <= i < |lines| && Kept(headers, lines[i]) && r == RecordOf(headers, Split(lines[i], Delimiter))
    decreases |lines|
  {
    if |lines| > 0 {
      var tail := lines[1..];
      RecordsComeFromKeptLines(headers, tail);
      ParseRowsCons(headers, lines);
      forall r | r in ParseRows(headers, lines)
        ensures exists i :: 0 <= i < |lines| && Kept(headers, lines[i]) && r == RecordOf(headers, Split(lines[i], Delimiter))
      {
        if r in ParseRows(headers, tail) {
          var i :| 0 <= i < |tail| && Kept(headers, tail[i]) && r == RecordOf(headers, Split(tail[i], Delimiter));
          assert lines[i + 1] == tail[i];
        } else {
          assert Kept(headers, lines[0]) && r == RecordOf(headers, Split(lines[0], Delimiter));
        }
      }
    }
  }

  /** Every kept line gives its record. */
  lemma {:induction false} KeptLinesGiveRecords(headers: seq<string>, lines: seq<string>)
    ensures forall i :: 0 <= i < |lines| && Kept(headers, lines[i]) ==>
              RecordOf(headers, Split(lines[i], Delimiter)) in ParseRows(headers, lines)
    decreases |lines|
  {
    if |lines| > 0 {
      var tail := lines[1..];
      KeptLinesGiveRecords(headers, tail);
      ParseRowsCons(headers, lines);
      forall i | 0 <= i < |lines| && Kept(headers, lines[i])
        ensures RecordOf(headers, Split(lines[i], Delimiter)) in ParseRows(headers, lines)
      {
        if i > 0 {
          assert tail[i - 1] == lines[i];
        }
      }
    }
  }

  /** Every record comes from a kept line, and every kept line gives its record. */
  lemma ParseRowsIsKeptLines(headers: seq<string>, lines: seq<string>)
    ensures forall r :: r in ParseRows(headers, lines) ==>
              exists i :: 0 <= i < |lines| && Kept(headers, lines[i]) && r == RecordOf(headers, Split(lines[i], Delimiter))
    ensures forall i :: 0 <= i < |lines| && Kept(headers, lines[i]) ==>
              RecordOf(headers, Split(lines[i], Delimiter)) in ParseRows(headers, lines)
  {
    RecordsComeFromKeptLines(headers, lines);
    KeptLinesGiveRecords(headers, lines);
  }

  /**
   * A trailing empty line (the text ends with a newline) yields a record only
   * when there is exactly one header; that record maps it to "".
   */
  lemma TrailingEmptyLine(headers: seq<string>, lines: seq<string>)
    ensures |headers| != 1 ==> ParseRows(headers, lines + [""]) == ParseRows(headers, lines)
    ensures |headers| == 1 ==> ParseRows(headers, lines + [""]) == ParseRows(headers, lines) + [RecordOf(headers, [""])]
  {
    ParseRowsAppend(headers, lines, [""]);
    SplitWithoutSeparator("", Delimiter);
    TrimOfTrimmed("");
  }

  /** Without a newline the header is the text minus its last character, and the whole text is the only line. */
  lemma NoNewline(text: string)
    requires Newline[0] !in text
    ensures HeaderText(text) == (if |text| == 0 then "" else text[..|text| - 1])
    ensures Split(DataText(text), Newline) == [text]
  {
    SplitWithoutSeparator(text, Newline);
  }

  /** With a newline the header line is what precedes it and the data is what follows. */
  lemma WithNewline(head: string, data: string)
    requires Newline[0] !in head
    ensures HeaderText(head + Newline + data) == head
    ensures DataText(head + Newline + data) == data
  {
    IndexOfAfterFreePrefix(head, Newline, data);
    var t := head + Newline + data;
    assert t[..|head|] == head;
    assert t[|head| + 1..] == data;
  }

  // ---------------------------------------------------------------------
  // The upload handler
  // ---------------------------------------------------------------------

  const EmptyFileMessage: string := "El archivo parece estar vac\U{00ED}o o tener un formato incorrecto."

  datatype UploadEffect = NoEffect | DataLoaded(data: seq<Record>) | Alert(message: string)

  /** `handleFileUpload`: no file does nothing; only a non-empty result reaches `onDataLoaded`. */
  function HandleFileUpload(file: Option<string>): (e: UploadEffect)
    ensures file.None? <==> e.NoEffect?
    ensures e.DataLoaded? ==> |e.data| > 0 && e.data == ProcessCsv(file.value)
    ensures file.Some? && |ProcessCsv(file.value)| == 0 ==> e == Alert(EmptyFileMessage)
  {
    match file
    case None => NoEffect
    case Some(text) =>
      var data := ProcessCsv(text);
      if |data| > 0 then DataLoaded(data) else Alert(EmptyFileMessage)
  }
}
