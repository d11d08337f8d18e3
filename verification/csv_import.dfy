/** The CSV import transform: each chunk of the uploaded body is turned, on
    its own, into the list of task bodies it would post to the create
    endpoint, in line order. The posting itself (a network round trip whose
    outcomes arrive in no fixed order) is not part of this module. */
module CsvImport {
  import opened Search
  import opened Text
  import opened Schema

  /** What one line of a chunk contributes, given the chunk's first line:
      nothing for a copy of that line, for a blank line, or for a line that
      does not split into exactly two comma-separated fields; otherwise the
      two fields, trimmed. So a line yields a payload exactly when it differs
      from the first line, holds a character other than white space, and
      holds exactly one comma, and the payload is the trimmed text on either
      side of that comma. */
  function RowPayload(row: string, header: string): (r: Option<TaskBody>)
    ensures r.Some? <==>
      && row != header
      && (exists i :: 0 <= i < |row| && !IsWhitespace(row[i]))
      && Count(row, ',') == 1
    ensures forall k :: 0 <= k < |row| && row[k] == ',' && r.Some? ==>
      r.value == TaskBody(Trim(row[..k]), Trim(row[k + 1..]))
  {
    SplitCount(row, ',');
    SingleCommaFields(row);
    if row == header then None
    else if Trim(row) == "" then None
    else
      var data := Split(row, ',');
      if |data| != 2 then None
      else Some(TaskBody(Trim(data[0]), Trim(data[1])))
  }

  /** The two fields of a line with one comma are the text around it. */
  lemma SingleCommaFields(row: string)
    ensures forall k :: 0 <= k < |row| && row[k] == ',' && Count(row, ',') == 1 ==>
      Split(row, ',') == [row[..k], row[k + 1..]]
  {
    forall k | 0 <= k < |row| && row[k] == ',' && Count(row, ',') == 1
      ensures Split(row, ',') == [row[..k], row[k + 1..]]
    {
      SplitOnce(row, ',', k);
    }
  }

  /** The payloads of some lines, in line order. */
  function Collect(lines: seq<string>, header: string): (r: seq<TaskBody>)
    ensures |r| <= |lines|
  {
    if |lines| == 0 then []
    else
      match RowPayload(lines[0], header)
      case None => Collect(lines[1..], header)
      case Some(p) => [p] + Collect(lines[1..], header)
  }

  /** The lines of a chunk: `chunk.toString().split("\n")`. */
  function Lines(chunk: string): (lines: seq<string>)
    ensures |lines| >= 1
    ensures forall i :: 0 <= i < |lines| ==> '\n' !in lines[i]
    ensures Join(lines, '\n') == chunk
  {
    Split(chunk, '\n')
  }

  /** One call of the transform: the payloads of one chunk. The chunk's own
      first line plays the header, so it never yields a payload. */
  function ChunkPayloads(chunk: string): (r: seq<TaskBody>)
    ensures |r| <= |Lines(chunk)| - 1
  {
    var lines := Lines(chunk);
    assert lines == [lines[0]] + lines[1..];
    Collect(lines, lines[0])
  }

  /** The payloads of a whole upload, chunk after chunk; nothing is carried
      from one chunk to the next. */
  function ImportPayloads(chunks: seq<string>): (r: seq<TaskBody>)
    ensures forall p :: p in r <==> exists i :: 0 <= i < |chunks| && p in ChunkPayloads(chunks[i])
  {
    if |chunks| == 0 then []
    else
      assert forall i :: 1 <= i < |chunks| ==> chunks[1..][i - 1] == chunks[i];
      ChunkPayloads(chunks[0]) + ImportPayloads(chunks[1..])
  }

  /** Collecting distributes over concatenated line lists: payloads follow
      line order. */
  lemma {:induction false} CollectAppend(a: seq<string>, b: seq<string>, header: string)
    ensures Collect(a + b, header) == Collect(a, header) + Collect(b, header)
    decreases |a|
  {
    if |a| == 0 {
      assert a + b == b;
    } else {
      assert (a + b)[1..] == a[1..] + b;
      CollectAppend(a[1..], b, header);
    }
  }

  /** A payload is collected exactly when some line yields it. */
  lemma {:induction false} CollectMembers(lines: seq<string>, header: string, p: TaskBody)
    ensures p in Collect(lines, header) <==> exists i :: 0 <= i < |lines| && RowPayload(lines[i], header) == Some(p)
    decreases |lines|
  {
    if |lines| > 0 {
      var rest := lines[1..];
      var head := RowPayload(lines[0], header);
      CollectMembers(rest, header, p);
      assert Collect(lines, header) == (if head.Some? then [head.value] else []) + Collect(rest, header);
      if p in Collect(lines, header) && head != Some(p) {
        var j :| 0 <= j < |rest| && RowPayload(rest[j], header) == Some(p);
        assert lines[j + 1] == rest[j];
      }
      if exists i :: 0 <= i < |lines| && RowPayload(lines[i], header) == Some(p) {
        var i :| 0 <= i < |lines| && RowPayload(lines[i], header) == Some(p);
        if i > 0 {
          assert rest[i - 1] == lines[i];
        }
      }
    }
  }

  /** Every payload of a chunk comes from one of its lines that is not a
      copy of the first line, and every such line that yields one is
      represented. */
  lemma ChunkPayloadOrigin(chunk: string, p: TaskBody)
    ensures p in ChunkPayloads(chunk) <==>
      exists i :: 0 <= i < |Lines(chunk)| && Lines(chunk)[i] != Lines(chunk)[0]
                  && RowPayload(Lines(chunk)[i], Lines(chunk)[0]) == Some(p)
  {
    CollectMembers(Lines(chunk), Lines(chunk)[0], p);
  }

  /** Chunks are processed independently of one another. */
  lemma {:induction false} ImportAppend(a: seq<string>, b: seq<string>)
    ensures ImportPayloads(a + b) == ImportPayloads(a) + ImportPayloads(b)
    decreases |a|
  {
    if |a| == 0 {
      assert a + b == b;
    } else {
      assert (a + b)[1..] == a[1..] + b;
      ImportAppend(a[1..], b);
    }
  }

  /** A two-field line's payload, worked out from where its comma is. */
  lemma PairRow(row: string, header: string, k: nat)
    requires k < |row| && row[k] == ','
    requires row != header
    requires ',' !in row[..k] && ',' !in row[k + 1..]
    requires Trim(row) != ""
    ensures RowPayload(row, header) == Some(TaskBody(Trim(row[..k]), Trim(row[k + 1..])))
  {
    assert row == row[..k] + [','] + row[k + 1..];
    SplitJoin([row[..k], row[k + 1..]], ',');
  }

  /** A line whose fields carry no padding yields exactly those fields. */
  lemma PlainPairRow(row: string, header: string, title: string, description: string)
    requires row == title + "," + description
    requires row != header
    requires ',' !in title && ',' !in description
    requires title == [] || (!IsWhitespace(title[0]) && !IsWhitespace(title[|title| - 1]))
    requires description == [] || (!IsWhitespace(description[0]) && !IsWhitespace(description[|description| - 1]))
    ensures RowPayload(row, header) == Some(TaskBody(title, description))
  {
    var k := |title|;
    assert row[k] == ',';
    assert row[..k] == title && row[k + 1..] == description;
    if row == "," {
      // Two empty fields: the comma is the only character, and not white space.
      assert !IsWhitespace(row[0]);
    } else if title != [] {
      assert !IsWhitespace(row[0]);
    } else {
      assert !IsWhitespace(row[|row| - 1]);
    }
    assert Trim(row) != "";
    PairRow(row, header, k);
    TrimUnpadded(title);
    TrimUnpadded(description);
  }

  /** The lines of a chunk built by joining separator-free lines. */
  lemma LinesOf(chunk: string, lines: seq<string>)
    requires |lines| >= 1
    requires forall i :: 0 <= i < |lines| ==> '\n' !in lines[i]
    requires Join(lines, '\n') == chunk
    ensures Lines(chunk) == lines
  {
    SplitJoin(lines, '\n');
  }

  /** One step of collecting: the first line's contribution, then the rest. */
  lemma CollectStep(row: string, rest: seq<string>, header: string)
    ensures Collect([row] + rest, header)
      == (match RowPayload(row, header) case None => [] case Some(p) => [p]) + Collect(rest, header)
  {
    assert ([row] + rest)[1..] == rest;
  }

  // The rows of the worked examples below, one lemma per row so that the
  // verifier evaluates each on its own.

  lemma RowAB(row: string, header: string)
    requires row == "A,B" && header != row
    ensures RowPayload(row, header) == Some(TaskBody("A", "B"))
  {
    PlainPairRow(row, header, "A", "B");
  }

  lemma RowCD(row: string, header: string)
    requires row == "C,D" && header != row
    ensures RowPayload(row, header) == Some(TaskBody("C", "D"))
  {
    PlainPairRow(row, header, "C", "D");
  }

  lemma RowComma(row: string, header: string)
    requires row == "," && header != row
    ensures RowPayload(row, header) == Some(TaskBody("", ""))
  {
    PlainPairRow(row, header, "", "");
  }

  lemma RowThreeFields(row: string, header: string)
    requires row == "C,D,E"
    ensures RowPayload(row, header) == None
  {
    assert row == Join(["C", "D", "E"], ',');
    SplitJoin(["C", "D", "E"], ',');
  }

  lemma RowEmpty(row: string, header: string)
    requires row == ""
    ensures RowPayload(row, header) == None
  {
  }

  lemma ExampleRows(l0: string, l1: string, l2: string, l3: string, l4: string)
    requires RowPayload(l1, l0) == Some(TaskBody("A", "B"))
    requires RowPayload(l2, l0) == Some(TaskBody("", ""))
    requires RowPayload(l3, l0) == None && RowPayload(l4, l0) == None
    ensures Collect([l0, l1, l2, l3, l4], l0) == [TaskBody("A", "B"), TaskBody("", "")]
  {
    CollectStep(l4, [], l0);
    CollectStep(l3, [l4], l0);
    assert Collect([l3, l4], l0) == [];
    CollectStep(l2, [l3, l4], l0);
    assert Collect([l2, l3, l4], l0) == [TaskBody("", "")];
    CollectStep(l1, [l2, l3, l4], l0);
    CollectStep(l0, [l1, l2, l3, l4], l0);
  }

  /** The upload `title,description / A,B / , / C,D,E` posts exactly two
      bodies: `A,B`, and `,` as two empty fields. The three-field line and
      the trailing empty line post nothing. */
  lemma ExampleUpload()
    ensures ChunkPayloads("title,description\nA,B\n,\nC,D,E\n") == [TaskBody("A", "B"), TaskBody("", "")]
  {
    var lines := ["title,description", "A,B", ",", "C,D,E", ""];
    LinesOf("title,description\nA,B\n,\nC,D,E\n", lines);
    RowAB(lines[1], lines[0]);
    RowComma(lines[2], lines[0]);
    RowThreeFields(lines[3], lines[0]);
    RowEmpty(lines[4], lines[0]);
    ExampleRows(lines[0], lines[1], lines[2], lines[3], lines[4]);
  }

  lemma WholeRows(l0: string, l1: string, l2: string)
    requires RowPayload(l1, l0) == Some(TaskBody("A", "B"))
    requires RowPayload(l2, l0) == Some(TaskBody("C", "D"))
    ensures Collect([l0, l1, l2], l0) == [TaskBody("A", "B"), TaskBody("C", "D")]
  {
    CollectStep(l2, [], l0);
    CollectStep(l1, [l2], l0);
    CollectStep(l0, [l1, l2], l0);
  }

  lemma FirstChunkRows(l0: string, l1: string, l2: string)
    requires RowPayload(l1, l0) == Some(TaskBody("A", "B"))
    requires RowPayload(l2, l0) == None
    ensures Collect([l0, l1, l2], l0) == [TaskBody("A", "B")]
  {
    CollectStep(l2, [], l0);
    CollectStep(l1, [l2], l0);
    CollectStep(l0, [l1, l2], l0);
  }

  lemma SecondChunkRows(l0: string)
    ensures Collect([l0], l0) == []
  {
    CollectStep(l0, [], l0);
  }

  lemma RepeatedHeaderRows(l0: string, l1: string, l3: string)
    requires RowPayload(l1, l0) == Some(TaskBody("A", "B"))
    requires RowPayload(l3, l0) == Some(TaskBody("C", "D"))
    ensures Collect([l0, l1, l0, l3], l0) == [TaskBody("A", "B"), TaskBody("C", "D")]
  {
    CollectStep(l3, [], l0);
    CollectStep(l0, [l3], l0);
    CollectStep(l1, [l0, l3], l0);
    CollectStep(l0, [l1, l0, l3], l0);
  }

  /** Every copy of the first line is skipped, not only the first one. */
  lemma RepeatedHeaderSkipped()
    ensures ChunkPayloads("title,description\nA,B\ntitle,description\nC,D")
      == [TaskBody("A", "B"), TaskBody("C", "D")]
  {
    var lines := ["title,description", "A,B", "title,description", "C,D"];
    LinesOf("title,description\nA,B\ntitle,description\nC,D", lines);
    RowAB(lines[1], lines[0]);
    RowCD(lines[3], lines[0]);
    RepeatedHeaderRows(lines[0], lines[1], lines[3]);
  }

  lemma WholeChunk()
    ensures ChunkPayloads("title,description\nA,B\nC,D") == [TaskBody("A", "B"), TaskBody("C", "D")]
  {
    var lines := ["title,description", "A,B", "C,D"];
    LinesOf("title,description\nA,B\nC,D", lines);
    RowAB(lines[1], lines[0]);
    RowCD(lines[2], lines[0]);
    WholeRows(lines[0], lines[1], lines[2]);
  }

  lemma FirstChunk()
    ensures ChunkPayloads("title,description\nA,B\n") == [TaskBody("A", "B")]
  {
    var lines := ["title,description", "A,B", ""];
    LinesOf("title,description\nA,B\n", lines);
    RowAB(lines[1], lines[0]);
    RowEmpty(lines[2], lines[0]);
    FirstChunkRows(lines[0], lines[1], lines[2]);
  }

  lemma SecondChunk()
    ensures ChunkPayloads("C,D") == []
  {
    LinesOf("C,D", ["C,D"]);
    SecondChunkRows("C,D");
  }

  /** Importing a list of chunks, one step. */
  lemma ImportStep(chunk: string, rest: seq<string>)
    ensures ImportPayloads([chunk] + rest) == ChunkPayloads(chunk) + ImportPayloads(rest)
  {
    assert ([chunk] + rest)[1..] == rest;
  }

  /** The header is skipped per chunk: when an upload arrives in two chunks,
      the first line of the second chunk is dropped although it is data. */
  lemma HeaderSkippedPerChunk()
    ensures ImportPayloads(["title,description\nA,B\nC,D"]) == [TaskBody("A", "B"), TaskBody("C", "D")]
    ensures ImportPayloads(["title,description\nA,B\n", "C,D"]) == [TaskBody("A", "B")]
  {
    WholeChunk();
    FirstChunk();
    SecondChunk();
    ImportStep("title,description\nA,B\nC,D", []);
    ImportStep("C,D", []);
    ImportStep("title,description\nA,B\n", ["C,D"]);
  }
}
