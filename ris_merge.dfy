// popup.js, mergeRisFiles: clean the numbered title list, line-scan the RIS
// texts into records, collect the recovered titles, and build the merged text
// and the audit report. File reads and downloads are left to the caller: the
// model takes the texts and returns the two output strings.

module RisMerge {
  import opened Text
  import opened Seqs

  const TypeTag := "TY  -"
  const TitleTag := "TI  -"

  /** A line that opens a record. */
  predicate IsTypeLine(line: string) {
    StartsWith(line, TypeTag)
  }

  /** A line that holds a record's title. */
  predicate IsTitleLine(line: string) {
    StartsWith(line, TitleTag)
  }

  /** `line.substring(6).trim()`: the title a `TI  -` line carries. */
  function TitleOf(line: string): string {
    Trim(Substring(line, 6))
  }

  lemma TaggedLineNotBlank(line: string, tag: string)
    requires StartsWith(line, tag) && tag != [] && !IsWhitespace(tag[0])
    ensures !IsBlank(line)
  {
    assert line[0] == line[..|tag|][0];
  }

  // ---------------------------------------------------------------------------
  // The title list

  /** The replace of popup.js:7 (pattern: start, digits, a dot, whitespace): a leading run of digits followed by a
      dot, and the whitespace after it, is removed. */
  function StripOrdinal(line: string): string {
    var k := LeadingDigits(line);
    if 0 < k < |line| && line[k] == '.' then TrimStart(line[k + 1..]) else line
  }

  /** One line of the title file after cleaning. */
  function CleanTitle(line: string): string {
    Trim(StripOrdinal(line))
  }

  /** Every line cleaned, in order (the map of popup.js:7). */
  ghost function Cleaned(lines: seq<string>): seq<string> {
    if lines == [] then [] else [CleanTitle(lines[0])] + Cleaned(lines[1..])
  }

  /** The map-then-filter of popup.js:6-8. */
  function CleanTitles(lines: seq<string>): seq<string> {
    if lines == [] then []
    else
      var t := CleanTitle(lines[0]);
      (if t != [] then [t] else []) + CleanTitles(lines[1..])
  }

  /** Every kept title is non-empty and trimmed. */
  lemma {:induction false} CleanTitlesTrimmed(lines: seq<string>)
    ensures forall t :: t in CleanTitles(lines) ==> t != [] && IsTrimmed(t)
  {
    if lines != [] {
      CleanTitlesTrimmed(lines[1..]);
      TrimSpec(StripOrdinal(lines[0]));
    }
  }

  /** The kept titles are the cleaned lines in their order ... */
  lemma {:induction false} CleanTitlesInOrder(lines: seq<string>)
    ensures IsSubsequence(CleanTitles(lines), Cleaned(lines))
  {
    if lines != [] {
      CleanTitlesInOrder(lines[1..]);
      var t := CleanTitle(lines[0]);
      var rest := CleanTitles(lines[1..]);
      assert Cleaned(lines) == [t] + Cleaned(lines[1..]);
      if t != [] {
        assert CleanTitles(lines) == [t] + rest;
        assert ([t] + rest)[1..] == rest;
      } else {
        assert CleanTitles(lines) == rest;
      }
    }
  }

  /** ... with exactly the empty ones dropped. */
  lemma {:induction false} CleanTitlesKeepsNonEmpty(lines: seq<string>)
    ensures forall t :: t != [] ==> multiset(CleanTitles(lines))[t] == multiset(Cleaned(lines))[t]
  {
    if lines != [] {
      CleanTitlesKeepsNonEmpty(lines[1..]);
      var t := CleanTitle(lines[0]);
      var rest := CleanTitles(lines[1..]);
      assert Cleaned(lines) == [t] + Cleaned(lines[1..]);
      if t != [] {
        assert CleanTitles(lines) == [t] + rest;
      } else {
        assert CleanTitles(lines) == rest;
      }
    }
  }

  /** The titles read from the title file's text. */
  function TitleList(titleText: string): seq<string> {
    CleanTitles(SplitLines(titleText))
  }

  // ---------------------------------------------------------------------------
  // Scanning the RIS texts

  /** A record as the list of its lines; its text is each line followed by a
      line feed. */
  type Record = seq<string>

  function RecordText(r: Record): (text: string)
    ensures |text| >= |r|
  {
    if r == [] then "" else RecordText(r[..|r| - 1]) + r[|r| - 1] + "\n"
  }

  function RecordTexts(rs: seq<Record>): seq<string> {
    if rs == [] then [] else RecordTexts(rs[..|rs| - 1]) + [RecordText(rs[|rs| - 1])]
  }

  /** The scanner's state: records pushed so far, titles recovered so far, and
      the record being filled (`currentRecord`). */
  datatype ScanState = ScanState(records: seq<Record>, titles: set<string>, current: Record)

  const Start := ScanState([], {}, [])

  /** One iteration of the inner loop of popup.js:22-35. */
  function ScanLine(st: ScanState, line: string): ScanState {
    if IsTypeLine(line) then
      ScanState(if st.current != [] then st.records + [st.current] else st.records, st.titles, [line])
    else if IsTitleLine(line) then
      ScanState(st.records, st.titles + {TitleOf(line)}, st.current + [line])
    else if Trim(line) != "" then
      ScanState(st.records, st.titles, st.current + [line])
    else
      st
  }

  function ScanLines(st: ScanState, lines: seq<string>): ScanState {
    if lines == [] then st else ScanLine(ScanLines(st, lines[..|lines| - 1]), lines[|lines| - 1])
  }

  /** Every line of every text, file after file. */
  function AllLines(contents: seq<string>): seq<string> {
    if contents == [] then [] else AllLines(contents[..|contents| - 1]) + SplitLines(contents[|contents| - 1])
  }

  /** The state after the nested loop: the buffer runs on from one file to the next. */
  function Scan(contents: seq<string>): ScanState {
    ScanLines(Start, AllLines(contents))
  }

  /** The final flush of popup.js:37-39. */
  function Flush(st: ScanState): seq<Record> {
    if st.current != [] then st.records + [st.current] else st.records
  }

  function Records(contents: seq<string>): seq<Record> {
    Flush(Scan(contents))
  }

  function RecoveredTitles(contents: seq<string>): set<string> {
    Scan(contents).titles
  }

  lemma AppendLineText(r: Record, line: string)
    ensures RecordText(r + [line]) == RecordText(r) + line + "\n"
  {
    assert (r + [line])[..|r|] == r;
  }

  lemma PushRecordText(rs: seq<Record>, r: Record)
    ensures RecordTexts(rs + [r]) == RecordTexts(rs) + [RecordText(r)]
  {
    assert (rs + [r])[..|rs|] == rs;
  }

  /** The string buffers of the source hold the texts of the scanner's state. */
  ghost predicate Mirrors(st: ScanState, risRecords: seq<string>, risRecordTitles: set<string>, currentRecord: string) {
    && risRecords == RecordTexts(st.records)
    && risRecordTitles == st.titles
    && currentRecord == RecordText(st.current)
  }

  /** The body of the inner loop of popup.js:22-35 on the string buffers:
      it does to them what ScanLine does to the scanner's state. */
  method ScanLineInto(line: string, risRecords: seq<string>, risRecordTitles: set<string>, currentRecord: string, ghost st: ScanState)
    returns (risRecords': seq<string>, risRecordTitles': set<string>, currentRecord': string)
    requires Mirrors(st, risRecords, risRecordTitles, currentRecord)
    ensures Mirrors(ScanLine(st, line), risRecords', risRecordTitles', currentRecord')
  {
    risRecords', risRecordTitles', currentRecord' := risRecords, risRecordTitles, currentRecord;
    if IsTypeLine(line) {
      if currentRecord' != "" {
        PushRecordText(st.records, st.current);
        risRecords' := risRecords' + [currentRecord'];
      }
      AppendLineText([], line);
      currentRecord' := line + "\n";
    } else if IsTitleLine(line) {
      var title := Trim(Substring(line, 6));
      risRecordTitles' := risRecordTitles' + {title};
      AppendLineText(st.current, line);
      currentRecord' := currentRecord' + line + "\n";
    } else if Trim(line) != "" {
      AppendLineText(st.current, line);
      currentRecord' := currentRecord' + line + "\n";
    }
  }

  /** The inner loop of popup.js:21-35: the lines of one file applied to the
      string buffers. */
  method ScanTextInto(content: string, risRecords: seq<string>, risRecordTitles: set<string>, currentRecord: string, ghost st: ScanState)
    returns (risRecords': seq<string>, risRecordTitles': set<string>, currentRecord': string)
    requires Mirrors(st, risRecords, risRecordTitles, currentRecord)
    ensures Mirrors(ScanLines(st, SplitLines(content)), risRecords', risRecordTitles', currentRecord')
  {
    risRecords', risRecordTitles', currentRecord' := risRecords, risRecordTitles, currentRecord;
    var lines := SplitLines(content);
    ghost var st' := st;
    for j := 0 to |lines|
      invariant st' == ScanLines(st, lines[..j])
      invariant Mirrors(st', risRecords', risRecordTitles', currentRecord')
    {
      risRecords', risRecordTitles', currentRecord' := ScanLineInto(lines[j], risRecords', risRecordTitles', currentRecord', st');
      assert lines[..j + 1][..j] == lines[..j];
      st' := ScanLine(st', lines[j]);
    }
    assert lines[..|lines|] == lines;
  }

  /** The nested scan of popup.js:16-39, on string buffers as the source keeps
      them; the buffer is flushed once, after the last file. */
  method ScanRisFiles(risContents: seq<string>) returns (risRecords: seq<string>, risRecordTitles: set<string>)
    ensures risRecords == RecordTexts(Records(risContents))
    ensures risRecordTitles == RecoveredTitles(risContents)
  {
    risRecords := [];
    risRecordTitles := {};
    var currentRecord := "";
    ghost var st := Start;
    for f := 0 to |risContents|
      invariant st == Scan(risContents[..f])
      invariant Mirrors(st, risRecords, risRecordTitles, currentRecord)
    {
      risRecords, risRecordTitles, currentRecord := ScanTextInto(risContents[f], risRecords, risRecordTitles, currentRecord, st);
      ScanNextFile(risContents[..f], risContents[f]);
      assert risContents[..f + 1] == risContents[..f] + [risContents[f]];
      st := ScanLines(st, SplitLines(risContents[f]));
    }
    assert risContents[..|risContents|] == risContents;
    if currentRecord != "" {
      PushRecordText(st.records, st.current);
      risRecords := risRecords + [currentRecord];
    }
  }

  // ---------------------------------------------------------------------------
  // What the scan keeps

  function Flatten(rs: seq<Record>): seq<string> {
    if rs == [] then [] else Flatten(rs[..|rs| - 1]) + rs[|rs| - 1]
  }

  /** The lines that are not blank, in order. */
  function NonBlankLines(lines: seq<string>): seq<string> {
    if lines == [] then []
    else
      var last := lines[|lines| - 1];
      NonBlankLines(lines[..|lines| - 1]) + (if IsBlank(last) then [] else [last])
  }

  lemma FlattenPush(rs: seq<Record>, r: Record)
    ensures Flatten(rs + [r]) == Flatten(rs) + r
  {
    assert (rs + [r])[..|rs|] == rs;
  }

  lemma TagsAreNotWhitespace()
    ensures !IsWhitespace(TypeTag[0]) && !IsWhitespace(TitleTag[0])
  {
  }

  lemma TitleLineIsNotTypeLine(line: string)
    requires IsTitleLine(line)
    ensures !IsTypeLine(line)
  {
    assert line[1] == TitleTag[1];
  }

  lemma ScanLineKeepsLines(st: ScanState, line: string)
    ensures Flatten(ScanLine(st, line).records) + ScanLine(st, line).current
         == Flatten(st.records) + st.current + (if IsBlank(line) then [] else [line])
  {
    TrimSpec(line);
    TagsAreNotWhitespace();
    if IsTypeLine(line) {
      TaggedLineNotBlank(line, TypeTag);
      FlattenPush(st.records, st.current);
    } else if IsTitleLine(line) {
      TaggedLineNotBlank(line, TitleTag);
    }
  }

  lemma {:induction false} ScanLinesKeepsLines(st: ScanState, lines: seq<string>)
    ensures Flatten(ScanLines(st, lines).records) + ScanLines(st, lines).current
         == Flatten(st.records) + st.current + NonBlankLines(lines)
  {
    if lines != [] {
      var prefix := lines[..|lines| - 1];
      ScanLinesKeepsLines(st, prefix);
      ScanLineKeepsLines(ScanLines(st, prefix), lines[|lines| - 1]);
    }
  }

  /** No line is lost, duplicated or reordered: the records, laid end to end,
      are the non-blank lines of all the texts, file after file. */
  lemma LinesPreserved(contents: seq<string>)
    ensures Flatten(Records(contents)) == NonBlankLines(AllLines(contents))
  {
    var st := Scan(contents);
    var lines := AllLines(contents);
    ScanLinesKeepsLines(Start, lines);
    assert Flatten(st.records) + st.current == NonBlankLines(lines) by {
      assert Flatten(Start.records) + Start.current == [];
    }
    if st.current != [] {
      FlattenPush(st.records, st.current);
    } else {
      assert Flatten(st.records) + st.current == Flatten(st.records);
    }
  }

  function Concat(texts: seq<string>): string {
    if texts == [] then "" else Concat(texts[..|texts| - 1]) + texts[|texts| - 1]
  }

  lemma {:induction false} RecordTextAppend(a: Record, b: Record)
    ensures RecordText(a + b) == RecordText(a) + RecordText(b)
  {
    if b != [] {
      var b' := b[..|b| - 1];
      RecordTextAppend(a, b');
      assert (a + b)[..|a + b| - 1] == a + b';
    } else {
      assert a + b == a;
    }
  }

  lemma {:induction false} ConcatRecordTexts(rs: seq<Record>)
    ensures Concat(RecordTexts(rs)) == RecordText(Flatten(rs))
  {
    if rs != [] {
      var p := rs[..|rs| - 1];
      ConcatRecordTexts(p);
      RecordTextAppend(Flatten(p), rs[|rs| - 1]);
      assert RecordTexts(rs)[..|RecordTexts(rs)| - 1] == RecordTexts(p);
    }
  }

  /** The same on the texts the source builds: concatenating the records gives
      every non-blank input line followed by a line feed. */
  lemma RecordTextsKeepLines(contents: seq<string>)
    ensures Concat(RecordTexts(Records(contents))) == RecordText(NonBlankLines(AllLines(contents)))
  {
    ConcatRecordTexts(Records(contents));
    LinesPreserved(contents);
  }

  // ---------------------------------------------------------------------------
  // Record boundaries

  predicate NoInnerTypeLine(r: Record) {
    forall j :: 0 < j < |r| ==> !IsTypeLine(r[j])
  }

  /** Every record is non-empty and holds a type line at most at its head; every
      record after the first begins with one; once a record has been pushed, the
      buffer begins with a type line. */
  ghost predicate WellFormed(st: ScanState) {
    && (forall i :: 0 <= i < |st.records| ==> st.records[i] != [] && NoInnerTypeLine(st.records[i]))
    && (forall i :: 0 < i < |st.records| ==> IsTypeLine(st.records[i][0]))
    && NoInnerTypeLine(st.current)
    && (st.records != [] ==> st.current != [] && IsTypeLine(st.current[0]))
  }

  lemma ScanLineWellFormed(st: ScanState, line: string)
    requires WellFormed(st)
    ensures WellFormed(ScanLine(st, line))
  {
    if !IsTypeLine(line) && (IsTitleLine(line) || Trim(line) != "") {
      var c := st.current + [line];
      assert forall j :: 0 < j < |c| ==> c[j] == line || c[j] == st.current[j];
    }
  }

  lemma {:induction false} ScanLinesWellFormed(st: ScanState, lines: seq<string>)
    requires WellFormed(st)
    ensures WellFormed(ScanLines(st, lines))
  {
    if lines != [] {
      ScanLinesWellFormed(st, lines[..|lines| - 1]);
      ScanLineWellFormed(ScanLines(st, lines[..|lines| - 1]), lines[|lines| - 1]);
    }
  }

  /** A type line always opens a new record: no record is empty, none holds a
      type line after its first line, and every record after the first begins
      with a type line. */
  lemma RecordBoundaries(contents: seq<string>)
    ensures var rs := Records(contents);
      forall i :: 0 <= i < |rs| ==> rs[i] != [] && NoInnerTypeLine(rs[i]) && (i > 0 ==> IsTypeLine(rs[i][0]))
  {
    ScanLinesWellFormed(Start, AllLines(contents));
  }

  lemma {:induction false} FlattenHead(rs: seq<Record>)
    requires rs != [] && rs[0] != []
    ensures Flatten(rs) != [] && Flatten(rs)[0] == rs[0][0]
  {
    if |rs| > 1 {
      FlattenHead(rs[..|rs| - 1]);
    } else {
      assert Flatten(rs) == Flatten([]) + rs[0];
    }
  }

  /** The first record begins with the first non-blank line of the input; it
      begins with a type line only when that line is one. */
  lemma FirstRecordStart(contents: seq<string>)
    ensures var rs := Records(contents); var kept := NonBlankLines(AllLines(contents));
      (rs == [] <==> kept == []) && (rs != [] ==> rs[0] != [] && kept != [] && rs[0][0] == kept[0])
  {
    var rs := Records(contents);
    LinesPreserved(contents);
    RecordBoundaries(contents);
    if rs != [] {
      FlattenHead(rs);
    }
  }

  // ---------------------------------------------------------------------------
  // The buffer runs on across files

  lemma {:induction false} ScanLinesAppend(st: ScanState, a: seq<string>, b: seq<string>)
    ensures ScanLines(st, a + b) == ScanLines(ScanLines(st, a), b)
  {
    if b == [] {
      assert a + b == a;
    } else {
      ScanLinesAppend(st, a, b[..|b| - 1]);
      assert (a + b)[..|a + b| - 1] == a + b[..|b| - 1];
    }
  }

  /** Scanning one more file continues from the state the previous files left,
      unflushed buffer included. */
  lemma ScanNextFile(contents: seq<string>, text: string)
    ensures Scan(contents + [text]) == ScanLines(Scan(contents), SplitLines(text))
  {
    assert (contents + [text])[..|contents|] == contents;
    ScanLinesAppend(Start, AllLines(contents), SplitLines(text));
  }

  /** Lines without a type line go into the buffer as they are: lines at the
      head of a later file join the record the previous file left open. */
  lemma {:induction false} LinesJoinOpenRecord(st: ScanState, lines: seq<string>)
    requires forall i :: 0 <= i < |lines| ==> !IsTypeLine(lines[i])
    ensures ScanLines(st, lines).records == st.records
    ensures ScanLines(st, lines).current == st.current + NonBlankLines(lines)
  {
    if lines != [] {
      var last := lines[|lines| - 1];
      LinesJoinOpenRecord(st, lines[..|lines| - 1]);
      TrimSpec(last);
      TagsAreNotWhitespace();
      if IsTitleLine(last) {
        TaggedLineNotBlank(last, TitleTag);
      }
    }
  }

  // ---------------------------------------------------------------------------
  // Recovered titles

  function TitlesIn(lines: seq<string>): set<string> {
    if lines == [] then {}
    else
      var last := lines[|lines| - 1];
      TitlesIn(lines[..|lines| - 1]) + (if IsTitleLine(last) then {TitleOf(last)} else {})
  }

  lemma {:induction false} ScanLinesTitles(st: ScanState, lines: seq<string>)
    ensures ScanLines(st, lines).titles == st.titles + TitlesIn(lines)
  {
    if lines != [] {
      ScanLinesTitles(st, lines[..|lines| - 1]);
      if IsTitleLine(lines[|lines| - 1]) {
        TitleLineIsNotTypeLine(lines[|lines| - 1]);
      }
    }
  }

  lemma {:induction false} TitlesInMembers(lines: seq<string>)
    ensures forall t :: t in TitlesIn(lines) <==> exists i :: 0 <= i < |lines| && IsTitleLine(lines[i]) && TitleOf(lines[i]) == t
  {
    if lines != [] {
      var p := lines[..|lines| - 1];
      TitlesInMembers(p);
      forall t | t in TitlesIn(lines)
        ensures exists i :: 0 <= i < |lines| && IsTitleLine(lines[i]) && TitleOf(lines[i]) == t
      {
        if t in TitlesIn(p) {
          var i :| 0 <= i < |p| && IsTitleLine(p[i]) && TitleOf(p[i]) == t;
          assert lines[i] == p[i];
        } else {
          assert IsTitleLine(lines[|lines| - 1]) && TitleOf(lines[|lines| - 1]) == t;
        }
      }
      forall t | exists i :: 0 <= i < |lines| && IsTitleLine(lines[i]) && TitleOf(lines[i]) == t
        ensures t in TitlesIn(lines)
      {
        var i :| 0 <= i < |lines| && IsTitleLine(lines[i]) && TitleOf(lines[i]) == t;
        if i < |p| {
          assert p[i] == lines[i];
        }
      }
    }
  }

  /** The recovered titles are exactly the trimmed remainders of the `TI  -`
      lines of all files, wherever they stand (before any type line too). */
  lemma RecoveredTitlesExactly(contents: seq<string>)
    ensures var lines := AllLines(contents);
      forall t :: t in RecoveredTitles(contents) <==>
        exists i :: 0 <= i < |lines| && IsTitleLine(lines[i]) && TitleOf(lines[i]) == t
  {
    ScanLinesTitles(Start, AllLines(contents));
    TitlesInMembers(AllLines(contents));
    assert RecoveredTitles(contents) == TitlesIn(AllLines(contents));
  }

  // ---------------------------------------------------------------------------
  // The audit

  /** The filter of popup.js:42. */
  function MissingTitles(titles: seq<string>, recovered: set<string>): seq<string> {
    if titles == [] then []
    else (if titles[0] in recovered then [] else [titles[0]]) + MissingTitles(titles[1..], recovered)
  }

  /** The missing titles are the listed titles not recovered, matched exactly,
      in list order ... */
  lemma {:induction false} MissingTitlesInOrder(titles: seq<string>, recovered: set<string>)
    ensures IsSubsequence(MissingTitles(titles, recovered), titles)
    ensures forall t :: t in MissingTitles(titles, recovered) <==> t in titles && t !in recovered
  {
    if titles != [] {
      var m := MissingTitles(titles, recovered);
      var rest := MissingTitles(titles[1..], recovered);
      MissingTitlesInOrder(titles[1..], recovered);
      assert titles == [titles[0]] + titles[1..];
      if titles[0] !in recovered {
        assert m == [titles[0]] + rest;
        assert m[0] == titles[0] && m[1..] == rest;
      } else {
        assert m == rest;
      }
    }
  }

  /** ... with duplicates kept. */
  lemma {:induction false} MissingTitlesKeepDuplicates(titles: seq<string>, recovered: set<string>)
    ensures forall t :: t !in recovered ==> multiset(MissingTitles(titles, recovered))[t] == multiset(titles)[t]
  {
    if titles != [] {
      MissingTitlesKeepDuplicates(titles[1..], recovered);
      assert titles == [titles[0]] + titles[1..];
    }
  }

  datatype AuditReport = AuditReport(successCount: nat, totalCount: nat, missingTitles: seq<string>)

  /** The counts of popup.js:43-45: distinct recovered titles (which may exceed
      the number of listed titles) and listed titles. */
  function Audit(titles: seq<string>, recovered: set<string>): AuditReport {
    AuditReport(|recovered|, |titles|, MissingTitles(titles, recovered))
  }

  /** The numbered lines of popup.js:46, counting from first. */
  function Numbered(items: seq<string>, first: nat): seq<string> {
    if items == [] then [] else [DecimalString(first) + ". " + items[0]] + Numbered(items[1..], first + 1)
  }

  lemma {:induction false} NumberedAt(items: seq<string>, first: nat)
    ensures |Numbered(items, first)| == |items|
    ensures forall i :: 0 <= i < |items| ==> Numbered(items, first)[i] == DecimalString(first + i) + ". " + items[i]
  {
    if items != [] {
      NumberedAt(items[1..], first + 1);
    }
  }

  /** The report text of popup.js:43-46. */
  function ReportText(a: AuditReport): string {
    "校对报告：\n\n成功下载的文献：" + DecimalString(a.successCount) + "篇\n"
    + "总文献数：" + DecimalString(a.totalCount) + "篇\n\n"
    + "未成功下载的文献（" + DecimalString(|a.missingTitles|) + "篇）：\n"
    + Join(Numbered(a.missingTitles, 1), "\n")
  }

  lemma CleanNumberedTitle(n: nat, t: string)
    requires t != [] && IsTrimmed(t)
    ensures CleanTitle(DecimalString(n) + ". " + t) == t
  {
    var ds := DecimalString(n);
    var line := ds + ". " + t;
    assert line == ds + (". " + t);
    LeadingDigitsOf(ds, ". " + t);
    assert line[|ds|] == '.';
    assert line[|ds| + 1..] == " " + t;
    assert TrimStart(" " + t) == TrimStart(t) by {
      assert (" " + t)[1..] == t;
    }
    TrimSpec(t);
  }

  lemma {:induction false} CleanTitlesOfNumbered(items: seq<string>, first: nat)
    requires forall i :: 0 <= i < |items| ==> items[i] != [] && IsTrimmed(items[i])
    ensures CleanTitles(Numbered(items, first)) == items
  {
    if items != [] {
      CleanTitlesOfNumbered(items[1..], first + 1);
      CleanNumberedTitle(first, items[0]);
      var lines := Numbered(items, first);
      assert lines[1..] == Numbered(items[1..], first + 1);
    }
  }

  lemma NumberedNoLineFeeds(items: seq<string>, first: nat)
    requires forall i :: 0 <= i < |items| ==> '\n' !in items[i]
    ensures NoLineFeeds(Numbered(items, first))
  {
    var lines := Numbered(items, first);
    NumberedAt(items, first);
    forall i | 0 <= i < |lines| ensures '\n' !in lines[i] {
      var ds := DecimalString(first + i);
      assert lines[i] == ds + ". " + items[i];
      assert forall c :: c in ds ==> IsDigit(c);
    }
  }

  /** The numbered list of the report, read back as a title file, gives the
      listed titles back: the report's numbering and the title cleaning are
      inverse to each other. */
  lemma NumberedListReadsBack(items: seq<string>)
    requires forall i :: 0 <= i < |items| ==> items[i] != [] && IsTrimmed(items[i]) && '\n' !in items[i]
    ensures TitleList(Join(Numbered(items, 1), "\n")) == items
  {
    if items == [] {
      assert SplitLines("") == [""];
      assert StripOrdinal("") == "";
    } else {
      NumberedAt(items, 1);
      NumberedNoLineFeeds(items, 1);
      SplitLinesJoin(Numbered(items, 1));
      CleanTitlesOfNumbered(items, 1);
    }
  }

  lemma CleanTitleNoLineFeed(line: string)
    requires '\n' !in line
    ensures '\n' !in CleanTitle(line)
  {
    var k := LeadingDigits(line);
    if 0 < k < |line| && line[k] == '.' {
      TrimStartSpec(line[k + 1..]);
    }
    var u := StripOrdinal(line);
    assert '\n' !in u;
    TrimStartSpec(u);
    TrimEndSpec(TrimStart(u));
  }

  lemma {:induction false} CleanTitlesNoLineFeeds(lines: seq<string>)
    requires NoLineFeeds(lines)
    ensures forall t :: t in CleanTitles(lines) ==> '\n' !in t
  {
    if lines != [] {
      CleanTitlesNoLineFeeds(lines[1..]);
      CleanTitleNoLineFeed(lines[0]);
    }
  }

  /** Whatever the inputs, the missing list of the report, saved as a title
      file, reads back as exactly the missing titles. */
  lemma ReportListReadsBack(titleText: string, contents: seq<string>)
    ensures var a := Audit(TitleList(titleText), RecoveredTitles(contents));
      TitleList(Join(Numbered(a.missingTitles, 1), "\n")) == a.missingTitles
  {
    var titles := TitleList(titleText);
    var m := MissingTitles(titles, RecoveredTitles(contents));
    CleanTitlesTrimmed(SplitLines(titleText));
    CleanTitlesNoLineFeeds(SplitLines(titleText));
    MissingTitlesInOrder(titles, RecoveredTitles(contents));
    assert forall i :: 0 <= i < |m| ==> m[i] in titles;
    NumberedListReadsBack(m);
  }

  /** The example of a three-title list with two titles recovered. */
  lemma AuditOfThreeTitles()
    ensures Audit(["A", "B", "C"], {"A", "C"}) == AuditReport(2, 3, ["B"])
  {
    assert MissingTitles(["C"], {"A", "C"}) == [];
    assert MissingTitles(["B", "C"], {"A", "C"}) == ["B"] by {
      assert ["B", "C"][1..] == ["C"];
    }
    assert ["A", "B", "C"][1..] == ["B", "C"];
  }

  // ---------------------------------------------------------------------------
  // The merged text

  /** The lines of the records with one empty line between consecutive records. */
  function Separated(rs: seq<Record>): seq<string> {
    if |rs| == 0 then []
    else if |rs| == 1 then rs[0]
    else rs[0] + [""] + Separated(rs[1..])
  }

  lemma {:induction false} RecordTextsAt(rs: seq<Record>)
    ensures |RecordTexts(rs)| == |rs|
    ensures forall i :: 0 <= i < |rs| ==> RecordTexts(rs)[i] == RecordText(rs[i])
  {
    if rs != [] {
      RecordTextsAt(rs[..|rs| - 1]);
    }
  }

  /** `risRecords.join('\n')`: since every record ends in a line feed, the merged
      text is the records' lines with one empty line between records, each line
      followed by a line feed; no records give the empty text. */
  lemma {:induction false} MergedTextLayout(rs: seq<Record>)
    ensures Join(RecordTexts(rs), "\n") == RecordText(Separated(rs))
  {
    RecordTextsAt(rs);
    if |rs| == 1 {
      assert RecordTexts(rs) == [RecordText(rs[0])];
    } else if |rs| > 1 {
      MergedTextLayout(rs[1..]);
      RecordTextsAt(rs[1..]);
      assert RecordTexts(rs)[1..] == RecordTexts(rs[1..]);
      RecordTextAppend(rs[0], [""]);
      RecordTextAppend(rs[0] + [""], Separated(rs[1..]));
      assert RecordText([""]) == "\n" by {
        assert [""][..0] == [];
      }
    }
  }

  /** mergeRisFiles without its file reads and downloads: the merged RIS text
      and the audit report. */
  method MergeRisFiles(risContents: seq<string>, titleText: string) returns (mergedRis: string, report: string)
    ensures mergedRis == RecordText(Separated(Records(risContents)))
    ensures report == ReportText(Audit(TitleList(titleText), RecoveredTitles(risContents)))
  {
    var titles := TitleList(titleText);
    var risRecords, risRecordTitles := ScanRisFiles(risContents);
    var missingTitles := MissingTitles(titles, risRecordTitles);
    report := ReportText(AuditReport(|risRecordTitles|, |titles|, missingTitles));
    mergedRis := Join(risRecords, "\n");
    MergedTextLayout(Records(risContents));
  }
}
