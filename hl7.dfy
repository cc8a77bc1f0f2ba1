/**
 * `ingest/hl7_parser.py`: HL7 v2 ORU^R01 text to flat result records.
 *
 * The text is cut into messages at every line that starts with "MSH"
 * (trimmed, blank lines dropped). Each message is decoded into segments by
 * the HL7 library (a parameter of the model). A message gives one record per
 * OBX segment (section 7.4.2 of HL7 v2.5), all sharing the patient of the
 * first PID segment (PID-3, section 3.4.2) and the observation time of the
 * first OBR segment that has OBR-7 (section 7.4.1).
 */
module Hl7Parser {
  import opened Wrappers
  import opened Text
  import opened Values
  import Foreign

  // ------------------------------------------------------------ splitting

  /** `content.strip().split('\n')` */
  function Lines(content: string): seq<string> {
    Split(Strip(content), '\n')
  }

  /** A line that opens a new message. */
  predicate IsHeader(line: string) {
    StartsWith(line, "MSH")
  }

  /** The splitter's state: the messages closed so far and the lines of the open one. */
  datatype Splitter = Splitter(closed: seq<seq<string>>, current: seq<string>)

  /** One turn of the line loop. */
  function Feed(st: Splitter, line: string): Splitter {
    var t := Strip(line);
    if t == "" then st
    else if IsHeader(t) then Splitter(if st.current != [] then st.closed + [st.current] else st.closed, [t])
    else Splitter(st.closed, st.current + [t])
  }

  /** The state after the line loop has seen all of `lines`. */
  function FeedAll(lines: seq<string>): Splitter {
    if |lines| == 0 then Splitter([], []) else Feed(FeedAll(lines[..|lines| - 1]), lines[|lines| - 1])
  }

  /** The final flush of the open message. */
  function Close(st: Splitter): seq<seq<string>> {
    if st.current != [] then st.closed + [st.current] else st.closed
  }

  /** The messages, as lists of their lines. */
  function Groups(lines: seq<string>): seq<seq<string>> {
    Close(FeedAll(lines))
  }

  /** The messages as the text handed to the HL7 library: lines joined by '\n'. */
  function JoinAll(groups: seq<seq<string>>): seq<string> {
    seq(|groups|, k requires 0 <= k < |groups| => Join(groups[k], '\n'))
  }

  function Messages(lines: seq<string>): seq<string> {
    JoinAll(Groups(lines))
  }

  /** The trimmed, non-blank lines, in order. */
  function NonBlank(lines: seq<string>): seq<string> {
    if |lines| == 0 then []
    else
      var t := Strip(lines[|lines| - 1]);
      NonBlank(lines[..|lines| - 1]) + (if t == "" then [] else [t])
  }

  function Flatten(groups: seq<seq<string>>): seq<string> {
    if |groups| == 0 then [] else Flatten(groups[..|groups| - 1]) + groups[|groups| - 1]
  }

  /** No line after the first of a message is a header. */
  predicate HeaderOnlyFirst(g: seq<string>) {
    forall j :: 1 <= j < |g| ==> !IsHeader(g[j])
  }

  /**
   * The shape of the splitter's output: no message is empty, every message
   * after the first starts with a header, and no other line is a header.
   */
  predicate WellFormed(groups: seq<seq<string>>) {
    forall k :: 0 <= k < |groups| ==>
      groups[k] != [] && (k > 0 ==> IsHeader(groups[k][0])) && HeaderOnlyFirst(groups[k])
  }

  predicate SplitterInv(st: Splitter) {
    WellFormed(st.closed)
    && (st.closed != [] ==> st.current != [] && IsHeader(st.current[0]))
    && HeaderOnlyFirst(st.current)
  }

  lemma FlattenAppend(groups: seq<seq<string>>, g: seq<string>)
    ensures Flatten(groups + [g]) == Flatten(groups) + g
  {
    assert (groups + [g])[..|groups|] == groups;
  }

  lemma FeedKeeps(st: Splitter, line: string)
    requires SplitterInv(st)
    ensures SplitterInv(Feed(st, line))
    ensures Flatten(Feed(st, line).closed) + Feed(st, line).current
         == Flatten(st.closed) + st.current + (if Strip(line) == "" then [] else [Strip(line)])
  {
    var t := Strip(line);
    if t != "" {
      if IsHeader(t) {
        HeaderKeeps(st, t);
      } else {
        LineKeeps(st, t);
      }
    }
  }

  /** A header closes the open message, if any, and opens a new one. */
  lemma HeaderKeeps(st: Splitter, t: string)
    requires SplitterInv(st) && IsHeader(t)
    ensures var next := Splitter(if st.current != [] then st.closed + [st.current] else st.closed, [t]);
      SplitterInv(next) && Flatten(next.closed) + next.current == Flatten(st.closed) + st.current + [t]
  {
    if st.current != [] {
      FlattenAppend(st.closed, st.current);
      var closed := st.closed + [st.current];
      assert forall k :: 0 <= k < |st.closed| ==> closed[k] == st.closed[k];
      assert WellFormed(closed);
    }
  }

  /** Any other line joins the open message. */
  lemma LineKeeps(st: Splitter, t: string)
    requires SplitterInv(st) && !IsHeader(t)
    ensures SplitterInv(Splitter(st.closed, st.current + [t]))
  {
    var cur := st.current + [t];
    assert forall j :: 1 <= j < |st.current| ==> cur[j] == st.current[j];
  }

  /** The line loop keeps the splitter invariant, and has set aside exactly the non-blank lines. */
  lemma {:induction false} FeedAllKeeps(lines: seq<string>)
    ensures SplitterInv(FeedAll(lines))
    ensures Flatten(FeedAll(lines).closed) + FeedAll(lines).current == NonBlank(lines)
  {
    if |lines| > 0 {
      FeedAllKeeps(lines[..|lines| - 1]);
      FeedKeeps(FeedAll(lines[..|lines| - 1]), lines[|lines| - 1]);
    }
  }

  /**
   * What the splitter promises: its messages, read back in order, are
   * exactly the trimmed non-blank lines, and they are well formed.
   */
  lemma GroupsPartitionLines(lines: seq<string>)
    ensures WellFormed(Groups(lines))
    ensures Flatten(Groups(lines)) == NonBlank(lines)
    ensures Groups(lines) == [] <==> NonBlank(lines) == []
  {
    var st := FeedAll(lines);
    FeedAllKeeps(lines);
    if st.current != [] {
      FlattenAppend(st.closed, st.current);
    } else if st.closed != [] {
      assert false;
    }
  }

  // ---------------------------------------------------------- segments

  /** The first segment with id "PID". */
  function FirstPid(segs: seq<Segment>): (r: Option<Segment>)
    ensures r.Some? ==> r.value in segs && r.value.id == "PID"
    ensures r.Some? ==> exists k :: 0 <= k < |segs| && segs[k] == r.value && forall j :: 0 <= j < k ==> segs[j].id != "PID"
    ensures r.None? <==> forall k :: 0 <= k < |segs| ==> segs[k].id != "PID"
  {
    if |segs| == 0 then None
    else if segs[0].id == "PID" then Some(segs[0])
    else
      assert forall k :: 1 <= k < |segs| ==> segs[k] == segs[1..][k - 1];
      FirstPid(segs[1..])
  }

  /** The OBX segments, in order. */
  function Obx(segs: seq<Segment>): (r: seq<Segment>)
    ensures forall s :: s in r <==> s in segs && s.id == "OBX"
  {
    if |segs| == 0 then []
    else
      var last := segs[|segs| - 1];
      assert segs == segs[..|segs| - 1] + [last];
      Obx(segs[..|segs| - 1]) + (if last.id == "OBX" then [last] else [])
  }

  /** `str(segment[7][0])` of the first OBR segment with a non-empty field 7. */
  function FirstObrTime(segs: seq<Segment>): (r: Option<string>)
    ensures r.Some? ==> exists k :: 0 <= k < |segs| && segs[k].id == "OBR" && FirstItem(segs[k], 7) == r
                                   && forall j :: 0 <= j < k ==> !(segs[j].id == "OBR" && FirstItem(segs[j], 7).Some?)
    ensures r.None? <==> forall k :: 0 <= k < |segs| ==> !(segs[k].id == "OBR" && FirstItem(segs[k], 7).Some?)
  {
    if |segs| == 0 then None
    else if segs[0].id == "OBR" && FirstItem(segs[0], 7).Some? then FirstItem(segs[0], 7)
    else
      assert forall k :: 1 <= k < |segs| ==> segs[k] == segs[1..][k - 1];
      FirstObrTime(segs[1..])
  }

  /** OBR-7 of the first OBR segment having it, "" when there is none. */
  function ObrTime(segs: seq<Segment>): string {
    FirstObrTime(segs).GetOr("")
  }

  /**
   * The timestamp of record `k` of the `i`-th message: the OBR-7 value, or a
   * clock reading of its own when there is none (or it is empty).
   */
  function Timestamp(segs: seq<Segment>, i: nat, k: nat, lib: Foreign.Library): string {
    var t := ObrTime(segs);
    if t == "" then lib.now(i, k) else t
  }

  // ------------------------------------------------------------ records

  /** PID-3's first component, else "UNKNOWN_<i>" with `i` the message's index. */
  function PatientIdOf(pid: Segment, i: nat): string {
    match FirstItem(pid, 3)
    case Some(p) => p
    case None => "UNKNOWN_" + NatToString(i)
  }

  /** The part of OBX-3's first component before the first '^' ("UNKNOWN^UNKNOWN" when absent). */
  function TestCodeOf(obx: Segment): string {
    Split(FirstItem(obx, 3).GetOr("UNKNOWN^UNKNOWN"), '^')[0]
  }

  /**
   * OBX-5's first component: `None` when the field is absent or empty, an
   * empty component as it is, a number where `float()` accepts it, otherwise
   * the text.
   */
  function ResultValueOf(obx: Segment, lib: Foreign.Library): Value {
    match FirstItem(obx, 5)
    case None => Null
    case Some(s) =>
      if s == "" then Str(s)
      else match lib.parseFloat(s)
        case Some(n) => Num(n)
        case None => Str(s)
  }

  /** OBX-6's first component, else "". */
  function UnitOf(obx: Segment): string {
    FirstItem(obx, 6).GetOr("")
  }

  function ObxRecord(pid: Segment, obx: Segment, timestamp: string, i: nat, lib: Foreign.Library): Record {
    map[
      "patient_id" := Str(PatientIdOf(pid, i)),
      "test_code" := Str(TestCodeOf(obx)),
      "result_value" := ResultValueOf(obx, lib),
      "unit" := Str(UnitOf(obx)),
      "timestamp" := Str(timestamp)
    ]
  }

  /** The records of the `i`-th message once decoded: none without a PID, one per OBX otherwise. */
  function SegmentRecords(segs: seq<Segment>, i: nat, lib: Foreign.Library): seq<Record> {
    match FirstPid(segs)
    case None => []
    case Some(pid) =>
      ObxRecords(pid, Obx(segs), segs, i, lib, |Obx(segs)|)
  }

  /** The records of the `i`-th message; a message the library cannot decode gives none. */
  function MessageRecords(text: string, i: nat, lib: Foreign.Library): seq<Record> {
    match lib.decodeHl7(text)
    case None => []
    case Some(segs) => SegmentRecords(segs, i, lib)
  }

  /** The records of all messages, message by message. */
  function AllRecords(messages: seq<string>, lib: Foreign.Library): seq<Record> {
    if |messages| == 0 then []
    else AllRecords(messages[..|messages| - 1], lib) + MessageRecords(messages[|messages| - 1], |messages| - 1, lib)
  }

  const NoMessagesError := "Failed to parse HL7 message: No HL7 messages found in content"
  const NoResultsError := "Failed to parse HL7 message: No valid results extracted from HL7 content. Check HL7 message format."

  /** `parse_hl7` as a function of the text and the libraries. */
  function Hl7(content: string, lib: Foreign.Library): (r: Result<seq<Record>, string>)
    ensures r.Success? ==> |r.value| > 0
  {
    var messages := Messages(Lines(content));
    if messages == [] then Failure(NoMessagesError)
    else
      var records := AllRecords(messages, lib);
      if records == [] then Failure(NoResultsError) else Success(records)
  }

  lemma FeedAllStep(lines: seq<string>, i: nat)
    requires i < |lines|
    ensures FeedAll(lines[..i + 1]) == Feed(FeedAll(lines[..i]), lines[i])
  {
    assert lines[..i + 1][..i] == lines[..i];
  }

  lemma JoinAllAppend(groups: seq<seq<string>>, g: seq<string>)
    ensures JoinAll(groups + [g]) == JoinAll(groups) + [Join(g, '\n')]
  {
  }

  lemma AllRecordsStep(messages: seq<string>, i: nat, lib: Foreign.Library)
    requires i < |messages|
    ensures AllRecords(messages[..i + 1], lib) == AllRecords(messages[..i], lib) + MessageRecords(messages[i], i, lib)
  {
    assert messages[..i + 1][..i] == messages[..i];
  }

  /** The records of the first `n` OBX segments of the `i`-th message, whose segments are `segs`. */
  function ObxRecords(pid: Segment, obx: seq<Segment>, segs: seq<Segment>, i: nat, lib: Foreign.Library, n: nat): seq<Record>
    requires n <= |obx|
  {
    seq(n, j requires 0 <= j < n => ObxRecord(pid, obx[j], Timestamp(segs, i, j, lib), i, lib))
  }

  lemma ObxRecordsStep(pid: Segment, obx: seq<Segment>, segs: seq<Segment>, i: nat, lib: Foreign.Library, n: nat)
    requires n < |obx|
    ensures ObxRecords(pid, obx, segs, i, lib, n + 1)
         == ObxRecords(pid, obx, segs, i, lib, n) + [ObxRecord(pid, obx[n], Timestamp(segs, i, n, lib), i, lib)]
  {
  }

  // ------------------------------------------------------------ properties

  lemma {:induction false} NonBlankEmpty(lines: seq<string>)
    ensures NonBlank(lines) == [] <==> forall k :: 0 <= k < |lines| ==> Strip(lines[k]) == ""
  {
    if |lines| > 0 {
      NonBlankEmpty(lines[..|lines| - 1]);
      assert forall k :: 0 <= k < |lines| - 1 ==> lines[..|lines| - 1][k] == lines[k];
    }
  }

  /** `content` holds no message exactly when it is blank. */
  lemma NoGroupsIffBlank(content: string)
    ensures Groups(Lines(content)) == [] <==> AllSpace(content)
  {
    var lines := Lines(content);
    GroupsPartitionLines(lines);
    NonBlankEmpty(lines);
    if AllSpace(content) {
      BlankHasOnlyEmptyLine(content);
      StripEmptyIffBlank(lines[0]);
      assert forall k :: 0 <= k < |lines| ==> Strip(lines[k]) == "";
    } else {
      var k := NonBlankHasLine(content);
      assert Strip(lines[k]) != "";
    }
  }

  lemma BlankHasOnlyEmptyLine(content: string)
    requires AllSpace(content)
    ensures Lines(content) == [""]
  {
    StripEmptyIffBlank(content);
  }

  lemma NonBlankHasLine(content: string) returns (k: nat)
    requires !AllSpace(content)
    ensures k < |Lines(content)| && Strip(Lines(content)[k]) != ""
  {
    var lines := Lines(content);
    var p :| 0 <= p < |content| && !IsSpace(content[p]);
    var x := content[p];
    StripKeepsNonSpace(content, x);
    SplitCovers(Strip(content), '\n', x);
    k :| 0 <= k < |lines| && x in lines[k];
    StripKeepsNonSpace(lines[k], x);
  }

  /** `parse_hl7` raises "No HL7 messages found" exactly when the text is blank. */
  lemma NoMessagesIffBlank(content: string, lib: Foreign.Library)
    ensures Hl7(content, lib) == Failure(NoMessagesError) <==> AllSpace(content)
  {
    NoGroupsIffBlank(content);
  }

  /** It raises "No valid results" exactly when there are messages but none yields a record. */
  lemma NoResultsIffNoMessageYields(content: string, lib: Foreign.Library)
    ensures var ms := Messages(Lines(content));
      Hl7(content, lib) == Failure(NoResultsError)
      <==> ms != [] && forall i :: 0 <= i < |ms| ==> MessageRecords(ms[i], i, lib) == []
  {
    AllRecordsEmpty(Messages(Lines(content)), lib);
  }

  lemma {:induction false} AllRecordsEmpty(ms: seq<string>, lib: Foreign.Library)
    ensures AllRecords(ms, lib) == [] <==> forall i :: 0 <= i < |ms| ==> MessageRecords(ms[i], i, lib) == []
  {
    if |ms| > 0 {
      var prefix := ms[..|ms| - 1];
      var last := MessageRecords(ms[|ms| - 1], |ms| - 1, lib);
      AllRecordsEmpty(prefix, lib);
      assert AllRecords(ms, lib) == AllRecords(prefix, lib) + last;
      assert forall i :: 0 <= i < |ms| - 1 ==> prefix[i] == ms[i];
      if AllRecords(ms, lib) == [] {
        assert AllRecords(prefix, lib) == [] && last == [];
      }
    }
  }

  /** The number of OBX segments of the messages that decode and have a PID. */
  function ObxCount(ms: seq<string>, lib: Foreign.Library): nat {
    if |ms| == 0 then 0
    else
      var last := lib.decodeHl7(ms[|ms| - 1]);
      ObxCount(ms[..|ms| - 1], lib)
      + (if last.Some? && FirstPid(last.value).Some? then |Obx(last.value)| else 0)
  }

  /** One record per OBX segment of every message that decodes and has a PID. */
  lemma {:induction false} RecordCount(ms: seq<string>, lib: Foreign.Library)
    ensures |AllRecords(ms, lib)| == ObxCount(ms, lib)
  {
    if |ms| > 0 {
      RecordCount(ms[..|ms| - 1], lib);
    }
  }

  lemma {:induction false} AllRecordsPrefix(ms: seq<string>, m: nat, lib: Foreign.Library)
    requires m <= |ms|
    ensures AllRecords(ms[..m], lib) <= AllRecords(ms, lib)
  {
    if m < |ms| {
      var init := ms[..|ms| - 1];
      assert init[..m] == ms[..m];
      AllRecordsPrefix(init, m, lib);
    } else {
      assert ms[..m] == ms;
    }
  }

  /** Records keep message order: those of message `i` follow those of the messages before it. */
  lemma RecordsInMessageOrder(ms: seq<string>, i: nat, lib: Foreign.Library)
    requires i < |ms|
    ensures AllRecords(ms[..i], lib) + MessageRecords(ms[i], i, lib) <= AllRecords(ms, lib)
  {
    AllRecordsStep(ms, i, lib);
    AllRecordsPrefix(ms, i + 1, lib);
  }

  /**
   * A decoded message without a PID, or without an OBX, gives no records;
   * otherwise record `k` comes from the `k`-th OBX segment, all of them
   * share the patient, and record `k` has the `k`-th timestamp.
   */
  lemma SegmentRecordsShape(segs: seq<Segment>, i: nat, lib: Foreign.Library)
    ensures FirstPid(segs).None? ==> SegmentRecords(segs, i, lib) == []
    ensures Obx(segs) == [] ==> SegmentRecords(segs, i, lib) == []
    ensures FirstPid(segs).Some? ==>
      var r := SegmentRecords(segs, i, lib);
      var obx := Obx(segs);
      |r| == |obx|
      && forall k :: 0 <= k < |r| ==>
        r[k]["patient_id"] == Str(PatientIdOf(FirstPid(segs).value, i))
        && r[k]["timestamp"] == Str(Timestamp(segs, i, k, lib))
        && r[k]["test_code"] == Str(TestCodeOf(obx[k]))
        && r[k]["result_value"] == ResultValueOf(obx[k], lib)
        && r[k]["unit"] == Str(UnitOf(obx[k]))
  {
    if FirstPid(segs).Some? {
      var pid := FirstPid(segs).value;
      var obx := Obx(segs);
      var r := SegmentRecords(segs, i, lib);
      forall k | 0 <= k < |r|
        ensures r[k] == ObxRecord(pid, obx[k], Timestamp(segs, i, k, lib), i, lib)
      {
      }
      forall k | 0 <= k < |r| {
        ObxRecordFields(pid, obx[k], Timestamp(segs, i, k, lib), i, lib);
      }
    }
  }

  lemma ObxRecordFields(pid: Segment, obx: Segment, timestamp: string, i: nat, lib: Foreign.Library)
    ensures var r := ObxRecord(pid, obx, timestamp, i, lib);
      r["patient_id"] == Str(PatientIdOf(pid, i)) && r["timestamp"] == Str(timestamp)
      && r["test_code"] == Str(TestCodeOf(obx)) && r["result_value"] == ResultValueOf(obx, lib)
      && r["unit"] == Str(UnitOf(obx))
  {
  }

  /**
   * All records of one message carry the same patient id. They share OBR-7
   * as their timestamp when the message has a non-empty one; otherwise each
   * record has the clock reading taken for it.
   */
  lemma SameMessageSharesPatientAndTime(segs: seq<Segment>, i: nat, lib: Foreign.Library, k: nat, l: nat)
    requires k < |SegmentRecords(segs, i, lib)| && l < |SegmentRecords(segs, i, lib)|
    ensures SegmentRecords(segs, i, lib)[k]["patient_id"] == SegmentRecords(segs, i, lib)[l]["patient_id"]
    ensures ObrTime(segs) != "" ==> SegmentRecords(segs, i, lib)[k]["timestamp"] == Str(ObrTime(segs))
    ensures ObrTime(segs) == "" ==> SegmentRecords(segs, i, lib)[k]["timestamp"] == Str(lib.now(i, k))
  {
    SegmentRecordsShape(segs, i, lib);
  }

  /**
   * The test code is OBX-3's first component up to (not including) its
   * first '^', and "UNKNOWN" when OBX-3 is absent.
   */
  lemma TestCodeShape(obx: Segment)
    ensures '^' !in TestCodeOf(obx)
    ensures FirstItem(obx, 3).None? ==> TestCodeOf(obx) == "UNKNOWN"
    ensures FirstItem(obx, 3).Some? ==>
      var item := FirstItem(obx, 3).value;
      var code := TestCodeOf(obx);
      |code| <= |item| && item[..|code|] == code && (|code| == |item| || item[|code|] == '^')
  {
    if FirstItem(obx, 3).None? {
      DefaultTestInfo("UNKNOWN^UNKNOWN");
    } else {
      SplitFirst(FirstItem(obx, 3).value, '^');
    }
  }

  lemma DefaultTestInfo(info: string)
    requires info == "UNKNOWN^UNKNOWN"
    ensures Split(info, '^')[0] == "UNKNOWN"
  {
    assert info[..7] == "UNKNOWN";
    SplitAt(info, '^', 7);
  }

  /** OBX-5 decides the value: absent gives None, a number gives the number, other text stays text. */
  lemma ResultValueCases(obx: Segment, lib: Foreign.Library)
    ensures ResultValueOf(obx, lib) == Null <==> FirstItem(obx, 5).None?
    ensures forall n :: (ResultValueOf(obx, lib) == Num(n)
      <==> FirstItem(obx, 5).Some? && FirstItem(obx, 5).value != "" && lib.parseFloat(FirstItem(obx, 5).value) == Some(n))
    ensures forall t :: (ResultValueOf(obx, lib) == Str(t)
      <==> FirstItem(obx, 5) == Some(t) && (t == "" || lib.parseFloat(t).None?))
  {
  }

  /** The first OBR segment carrying OBR-7 gives the timestamp, unless that value is empty. */
  lemma {:induction false} TimestampFromFirstObr(segs: seq<Segment>, k: nat, i: nat, n: nat, lib: Foreign.Library)
    requires k < |segs| && segs[k].id == "OBR" && FirstItem(segs[k], 7).Some?
    requires forall j :: 0 <= j < k ==> !(segs[j].id == "OBR" && FirstItem(segs[j], 7).Some?)
    ensures Timestamp(segs, i, n, lib) == if FirstItem(segs[k], 7).value == "" then lib.now(i, n) else FirstItem(segs[k], 7).value
  {
    FirstObrTimeAt(segs, k);
  }

  lemma {:induction false} FirstObrTimeAt(segs: seq<Segment>, k: nat)
    requires k < |segs| && segs[k].id == "OBR" && FirstItem(segs[k], 7).Some?
    requires forall j :: 0 <= j < k ==> !(segs[j].id == "OBR" && FirstItem(segs[j], 7).Some?)
    ensures FirstObrTime(segs) == FirstItem(segs[k], 7)
  {
    if k > 0 {
      assert segs[1..][k - 1] == segs[k];
      assert forall j :: 0 <= j < k - 1 ==> segs[1..][j] == segs[j + 1];
      FirstObrTimeAt(segs[1..], k - 1);
    }
  }

  lemma {:induction false} FlattenHas(groups: seq<seq<string>>, k: nat, j: nat)
    requires k < |groups| && j < |groups[k]|
    ensures groups[k][j] in Flatten(groups)
  {
    if k < |groups| - 1 {
      assert groups[..|groups| - 1][k] == groups[k];
      FlattenHas(groups[..|groups| - 1], k, j);
    }
  }

  lemma {:induction false} NonBlankHasNoNewline(lines: seq<string>)
    requires forall k :: 0 <= k < |lines| ==> '\n' !in lines[k]
    ensures forall t :: t in NonBlank(lines) ==> '\n' !in t
  {
    if |lines| > 0 {
      NonBlankHasNoNewline(lines[..|lines| - 1]);
      StripKeepsOut(lines[|lines| - 1], '\n');
    }
  }

  /** The HL7 library receives message `k` as exactly its lines joined by '\n'. */
  lemma MessageTextLines(content: string, k: nat)
    requires k < |Messages(Lines(content))|
    ensures Split(Messages(Lines(content))[k], '\n') == Groups(Lines(content))[k]
  {
    var lines := Lines(content);
    var gs := Groups(lines);
    GroupsPartitionLines(lines);
    NonBlankHasNoNewline(lines);
    forall j | 0 <= j < |gs[k]|
      ensures '\n' !in gs[k][j]
    {
      FlattenHas(gs, k, j);
    }
    SplitJoin(gs[k], '\n');
  }

  // ------------------------------------------------------------ methods

  /** The line loop of `parse_hl7`. */
  method SplitMessages(lines: seq<string>) returns (messages: seq<string>)
    ensures messages == Messages(lines)
  {
    messages := [];
    var current: seq<string> := [];
    for i := 0 to |lines|
      invariant messages == JoinAll(FeedAll(lines[..i]).closed)
      invariant current == FeedAll(lines[..i]).current
    {
      FeedAllStep(lines, i);
      var line := Strip(lines[i]);
      if line != "" {
        if IsHeader(line) {
          if current != [] {
            JoinAllAppend(FeedAll(lines[..i]).closed, current);
            messages := messages + [Join(current, '\n')];
          }
          current := [line];
        } else {
          current := current + [line];
        }
      }
    }
    assert lines[..|lines|] == lines;
    if current != [] {
      JoinAllAppend(FeedAll(lines).closed, current);
      messages := messages + [Join(current, '\n')];
    }
  }

  /** The PID search loop. */
  method FindPid(segs: seq<Segment>) returns (pid: Option<Segment>)
    ensures pid == FirstPid(segs)
  {
    pid := None;
    var i := 0;
    while i < |segs|
      invariant 0 <= i <= |segs|
      invariant FirstPid(segs) == FirstPid(segs[i..])
    {
      assert segs[i..][1..] == segs[i + 1..];
      if segs[i].id == "PID" {
        pid := Some(segs[i]);
        return;
      }
      i := i + 1;
    }
  }

  /** The OBX collection loop. */
  method CollectObx(segs: seq<Segment>) returns (obx: seq<Segment>)
    ensures obx == Obx(segs)
  {
    obx := [];
    for i := 0 to |segs|
      invariant obx == Obx(segs[..i])
    {
      assert segs[..i + 1][..i] == segs[..i];
      if segs[i].id == "OBX" {
        obx := obx + [segs[i]];
      }
    }
    assert segs[..|segs|] == segs;
  }

  /** The OBR search loop. */
  method FindObrTime(segs: seq<Segment>) returns (t: string)
    ensures t == ObrTime(segs)
  {
    var j := 0;
    while j < |segs|
      invariant 0 <= j <= |segs|
      invariant FirstObrTime(segs) == FirstObrTime(segs[j..])
    {
      assert segs[j..][1..] == segs[j + 1..];
      if segs[j].id == "OBR" && FirstItem(segs[j], 7).Some? {
        return FirstItem(segs[j], 7).value;
      }
      j := j + 1;
    }
    return "";
  }

  /** The OBR search and the clock fallback, run for record `k` of the `i`-th message. */
  method FindTimestamp(segs: seq<Segment>, i: nat, k: nat, lib: Foreign.Library) returns (timestamp: string)
    ensures timestamp == Timestamp(segs, i, k, lib)
  {
    timestamp := FindObrTime(segs);
    if timestamp == "" {
      timestamp := lib.now(i, k);
    }
  }

  /** The body of the message loop: decode, find the PID, collect the OBX segments, one record each. */
  method ParseMessage(text: string, i: nat, lib: Foreign.Library) returns (records: seq<Record>)
    ensures records == MessageRecords(text, i, lib)
  {
    records := [];
    var decoded := lib.decodeHl7(text);
    if decoded.None? {
      return;
    }
    var segs := decoded.value;
    var pid := FindPid(segs);
    if pid.None? {
      return;
    }
    var obx := CollectObx(segs);
    if obx == [] {
      return;
    }
    for k := 0 to |obx|
      invariant records == ObxRecords(pid.value, obx, segs, i, lib, k)
    {
      var patientId := PatientIdOf(pid.value, i);
      var testCode := TestCodeOf(obx[k]);
      var resultValue := ResultValueOf(obx[k], lib);
      var unit := UnitOf(obx[k]);
      var timestamp := FindTimestamp(segs, i, k, lib);
      var record := map[
        "patient_id" := Str(patientId),
        "test_code" := Str(testCode),
        "result_value" := resultValue,
        "unit" := Str(unit),
        "timestamp" := Str(timestamp)
      ];
      ObxRecordsStep(pid.value, obx, segs, i, lib, k);
      records := records + [record];
    }
  }

  /** `parse_hl7` */
  method ParseHl7(content: string, lib: Foreign.Library) returns (r: Result<seq<Record>, string>)
    ensures r == Hl7(content, lib)
  {
    var messages := SplitMessages(Lines(content));
    if messages == [] {
      return Failure(NoMessagesError);
    }
    var all: seq<Record> := [];
    for i := 0 to |messages|
      invariant all == AllRecords(messages[..i], lib)
    {
      AllRecordsStep(messages, i, lib);
      var records := ParseMessage(messages[i], i, lib);
      all := all + records;
    }
    assert messages[..|messages|] == messages;
    if all == [] {
      return Failure(NoResultsError);
    }
    return Success(all);
  }

  /** `parse_hl7_single`: the first record of `parse_hl7`, failing where it fails. */
  method ParseHl7Single(content: string, lib: Foreign.Library) returns (r: Result<Record, string>)
    ensures Hl7(content, lib).Failure? ==> r == Failure(Hl7(content, lib).error)
    ensures Hl7(content, lib).Success? ==> r == Success(Hl7(content, lib).value[0])
  {
    var all := ParseHl7(content, lib);
    if all.Failure? {
      return Failure(all.error);
    }
    // `parse_hl7` never succeeds with no records, so the `{}` fallback is dead.
    assert all.value != [];
    return Success(all.value[0]);
  }
}
