/**
 * The `Writer` add-on of `dump_permission_failure.py`: for every response that is
 * a permission fault with extractable fields, build the four-field record, drop it
 * when duplicates are hidden and the record was seen before, and otherwise append
 * the flow to the dump sink, one row to the CSV sink, and the record to the cache.
 */
module PermissionWriter {
  import opened Wrappers
  import opened ElementTree
  import opened FaultDetector
  import opened HttpFlow

  const UserAgentHeader: string := "user-agent"

  /** The CSV columns, in the order rows are written. */
  const FieldNames: seq<string> := ["UserAgent", "ObjectType", "ObjectName", "PrivilegeMissing"]

  /** The record `_log_flow` builds: the extracted fields plus the client's user agent. It is also the cache key. */
  datatype FaultRecord = FaultRecord(
    userAgent: string,
    objectType: Option<string>,
    objectName: Option<string>,
    privilegeMissing: Option<string>)

  /** One CSV row: one cell per column of `FieldNames`. */
  type Row = seq<string>

  /**
   * The dictionary `_log_flow` hands to `writerow`: the three extracted fields, then
   * the user agent. A field may be Python's `None`; the user agent never is.
   */
  function FieldsDict(rec: FaultRecord): map<string, Option<string>>
  {
    map["ObjectType" := rec.objectType, "ObjectName" := rec.objectName,
        "PrivilegeMissing" := rec.privilegeMissing, "UserAgent" := Some(rec.userAgent)]
  }

  /**
   * `csv.DictWriter.writerow`: cell `i` holds the dictionary's entry for column
   * `FieldNames[i]`, Python's `None` written as an empty cell.
   */
  function CsvRow(rec: FaultRecord): (row: Row)
    ensures |row| == |FieldNames|
    ensures forall i :: 0 <= i < |FieldNames| ==>
      FieldNames[i] in FieldsDict(rec) && row[i] == FieldsDict(rec)[FieldNames[i]].GetOr("")
  {
    [rec.userAgent, rec.objectType.GetOr(""), rec.objectName.GetOr(""), rec.privilegeMissing.GetOr("")]
  }

  /** An output sink: `None` when not configured, otherwise everything appended so far. */
  function Append<T>(sink: Option<seq<T>>, x: T): (r: Option<seq<T>>)
    ensures sink.None? ==> r.None?
    ensures sink.Some? ==>
      r.Some? && |r.value| == |sink.value| + 1 && r.value[..|sink.value|] == sink.value && r.value[|sink.value|] == x
  {
    match sink
    case None => None
    case Some(written) => Some(written + [x])
  }

  /** What a `Writer` holds: the dump sink, the CSV sink, the `show_dup` option and the seen cache. */
  datatype WriterState = WriterState(
    flows: Option<seq<Flow>>,
    rows: Option<seq<Row>>,
    showDup: bool,
    seen: set<FaultRecord>)

  /** `_log_flow` reads the `user-agent` header only once fields were extracted; without it, it raises. */
  predicate UserAgentKnown(parse: Parser, flow: Flow)
  {
    GetCsvFieldsFromResponse(parse, flow.response.content).Some? ==> UserAgentHeader in flow.request.headers
  }

  /** `response` reaches `_log_flow` only for a detected fault. */
  predicate ResponseDefined(parse: Parser, flow: Flow)
  {
    IsFault(parse, flow) ==> UserAgentKnown(parse, flow)
  }

  predicate IsFault(parse: Parser, flow: Flow)
  {
    CheckSoapPermissionFault(parse, flow.response.statusCode, flow.response.content)
  }

  /** The record a flow's extracted fields and user agent make up. */
  function RecordOf(parse: Parser, flow: Flow): FaultRecord
    requires GetCsvFieldsFromResponse(parse, flow.response.content).Some?
    requires UserAgentHeader in flow.request.headers
  {
    var f := GetCsvFieldsFromResponse(parse, flow.response.content).value;
    FaultRecord(flow.request.headers[UserAgentHeader], f.objectType, f.objectName, f.privilegeMissing)
  }

  /** The flow's record is hidden as a duplicate. */
  predicate IsDuplicate(s: WriterState, parse: Parser, flow: Flow)
    requires UserAgentKnown(parse, flow)
  {
    GetCsvFieldsFromResponse(parse, flow.response.content).Some? && !s.showDup && RecordOf(parse, flow) in s.seen
  }

  /** The effect of `_log_flow` on the writer's state. */
  function LogFlowStep(s: WriterState, parse: Parser, flow: Flow): WriterState
    requires UserAgentKnown(parse, flow)
  {
    if GetCsvFieldsFromResponse(parse, flow.response.content).None? || IsDuplicate(s, parse, flow) then s
    else
      var key := RecordOf(parse, flow);
      WriterState(Append(s.flows, flow), Append(s.rows, CsvRow(key)), s.showDup, s.seen + {key})
  }

  /** The effect of `response` on the writer's state. */
  function ResponseStep(s: WriterState, parse: Parser, flow: Flow): WriterState
    requires ResponseDefined(parse, flow)
  {
    if IsFault(parse, flow) then LogFlowStep(s, parse, flow) else s
  }

  /** Responses handed to the writer one after another. */
  function Run(s: WriterState, parse: Parser, flows: seq<Flow>): WriterState
    requires forall i :: 0 <= i < |flows| ==> ResponseDefined(parse, flows[i])
    decreases |flows|
  {
    if flows == [] then s else Run(ResponseStep(s, parse, flows[0]), parse, flows[1..])
  }

  /** The records of the flows of a run that are faults with extractable fields. */
  function Accepted(parse: Parser, flows: seq<Flow>): set<FaultRecord>
    requires forall i :: 0 <= i < |flows| ==> ResponseDefined(parse, flows[i])
    decreases |flows|
  {
    if flows == [] then {}
    else
      var f, rest := flows[0], flows[1..];
      assert ResponseDefined(parse, f);
      assert forall i :: 0 <= i < |rest| ==> rest[i] == flows[i + 1];
      (if IsFault(parse, f) && GetCsvFieldsFromResponse(parse, f.response.content).Some? then {RecordOf(parse, f)} else {})
      + Accepted(parse, rest)
  }

  // ---------------------------------------------------------------------
  // What one response does
  // ---------------------------------------------------------------------

  /** No fault, no fields, or a hidden duplicate: nothing changes. */
  lemma ResponseUnchanged(s: WriterState, parse: Parser, flow: Flow)
    requires ResponseDefined(parse, flow)
    ensures !IsFault(parse, flow) ==> ResponseStep(s, parse, flow) == s
    ensures GetCsvFieldsFromResponse(parse, flow.response.content).None? ==> ResponseStep(s, parse, flow) == s
    ensures IsFault(parse, flow) && IsDuplicate(s, parse, flow) ==> ResponseStep(s, parse, flow) == s
  {
  }

  /**
   * Otherwise each configured sink gets exactly one entry (the flow, and the row
   * UserAgent, ObjectType, ObjectName, PrivilegeMissing), unconfigured sinks stay
   * unconfigured, and the record joins the cache.
   */
  lemma ResponseAccepted(s: WriterState, parse: Parser, flow: Flow)
    requires ResponseDefined(parse, flow)
    ensures (IsFault(parse, flow) && GetCsvFieldsFromResponse(parse, flow.response.content).Some? &&
             !IsDuplicate(s, parse, flow)) ==>
      var s', key := ResponseStep(s, parse, flow), RecordOf(parse, flow);
      && (s.flows.None? ==> s'.flows.None?)
      && (s.flows.Some? ==> s'.flows == Some(s.flows.value + [flow]))
      && (s.rows.None? ==> s'.rows.None?)
      && (s.rows.Some? ==> s'.rows == Some(s.rows.value + [CsvRow(key)]))
      && s'.seen == s.seen + {key}
      && s'.showDup == s.showDup
  {
  }

  /** The cache only grows, the option never changes, and each sink only grows at its end. */
  lemma ResponseOnlyAppends(s: WriterState, parse: Parser, flow: Flow)
    requires ResponseDefined(parse, flow)
    ensures var s' := ResponseStep(s, parse, flow);
      && s.seen <= s'.seen
      && s'.showDup == s.showDup
      && s'.flows.Some? == s.flows.Some?
      && (s.flows.Some? ==> |s.flows.value| <= |s'.flows.value| && s'.flows.value[..|s.flows.value|] == s.flows.value)
      && s'.rows.Some? == s.rows.Some?
      && (s.rows.Some? ==> |s.rows.value| <= |s'.rows.value| && s'.rows.value[..|s.rows.value|] == s.rows.value)
  {
  }

  // ---------------------------------------------------------------------
  // Deduplication
  // ---------------------------------------------------------------------

  /** With `show_dup` off, delivering the same flow a second time changes nothing. */
  lemma RepeatSuppressed(s: WriterState, parse: Parser, flow: Flow)
    requires ResponseDefined(parse, flow)
    requires !s.showDup
    ensures ResponseStep(ResponseStep(s, parse, flow), parse, flow) == ResponseStep(s, parse, flow)
  {
  }

  /** With `show_dup` on, a fault delivered twice is written twice. */
  lemma RepeatShown(s: WriterState, parse: Parser, flow: Flow)
    requires ResponseDefined(parse, flow)
    requires s.showDup
    ensures IsFault(parse, flow) && GetCsvFieldsFromResponse(parse, flow.response.content).Some? ==>
      var row, s2 := CsvRow(RecordOf(parse, flow)), ResponseStep(ResponseStep(s, parse, flow), parse, flow);
      && (s.rows.Some? ==> s2.rows == Some(s.rows.value + [row] + [row]))
      && (s.flows.Some? ==> s2.flows == Some(s.flows.value + [flow] + [flow]))
  {
    if IsFault(parse, flow) && GetCsvFieldsFromResponse(parse, flow.response.content).Some? {
      var row := CsvRow(RecordOf(parse, flow));
      var s1 := ResponseStep(s, parse, flow);
      if s.rows.Some? {
        assert s1.rows == Some(s.rows.value + [row]);
      }
      if s.flows.Some? {
        assert s1.flows == Some(s.flows.value + [flow]);
      }
    }
  }

  /**
   * With `show_dup` off, a run writes exactly one row and one flow per record it
   * adds to the cache: the CSV and the dump hold each distinct fault once.
   */
  lemma {:induction false} RunWritesEachRecordOnce(s: WriterState, parse: Parser, flows: seq<Flow>)
    requires forall i :: 0 <= i < |flows| ==> ResponseDefined(parse, flows[i])
    requires !s.showDup && s.rows.Some? && s.flows.Some?
    ensures var r := Run(s, parse, flows);
      && s.seen <= r.seen
      && r.rows.Some? && |r.rows.value| == |s.rows.value| + |r.seen - s.seen|
      && r.flows.Some? && |r.flows.value| == |s.flows.value| + |r.seen - s.seen|
    decreases |flows|
  {
    RunStep(s, parse, flows);
    if flows != [] {
      var s1 := ResponseStep(s, parse, flows[0]);
      var rest := flows[1..];
      assert forall i :: 0 <= i < |rest| ==> ResponseDefined(parse, rest[i]) by {
        forall i | 0 <= i < |rest| ensures ResponseDefined(parse, rest[i]) {
          assert rest[i] == flows[i + 1];
        }
      }
      RunWritesEachRecordOnce(s1, parse, rest);
      var r := Run(s1, parse, rest);
      if s1 != s {
        var key := RecordOf(parse, flows[0]);
        assert key !in s.seen && s1.seen == s.seen + {key};
        assert r.seen - s.seen == (r.seen - s1.seen) + {key};
        assert |r.seen - s.seen| == |r.seen - s1.seen| + 1;
      }
    }
  }

  /** A non-empty run is its first response followed by the run of the rest. */
  lemma RunStep(s: WriterState, parse: Parser, flows: seq<Flow>)
    requires forall i :: 0 <= i < |flows| ==> ResponseDefined(parse, flows[i])
    ensures flows != [] ==>
      && (forall i :: 0 <= i < |flows[1..]| ==> ResponseDefined(parse, flows[1..][i]))
      && Run(s, parse, flows) == Run(ResponseStep(s, parse, flows[0]), parse, flows[1..])
      && Accepted(parse, flows) ==
         (if IsFault(parse, flows[0]) && GetCsvFieldsFromResponse(parse, flows[0].response.content).Some?
          then {RecordOf(parse, flows[0])} else {}) + Accepted(parse, flows[1..])
  {
  }

  /**
   * Whatever `show_dup` says, at the end of a run the cache holds exactly the records
   * it held before plus those of the run's faults with extractable fields.
   */
  lemma {:induction false} RunCachesAcceptedRecords(s: WriterState, parse: Parser, flows: seq<Flow>)
    requires forall i :: 0 <= i < |flows| ==> ResponseDefined(parse, flows[i])
    ensures Run(s, parse, flows).seen == s.seen + Accepted(parse, flows)
    decreases |flows|
  {
    RunStep(s, parse, flows);
    if flows != [] {
      var s1 := ResponseStep(s, parse, flows[0]);
      RunCachesAcceptedRecords(s1, parse, flows[1..]);
    }
  }

  /** The flow is a fault with extractable fields and a `user-agent` header: `_log_flow` builds its record. */
  predicate Logged(parse: Parser, flow: Flow)
  {
    IsFault(parse, flow) && GetCsvFieldsFromResponse(parse, flow.response.content).Some? &&
    UserAgentHeader in flow.request.headers
  }

  /** The record `_log_flow` writes for a flow, or `None` when it writes none for it. */
  function LoggedRecord(parse: Parser): Flow -> Option<FaultRecord>
  {
    f => if Logged(parse, f) then Some(RecordOf(parse, f)) else None
  }

  /**
   * Going from `s` to `r`, both sinks kept what they held and gained the same number
   * of entries; the `i`-th new flow has a record (by `key`) that is new to the cache,
   * the `i`-th new row is that record's row, and no two new flows share a record.
   */
  ghost predicate WritesNewRecords(key: Flow -> Option<FaultRecord>, s: WriterState, r: WriterState)
    requires s.flows.Some? && s.rows.Some? && r.flows.Some? && r.rows.Some?
  {
    var n, m, fs, rs := |s.flows.value|, |s.rows.value|, r.flows.value, r.rows.value;
    && n <= |fs| && fs[..n] == s.flows.value
    && m <= |rs| && rs[..m] == s.rows.value
    && |rs| - m == |fs| - n
    && (forall i :: n <= i < |fs| ==>
          && key(fs[i]).Some?
          && key(fs[i]).value in r.seen - s.seen
          && rs[m + (i - n)] == CsvRow(key(fs[i]).value))
    && (forall i, j :: n <= i < j < |fs| ==> key(fs[i]) != key(fs[j]))
  }

  /** One response followed by a run that writes new records is a run that writes new records. */
  lemma StepThenWritesNewRecords(parse: Parser, s: WriterState, flow: Flow, r: WriterState)
    requires ResponseDefined(parse, flow)
    requires !s.showDup && s.flows.Some? && s.rows.Some? && r.flows.Some? && r.rows.Some?
    requires ResponseStep(s, parse, flow).seen <= r.seen
    requires ResponseStep(s, parse, flow).flows.Some? && ResponseStep(s, parse, flow).rows.Some?
    requires WritesNewRecords(LoggedRecord(parse), ResponseStep(s, parse, flow), r)
    ensures WritesNewRecords(LoggedRecord(parse), s, r)
  {
    if IsFault(parse, flow) && GetCsvFieldsFromResponse(parse, flow.response.content).Some? && !IsDuplicate(s, parse, flow) {
      var k := RecordOf(parse, flow);
      assert LoggedRecord(parse)(flow) == Some(k);
      AppendThenWritesNewRecords(LoggedRecord(parse), s, flow, k, ResponseStep(s, parse, flow), r);
    }
  }

  /** The accepted case of `StepThenWritesNewRecords`: `s1` is `s` with the flow's record `k` written. */
  lemma AppendThenWritesNewRecords(key: Flow -> Option<FaultRecord>, s: WriterState, flow: Flow, k: FaultRecord,
                                   s1: WriterState, r: WriterState)
    requires key(flow) == Some(k) && k !in s.seen
    requires s.flows.Some? && s.rows.Some? && r.flows.Some? && r.rows.Some?
    requires s1 == WriterState(Some(s.flows.value + [flow]), Some(s.rows.value + [CsvRow(k)]), s.showDup, s.seen + {k})
    requires s1.seen <= r.seen
    requires WritesNewRecords(key, s1, r)
    ensures WritesNewRecords(key, s, r)
  {
    var n, m, fs, rs := |s.flows.value|, |s.rows.value|, r.flows.value, r.rows.value;
    assert fs[..n + 1] == s.flows.value + [flow];
    assert fs[..n] == (fs[..n + 1])[..n];
    assert fs[n] == (fs[..n + 1])[n];
    assert rs[..m + 1] == s.rows.value + [CsvRow(k)];
    assert rs[..m] == (rs[..m + 1])[..m];
    assert rs[m] == (rs[..m + 1])[m];
    forall i | n <= i < |fs|
      ensures key(fs[i]).Some? && key(fs[i]).value in r.seen - s.seen
      ensures rs[m + (i - n)] == CsvRow(key(fs[i]).value)
    {
      if i > n {
        assert m + (i - n) == m + 1 + (i - (n + 1));
      }
    }
    forall i, j | n <= i < j < |fs|
      ensures key(fs[i]) != key(fs[j])
    {
      if i == n {
        assert key(fs[j]).value in r.seen - s1.seen;
      }
    }
  }

  /** The content of what a run writes with `show_dup` off (see `WritesNewRecords`). */
  lemma {:induction false} RunWritesNewRecords(s: WriterState, parse: Parser, flows: seq<Flow>)
    requires forall i :: 0 <= i < |flows| ==> ResponseDefined(parse, flows[i])
    requires !s.showDup && s.rows.Some? && s.flows.Some?
    ensures var r := Run(s, parse, flows);
      r.rows.Some? && r.flows.Some? && WritesNewRecords(LoggedRecord(parse), s, r)
    decreases |flows|
  {
    RunStep(s, parse, flows);
    if flows == [] {
      assert s.flows.value[..|s.flows.value|] == s.flows.value;
      assert s.rows.value[..|s.rows.value|] == s.rows.value;
    } else {
      var s1 := ResponseStep(s, parse, flows[0]);
      ResponseOnlyAppends(s, parse, flows[0]);
      RunWritesNewRecords(s1, parse, flows[1..]);
      RunCachesAcceptedRecords(s1, parse, flows[1..]);
      StepThenWritesNewRecords(parse, s, flows[0], Run(s1, parse, flows[1..]));
    }
  }

  /**
   * With `show_dup` off, a run writes one row and one flow for each accepted record
   * the cache did not hold before, and no other: the new entries are as many as those
   * records, each belongs to one of them, and no two belong to the same one.
   */
  lemma RunWritesEachAcceptedRecordOnce(s: WriterState, parse: Parser, flows: seq<Flow>)
    requires forall i :: 0 <= i < |flows| ==> ResponseDefined(parse, flows[i])
    requires !s.showDup && s.rows.Some? && s.flows.Some?
    ensures var r := Run(s, parse, flows);
      && r.rows.Some? && |r.rows.value| == |s.rows.value| + |Accepted(parse, flows) - s.seen|
      && r.flows.Some? && |r.flows.value| == |s.flows.value| + |Accepted(parse, flows) - s.seen|
      && WritesNewRecords(LoggedRecord(parse), s, r)
      && r.seen - s.seen == Accepted(parse, flows) - s.seen
  {
    RunWritesEachRecordOnce(s, parse, flows);
    RunCachesAcceptedRecords(s, parse, flows);
    RunWritesNewRecords(s, parse, flows);
    var r := Run(s, parse, flows);
    assert r.seen - s.seen == Accepted(parse, flows) - s.seen;
  }

  /**
   * A fault delivered twice to a fresh writer with both sinks configured and
   * duplicates hidden leaves exactly one row and one flow.
   */
  lemma SameFaultTwiceWrittenOnce(parse: Parser, flow: Flow)
    requires ResponseDefined(parse, flow)
    ensures IsFault(parse, flow) && GetCsvFieldsFromResponse(parse, flow.response.content).Some? ==>
      var r := Run(WriterState(Some([]), Some([]), false, {}), parse, [flow, flow]);
      && r.rows == Some([CsvRow(RecordOf(parse, flow))])
      && r.flows == Some([flow])
  {
    if !(IsFault(parse, flow) && GetCsvFieldsFromResponse(parse, flow.response.content).Some?) {
      return;
    }
    var s0 := WriterState(Some([]), Some([]), false, {});
    var s1 := ResponseStep(s0, parse, flow);
    assert s1.flows == Some([flow]) by {
      assert s1.flows == Some([] + [flow]);
    }
    assert s1.rows == Some([CsvRow(RecordOf(parse, flow))]) by {
      assert s1.rows == Some([] + [CsvRow(RecordOf(parse, flow))]);
    }
    RepeatSuppressed(s0, parse, flow);
    assert [flow, flow][1..] == [flow];
    assert Run(s0, parse, [flow, flow]) == Run(s1, parse, [flow]);
    assert Run(s1, parse, [flow]) == Run(s1, parse, []);
  }

  /**
   * A 403 carrying `LEGIT_FAULT` from `test-agent/1.0`, delivered twice as above,
   * leaves the single row test-agent/1.0, Folder, group-v23485, VirtualMachine.Interact.PowerOn.
   */
  lemma LegitFaultWrittenOnce(parse: Parser, flow: Flow)
    requires parse(flow.response.content) == Some(LegitFault)
    requires flow.response.statusCode == 403
    requires flow.request.headers == map[UserAgentHeader := "test-agent/1.0"]
    ensures ResponseDefined(parse, flow)
    ensures var r := Run(WriterState(Some([]), Some([]), false, {}), parse, [flow, flow]);
      && r.rows == Some([["test-agent/1.0", "Folder", "group-v23485", "VirtualMachine.Interact.PowerOn"]])
      && r.flows == Some([flow])
  {
    LegitFaultOutcome(parse, flow.response.content);
    SameFaultTwiceWrittenOnce(parse, flow);
  }

  // ---------------------------------------------------------------------
  // The add-on object
  // ---------------------------------------------------------------------

  class Writer {
    /** `flow_writer`: the dump sink, `None` unless `vs_dump_flows` names a file. */
    var flowWriter: Option<seq<Flow>>
    /** `csv_writer`: the CSV sink, `None` unless `vs_dump_csv` names a file. */
    var csvWriter: Option<seq<Row>>
    /** `show_dup`, from `vs_duplicates`. */
    var showDup: bool
    /** `seen_cache`: every record written so far. */
    var seenCache: set<FaultRecord>

    ghost function State(): WriterState
      reads this
    {
      WriterState(flowWriter, csvWriter, showDup, seenCache)
    }

    /**
     * The writer as `running` leaves it: a sink for each option that names a file,
     * nothing written yet (no CSV header row either) and an empty cache.
     */
    constructor Running(vsDumpFlows: string, vsDumpCsv: string, vsDuplicates: bool)
      ensures flowWriter == (if vsDumpFlows != "" then Some([]) else None)
      ensures csvWriter == (if vsDumpCsv != "" then Some([]) else None)
      ensures showDup == vsDuplicates && seenCache == {}
    {
      flowWriter := if vsDumpFlows != "" then Some([]) else None;
      csvWriter := if vsDumpCsv != "" then Some([]) else None;
      showDup := vsDuplicates;
      seenCache := {};
    }

    /** `response`: log the flow if it is a permission fault. */
    method Response(parse: Parser, flow: Flow)
      requires ResponseDefined(parse, flow)
      modifies this
      ensures State() == ResponseStep(old(State()), parse, flow)
    {
      var isFault := CheckSoapPermissionFault(parse, flow.response.statusCode, flow.response.content);
      if isFault {
        LogFlow(parse, flow);
      }
    }

    /** `_log_flow`: extract, deduplicate, write to each configured sink, remember the record. */
    method LogFlow(parse: Parser, flow: Flow)
      requires UserAgentKnown(parse, flow)
      modifies this
      ensures State() == LogFlowStep(old(State()), parse, flow)
    {
      var fields := GetCsvFieldsFromResponse(parse, flow.response.content);
      if fields.None? {
        return;
      }
      var userAgent := flow.request.headers[UserAgentHeader];
      var key := FaultRecord(userAgent, fields.value.objectType, fields.value.objectName, fields.value.privilegeMissing);
      if !showDup {
        var hit := CacheCheck(key);
        if hit {
          return;
        }
      }
      if flowWriter.Some? {
        flowWriter := Some(flowWriter.value + [flow]);
      }
      if csvWriter.Some? {
        csvWriter := Some(csvWriter.value + [CsvRow(key)]);
      }
      CacheSave(key);
    }

    /** `_cache_save`: remember the record. */
    method CacheSave(key: FaultRecord)
      modifies this`seenCache
      ensures seenCache == old(seenCache) + {key}
    {
      seenCache := seenCache + {key};
    }

    /** `_cache_check`: whether the record was written before. */
    method CacheCheck(key: FaultRecord) returns (hit: bool)
      ensures hit <==> key in seenCache
    {
      hit := key in seenCache;
    }
  }
}
