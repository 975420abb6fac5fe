/**
 * The earlier add-on `dump-permission-failure.py`: the same detector written inline
 * (which falls off the end, returning `None`, for a 200 response), and a `Writer`
 * whose `response` dumps every detected fault and whose other methods are stubs.
 */
module LegacyAddon {
  import opened Wrappers
  import opened ElementTree
  import opened HttpFlow
  import FaultDetector

  /**
   * `check_soap_permission_fault`: `None` for a 200 response (no return statement
   * is reached); otherwise false on a parse error and whether the fault path is found.
   */
  function CheckSoapPermissionFault(parse: Parser, statusCode: int, body: Body): (r: Option<bool>)
    ensures r.None? <==> statusCode == FaultDetector.StatusOk
  {
    if statusCode != FaultDetector.StatusOk then
      match parse(body)
      case None => Some(false)
      case Some(dom) => Some(Find(dom, FaultDetector.FaultPath).Some?)
    else None
  }

  /** How `if is_fault:` reads the result: `None` and `False` are both false. */
  predicate Truthy(r: Option<bool>)
  {
    r == Some(true)
  }

  /**
   * Off a 200 response the inline check gives the verdict of the refined add-on's
   * body check, so it is true exactly when the fault path hangs from the root; read
   * as a condition it agrees with the refined `check_soap_permission_fault` everywhere.
   */
  lemma AgreesWithRefinedDetector(parse: Parser, statusCode: int, body: Body)
    ensures statusCode != FaultDetector.StatusOk ==>
      CheckSoapPermissionFault(parse, statusCode, body) == Some(FaultDetector.CheckSoapPermissionFaultBody(parse, body))
    ensures statusCode != FaultDetector.StatusOk ==>
      (Truthy(CheckSoapPermissionFault(parse, statusCode, body)) <==>
        parse(body).Some? && HasPath(parse(body).value, FaultDetector.FaultPath))
    ensures Truthy(CheckSoapPermissionFault(parse, statusCode, body)) ==
      FaultDetector.CheckSoapPermissionFault(parse, statusCode, body)
  {
    if parse(body).Some? {
      FaultDetector.BodyCheckMeaning(parse, body);
    }
  }

  class LegacyWriter {
    /** `flow_writer`: `None` while the attribute has never been assigned. */
    var flowWriter: Option<seq<Flow>>
    /** `csv_writer`: `None` while never assigned; the stubs never add a row to it. */
    var csvWriter: Option<seq<seq<string>>>
    /** `only_unique`: nothing ever assigns it. */
    var onlyUnique: Option<bool>

    /** The writer as `running` leaves it: a sink assigned for each option that names a file. */
    constructor Running(vsDumpFlows: string, vsDumpCsv: string)
      ensures flowWriter == (if vsDumpFlows != "" then Some([]) else None)
      ensures csvWriter == (if vsDumpCsv != "" then Some([]) else None)
      ensures onlyUnique == None
    {
      flowWriter := if vsDumpFlows != "" then Some([]) else None;
      csvWriter := if vsDumpCsv != "" then Some([]) else None;
      onlyUnique := None;
    }

    /**
     * `response`: every detected fault is appended to the dump sink, which must then
     * have been assigned; nothing is extracted, deduplicated or written as CSV.
     */
    method Response(parse: Parser, flow: Flow)
      requires Truthy(CheckSoapPermissionFault(parse, flow.response.statusCode, flow.response.content)) ==> flowWriter.Some?
      modifies this
      ensures flowWriter ==
        if Truthy(CheckSoapPermissionFault(parse, flow.response.statusCode, flow.response.content))
        then Some(old(flowWriter).value + [flow]) else old(flowWriter)
      ensures csvWriter == old(csvWriter) && onlyUnique == old(onlyUnique)
    {
      var isFault := CheckSoapPermissionFault(parse, flow.response.statusCode, flow.response.content);
      if isFault == Some(true) {
        flowWriter := Some(flowWriter.value + [flow]);
      }
    }

    /**
     * `_log_flow`: reads `only_unique` and both sinks (each must have been assigned),
     * and changes nothing, since the uniqueness check always passes and both writes are stubs.
     */
    method LogFlow(flow: Flow)
      requires onlyUnique.Some? && flowWriter.Some? && csvWriter.Some?
      ensures unchanged(this)
    {
      if onlyUnique.value {
        var unique := CheckUnique(flow);
        if !unique {
          return;
        }
      }
      if flowWriter.Some? {
        WriteFlow(flow);
      }
      if csvWriter.Some? {
        WriteCsv(flow);
      }
    }

    /** `_check_unique`: every flow counts as unique. */
    method CheckUnique(flow: Flow) returns (unique: bool)
      ensures unique
    {
      unique := true;
    }

    /** `_write_flow`: a stub. */
    method WriteFlow(flow: Flow)
      ensures unchanged(this)
    {
    }

    /** `_write_csv`: a stub. */
    method WriteCsv(flow: Flow)
      ensures unchanged(this)
    {
    }
  }
}
