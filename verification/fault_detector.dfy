/**
 * Fault detection and field extraction of the add-on `dump_permission_failure.py`:
 * recognise a vSphere `NoPermissionFault` SOAP fault in a response and pull the
 * object type, object name and missing privilege out of it.
 */
module FaultDetector {
  import opened Wrappers
  import opened ElementTree

  // ---------------------------------------------------------------------
  // The `namespaces` table and the paths resolved through it
  // ---------------------------------------------------------------------

  const SoapEnvUri: string := "http://schemas.xmlsoap.org/soap/envelope/"
  const Vim25Uri: string := "urn:vim25"

  /** Prefixes the paths below are written with, and the URIs they stand for. */
  const Namespaces: map<string, string> := map["soapenv" := SoapEnvUri, "vim25" := Vim25Uri]

  /** A `prefix:local` path step, resolved through `Namespaces` to an expanded name. */
  function Qualified(prefix: string, local: string): (n: Name)
    requires prefix in Namespaces
    ensures n.uri == Namespaces[prefix] && n.local == local
  {
    Name(Namespaces[prefix], local)
  }

  /**
   * `./soapenv:Body/soapenv:Fault/detail/vim25:NoPermissionFault`. The `detail`
   * step has no prefix and so matches only an element in no namespace, as SOAP 1.1
   * leaves the children of `Fault` unqualified.
   */
  const FaultPath: seq<Name> := [
    Qualified("soapenv", "Body"),
    Qualified("soapenv", "Fault"),
    Unqualified("detail"),
    Qualified("vim25", "NoPermissionFault")]

  const ObjectName: Name := Qualified("vim25", "object")
  const PrivilegeIdName: Name := Qualified("vim25", "privilegeId")

  /** The fault path extended by `vim25:object`. */
  const ObjectPath: seq<Name> := FaultPath + [ObjectName]

  /** The fault path extended by `vim25:privilegeId`. */
  const PrivilegePath: seq<Name> := FaultPath + [PrivilegeIdName]

  /** The unqualified `type` attribute (not `xsi:type`). */
  const TypeAttr: Name := Unqualified("type")

  /** The HTTP status that never carries the fault. */
  const StatusOk: int := 200

  // ---------------------------------------------------------------------
  // Detection
  // ---------------------------------------------------------------------

  /**
   * `_check_soap_permission_fault_body`: false when the body does not parse,
   * otherwise whether the fault path leads anywhere from the root.
   */
  function CheckSoapPermissionFaultBody(parse: Parser, body: Body): (r: bool)
    ensures parse(body).None? ==> !r
  {
    match parse(body)
    case None => false
    case Some(dom) => Find(dom, FaultPath).Some?
  }

  /**
   * A parsed body is a fault exactly when some chain of children `soapenv:Body`,
   * `soapenv:Fault`, `detail`, `vim25:NoPermissionFault` hangs from the root.
   */
  lemma BodyCheckMeaning(parse: Parser, body: Body)
    requires parse(body).Some?
    ensures CheckSoapPermissionFaultBody(parse, body) <==> HasPath(parse(body).value, FaultPath)
  {
    FindMeaning(parse(body).value, FaultPath);
  }

  /** `check_soap_permission_fault`: a 200 response is never a fault; any other is judged by its body. */
  function CheckSoapPermissionFault(parse: Parser, statusCode: int, body: Body): (r: bool)
    ensures statusCode == StatusOk ==> !r
    ensures statusCode != StatusOk ==> r == CheckSoapPermissionFaultBody(parse, body)
  {
    if statusCode != StatusOk then CheckSoapPermissionFaultBody(parse, body) else false
  }

  // ---------------------------------------------------------------------
  // Extraction
  // ---------------------------------------------------------------------

  /** The dictionary `get_csv_fields_from_response` builds; each field may be Python's `None`. */
  datatype FaultFields = FaultFields(
    objectType: Option<string>,
    objectName: Option<string>,
    privilegeMissing: Option<string>)

  /**
   * `get_csv_fields_from_response`: `None` when the body does not parse or either
   * `vim25:object` or `vim25:privilegeId` is missing under the fault path; otherwise
   * the object's `type` attribute and text and the privilege's text. The two
   * elements are looked up independently, each the first of its path.
   */
  function GetCsvFieldsFromResponse(parse: Parser, body: Body): (r: Option<FaultFields>)
    ensures parse(body).None? ==> r.None?
  {
    match parse(body)
    case None => None
    case Some(dom) => FieldsIn(dom)
  }

  /** The lookups `get_csv_fields_from_response` makes once the body has parsed. */
  function FieldsIn(dom: Element): Option<FaultFields>
  {
    var faultObject := Find(dom, ObjectPath);
    var privilegeMissing := Find(dom, PrivilegePath);
    if faultObject.None? || privilegeMissing.None? then None
    else
      var o, p := faultObject.value, privilegeMissing.value;
      Some(FaultFields(Get(o, TypeAttr), o.text, p.text))
  }

  /**
   * Fields come back exactly when the body parses and both the object and the
   * privilege are found, and then they are read off a `vim25:object` and a
   * `vim25:privilegeId` reached along their paths: never a partial record.
   */
  lemma ExtractionMeaning(parse: Parser, body: Body)
    ensures var r := GetCsvFieldsFromResponse(parse, body);
      r.Some? <==> parse(body).Some? && HasPath(parse(body).value, ObjectPath) && HasPath(parse(body).value, PrivilegePath)
    ensures var r := GetCsvFieldsFromResponse(parse, body);
      r.Some? ==> exists o, p ::
        Reaches(parse(body).value, ObjectPath, o) && Reaches(parse(body).value, PrivilegePath, p) &&
        r.value == FaultFields(Get(o, TypeAttr), o.text, p.text)
  {
    if parse(body).Some? {
      FindMeaning(parse(body).value, ObjectPath);
      FindMeaning(parse(body).value, PrivilegePath);
    }
  }

  /** Both extraction paths extend the detection path, so a body that yields fields is a detected fault. */
  lemma ExtractionImpliesDetection(parse: Parser, body: Body)
    ensures GetCsvFieldsFromResponse(parse, body).Some? ==> CheckSoapPermissionFaultBody(parse, body)
  {
    if GetCsvFieldsFromResponse(parse, body).Some? {
      FindExtendedPath(parse(body).value, FaultPath, ObjectName);
    }
  }

  /** Only the children of the root are looked at: renaming the root changes neither verdict. */
  lemma RootTagIgnored(parse: Parser, body: Body, other: Body, n: Name)
    requires parse(body).Some? && parse(other).Some?
    requires parse(other).value == parse(body).value.(name := n)
    ensures CheckSoapPermissionFaultBody(parse, other) == CheckSoapPermissionFaultBody(parse, body)
    ensures GetCsvFieldsFromResponse(parse, other) == GetCsvFieldsFromResponse(parse, body)
  {
    var d := parse(body).value;
    FindRootIgnored(d, n, FaultPath);
    FieldsRootIgnored(d, n);
  }

  /** The lookups after parsing do not depend on the root's tag. */
  lemma FieldsRootIgnored(d: Element, n: Name)
    ensures FieldsIn(d.(name := n)) == FieldsIn(d)
  {
    FindRootIgnored(d, n, ObjectPath);
    FindRootIgnored(d, n, PrivilegePath);
  }

  /** A non-empty path's first step looks only at the root's children. */
  lemma FindRootIgnored(d: Element, n: Name, path: seq<Name>)
    requires path != []
    ensures Find(d.(name := n), path) == Find(d, path)
  {
    assert ChildStep([d.(name := n)], path[0]) == ChildStep([d], path[0]);
    assert FindAll(d.(name := n), path) == FindAll(d, path);
  }

  // ---------------------------------------------------------------------
  // The fixtures of the unit tests, as the trees ElementTree builds from them
  // (whitespace-only text between elements is left as None: no path reads it)
  // ---------------------------------------------------------------------

  const XsiUri: string := "http://www.w3.org/2001/XMLSchema-instance"

  function Leaf(name: Name, attrs: map<Name, string>, text: string): Element
  {
    Element(name, attrs, Some(text), [])
  }

  /** A `soapenv:Envelope` whose `detail` holds `detailChild`. */
  function Envelope(faultString: string, detailChild: Element): Element
  {
    Element(Qualified("soapenv", "Envelope"), map[], None, [
      Element(Qualified("soapenv", "Body"), map[], None, [
        Element(Qualified("soapenv", "Fault"), map[], None, [
          Leaf(Unqualified("faultcode"), map[], "ServerFaultCode"),
          Leaf(Unqualified("faultstring"), map[], faultString),
          Element(Unqualified("detail"), map[], None, [detailChild])])])])
  }

  /** `LEGIT_FAULT`: a `NoPermissionFault` on Folder `group-v23485` for `VirtualMachine.Interact.PowerOn`. */
  const LegitFault: Element :=
    Envelope("Permission to perform this operation was denied.",
      Element(Name(Vim25Uri, "NoPermissionFault"), map[Name(XsiUri, "type") := "NoPermission"], None, [
        Leaf(Name(Vim25Uri, "object"), map[Unqualified("type") := "Folder"], "group-v23485"),
        Leaf(Name(Vim25Uri, "privilegeId"), map[], "VirtualMachine.Interact.PowerOn")]))

  const OtherFaultString: string :=
    "The object 'vim.Task:task-190543' has already been deleted or has not been completely created"

  /** `OTHER_XML`: a `ManagedObjectNotFoundFault` for a deleted task. */
  const OtherXml: Element :=
    Envelope(OtherFaultString,
      Element(Name(Vim25Uri, "ManagedObjectNotFoundFault"), map[Name(XsiUri, "type") := "ManagedObjectNotFound"], None, [
        Leaf(Name(Vim25Uri, "obj"), map[Unqualified("type") := "Task"], "task-190543")]))

  /** A `NoPermissionFault` whose `privilegeId` is missing. */
  const FaultWithoutPrivilege: Element :=
    Envelope("Permission to perform this operation was denied.",
      Element(Name(Vim25Uri, "NoPermissionFault"), map[], None, [
        Leaf(Name(Vim25Uri, "object"), map[Unqualified("type") := "Folder"], "group-v23485")]))

  /** On an envelope of the fixtures' shape, the fault path selects the `detail` child exactly when it is a `NoPermissionFault`. */
  lemma EnvelopeFaultSelection(faultString: string, child: Element)
    ensures FindAll(Envelope(faultString, child), FaultPath) ==
      if child.name == FaultPath[3] then [child] else []
  {
    var env := Envelope(faultString, child);
    var body := env.children[0];
    var fault := body.children[0];
    var detail := fault.children[2];
    assert ChildStep([env], FaultPath[0]) == [body];
    assert ChildStep([body], FaultPath[1]) == [fault];
    assert Matching(fault.children, FaultPath[2]) == [detail];
    assert ChildStep([fault], FaultPath[2]) == [detail];
    assert ChildStep([detail], FaultPath[3]) == if child.name == FaultPath[3] then [child] else [];
    assert FindAll(env, FaultPath) == Select([detail], FaultPath[3..]);
  }

  /** On such an envelope, an extraction path selects the matching children of the `NoPermissionFault`. */
  lemma EnvelopeFieldSelection(faultString: string, child: Element, n: Name)
    requires child.name == FaultPath[3]
    ensures FindAll(Envelope(faultString, child), FaultPath + [n]) == Matching(child.children, n)
  {
    EnvelopeFaultSelection(faultString, child);
    SelectAppend([Envelope(faultString, child)], FaultPath, n);
  }

  /** `LEGIT_FAULT` is detected, and yields Folder / group-v23485 / VirtualMachine.Interact.PowerOn. */
  lemma LegitFaultOutcome(parse: Parser, body: Body)
    requires parse(body) == Some(LegitFault)
    ensures CheckSoapPermissionFaultBody(parse, body)
    ensures GetCsvFieldsFromResponse(parse, body) ==
      Some(FaultFields(Some("Folder"), Some("group-v23485"), Some("VirtualMachine.Interact.PowerOn")))
  {
    var fault := LegitFault.children[0].children[0].children[2].children[0];
    EnvelopeFaultSelection("Permission to perform this operation was denied.", fault);
    EnvelopeFieldSelection("Permission to perform this operation was denied.", fault, ObjectName);
    EnvelopeFieldSelection("Permission to perform this operation was denied.", fault, PrivilegeIdName);
    assert Matching(fault.children, ObjectName) == [fault.children[0]];
    assert Matching(fault.children, PrivilegeIdName) == [fault.children[1]];
  }

  /** `OTHER_XML` is not detected and yields no fields. */
  lemma OtherFaultOutcome(parse: Parser, body: Body)
    requires parse(body) == Some(OtherXml)
    ensures !CheckSoapPermissionFaultBody(parse, body)
    ensures GetCsvFieldsFromResponse(parse, body) == None
  {
    var fault := OtherXml.children[0].children[0].children[2].children[0];
    EnvelopeFaultSelection(OtherFaultString, fault);
    FindExtendedPath(OtherXml, FaultPath, ObjectName);
  }

  /** A body that does not parse (`"lol"`) is neither detected nor extracted, and nothing is raised. */
  lemma NotXmlOutcome(parse: Parser)
    requires parse("lol") == None
    ensures !CheckSoapPermissionFaultBody(parse, "lol")
    ensures GetCsvFieldsFromResponse(parse, "lol") == None
  {
  }

  /** A detected fault that lacks `privilegeId` yields no record rather than a partial one. */
  lemma DetectedButNotExtracted(parse: Parser, body: Body)
    requires parse(body) == Some(FaultWithoutPrivilege)
    ensures CheckSoapPermissionFaultBody(parse, body)
    ensures GetCsvFieldsFromResponse(parse, body) == None
  {
    var fault := FaultWithoutPrivilege.children[0].children[0].children[2].children[0];
    EnvelopeFaultSelection("Permission to perform this operation was denied.", fault);
    EnvelopeFieldSelection("Permission to perform this operation was denied.", fault, PrivilegeIdName);
    assert Matching(fault.children, PrivilegeIdName) == [];
  }
}
