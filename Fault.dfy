/** The reply helpers of fault.c: the empty response element, the fault
    with its device and service addresses, the pull-messages fault, the
    action-failed fault and the authentication error. The template files
    and `cat` are not modelled: a reply is the status it prints, the
    template it names and the substitutions it hands over, and the text
    written is built from a `cat` given as a parameter. The device's IP
    address and the message UUID are parameters too. */
module Fault {
  import opened Wrappers
  import opened CString

  // ---------------------------------------------------------------------
  // send_empty_response

  /** "%s:%sResponse" */
  function EmptyResponseName(ns: string, methodName: string): (r: string)
    ensures |r| == |ns| + |methodName| + 9
    ensures StartsWith(r, ns + ":") && EndsWith(r, methodName + "Response")
  {
    var r := ns + ":" + methodName + "Response";
    assert r[..|ns| + 1] == ns + ":";
    assert r[|r| - |methodName + "Response"|..] == methodName + "Response";
    r
  }

  /** The name, with its terminating NUL, fills the buffer of
      strlen(ns) + strlen(method) + 10 bytes exactly. */
  lemma EmptyResponseNameFits(ns: string, methodName: string)
    ensures |EmptyResponseName(ns, methodName)| + 1 == |ns| + |methodName| + 10
  {
  }

  /** The namespace prefix and the method name read back from the element
      name: the prefix runs to the first ':', the method name up to the
      "Response" ending. */
  function SplitResponseName(name: string): (r: Option<(string, string)>)
    ensures r.Some? ==> ':' !in r.value.0
  {
    match IndexOf(name, ':')
    case None => None
    case Some(k) =>
      var rest := name[k + 1..];
      if EndsWith(rest, "Response") then Some((name[..k], rest[..|rest| - 8])) else None
  }

  /** The element name determines the namespace prefix and the method
      name, as long as the prefix has no ':' of its own. */
  lemma EmptyResponseNameSplits(ns: string, methodName: string)
    requires ':' !in ns
    ensures SplitResponseName(EmptyResponseName(ns, methodName)) == Some((ns, methodName))
  {
    var name := EmptyResponseName(ns, methodName);
    var k := |ns|;
    assert name[k] == ':';
    assert name[..k] == ns;
    assert IndexOf(name, ':') == Some(k) by {
      assert ':' !in name[..k];
    }
    var rest := name[k + 1..];
    assert rest == methodName + "Response";
    assert rest[..|rest| - 8] == methodName;
  }

  // ---------------------------------------------------------------------
  // send_fault addresses

  /** The port part of the addresses: ":<port>" unless the port is 80. */
  function PortSuffix(port: int): (r: string)
    ensures r == "" <==> port == 80
    ensures port != 80 ==> r[0] == ':' && r[1..] == IntToDecimal(port)
  {
    if port != 80 then ":" + IntToDecimal(port) else ""
  }

  /** "http://%s%s/onvif" */
  function DeviceAddress(ip: string, port: int): (r: string)
    ensures StartsWith(r, "http://" + ip) && EndsWith(r, "/onvif")
    ensures |r| == 13 + |ip| + |PortSuffix(port)|
  {
    var r := "http://" + ip + PortSuffix(port) + "/onvif";
    assert r[..7 + |ip|] == "http://" + ip;
    assert r[|r| - 6..] == "/onvif";
    r
  }

  /** "http://%s%s/onvif/%s": the device address followed by the
      service's path element. */
  function ServiceAddress(ip: string, port: int, service: string): (r: string)
    ensures r == DeviceAddress(ip, port) + "/" + service
  {
    "http://" + ip + PortSuffix(port) + "/onvif/" + service
  }

  /** On the default port the addresses carry no port at all. */
  lemma DefaultPortAddresses(ip: string, service: string)
    ensures DeviceAddress(ip, 80) == "http://" + ip + "/onvif"
    ensures ServiceAddress(ip, 80, service) == "http://" + ip + "/onvif/" + service
  {
  }

  /** On any other port the number written after the address reads back
      as the port, and the web root follows it. */
  lemma OtherPortReadsBack(ip: string, port: int)
    requires port != 80
    ensures DeviceAddress(ip, port) == "http://" + ip + ":" + IntToDecimal(port) + "/onvif"
    ensures ScanPrefixedInt(":", PortSuffix(port) + "/onvif") == Some(port)
  {
    var t := PortSuffix(port) + "/onvif";
    assert t[1..] == IntToDecimal(port) + "/onvif";
    assert StartsWith(t, ":");
    ScanIntOfDecimal(port, "/onvif");
  }

  /** char port[8] holds ":<port>" and its NUL for every TCP port. */
  lemma PortSuffixFits(port: int)
    requires 0 <= port <= 65535
    ensures |PortSuffix(port)| + 1 <= 8
  {
    if port != 80 {
      Pow10Values();
      DecimalLength(port, 5);
    }
  }

  // ---------------------------------------------------------------------
  // The replies

  /** The fault fields the caller chooses. */
  datatype FaultFields = FaultFields(recSend: string, subcode: string, subcodeEx: string, reason: string, detail: string)

  /** What a helper writes: an optional HTTP status line (none leaves the
      CGI default), and the template with its substitutions, printed once
      to measure Content-Length and once to stdout. */
  datatype Reply = Reply(status: Option<int>, template: string, values: seq<(string, string)>)

  /** The value a substitution list gives a placeholder: the first one
      with that key. */
  function ValueOf(values: seq<(string, string)>, key: string): (r: Option<string>)
    ensures r.Some? <==> exists i :: 0 <= i < |values| && values[i].0 == key
  {
    if |values| == 0 then None
    else if values[0].0 == key then Some(values[0].1)
    else
      var r := ValueOf(values[1..], key);
      assert r.Some? ==> exists i :: 0 <= i < |values| && values[i].0 == key by {
        if r.Some? {
          var i :| 0 <= i < |values[1..]| && values[1..][i].0 == key;
          assert values[i + 1].0 == key;
        }
      }
      r
  }

  /** send_empty_response */
  function SendEmptyResponse(ns: string, methodName: string): (r: Reply)
    ensures r.status.None? && r.template == "generic_files/Empty.xml"
    ensures ValueOf(r.values, "%METHOD%") == Some(EmptyResponseName(ns, methodName))
  {
    Reply(None, "generic_files/Empty.xml", [("%METHOD%", EmptyResponseName(ns, methodName))])
  }

  /** The substitutions of the Fault template, in the order send_fault
      hands them over. */
  function FaultList(uuid: string, address: string, serviceAddress: string, f: FaultFields): seq<(string, string)> {
    [("%UUID%", uuid), ("%ADDRESS%", address), ("%SERVICE%", serviceAddress),
     ("%REC_SEND%", f.recSend), ("%SUBCODE%", f.subcode), ("%SUBCODE_EX%", f.subcodeEx),
     ("%REASON%", f.reason), ("%DETAIL%", f.detail)]
  }

  /** The message UUID and the two addresses reach their placeholders. */
  lemma FaultListAddresses(uuid: string, address: string, serviceAddress: string, f: FaultFields)
    ensures var vs := FaultList(uuid, address, serviceAddress, f);
            ValueOf(vs, "%UUID%") == Some(uuid) && ValueOf(vs, "%ADDRESS%") == Some(address) &&
            ValueOf(vs, "%SERVICE%") == Some(serviceAddress)
  {
    var vs := FaultList(uuid, address, serviceAddress, f);
    ValueAt(vs, "%UUID%", 0);
    ValueAt(vs, "%ADDRESS%", 1);
    assert vs[1].0[3] != 'E';
    ValueAt(vs, "%SERVICE%", 2);
  }

  /** The three fault codes reach their placeholders. */
  lemma FaultListCodes(uuid: string, address: string, serviceAddress: string, f: FaultFields)
    ensures var vs := FaultList(uuid, address, serviceAddress, f);
            ValueOf(vs, "%REC_SEND%") == Some(f.recSend) && ValueOf(vs, "%SUBCODE%") == Some(f.subcode) &&
            ValueOf(vs, "%SUBCODE_EX%") == Some(f.subcodeEx)
  {
    var vs := FaultList(uuid, address, serviceAddress, f);
    ValueAt(vs, "%REC_SEND%", 3);
    assert vs[1].0[3] != 'B' && vs[2].0[3] != 'B';
    ValueAt(vs, "%SUBCODE%", 4);
    ValueAt(vs, "%SUBCODE_EX%", 5);
  }

  /** The reason and the detail reach their placeholders. */
  lemma FaultListText(uuid: string, address: string, serviceAddress: string, f: FaultFields)
    ensures var vs := FaultList(uuid, address, serviceAddress, f);
            ValueOf(vs, "%REASON%") == Some(f.reason) && ValueOf(vs, "%DETAIL%") == Some(f.detail)
  {
    var vs := FaultList(uuid, address, serviceAddress, f);
    ValueAt(vs, "%REASON%", 6);
    assert vs[6].0[1] != 'D';
    ValueAt(vs, "%DETAIL%", 7);
  }

  /** send_fault: status 500 and the Fault template, whose placeholders
      get the message UUID, the device and service addresses and the
      caller's five fields. */
  function SendFault(ip: string, port: int, uuid: string, service: string, f: FaultFields): (r: Reply)
    ensures r.status == Some(500) && r.template == "generic_files/Fault.xml" && |r.values| == 8
    ensures ValueOf(r.values, "%UUID%") == Some(uuid)
    ensures ValueOf(r.values, "%ADDRESS%") == Some(DeviceAddress(ip, port))
    ensures ValueOf(r.values, "%SERVICE%") == Some(ServiceAddress(ip, port, service))
    ensures ValueOf(r.values, "%REC_SEND%") == Some(f.recSend) && ValueOf(r.values, "%SUBCODE%") == Some(f.subcode)
    ensures ValueOf(r.values, "%SUBCODE_EX%") == Some(f.subcodeEx) && ValueOf(r.values, "%REASON%") == Some(f.reason)
    ensures ValueOf(r.values, "%DETAIL%") == Some(f.detail)
  {
    FaultListAddresses(uuid, DeviceAddress(ip, port), ServiceAddress(ip, port, service), f);
    FaultListCodes(uuid, DeviceAddress(ip, port), ServiceAddress(ip, port, service), f);
    FaultListText(uuid, DeviceAddress(ip, port), ServiceAddress(ip, port, service), f);
    Reply(Some(500), "generic_files/Fault.xml", FaultList(uuid, DeviceAddress(ip, port), ServiceAddress(ip, port, service), f))
  }

  /** The first entry with the key gives the value. */
  lemma {:induction false} ValueAt(vs: seq<(string, string)>, key: string, i: nat)
    requires i < |vs| && vs[i].0 == key
    requires forall j :: 0 <= j < i ==> vs[j].0 != key
    ensures ValueOf(vs, key) == Some(vs[i].1)
  {
    if i > 0 {
      ValueAt(vs[1..], key, i - 1);
    }
  }

  /** send_pull_messages_fault: status 500 and the limits the caller
      reports. */
  function SendPullMessagesFault(timeout: string, messageLimit: string): (r: Reply)
    ensures r.status == Some(500) && r.template == "generic_files/PullMessagesFaultResponse.xml"
    ensures ValueOf(r.values, "%MAX_TIMEOUT%") == Some(timeout)
    ensures ValueOf(r.values, "%MAX_MESSAGE_LIMIT%") == Some(messageLimit)
  {
    assert "%MAX_MESSAGE_LIMIT%"[5] != "%MAX_TIMEOUT%"[5];
    Reply(Some(500), "generic_files/PullMessagesFaultResponse.xml",
      [("%MAX_TIMEOUT%", timeout), ("%MAX_MESSAGE_LIMIT%", messageLimit)])
  }

  /** "The requested SOAP action failed: error %d" */
  const ActionFailedPrefix := "The requested SOAP action failed: error "

  function ActionFailedDetail(code: int): (r: string)
    ensures StartsWith(r, ActionFailedPrefix)
    ensures ScanPrefixedInt(ActionFailedPrefix, r) == Some(code)
  {
    var r := ActionFailedPrefix + IntToDecimal(code);
    assert r[..|ActionFailedPrefix|] == ActionFailedPrefix;
    assert r[|ActionFailedPrefix|..] == IntToDecimal(code) + [];
    ScanIntOfDecimal(code, []);
    r
  }

  /** The fields of an action-failed fault. */
  function ActionFailed(code: int): (f: FaultFields)
    ensures f.recSend == "Receiver" && f.subcode == "ter:Action" && f.subcodeEx == "ter:ActionFailed"
    ensures f.reason == "Action failed" && f.detail == ActionFailedDetail(code)
  {
    FaultFields("Receiver", "ter:Action", "ter:ActionFailed", "Action failed", ActionFailedDetail(code))
  }

  /** send_action_failed_fault: status 500 and the Fault template with a
      receiver-side ter:Action / ter:ActionFailed fault whose detail
      carries the error code, which reads back from it. */
  function SendActionFailedFault(ip: string, port: int, uuid: string, service: string, code: int): (r: Reply)
    ensures r.status == Some(500) && r.template == "generic_files/Fault.xml"
    ensures ValueOf(r.values, "%REC_SEND%") == Some("Receiver")
    ensures ValueOf(r.values, "%SUBCODE%") == Some("ter:Action")
    ensures ValueOf(r.values, "%SUBCODE_EX%") == Some("ter:ActionFailed")
    ensures ValueOf(r.values, "%REASON%") == Some("Action failed")
    ensures ValueOf(r.values, "%DETAIL%") == Some(ActionFailedDetail(code))
    ensures ScanPrefixedInt(ActionFailedPrefix, ValueOf(r.values, "%DETAIL%").value) == Some(code)
    ensures ValueOf(r.values, "%ADDRESS%") == Some(DeviceAddress(ip, port))
  {
    SendFault(ip, port, uuid, service, ActionFailed(code))
  }

  /** Distinct error codes give distinct details. */
  lemma ActionFailedDistinct(c: int, d: int)
    requires ActionFailedDetail(c) == ActionFailedDetail(d)
    ensures c == d
  {
  }

  /** The detail fits error_string[1024] for every 32-bit code. */
  lemma ActionFailedDetailFits(code: int)
    requires -0x8000_0000 <= code < 0x8000_0000
    ensures |ActionFailedDetail(code)| + 1 <= 1024
  {
    Pow10Values();
    assert |ActionFailedDetail(code)| == |ActionFailedPrefix| + |IntToDecimal(code)|;
    if code < 0 {
      DecimalLength(-code, 10);
    } else {
      DecimalLength(code, 10);
    }
  }

  /** send_authentication_error: status 400 and no substitutions. */
  function SendAuthenticationError(): (r: Reply)
    ensures r.status == Some(400) && r.values == []
    ensures r.template == "generic_files/AuthenticationError.xml"
  {
    Reply(Some(400), "generic_files/AuthenticationError.xml", [])
  }

  // ---------------------------------------------------------------------
  // The text written to stdout

  /** The status lines the helpers print. */
  function StatusLine(status: Option<int>): string {
    match status
    case None => ""
    case Some(code) =>
      if code == 500 then "HTTP/1.1 500 Internal Server Error\r\n"
      else if code == 400 then "HTTP/1.1 400 Bad request\r\n"
      else "HTTP/1.1 " + IntToDecimal(code) + "\r\n"
  }

  /** The headers before the body. */
  function Head(status: Option<int>, size: nat): (r: string)
    ensures StartsWith(r, StatusLine(status))
    ensures EndsWith(r, "Content-Length: " + IntToDecimal(size) + "\r\n\r\n")
  {
    var line := StatusLine(status);
    var tail := "Content-Length: " + IntToDecimal(size) + "\r\n\r\n";
    var r := line + "Content-type: application/soap+xml\r\n" + tail;
    assert r[..|line|] == line;
    assert r[|r| - |tail|..] == tail;
    r
  }

  /** What a reply writes; `cat` is the template expansion. Both passes of
      cat expand the same template with the same values, so the length
      announced is the length of the body that follows. */
  function Written(r: Reply, cat: (string, seq<(string, string)>) -> string): (out: string)
    ensures EndsWith(out, cat(r.template, r.values))
    ensures StartsWith(out, StatusLine(r.status))
    ensures |out| >= |cat(r.template, r.values)|
    ensures EndsWith(out[..|out| - |cat(r.template, r.values)|],
                     "Content-Length: " + IntToDecimal(|cat(r.template, r.values)|) + "\r\n\r\n")
  {
    var body := cat(r.template, r.values);
    var head := Head(r.status, |body|);
    var out := head + body;
    assert out[|out| - |body|..] == body;
    assert out[..|StatusLine(r.status)|] == head[..|StatusLine(r.status)|];
    assert out[..|out| - |body|] == head;
    out
  }

  /** Faults are marked 500 and authentication errors 400 on the first
      line; the empty response has no status line. */
  lemma StatusLines(ip: string, port: int, uuid: string, service: string, f: FaultFields, ns: string, methodName: string)
    ensures StatusLine(SendFault(ip, port, uuid, service, f).status) == "HTTP/1.1 500 Internal Server Error\r\n"
    ensures StatusLine(SendAuthenticationError().status) == "HTTP/1.1 400 Bad request\r\n"
    ensures StatusLine(SendEmptyResponse(ns, methodName).status) == ""
  {
  }
}
