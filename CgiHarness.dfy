/** The test web server of tests/www/server.py: a request under /onvif/
    runs the script the path names as a CGI program, with the CGI
    meta-variables of section 4.1 of RFC 3875 that the handler sets; any
    other GET is a static file and any other POST is refused. The file
    system checks on the script, running it, and the request body are
    parameters or fields; what is written back is a sequence of parts. */
module CgiHarness {
  import opened Wrappers
  import opened CString

  /** What running the script gave: its output streams, or the exception
      raised while starting it, with its text. */
  datatype Outcome = Finished(stdout: string, stderr: string) | Raised(message: string)

  /** What the handler writes to its client, in order. */
  datatype Part =
    | StatusLine(code: int)
    | HeaderLine(name: string, value: string)
    | EndHeaders
    | BodyData(data: string)
    | ErrorPage(code: int, message: string)
    | StaticFile(path: string)

  /** What os.path.exists, os.access(path, X_OK) and open(path, 'rb')
      report for the file the request path translates to. */
  datatype Script = Script(present: bool, executable: bool, openError: Option<string>)

  /** The CGI runner: environment and, for POST only, the standard input. */
  type Runner = (map<string, string>, Option<string>) -> Outcome

  /** The handler's routing prefix. */
  const CgiPrefix := "/onvif/"

  // ---------------------------------------------------------------------
  // Request headers and the body

  /** headers.get(name): the first header whose name equals it, case
      aside. */
  function HeaderGet(headers: seq<(string, string)>, name: string): (r: Option<string>)
    ensures r.Some? ==> exists i :: 0 <= i < |headers| && CaseEq(headers[i].0, name) && headers[i].1 == r.value
    ensures r.None? ==> forall i :: 0 <= i < |headers| ==> !CaseEq(headers[i].0, name)
  {
    if |headers| == 0 then None
    else if CaseEq(headers[0].0, name) then Some(headers[0].1)
    else
      var r := HeaderGet(headers[1..], name);
      assert r.Some? ==> exists i :: 0 <= i < |headers| && CaseEq(headers[i].0, name) && headers[i].1 == r.value by {
        if r.Some? {
          var i :| 0 <= i < |headers[1..]| && CaseEq(headers[1..][i].0, name) && headers[1..][i].1 == r.value;
          assert headers[i + 1] == headers[1..][i];
        }
      }
      r
  }

  /** White space as Python's int() strips it. */
  predicate PySpace(c: char) {
    IsSpace(c) || ('\U{1c}' <= c <= '\U{1f}')
  }

  /** The number of white-space characters at the end of s. */
  function TrailingSpace(s: string): (n: nat)
    ensures n <= |s|
    ensures forall i :: |s| - n <= i < |s| ==> PySpace(s[i])
    ensures n < |s| ==> !PySpace(s[|s| - n - 1])
  {
    if s == [] || !PySpace(s[|s| - 1]) then 0 else 1 + TrailingSpace(s[..|s| - 1])
  }

  /** The number of white-space characters at the start of s. */
  function LeadingSpace(s: string): (n: nat)
    ensures n <= |s|
    ensures forall i :: 0 <= i < n ==> PySpace(s[i])
    ensures n < |s| ==> !PySpace(s[n])
  {
    if s == [] || !PySpace(s[0]) then 0 else 1 + LeadingSpace(s[1..])
  }

  /** s without the white space at either end, as int() strips it. */
  function PyStrip(s: string): (u: string)
    ensures |u| > 0 ==> !PySpace(u[0]) && !PySpace(u[|u| - 1])
  {
    var t := s[LeadingSpace(s)..];
    t[..|t| - TrailingSpace(t)]
  }

  /** An optional sign and at least one decimal digit, and nothing else. */
  function PySigned(u: string): (r: Option<int>)
    ensures r.Some? ==> |u| > 0
  {
    var k := if |u| > 0 && (u[0] == '-' || u[0] == '+') then 1 else 0;
    var d := u[k..];
    if |d| > 0 && DigitRun(d) == |d| then
      var v: int := DigitsValue(d);
      Some(if k == 1 && u[0] == '-' then -v else v)
    else None
  }

  /** int(s) for a text; None is the ValueError. */
  function PyInt(s: string): (r: Option<int>)
    ensures r.Some? ==> |PyStrip(s)| > 0
  {
    PySigned(PyStrip(s))
  }

  /** Stripping leaves a text without white space at its ends as it is. */
  lemma StripUnspaced(d: string)
    requires |d| > 0 && !PySpace(d[0]) && !PySpace(d[|d| - 1])
    ensures PyStrip(d) == d
  {
    assert LeadingSpace(d) == 0;
    assert d[0..] == d;
    assert TrailingSpace(d) == 0;
    assert d[..|d| - 0] == d;
  }

  /** An unsigned run of digits reads as its value. */
  lemma SignedOfDigits(d: string)
    requires |d| > 0 && IsDigit(d[0]) && DigitRun(d) == |d|
    ensures PySigned(d) == Some(DigitsValue(d))
  {
    assert d[0..] == d;
  }

  /** int() reads back what str() wrote. */
  lemma PyIntOfDecimal(n: nat)
    ensures PyInt(NatToDecimal(n)) == Some(n)
  {
    var d := NatToDecimal(n);
    assert IsDigit(d[0]) && IsDigit(d[|d| - 1]);
    StripUnspaced(d);
    DigitRunAll(d, []);
    assert d + [] == d;
    SignedOfDigits(d);
    DigitsValueOfDecimal(n);
  }

  /** The text ValueError carries for a bad literal; the quoting of repr()
      is taken as plain single quotes. */
  function BadLiteral(s: string): string {
    "invalid literal for int() with base 10: '" + s + "'"
  }

  /** A number int() read, or the text of the ValueError it raised. */
  datatype Parsed = Number(value: int) | ValueError(error: string)

  /** int(headers.get("Content-Length", 0)): 0 without the header. */
  function ContentLength(headers: seq<(string, string)>): (r: Parsed)
    ensures HeaderGet(headers, "Content-Length").None? ==> r == Number(0)
    ensures HeaderGet(headers, "Content-Length").Some? ==>
      (r.ValueError? <==> PyInt(HeaderGet(headers, "Content-Length").value).None?)
  {
    match HeaderGet(headers, "Content-Length")
    case None => Number(0)
    case Some(v) =>
      match PyInt(v)
      case None => ValueError(BadLiteral(v))
      case Some(n) => Number(n)
  }

  /** rfile.read(n): at most n characters, all that is left for a negative
      n. */
  function ReadCount(rest: string, n: int): (r: nat)
    ensures r <= |rest|
    ensures n >= 0 && n <= |rest| ==> r == n
  {
    if n < 0 || n > |rest| then |rest| else n
  }

  // ---------------------------------------------------------------------
  // run_cgi on its specification

  /** The environment of a POST: a copy of the server's with the three
      meta-variables set. */
  function PostEnvironment(serverEnv: map<string, string>, length: int, contentType: string): (env: map<string, string>)
    ensures env.Keys == serverEnv.Keys + {"REQUEST_METHOD", "CONTENT_LENGTH", "CONTENT_TYPE"}
    ensures env["REQUEST_METHOD"] == "POST"
    ensures env["CONTENT_LENGTH"] == IntToDecimal(length)
    ensures env["CONTENT_TYPE"] == contentType
    ensures forall k :: k in serverEnv && k != "REQUEST_METHOD" && k != "CONTENT_LENGTH" && k != "CONTENT_TYPE" ==> env[k] == serverEnv[k]
  {
    var e1 := serverEnv["REQUEST_METHOD" := "POST"];
    var e2 := e1["CONTENT_LENGTH" := IntToDecimal(length)];
    assert "CONTENT_TYPE" != "CONTENT_LENGTH" && "CONTENT_TYPE" != "REQUEST_METHOD";
    e2["CONTENT_TYPE" := contentType]
  }

  /** A 200 text/html reply with the given body parts. */
  function Success200(bodies: seq<string>): (r: seq<Part>)
    ensures |r| == 3 + |bodies|
    ensures r[0] == StatusLine(200) && r[1] == HeaderLine("Content-type", "text/html") && r[2] == EndHeaders
    ensures forall i :: 0 <= i < |bodies| ==> r[3 + i] == BodyData(bodies[i])
  {
    [StatusLine(200), HeaderLine("Content-type", "text/html"), EndHeaders] + seq(|bodies|, i requires 0 <= i < |bodies| => BodyData(bodies[i]))
  }

  /** What run_cgi writes, and how much of the request body it reads. */
  function CgiReply(command: string, headers: seq<(string, string)>, rest: string, script: Script,
                    serverEnv: map<string, string>, run: Runner): (r: (seq<Part>, nat))
    ensures r.1 <= |rest|
  {
    if !script.present then ([ErrorPage(404, "File not found")], 0)
    else if !script.executable then ([ErrorPage(403, "File not executable")], 0)
    else if command == "POST" then
      match ContentLength(headers)
      case ValueError(e) => ([ErrorPage(500, "CGI error: " + e)], 0)
      case Number(n) =>
        var taken := ReadCount(rest, n);
        if script.openError.Some? then ([ErrorPage(500, "CGI error: " + script.openError.value)], taken)
        else
          var env := PostEnvironment(serverEnv, n, HeaderGet(headers, "Content-Type").GetOr(""));
          match run(env, Some(rest[..taken]))
          case Raised(e) => ([ErrorPage(500, "CGI error: " + e)], taken)
          case Finished(out, err) =>
            (Success200(if err != "" then [out, err] else [out]), taken)
    else
      match run(serverEnv, None)
      case Raised(e) => ([ErrorPage(500, "CGI error: " + e)], 0)
      case Finished(out, _) => (Success200([out]), 0)
  }

  /** Existence is looked at before executability: a missing script is
      404 whatever else holds, a present one that cannot run is 403, and
      neither runs anything or reads the body. */
  lemma MissingBeforeForbidden(command: string, headers: seq<(string, string)>, rest: string, script: Script,
                               serverEnv: map<string, string>, run: Runner)
    ensures !script.present ==> CgiReply(command, headers, rest, script, serverEnv, run) == ([ErrorPage(404, "File not found")], 0)
    ensures script.present && !script.executable ==>
      CgiReply(command, headers, rest, script, serverEnv, run) == ([ErrorPage(403, "File not executable")], 0)
  {
  }

  /** A POST runs the script with the meta-variables set and exactly
      Content-Length characters of body as its input, when that many were
      sent. */
  lemma PostRunsWithBody(headers: seq<(string, string)>, rest: string, script: Script,
                         serverEnv: map<string, string>, run: Runner, n: nat)
    requires script.present && script.executable && script.openError.None?
    requires ContentLength(headers) == Number(n) && n <= |rest|
    ensures var env := PostEnvironment(serverEnv, n, HeaderGet(headers, "Content-Type").GetOr(""));
      match run(env, Some(rest[..n]))
      case Raised(e) => CgiReply("POST", headers, rest, script, serverEnv, run) == ([ErrorPage(500, "CGI error: " + e)], n)
      case Finished(out, err) =>
        CgiReply("POST", headers, rest, script, serverEnv, run).1 == n &&
        CgiReply("POST", headers, rest, script, serverEnv, run).0 == Success200(if err != "" then [out, err] else [out])
  {
  }

  /** A POST reply is 200 whatever the script's exit status: its output,
      then its error output when there is any. */
  lemma PostStderrAppended(headers: seq<(string, string)>, rest: string, script: Script,
                           serverEnv: map<string, string>, run: Runner, out: string, err: string)
    requires script.present && script.executable && script.openError.None?
    requires ContentLength(headers).Number?
    requires run(PostEnvironment(serverEnv, ContentLength(headers).value, HeaderGet(headers, "Content-Type").GetOr("")),
                 Some(rest[..ReadCount(rest, ContentLength(headers).value)])) == Finished(out, err)
    ensures var parts := CgiReply("POST", headers, rest, script, serverEnv, run).0;
      parts[0] == StatusLine(200) && parts[3] == BodyData(out) &&
      (|parts| == 5 <==> err != "") && (err != "" ==> parts[4] == BodyData(err))
  {
  }

  /** A GET reply carries the script's output only, and the request body
      is not read. */
  lemma GetStdoutOnly(headers: seq<(string, string)>, rest: string, script: Script,
                      serverEnv: map<string, string>, run: Runner, out: string, err: string)
    requires script.present && script.executable
    requires run(serverEnv, None) == Finished(out, err)
    ensures CgiReply("GET", headers, rest, script, serverEnv, run) == (Success200([out]), 0)
  {
  }

  /** A Content-Length that int() cannot read is an exception: 500, and
      nothing is run. */
  lemma BadLengthIs500(headers: seq<(string, string)>, rest: string, script: Script,
                       serverEnv: map<string, string>, run: Runner)
    requires script.present && script.executable
    requires HeaderGet(headers, "Content-Length").Some? && PyInt(HeaderGet(headers, "Content-Length").value).None?
    ensures CgiReply("POST", headers, rest, script, serverEnv, run)
         == ([ErrorPage(500, "CGI error: " + BadLiteral(HeaderGet(headers, "Content-Length").value))], 0)
  {
  }

  /** A GET runs the script in the server's own environment: neither
      the request headers nor the body nor the handler's copy of the
      environment can change what it answers. */
  lemma GetIgnoresRequest(headers1: seq<(string, string)>, headers2: seq<(string, string)>, rest1: string, rest2: string,
                          script: Script, serverEnv: map<string, string>, run1: Runner, run2: Runner)
    requires script.present && script.executable
    requires run1(serverEnv, None) == run2(serverEnv, None)
    ensures CgiReply("GET", headers1, rest1, script, serverEnv, run1) == CgiReply("GET", headers2, rest2, script, serverEnv, run2)
  {
  }

  // ---------------------------------------------------------------------
  // The handler

  /** CGIHandler for one request: the request line and headers, the part
      of the body not yet read, and what has been written back. */
  class Handler {
    const command: string
    const path: string
    const headers: seq<(string, string)>
    var rfile: string
    var wfile: seq<Part>

    constructor (command: string, path: string, headers: seq<(string, string)>, body: string)
      ensures this.command == command && this.path == path && this.headers == headers
      ensures rfile == body && wfile == []
    {
      this.command := command;
      this.path := path;
      this.headers := headers;
      rfile := body;
      wfile := [];
    }

    /** send_response(200), the Content-type header, end_headers, then
        each body write. */
    method WriteSuccess(bodies: seq<string>)
      modifies this
      ensures wfile == old(wfile) + Success200(bodies) && rfile == old(rfile)
    {
      wfile := wfile + [StatusLine(200), HeaderLine("Content-type", "text/html"), EndHeaders];
      var i := 0;
      while i < |bodies|
        invariant 0 <= i <= |bodies|
        invariant wfile == old(wfile) + Success200(bodies[..i]) && rfile == old(rfile)
      {
        assert Success200(bodies[..i + 1]) == Success200(bodies[..i]) + [BodyData(bodies[i])];
        wfile := wfile + [BodyData(bodies[i])];
        i := i + 1;
      }
      assert bodies[..i] == bodies;
    }

    /** The POST branch of run_cgi: the environment built up key by key,
        the body read, the script run on it. */
    method RunPost(script: Script, serverEnv: map<string, string>, run: Runner)
      requires script.present && script.executable && command == "POST"
      modifies this
      ensures wfile == old(wfile) + CgiReply(command, headers, old(rfile), script, serverEnv, run).0
      ensures rfile == old(rfile)[CgiReply(command, headers, old(rfile), script, serverEnv, run).1..]
    {
      var env := serverEnv;
      env := env["REQUEST_METHOD" := command];
      var length := ContentLength(headers);
      if length.ValueError? {
        wfile := wfile + [ErrorPage(500, "CGI error: " + length.error)];
        return;
      }
      var n := length.value;
      env := env["CONTENT_LENGTH" := IntToDecimal(n)];
      env := env["CONTENT_TYPE" := HeaderGet(headers, "Content-Type").GetOr("")];
      var taken := ReadCount(rfile, n);
      var stdin := rfile[..taken];
      rfile := rfile[taken..];
      if script.openError.Some? {
        wfile := wfile + [ErrorPage(500, "CGI error: " + script.openError.value)];
        return;
      }
      assert env == PostEnvironment(serverEnv, n, HeaderGet(headers, "Content-Type").GetOr(""));
      var outcome := run(env, Some(stdin));
      if outcome.Raised? {
        wfile := wfile + [ErrorPage(500, "CGI error: " + outcome.message)];
        return;
      }
      if outcome.stderr != "" {
        WriteSuccess([outcome.stdout, outcome.stderr]);
      } else {
        WriteSuccess([outcome.stdout]);
      }
    }

    /** run_cgi: the file checks in order, then the branch for the
        request's method. */
    method RunCgi(script: Script, serverEnv: map<string, string>, run: Runner)
      requires command == "GET" || command == "POST"
      modifies this
      ensures wfile == old(wfile) + CgiReply(command, headers, old(rfile), script, serverEnv, run).0
      ensures rfile == old(rfile)[CgiReply(command, headers, old(rfile), script, serverEnv, run).1..]
    {
      if !script.present {
        wfile := wfile + [ErrorPage(404, "File not found")];
        return;
      }
      if !script.executable {
        wfile := wfile + [ErrorPage(403, "File not executable")];
        return;
      }
      if command == "POST" {
        RunPost(script, serverEnv, run);
      } else {
        var outcome := run(serverEnv, None);
        if outcome.Raised? {
          wfile := wfile + [ErrorPage(500, "CGI error: " + outcome.message)];
          return;
        }
        WriteSuccess([outcome.stdout]);
      }
    }

    /** do_GET: the CGI directory runs scripts, anything else is a static
        file. */
    method DoGet(script: Script, serverEnv: map<string, string>, run: Runner)
      requires command == "GET"
      modifies this
      ensures StartsWith(path, CgiPrefix) ==>
        wfile == old(wfile) + CgiReply(command, headers, old(rfile), script, serverEnv, run).0 && rfile == old(rfile)
      ensures !StartsWith(path, CgiPrefix) ==> wfile == old(wfile) + [StaticFile(path)] && rfile == old(rfile)
    {
      if StartsWith(path, CgiPrefix) {
        RunCgi(script, serverEnv, run);
      } else {
        wfile := wfile + [StaticFile(path)];
      }
    }

    /** do_POST: the CGI directory runs scripts, anything else is 501. */
    method DoPost(script: Script, serverEnv: map<string, string>, run: Runner)
      requires command == "POST"
      modifies this
      ensures StartsWith(path, CgiPrefix) ==>
        wfile == old(wfile) + CgiReply(command, headers, old(rfile), script, serverEnv, run).0
        && rfile == old(rfile)[CgiReply(command, headers, old(rfile), script, serverEnv, run).1..]
      ensures !StartsWith(path, CgiPrefix) ==> wfile == old(wfile) + [ErrorPage(501, "Unsupported method")] && rfile == old(rfile)
    {
      if StartsWith(path, CgiPrefix) {
        RunCgi(script, serverEnv, run);
      } else {
        wfile := wfile + [ErrorPage(501, "Unsupported method")];
      }
    }
  }
}
