/** The front end of main in onvif_simple_server.c: the service name taken
    from the command line, the WS-Security UsernameToken check that sets
    auth_error, the whitelist of methods any client may call, and the choice
    between dispatching the method and sending the authentication error.
    SHA-1 and the server's base64 decoder are parameters; the digest is
    base64-encoded with the RFC 4648 encoder of Base64.dfy. */
module ServerAuth {
  import opened Wrappers
  import opened CString
  import opened Base64
  import opened WsSecurity
  import opened Xml
  import opened Dispatch
  import Timestamps
  import OnvifAuth

  // ---------------------------------------------------------------------
  // The service name: basename of the last argument or of argv[0]

  /** s without its trailing '/' characters. */
  function StripSlashes(s: string): (r: string)
    ensures StartsWith(s, r)
    ensures r == [] || r[|r| - 1] != '/'
    ensures forall i :: |r| <= i < |s| ==> s[i] == '/'
  {
    if s != [] && s[|s| - 1] == '/' then StripSlashes(s[..|s| - 1]) else s
  }

  /** The text after the last '/' of s (all of s when it has none). */
  function AfterLastSlash(s: string): (r: string)
    ensures EndsWith(s, r) && '/' !in r
    ensures |r| < |s| ==> s[|s| - |r| - 1] == '/'
    ensures s != [] && s[|s| - 1] != '/' ==> r != []
  {
    if s == [] || s[|s| - 1] == '/' then []
    else
      var r := AfterLastSlash(s[..|s| - 1]);
      assert s[..|s| - 1][|s| - 1 - |r|..] == s[|s| - 1 - |r|..|s| - 1];
      r + [s[|s| - 1]]
  }

  /** POSIX basename(3) of libgen.h: "." for NULL or "", "/" for a path made
      only of slashes, otherwise the last component once trailing slashes
      are dropped. */
  function Basename(path: Option<string>): (r: string)
    ensures r != []
    ensures '/' in r ==> r == "/"
  {
    if path.None? || path.value == [] then "."
    else
      var t := StripSlashes(path.value);
      if t == [] then "/"
      else AfterLastSlash(t)
  }

  /** The last argument names a service when it contains one of the six
      service names, in the order the source tries them. */
  predicate NamesService(arg: string) {
    Contains(arg, "device_service") || Contains(arg, "media_service") || Contains(arg, "media2_service")
    || Contains(arg, "ptz_service") || Contains(arg, "events_service") || Contains(arg, "deviceio_service")
  }

  /** prog_name: the basename of the last argument when there are at least
      two and the last names a service, else the basename of argv[0]
      (NULL when there is no argument at all). */
  function ProgName(args: seq<string>): (r: string)
    ensures |args| > 1 && NamesService(args[|args| - 1]) ==> r == Basename(Some(args[|args| - 1]))
    ensures !(|args| > 1 && NamesService(args[|args| - 1])) ==>
      r == Basename(if |args| > 0 then Some(args[0]) else None)
  {
    if |args| > 1 && NamesService(args[|args| - 1]) then Basename(Some(args[|args| - 1]))
    else Basename(if |args| > 0 then Some(args[0]) else None)
  }

  lemma NamesEveryService(sv: Service, arg: string)
    requires Contains(arg, ServiceName(sv))
    ensures NamesService(arg)
  {
  }

  lemma {:induction false} AfterLastSlashOf(d: string, name: string)
    requires '/' !in name
    ensures AfterLastSlash(d + "/" + name) == name
    decreases |name|
  {
    var s := d + "/" + name;
    if name == [] {
      assert s[|s| - 1] == '/';
    } else {
      var init := name[..|name| - 1];
      assert s[..|s| - 1] == d + "/" + init;
      assert '/' !in init by {
        forall i | 0 <= i < |init| ensures init[i] != '/' { assert init[i] == name[i]; }
      }
      AfterLastSlashOf(d, init);
      assert init + [name[|name| - 1]] == name;
    }
  }

  /** The basename of a path ending in a non-empty component is that
      component. */
  lemma BasenameOfPath(d: string, name: string)
    requires name != [] && '/' !in name
    ensures Basename(Some(d + "/" + name)) == name
  {
    var s := d + "/" + name;
    assert s[|s| - 1] == name[|name| - 1];
    AfterLastSlashOf(d, name);
  }

  /** A script invoked as <dir>/<service name>, with that path as its last
      argument, serves that service. */
  lemma ProgNameOfServicePath(args: seq<string>, d: string, sv: Service)
    requires |args| > 1 && args[|args| - 1] == d + "/" + ServiceName(sv)
    ensures ProgName(args) == ServiceName(sv)
    ensures Fallback(ProgName(args)) == sv
  {
    var last := args[|args| - 1];
    var n := ServiceName(sv);
    assert OccursAt(last, n, |d| + 1) by {
      assert last[|d| + 1..|d| + 1 + |n|] == n;
    }
    NamesEveryService(sv, last);
    assert '/' !in n by { match sv { case _ => } }
    BasenameOfPath(d, n);
    FallbackOwnService(sv);
  }

  // ---------------------------------------------------------------------
  // The UsernameToken check

  /** The configured credentials: authentication is on when a user name is
      configured. */
  datatype Config = Config(username: Option<string>, password: Option<string>)

  /** What get_element(name, "Header") finds for the six names the check
      looks up; None is NULL. */
  datatype Header = Header(security: Option<string>, usernameToken: Option<string>,
                           username: Option<string>, password: Option<string>,
                           nonce: Option<string>, created: Option<string>)

  function HeaderOf(root: Option<Root>): Header {
    Header(GetElement(root, "Security", "Header"), GetElement(root, "UsernameToken", "Header"),
           GetElement(root, "Username", "Header"), GetElement(root, "Password", "Header"),
           GetElement(root, "Nonce", "Header"), GetElement(root, "Created", "Header"))
  }

  /** The size of the auth[] buffer the hashed bytes are copied into. */
  const AuthSize: nat := 128

  /** The digest buffer holds 127 characters and a NUL. */
  const DigestCapacity: nat := 127

  /** The server's b64_decode, from the nonce text to its bytes. */
  type Decoder = string -> Bytes

  /** The code auth_error holds after the four field lookups, each missing
      field writing its own code over the one before: 1 Username,
      2 Password, 3 Nonce, 4 Created, 0 when none is missing. */
  function MissingFieldCode(h: Header): (code: int)
    ensures code == 0 <==> h.username.Some? && h.password.Some? && h.nonce.Some? && h.created.Some?
    ensures h.created.None? ==> code == 4
    ensures h.created.Some? && h.nonce.None? ==> code == 3
    ensures h.created.Some? && h.nonce.Some? && h.password.None? ==> code == 2
    ensures h.created.Some? && h.nonce.Some? && h.password.Some? && h.username.None? ==> code == 1
  {
    var afterUsername := if h.username.None? then 1 else 0;
    var afterPassword := if h.password.None? then 2 else afterUsername;
    var afterNonce := if h.nonce.None? then 3 else afterPassword;
    if h.created.None? then 4 else afterNonce
  }

  /** The digest the server computes: base64 of the SHA-1 of nonce, created
      and password, cut to the 127 characters the buffer holds. */
  function ServerDigest(sha1: Sha1, nonce: Bytes, created: string, password: string): (r: string)
    ensures |r| <= DigestCapacity
    ensures StartsWith(PasswordDigest(sha1, nonce, created, password), r)
  {
    Truncate(PasswordDigest(sha1, nonce, created, password), DigestCapacity)
  }

  /** The number of bytes to hash, to be compared with AuthSize. */
  function HashedLength(decode: Decoder, h: Header, password: string): nat
    requires h.nonce.Some? && h.created.Some?
  {
    |decode(h.nonce.value)| + |Utf8(h.created.value)| + |Utf8(password)|
  }

  /** auth_error after the check, before the whitelist: 0 when no user name
      is configured; 11 without Security and UsernameToken; the missing
      field code; 10 when the bytes to hash do not fit auth[], or when the
      user name or the digest differs (strcmp, case-sensitive). */
  function AuthError(cfg: Config, h: Header, decode: Decoder, sha1: Sha1): (code: int)
    requires cfg.username.Some? ==> cfg.password.Some?
  {
    if cfg.username.None? then 0
    else if h.security.None? || h.usernameToken.None? then 11
    else if MissingFieldCode(h) != 0 then MissingFieldCode(h)
    else if HashedLength(decode, h, cfg.password.value) > AuthSize then 10
    else if cfg.username.value != h.username.value
         || h.password.value != ServerDigest(sha1, decode(h.nonce.value), h.created.value, cfg.password.value)
    then 10
    else 0
  }

  /** The device_service methods any client may call. */
  predicate Whitelisted(progName: string, methodName: string) {
    CaseEq("device_service", progName)
    && (CaseEq("GetSystemDateAndTime", methodName) || CaseEq("GetUsers", methodName)
        || CaseEq("GetCapabilities", methodName) || CaseEq("GetServices", methodName)
        || CaseEq("GetServiceCapabilities", methodName) || CaseEq("GetDeviceInformation", methodName))
  }

  /** auth_error once the whitelist has been applied. */
  function FinalAuthError(cfg: Config, h: Header, decode: Decoder, sha1: Sha1,
                          progName: string, methodName: string): int
    requires cfg.username.Some? ==> cfg.password.Some?
  {
    if Whitelisted(progName, methodName) then 0 else AuthError(cfg, h, decode, sha1)
  }

  /** memcpy(&dst[at], src, |src|) */
  method CopyInto(dst: array<Byte>, at: nat, src: Bytes)
    requires at + |src| <= dst.Length
    modifies dst
    ensures dst[..] == old(dst[..at]) + src + old(dst[at + |src|..])
  {
    var i := 0;
    while i < |src|
      invariant 0 <= i <= |src|
      invariant dst[..] == old(dst[..at]) + src[..i] + old(dst[at + i..])
    {
      dst[at + i] := src[i];
      i := i + 1;
      assert src[..i] == src[..i - 1] + [src[i - 1]];
    }
    assert src[..i] == src;
  }

  /** The bytes hashed are the nonce, the creation time and the password, in
      that order; the three copies at running offsets put them there. */
  method FillAuth(nonce: Bytes, created: Bytes, password: Bytes) returns (hashed: Bytes)
    requires |nonce| + |created| + |password| <= AuthSize
    ensures hashed == nonce + created + password
  {
    var auth := new Byte[AuthSize];
    CopyInto(auth, 0, nonce);
    assert auth[..|nonce|] == nonce;
    CopyInto(auth, |nonce|, created);
    assert auth[..|nonce|] == nonce;
    assert auth[|nonce|..|nonce| + |created|] == created;
    CopyInto(auth, |nonce| + |created|, password);
    var size := |nonce| + |created| + |password|;
    assert auth[..|nonce|] == nonce;
    assert auth[|nonce|..|nonce| + |created|] == created;
    assert auth[|nonce| + |created|..size] == password;
    hashed := auth[..size];
    assert hashed == auth[..|nonce|] + auth[|nonce|..|nonce| + |created|] + auth[|nonce| + |created|..size];
  }

  /** The check as main runs it: auth_error written field by field, the
      bound test, the copies into auth[] and the final comparisons, then the
      whitelist. `enabled` is security.enable. */
  method Authenticate(cfg: Config, h: Header, decode: Decoder, sha1: Sha1, progName: string, methodName: string)
    returns (authError: int, enabled: bool)
    requires cfg.username.Some? ==> cfg.password.Some?
    ensures authError == FinalAuthError(cfg, h, decode, sha1, progName, methodName)
    ensures enabled <==> cfg.username.Some? && h.security.Some? && h.usernameToken.Some?
  {
    authError := 0;
    enabled := false;
    if cfg.username.Some? {
      if h.security.Some? && h.usernameToken.Some? {
        enabled := true;
        if h.username.None? { authError := 1; }
        if h.password.None? { authError := 2; }
        var nonce: Bytes := [];
        if h.nonce.Some? { nonce := decode(h.nonce.value); } else { authError := 3; }
        if h.created.None? { authError := 4; }
        assert authError == MissingFieldCode(h);
        if authError == 0 {
          var created := Utf8(h.created.value);
          var password := Utf8(cfg.password.value);
          if |nonce| + |created| + |password| > AuthSize {
            authError := 10;
          } else {
            var hashed := FillAuth(nonce, created, password);
            var digest := Truncate(Encode(sha1(hashed)), DigestCapacity);
            if cfg.username.value != h.username.value || h.password.value != digest {
              authError := 10;
            }
          }
        }
      } else {
        authError := 11;
      }
    }
    if Whitelisted(progName, methodName) {
      authError := 0;
    }
  }

  // ---------------------------------------------------------------------
  // Properties of the check

  /** Without a configured user name nothing is checked. */
  lemma NoUsernameNoCheck(cfg: Config, h: Header, decode: Decoder, sha1: Sha1)
    requires cfg.username.None?
    ensures AuthError(cfg, h, decode, sha1) == 0
  {
  }

  /** A request without Security and UsernameToken headers fails with 11. */
  lemma MissingHeaderIs11(cfg: Config, h: Header, decode: Decoder, sha1: Sha1)
    requires cfg.username.Some? && cfg.password.Some?
    requires h.security.None? || h.usernameToken.None?
    ensures AuthError(cfg, h, decode, sha1) == 11
  {
  }

  /** Any missing field fails the check with the code of the last field
      missing. */
  lemma MissingFieldFails(cfg: Config, h: Header, decode: Decoder, sha1: Sha1)
    requires cfg.username.Some? && cfg.password.Some?
    requires h.security.Some? && h.usernameToken.Some?
    requires h.username.None? || h.password.None? || h.nonce.None? || h.created.None?
    ensures AuthError(cfg, h, decode, sha1) in {1, 2, 3, 4}
    ensures AuthError(cfg, h, decode, sha1) == MissingFieldCode(h)
  {
  }

  /** Bytes that do not fit auth[] fail the check with 10 before any
      digest is computed. */
  lemma TooLargeIs10(cfg: Config, h: Header, decode: Decoder, sha1: Sha1)
    requires cfg.username.Some? && cfg.password.Some?
    requires h.security.Some? && h.usernameToken.Some?
    requires h.username.Some? && h.password.Some? && h.nonce.Some? && h.created.Some?
    requires |decode(h.nonce.value)| + |Utf8(h.created.value)| + |Utf8(cfg.password.value)| > AuthSize
    ensures AuthError(cfg, h, decode, sha1) == 10
  {
  }

  /** A complete token that fits is accepted exactly when the user name and
      the received digest equal, byte for byte, the configured user name
      and the digest the server computes; otherwise it fails with 10. */
  lemma AcceptedIff(cfg: Config, h: Header, decode: Decoder, sha1: Sha1)
    requires cfg.username.Some? && cfg.password.Some?
    requires h.security.Some? && h.usernameToken.Some?
    requires h.username.Some? && h.password.Some? && h.nonce.Some? && h.created.Some?
    requires |decode(h.nonce.value)| + |Utf8(h.created.value)| + |Utf8(cfg.password.value)| <= AuthSize
    ensures AuthError(cfg, h, decode, sha1) == 0 <==>
      h.username.value == cfg.username.value
      && h.password.value == ServerDigest(sha1, decode(h.nonce.value), h.created.value, cfg.password.value)
    ensures AuthError(cfg, h, decode, sha1) in {0, 10}
  {
  }

  /** The check fails whenever authentication is on and the request is not
      a complete, matching token. */
  lemma FailureIsNonZero(cfg: Config, h: Header, decode: Decoder, sha1: Sha1)
    requires cfg.username.Some? && cfg.password.Some?
    ensures AuthError(cfg, h, decode, sha1) == 0 ==>
      h.security.Some? && h.usernameToken.Some? && h.username == cfg.username
      && h.password.Some? && h.nonce.Some? && h.created.Some?
      && h.password.value == ServerDigest(sha1, decode(h.nonce.value), h.created.value, cfg.password.value)
  {
  }

  /** The six device_service methods any client may call. */
  const WhitelistedMethods := ["GetSystemDateAndTime", "GetUsers", "GetCapabilities", "GetServices",
                               "GetServiceCapabilities", "GetDeviceInformation"]

  /** Each of the six device_service methods, in any case, passes whatever
      the request holds; any other method of device_service gets the
      result of the check. */
  lemma WhitelistPasses(cfg: Config, h: Header, decode: Decoder, sha1: Sha1, progName: string, methodName: string)
    requires cfg.username.Some? ==> cfg.password.Some?
    requires CaseEq("device_service", progName)
    ensures (exists i :: 0 <= i < |WhitelistedMethods| && CaseEq(WhitelistedMethods[i], methodName)) ==>
              FinalAuthError(cfg, h, decode, sha1, progName, methodName) == 0
    ensures (forall i :: 0 <= i < |WhitelistedMethods| ==> !CaseEq(WhitelistedMethods[i], methodName)) ==>
              FinalAuthError(cfg, h, decode, sha1, progName, methodName) == AuthError(cfg, h, decode, sha1)
  {
    if exists i :: 0 <= i < |WhitelistedMethods| && CaseEq(WhitelistedMethods[i], methodName) {
      var i :| 0 <= i < |WhitelistedMethods| && CaseEq(WhitelistedMethods[i], methodName);
      assert Whitelisted(progName, methodName);
    } else {
      assert !CaseEq(WhitelistedMethods[0], methodName) && !CaseEq(WhitelistedMethods[1], methodName);
      assert !CaseEq(WhitelistedMethods[2], methodName) && !CaseEq(WhitelistedMethods[3], methodName);
      assert !CaseEq(WhitelistedMethods[4], methodName) && !CaseEq(WhitelistedMethods[5], methodName);
    }
  }

  /** The whitelist only concerns device_service. */
  lemma WhitelistOnlyDevice(cfg: Config, h: Header, decode: Decoder, sha1: Sha1, progName: string, methodName: string)
    requires cfg.username.Some? ==> cfg.password.Some?
    requires !CaseEq("device_service", progName)
    ensures FinalAuthError(cfg, h, decode, sha1, progName, methodName) == AuthError(cfg, h, decode, sha1)
  {
  }

  /** When SHA-1 yields its 20 bytes the digest fits the buffer and the
      server compares against the full UsernameToken digest. */
  lemma DigestFits(sha1: Sha1, nonce: Bytes, created: string, password: string)
    requires |sha1(DigestInput(nonce, created, password))| == 20
    ensures ServerDigest(sha1, nonce, created, password) == PasswordDigest(sha1, nonce, created, password)
    ensures |ServerDigest(sha1, nonce, created, password)| == 28
  {
    EncodeLength(sha1(DigestInput(nonce, created, password)));
  }

  /** A token made by the client of generate_onvif_auth.py for the
      configured credentials passes the server's check, given a server
      decoder that reads the nonce text as the client's b64decode does, a
      20-byte SHA-1 and hashed bytes that fit auth[]. */
  lemma ClientTokenAccepted(sha1: Sha1, decode: Decoder, username: string, password: string,
                            nonceB64: Option<string>, created: Option<string>, random16: Bytes, now: Timestamps.DateTime)
    requires |random16| == 16
    requires OnvifAuth.GenerateDigest(sha1, username, password, nonceB64, created, random16, now).Some?
    requires var f := OnvifAuth.GenerateDigest(sha1, username, password, nonceB64, created, random16, now).value;
      Some(decode(f.nonce)) == PythonDecode(f.nonce)
      && |sha1(DigestInput(decode(f.nonce), f.created, password))| == 20
      && |decode(f.nonce)| + |Utf8(f.created)| + |Utf8(password)| <= AuthSize
    ensures var f := OnvifAuth.GenerateDigest(sha1, username, password, nonceB64, created, random16, now).value;
      AuthError(Config(Some(username), Some(password)),
                Header(Some(""), Some(""), Some(f.username), Some(f.passwordDigest), Some(f.nonce), Some(f.created)),
                decode, sha1) == 0
  {
    var f := OnvifAuth.GenerateDigest(sha1, username, password, nonceB64, created, random16, now).value;
    OnvifAuth.DigestVerifiable(sha1, username, password, nonceB64, created, random16, now);
    DigestFits(sha1, decode(f.nonce), f.created, password);
  }

  // ---------------------------------------------------------------------
  // What main sends

  /** The replies main writes, in order: the XML parse failure (method not
      found), the handler's reply, or the authentication error; then, for
      the Synology switch, the MaxNVTProfiles fault. */
  datatype Reply = ParseFailure | Handler(outcome: Outcome) | AuthenticationFailure | MaxNvtProfilesFault

  /** main from the parsed request on, over a dispatch table: the server
      passes Table(). */
  function Serve(table: seq<Entry>, cfg: Config, flags: Flags, root: Option<Root>, decode: Decoder, sha1: Sha1, progName: string): seq<Reply>
    requires cfg.username.Some? ==> cfg.password.Some?
  {
    match GetMethod(root, true)
    case None => [ParseFailure]
    case Some(m) =>
      var e := FinalAuthError(cfg, HeaderOf(root), decode, sha1, progName, m);
      Replies(e, DispatchOf(table, flags, Some(progName), Some(m)), SynologyExtra(flags, progName, m))
  }

  /** The Synology NVR switch answers a media_service CreateProfile with
      the MaxNVTProfiles fault after the handler's reply. */
  predicate SynologyExtra(flags: Flags, progName: string, m: string) {
    flags.advSynologyNvr == 1 && CaseEq("media_service", progName) && CaseEq("CreateProfile", m)
  }

  /** The handler's reply when auth_error is 0, the authentication fault
      otherwise, then the Synology fault when it applies. */
  function Replies(e: int, handler: Outcome, extra: bool): (r: seq<Reply>)
    ensures |r| >= 1 && (r[0].Handler? <==> e == 0) && (e != 0 ==> r[0] == AuthenticationFailure)
    ensures forall i :: 1 <= i < |r| ==> r[i] == MaxNvtProfilesFault
    ensures |r| == 2 <==> extra
  {
    (if e == 0 then [Handler(handler)] else [AuthenticationFailure]) + (if extra then [MaxNvtProfilesFault] else [])
  }

  /** Without a method name the request fails before authentication. */
  lemma NoMethodNoDispatch(table: seq<Entry>, cfg: Config, flags: Flags, root: Option<Root>, decode: Decoder, sha1: Sha1, progName: string)
    requires cfg.username.Some? ==> cfg.password.Some?
    requires GetMethod(root, true).None?
    ensures Serve(table, cfg, flags, root, decode, sha1, progName) == [ParseFailure]
  {
  }

  /** The handler runs exactly when auth_error is 0; otherwise only the
      authentication error is sent in its place. */
  lemma DispatchedIffAuthenticated(table: seq<Entry>, cfg: Config, flags: Flags, root: Option<Root>, decode: Decoder, sha1: Sha1, progName: string)
    requires cfg.username.Some? ==> cfg.password.Some?
    requires GetMethod(root, true).Some?
    ensures var r := Serve(table, cfg, flags, root, decode, sha1, progName);
      var e := FinalAuthError(cfg, HeaderOf(root), decode, sha1, progName, GetMethod(root, true).value);
      |r| >= 1 && (r[0].Handler? <==> e == 0) && (e != 0 ==> r[0] == AuthenticationFailure)
      && forall i :: 1 <= i < |r| ==> r[i] == MaxNvtProfilesFault
  {
  }

  /** With the Synology switch on, an authenticated media_service
      CreateProfile gets the handler's reply and then the MaxNVTProfiles
      fault as well. */
  lemma SynologyCreateProfileTwoReplies(cfg: Config, flags: Flags, root: Option<Root>, decode: Decoder, sha1: Sha1, progName: string)
    requires cfg.username.Some? ==> cfg.password.Some?
    requires flags.advSynologyNvr == 1 && CaseEq("media_service", progName)
    requires GetMethod(root, true).Some? && CaseEq("CreateProfile", GetMethod(root, true).value)
    requires FinalAuthError(cfg, HeaderOf(root), decode, sha1, progName, GetMethod(root, true).value) == 0
    ensures Serve(Table(), cfg, flags, root, decode, sha1, progName)
         == [Handler(Invoke(Entry(MediaService, "CreateProfile", Always))), MaxNvtProfilesFault]
  {
    SynologyBranchUnreachable(flags, progName, GetMethod(root, true).value);
  }
}
