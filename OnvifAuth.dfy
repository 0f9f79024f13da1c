/** The client of tests/generate_onvif_auth.py: the UsernameToken fields
    of generate_ws_security_digest and the SOAP 1.2 envelope of
    generate_soap_request. The random bytes and the clock the script
    falls back on are parameters. */
module OnvifAuth {
  import opened Wrappers
  import opened CString
  import opened Base64
  import opened WsSecurity
  import opened Timestamps
  import opened Template

  /** The dictionary generate_ws_security_digest returns. */
  datatype AuthFields = AuthFields(username: string, passwordDigest: string, nonce: string, created: string)

  /** generate_ws_security_digest(username, password, nonce_b64, created).
      `random16` stands for os.urandom(16) and `now` for utcnow(); each is
      used only when the matching argument is None. The result is None
      when a supplied nonce is not base64 (b64decode raises). */
  function GenerateDigest(sha1: Sha1, username: string, password: string,
                          nonceB64: Option<string>, created: Option<string>,
                          random16: Bytes, now: DateTime): (r: Option<AuthFields>)
    requires |random16| == 16
    ensures r.None? <==> nonceB64.Some? && PythonDecode(nonceB64.value).None?
    ensures r.Some? ==> r.value.username == username
    ensures r.Some? && nonceB64.Some? ==> r.value.nonce == nonceB64.value
    ensures r.Some? && created.Some? ==> r.value.created == created.value
  {
    var nonce := if nonceB64.None? then Some(random16) else PythonDecode(nonceB64.value);
    match nonce
    case None => None
    case Some(n) =>
      var nonceText := if nonceB64.None? then Encode(random16) else nonceB64.value;
      var c := if created.None? then IsoSeconds(now) else created.value;
      Some(AuthFields(username, PasswordDigest(sha1, n, c, password), nonceText, c))
  }

  /** A receiver who decodes the returned nonce and hashes it with the
      returned creation time and the password gets the returned digest:
      the fields are consistent whichever of them were generated. */
  lemma DigestVerifiable(sha1: Sha1, username: string, password: string,
                         nonceB64: Option<string>, created: Option<string>,
                         random16: Bytes, now: DateTime)
    requires |random16| == 16
    requires GenerateDigest(sha1, username, password, nonceB64, created, random16, now).Some?
    ensures var f := GenerateDigest(sha1, username, password, nonceB64, created, random16, now).value;
      PythonDecode(f.nonce).Some?
      && f.passwordDigest == PasswordDigest(sha1, PythonDecode(f.nonce).value, f.created, password)
  {
    if nonceB64.None? {
      PythonDecodeEncode(random16);
    }
  }

  /** A supplied nonce is decoded before it is hashed, and a supplied
      creation time is hashed unchanged. */
  lemma SuppliedNonceHashed(sha1: Sha1, username: string, password: string, nonceB64: string,
                            created: Option<string>, random16: Bytes, now: DateTime, n: Bytes)
    requires |random16| == 16
    requires PythonDecode(nonceB64) == Some(n)
    ensures var r := GenerateDigest(sha1, username, password, Some(nonceB64), created, random16, now);
      r.Some? && r.value.passwordDigest == PasswordDigest(sha1, n, r.value.created, password)
  {
  }

  /** Without a nonce, 16 fresh bytes are hashed and their base64 text (24
      characters) is returned. */
  lemma FreshNonce(sha1: Sha1, username: string, password: string,
                   created: Option<string>, random16: Bytes, now: DateTime)
    requires |random16| == 16
    ensures var r := GenerateDigest(sha1, username, password, None, created, random16, now);
      r.Some? && r.value.nonce == Encode(random16) && |r.value.nonce| == 24
      && PythonDecode(r.value.nonce) == Some(random16)
      && r.value.passwordDigest == PasswordDigest(sha1, random16, r.value.created, password)
  {
    FreshNonceText(random16);
    assert 4 * ((16 + 2) / 3) == 24;
  }

  lemma FreshNonceText(random16: Bytes)
    ensures |Encode(random16)| == 4 * ((|random16| + 2) / 3)
    ensures PythonDecode(Encode(random16)) == Some(random16)
  {
    EncodeLength(random16);
    PythonDecodeEncode(random16);
  }

  /** Without a creation time, the current time is written to the second
      as 'YYYY-MM-DDTHH:MM:SSZ', and that same text is hashed. */
  lemma DefaultCreated(sha1: Sha1, username: string, password: string,
                       nonceB64: Option<string>, random16: Bytes, now: DateTime)
    requires |random16| == 16 && Valid(now)
    requires GenerateDigest(sha1, username, password, nonceB64, None, random16, now).Some?
    ensures var f := GenerateDigest(sha1, username, password, nonceB64, None, random16, now).value;
      |f.created| == 20 && f.created[10] == 'T' && f.created[19] == 'Z'
      && ReadIsoSeconds(f.created) == now.(microsecond := 0)
  {
    IsoSecondsLayout(now);
  }

  /** When both nonce and creation time are supplied, neither the random
      source nor the clock has any influence. */
  lemma SuppliedValuesDeterministic(sha1: Sha1, username: string, password: string,
                                    nonceB64: string, created: string,
                                    random1: Bytes, now1: DateTime, random2: Bytes, now2: DateTime)
    requires |random1| == 16 && |random2| == 16
    ensures GenerateDigest(sha1, username, password, Some(nonceB64), Some(created), random1, now1)
         == GenerateDigest(sha1, username, password, Some(nonceB64), Some(created), random2, now2)
  {
  }

  // ---------------------------------------------------------------------
  // generate_soap_request

  const FixedNonce: string := "LKqI6G/AikKCQrN0zqZFlg=="
  const FixedCreated: string := "2024-01-01T00:00:00Z"
  const DefaultMethod: string := "GetCapabilities"

  /** The namespaces and token types the envelope declares. */
  const NsSoapEnvelope: string := "http://www.w3.org/2003/05/soap-envelope"
  const NsDevice: string := "http://www.onvif.org/ver10/device/wsdl"
  const NsWsse: string := "http://docs.oasis-open.org/wss/2004/01/oasis-200401-wss-wssecurity-secext-1.0.xsd"
  const NsWsu: string := "http://docs.oasis-open.org/wss/2004/01/oasis-200401-wss-wssecurity-utility-1.0.xsd"
  const PasswordDigestType: string := "http://docs.oasis-open.org/wss/2004/01/oasis-200401-wss-username-token-profile-1.0#PasswordDigest"
  const Base64BinaryType: string := "http://docs.oasis-open.org/wss/2004/01/oasis-200401-wss-soap-message-security-1.0#Base64Binary"

  /** The literal text of the envelope, around its six holes: username,
      password digest, nonce, creation time, and the method name twice
      (the opening and the closing tag of the body element). */
  const Piece0: string :=
    "<" + "?xml version=\"1.0\" encoding=\"UTF-8\"?>\n" +
    "<SOAP-ENV:Envelope xmlns:SOAP-ENV=\"" + NsSoapEnvelope +
    "\" xmlns:tds=\"" + NsDevice +
    "\" xmlns:wsse=\"" + NsWsse +
    "\" xmlns:wsu=\"" + NsWsu + "\">\n" +
    "    <SOAP-ENV:Header>\n" +
    "        <wsse:Security SOAP-ENV:mustUnderstand=\"true\">\n" +
    "            <wsse:UsernameToken wsu:Id=\"UsernameToken-1\">\n" +
    "                <wsse:Username>"
  const Piece1: string :=
    "<" + "/wsse:Username>\n" +
    "                <wsse:Password Type=\"" + PasswordDigestType + "\">"
  const Piece2: string :=
    "<" + "/wsse:Password>\n" +
    "                <wsse:Nonce EncodingType=\"" + Base64BinaryType + "\">"
  const Piece3: string :=
    "<" + "/wsse:Nonce>\n" +
    "                <wsu:Created>"
  const Piece4: string :=
    "<" + "/wsu:Created>\n" +
    "            </wsse:UsernameToken>\n" +
    "        </wsse:Security>\n" +
    "    </SOAP-ENV:Header>\n" +
    "    <SOAP-ENV:Body>\n" +
    "        <tds:"
  const Piece5: string :=
    ">" + "\n            <tds:Category>All</tds:Category>\n" +
    "        </tds:"
  const Piece6: string :=
    ">" + "\n    </SOAP-ENV:Body>\n" + "</SOAP-ENV:Envelope>"

  const EnvelopePieces: seq<string> := [Piece0, Piece1, Piece2, Piece3, Piece4, Piece5, Piece6]

  /** The envelope for the given fields and method name. */
  function Envelope(f: AuthFields, methodName: string): (r: string)
    ensures StartsWith(r, Piece0)
  {
    Fill(EnvelopePieces, [f.username, f.passwordDigest, f.nonce, f.created, methodName, methodName])
  }

  /** The envelope generate_soap_request would write for a given nonce text
      and creation time. None when b64decode refuses the nonce. */
  function SoapRequestWith(sha1: Sha1, username: string, password: string, methodName: string,
                           nonceB64: string, created: string): (r: Option<string>)
    ensures r.Some? <==> PythonDecode(nonceB64).Some?
  {
    // neither fallback is drawn on: any 16 bytes and any time will do
    match GenerateDigest(sha1, username, password, Some(nonceB64), Some(created),
                         seq(16, _ => 0), DateTime(1970, 1, 1, 0, 0, 0, 0))
    case None => None
    case Some(auth) => Some(Envelope(auth, methodName))
  }

  /** generate_soap_request(username, password, method): the envelope for
      the fixed nonce and creation time. */
  function GenerateSoapRequest(sha1: Sha1, username: string, password: string, methodName: string): Option<string>
  {
    SoapRequestWith(sha1, username, password, methodName, FixedNonce, FixedCreated)
  }

  /** The fixed nonce and creation time hold no '<'. */
  lemma FixedValuesNoTag()
    ensures '<' !in FixedNonce && '<' !in FixedCreated
  {
  }

  lemma EnvelopeSeparable(values: seq<string>)
    requires |values| == 6
    requires forall i :: 0 <= i < 4 ==> '<' !in values[i]
    requires '>' !in values[4] && '>' !in values[5]
    ensures Separable(EnvelopePieces, values)
  {
    assert Stops(Piece1, values[0]) && Stops(Piece2, values[1]) && Stops(Piece3, values[2]);
    assert Stops(Piece4, values[3]) && Stops(Piece5, values[4]) && Stops(Piece6, values[5]);
  }

  lemma EnvelopeReadBack(f: AuthFields, methodName: string)
    requires '<' !in f.username && '<' !in f.passwordDigest && '<' !in f.nonce && '<' !in f.created
    requires '>' !in methodName
    ensures Read(EnvelopePieces, Envelope(f, methodName))
         == Some([f.username, f.passwordDigest, f.nonce, f.created, methodName, methodName])
  {
    var values := [f.username, f.passwordDigest, f.nonce, f.created, methodName, methodName];
    EnvelopeSeparable(values);
    ReadFill(EnvelopePieces, values);
  }

  /** The envelope holds, in this order, the username, the digest of the
      decoded nonce, the nonce text and creation time as given, and the
      method name as both the opening and the closing tag of the body
      element: reading it back gives exactly these, provided no value
      contains the character that ends its hole ('<', and '>' after the
      method name; the values are not escaped, see SoapRequestVerbatim). */
  lemma SoapRequestReadBack(sha1: Sha1, username: string, password: string, methodName: string,
                            nonceB64: string, created: string, n: Bytes)
    requires PythonDecode(nonceB64) == Some(n)
    requires '<' !in username && '<' !in nonceB64 && '<' !in created && '>' !in methodName
    ensures var r := SoapRequestWith(sha1, username, password, methodName, nonceB64, created);
      r.Some? && Read(EnvelopePieces, r.value)
         == Some([username, PasswordDigest(sha1, n, created, password), nonceB64, created, methodName, methodName])
  {
    var d := PasswordDigest(sha1, n, created, password);
    EncodeAlphabet(sha1(DigestInput(n, created, password)));
    EnvelopeReadBack(AuthFields(username, d, nonceB64, created), methodName);
  }

  /** The username is inserted verbatim right after the opening text,
      whatever it contains: the template does no XML escaping. */
  lemma SoapRequestVerbatim(sha1: Sha1, username: string, password: string, methodName: string,
                            nonceB64: string, created: string)
    requires PythonDecode(nonceB64).Some?
    ensures var r := SoapRequestWith(sha1, username, password, methodName, nonceB64, created);
      r.Some? && OccursAt(r.value, username, |Piece0|)
  {
    var d := PasswordDigest(sha1, PythonDecode(nonceB64).value, created, password);
    FillVerbatim(EnvelopePieces, [username, d, nonceB64, created, methodName, methodName], 0);
  }

  /** The password reaches the envelope only through the digest: two
      passwords with the same digest give the same request. */
  lemma PasswordOnlyThroughDigest(sha1: Sha1, username: string, p1: string, p2: string, methodName: string,
                                  nonceB64: string, created: string, n: Bytes)
    requires PythonDecode(nonceB64) == Some(n)
    requires PasswordDigest(sha1, n, created, p1) == PasswordDigest(sha1, n, created, p2)
    ensures SoapRequestWith(sha1, username, p1, methodName, nonceB64, created)
         == SoapRequestWith(sha1, username, p2, methodName, nonceB64, created)
  {
  }
}
