# A verified model of thingino's ONVIF simple server

thingino's `onvif_simple_server` is a CGI program. A web server starts it once for every SOAP request. It works through these steps:
1. It reads the service name from the name it was started under.
2. It parses the request envelope and finds the method name in the SOAP Body.
3. It checks the WS-Security UsernameToken against the configured user.
4. It hands the request to the first row of its dispatch table that matches the service and the method.

The handlers of the device, media2, deviceIO, imaging and PTZ services answer from the configuration that conf.c loads at start-up from JSON files. A small logging layer (log.c) and an XML capture facility (xml_logger.c) record what happens. Three Python helpers belong to the repository's tests, and they are part of this model too:
- two that build authenticated requests (tests/generate_onvif_auth.py and tests/tests/generate_auth_soap.py);
- a test web server that runs the CGI program (tests/www/server.py).

The project models the decision, string and table logic of these parts. Each source file has its own Dafny module; a few further modules hold what several source files share (the XML builder, the dispatch table, the C string functions, templates, timestamps and placeholder replacement):

| module | models |
|---|---|
| `WsSecurity`, `Base64`, `Timestamps`, `Template` | The UsernameToken digest `Base64(SHA-1(nonce ++ created ++ password))` of section 3.1 of the OASIS WS-Security UsernameToken Profile 1.0. The base64 encoding follows section 4 of RFC 4648. The strftime layouts and `str.format` filling used by the helpers are modelled too. |
| `OnvifAuth`, `AuthSoap`, `Placeholders` | The two request generators, and the `str.replace` of the placeholders in the second one. Python's `base64.b64decode` is modelled as CPython's lenient scan, which skips characters outside the alphabet and stops at complete padding. |
| `ServerAuth` | The front end of `main`: the service name, the `auth_error` codes, the 128-byte bound, the method whitelist and the choice between dispatching and sending the authentication error. |
| `Dispatch` | The dispatch table, transcribed row by row, its enabling conditions, the first-match search and the per-service fallbacks. |
| `Xml` | The mxml tree as a datatype and the element lookups of mxml_wrapper.c. |
| `PtzTours`, `PtzPresets` | The in-place preset-tour store and the preset and Stop rules of ptz_service.c. |
| `XmlBuilding`, `Imaging` | The bounded XML builder and the imaging entry state of imaging_service.c. |
| `Media2`, `DeviceIo`, `ServiceContext` | The media2 and deviceIO selection logic over the service context. |
| `Conf` | The configuration loader. cJSON values are modelled as a datatype. |
| `Log`, `XmlLogger`, `Fault` | The helpers: logging, the XML capture and the fault replies. |
| `CgiHarness` | The test web server's routing and response composition. |
| `CString`, `Wrappers` | The C string functions the code relies on, and `Option` for NULL and None. |

Code that changes state in place is modelled as classes and methods whose contracts tie the new state to specification functions. These are:
- the tour store;
- the XML builder;
- the imaging entry;
- the `strcat` steps of `Media2.ServiceCapabilities`, a method that builds the capability string;
- the logging state;
- the loader's arrays;
- the redaction buffer.

Pure code is modelled as functions, each with lemmas that relate it to a partner:
- an inverse, for round trips of base64, log levels, IR-cut modes, `%d` printing and templates;
- a reference definition, for the first-match and direct-child searches;
- or the invariant it keeps.

SHA-1, the server's base64 decoder and the template engine `cat` are function parameters. So are the clock, randomness, the file system's answers and the CGI subprocess. Every statement about them holds for any implementation.

Where a header declares a record differently from how the .c file uses it, the model follows the .c file:
- the relay `token` field (src/deviceio_service.c:162) is part of the relay record;
- `raw_xml_log_file` (src/conf.c:366) is a field of the configuration.


## Model

| member | source | states |
|---|---|---|
| Base64.Utf8 | tests/generate_onvif_auth.py:26 | str.encode('utf-8') gives at least one byte per character, exactly one for ASCII text |
| Base64.Utf8Append | tests/generate_onvif_auth.py:26 | encoding a concatenation is the concatenation of the encodings |
| Base64.Utf8Ascii | tests/tests/generate_auth_soap.py:44 | an ASCII text encodes to its own character codes, one byte each |
| Base64.DecodeEncode | tests/generate_onvif_auth.py:17-19 | base64 decoding (section 4 of RFC 4648) undoes base64 encoding |
| Base64.EncodeLength | tests/generate_onvif_auth.py:17 | an encoding has four characters per started group of three bytes |
| Base64.EncodeAlphabet | tests/generate_onvif_auth.py:17-28 | an encoding holds only alphabet characters and '=' |
| Base64.EncodeInjective | tests/generate_onvif_auth.py:28 | distinct byte strings have distinct encodings |
| Base64.PythonDecode | tests/generate_onvif_auth.py:19 | b64decode of a str refuses a text with a non-ASCII character, and a text it accepts gives at most one byte per character |
| Base64.PythonDecodeEncode | tests/generate_onvif_auth.py:17-19 | b64decode reads back exactly what b64encode wrote |
| Base64.A2b | tests/generate_onvif_auth.py:19 | the scan only ever adds bytes to what it has written, and at the end of the text it succeeds exactly when no group is left incomplete |
| Base64.A2bEncode | tests/generate_onvif_auth.py:17-19 | scanning an encoding writes its bytes; an encoding without padding leaves the scan at a group boundary, and one ending in padding ends the scan there with its bytes |
| Base64.PythonDecodeStopsAtPadding | tests/tests/generate_auth_soap.py:25-28 | once a final short group's padding is complete, whatever ASCII text follows is ignored |
| Base64.PythonDecodeSkipsEarlyPad | tests/tests/generate_auth_soap.py:25-28 | a '=' between two encodings, read at a group boundary, is skipped and the two decode as one |
| Base64.A2bSkipsOthers | tests/generate_onvif_auth.py:19 | characters that are neither alphabet characters nor '=' make no difference to the scan |
| Base64.A2bWithoutPadding | tests/tests/generate_auth_soap.py:25-28 | without '=', the scan succeeds exactly when the data characters complete the last group, and otherwise raises the error the except branch catches |
| WsSecurity.DigestInput | tests/generate_onvif_auth.py:26 | the hashed bytes are the decoded nonce, then the UTF-8 creation time, then the UTF-8 password, and nothing else |
| OnvifAuth.GenerateDigest | tests/generate_onvif_auth.py:8-35 | it fails exactly when b64decode raises on a supplied nonce; the username, a supplied nonce text and a supplied creation time are returned verbatim |
| OnvifAuth.DigestVerifiable | tests/generate_onvif_auth.py:26-35 | the returned digest is base64 of SHA-1 over the decoded returned nonce, the returned creation time and the password |
| OnvifAuth.SuppliedNonceHashed | tests/generate_onvif_auth.py:18-26 | a supplied nonce is base64-decoded before hashing and the supplied creation time is hashed unchanged |
| OnvifAuth.FreshNonce | tests/generate_onvif_auth.py:15-17 | without a nonce the 16 random bytes are hashed and their 24-character base64 text is returned |
| OnvifAuth.DefaultCreated | tests/generate_onvif_auth.py:22-26 | without a creation time the current time is written to the second as YYYY-MM-DDTHH:MM:SSZ, and that same text is hashed |
| OnvifAuth.SuppliedValuesDeterministic | tests/generate_onvif_auth.py:15-23 | with nonce and creation time supplied, neither the random bytes nor the clock has any influence |
| OnvifAuth.Envelope | tests/generate_onvif_auth.py:46-71 | the envelope starts with the XML declaration and the namespaced Envelope opening text |
| OnvifAuth.SoapRequestWith | tests/generate_onvif_auth.py:37-71 | a request is written exactly when b64decode accepts the nonce |
| OnvifAuth.EnvelopeReadBack | tests/generate_onvif_auth.py:51-61 | the envelope splits back into Username, Password, Nonce, Created and the method name, in that order, when the values hold no tag characters |
| OnvifAuth.SoapRequestReadBack | tests/generate_onvif_auth.py:41-61 | the request carries the username, the digest, the nonce text and the creation time in order, and names the method as both the opening and the closing body tag |
| OnvifAuth.SoapRequestVerbatim | tests/generate_onvif_auth.py:65-71 | the username is inserted right after the opening text whatever it holds: there is no XML escaping |
| OnvifAuth.PasswordOnlyThroughDigest | tests/generate_onvif_auth.py:52-71 | the password reaches the request only through the digest: two passwords with the same digest give the same text |
| OnvifAuth.FixedValuesNoTag | tests/generate_onvif_auth.py:41-42 | the fixed nonce and creation time hold no '<' |
| Template.ReadFill | tests/generate_onvif_auth.py:65-71 | str.format of a template is read back into its values, in order, when no value holds the character that opens the text after it |
| Template.FillVerbatim | tests/generate_onvif_auth.py:65-71 | every value appears unchanged at its offset in the formatted text |
| Timestamps.IsoSecondsLayout | tests/generate_onvif_auth.py:23 | '%Y-%m-%dT%H:%M:%SZ' has a fixed 20-character layout and gives back every field of the time but the microseconds |
| Timestamps.IsoMicrosLayout | tests/tests/generate_auth_soap.py:20 | '%Y-%m-%dT%H:%M:%S.%fZ' has a fixed 27-character layout and gives back every field of the time |
| AuthSoap.GenerateNonce | tests/tests/generate_auth_soap.py:14-16 | the nonce has exactly one character per draw, each an ASCII letter or digit |
| AuthSoap.EveryAlnumNonce | tests/tests/generate_auth_soap.py:14-16 | every text of ASCII letters and digits is some draw's nonce, so the alphabet is exactly letters and digits |
| AuthSoap.GenerateTimestamp | tests/tests/generate_auth_soap.py:18-20 | the timestamp is 27 characters with '.' before six microsecond digits and a final 'Z', and reads back as the time it was made from |
| AuthSoap.NonceBytes | tests/tests/generate_auth_soap.py:25-28 | the nonce bytes are the base64 decoding when b64decode succeeds and the UTF-8 bytes of the text when it raises |
| AuthSoap.DigestByteOrder | tests/tests/generate_auth_soap.py:31-37 | the digest is base64 of SHA-1 over nonce bytes, then timestamp, then password, in that order |
| Placeholders.ReplaceAtFirst | tests/tests/generate_auth_soap.py:53-55 | str.replace keeps the text before the first occurrence, puts the value in its place and continues after it; no occurrence leaves the text unchanged |
| Placeholders.ReplaceAbsent | tests/tests/generate_auth_soap.py:53-55 | a text without the placeholder is left unchanged |
| Placeholders.ReplaceChars | tests/tests/generate_auth_soap.py:53-55 | each character of a replaced text was kept from the template or comes from the value; nothing else is introduced |
| Placeholders.ReplaceRemovesAll | tests/tests/generate_auth_soap.py:53-55 | no placeholder remains when it holds a character that neither the value nor the kept text holds |
| Placeholders.SlotsApart | tests/tests/generate_auth_soap.py:53-55 | no placeholder of one kind can start inside the text of another kind |
| Placeholders.SlotsDoNotNest | tests/tests/generate_auth_soap.py:53-55 | no placeholder starts between the first character of a placeholder and its '_' |
| Placeholders.ReplaceKeeps | tests/tests/generate_auth_soap.py:53-55 | text in which no occurrence can start is kept whole, whatever follows it |
| Placeholders.ReplaceAfterLit | tests/tests/generate_auth_soap.py:53-55 | text without '_' followed by nothing or by a placeholder is kept whole |
| Placeholders.ReplaceRender | tests/tests/generate_auth_soap.py:53-55 | one str.replace of a placeholder kind turns every placeholder of that kind, and only those, into the value |
| Placeholders.FillThree | tests/tests/generate_auth_soap.py:53-55 | the three replacements in turn, with values without '_', fill in every placeholder and leave none |
| AuthSoap.MakeCredentials | tests/tests/generate_auth_soap.py:43-46 | the nonce is base64 of the UTF-8 bytes of the generated nonce; the digest is calculated from that base64 text, the timestamp and the password |
| AuthSoap.HashedNonceIsNonceText | tests/tests/generate_auth_soap.py:25-46 | the bytes hashed for a generated request are the 16 ASCII nonce characters themselves: decoding undoes the encoding and the fallback is never taken |
| AuthSoap.CredentialsHaveNoUnderscore | tests/tests/generate_auth_soap.py:43-55 | none of the three substituted values contains '_' |
| AuthSoap.EncodingHasNoUnderscore | tests/tests/generate_auth_soap.py:44 | a base64 text never contains '_' |
| AuthSoap.TimestampHasNoUnderscore | tests/tests/generate_auth_soap.py:18-20 | a timestamp never contains '_' |
| AuthSoap.NoPlaceholderLeft | tests/tests/generate_auth_soap.py:53-55 | for any template made of text without '_' around the three placeholders, the written request is the template with each placeholder filled in by its value, and no DIGEST_PLACEHOLDER, NONCE_PLACEHOLDER or TIMESTAMP_PLACEHOLDER remains |
| AuthSoap.UsernameIgnored | tests/tests/generate_auth_soap.py:39-62 | two usernames give the same written text: the username is only printed |
| ServerAuth.StripSlashes | src/onvif_simple_server.c:193 | the result is a prefix of the text without a trailing '/', and everything cut off is '/' |
| ServerAuth.AfterLastSlash | src/onvif_simple_server.c:193 | the result is a '/'-free suffix that is preceded by '/' whenever it is shorter than the text, and is not empty when the text does not end in '/' |
| ServerAuth.Basename | src/onvif_simple_server.c:193 | basename() never returns an empty text, and returns "/" whenever its result holds a '/' |
| ServerAuth.BasenameOfPath | src/onvif_simple_server.c:193 | the basename of dir/name is name for a non-empty name without '/' |
| ServerAuth.ProgName | src/onvif_simple_server.c:181-193 | the program name is the basename of the last argument when it names one of the six services, else the basename of argv[0] |
| ServerAuth.NamesEveryService | src/onvif_simple_server.c:183-185 | an argument containing any of the six service names is taken as the service argument |
| ServerAuth.ProgNameOfServicePath | src/onvif_simple_server.c:181-193 | a script invoked with <dir>/<service> as its last argument serves that service and falls back to that service's handler |
| ServerAuth.MissingFieldCode | src/onvif_simple_server.c:375-405 | the code is 0 iff all four fields are present; otherwise it is the code of the last missing field, because later checks overwrite earlier ones |
| ServerAuth.ServerDigest | src/onvif_simple_server.c:370-427 | the computed digest is a prefix of the UsernameToken digest of at most 127 characters |
| ServerAuth.FillAuth | src/onvif_simple_server.c:414-417 | the three memcpy calls at running offsets leave exactly nonce, then created, then password in auth[] |
| ServerAuth.CopyInto | src/onvif_simple_server.c:414-416 | memcpy puts the source at the offset and leaves the rest of the buffer unchanged |
| ServerAuth.Authenticate | src/onvif_simple_server.c:356-450 | the stepwise auth_error equals the specified final code, and security.enable is set iff a user is configured and both headers are present |
| ServerAuth.NoUsernameNoCheck | src/onvif_simple_server.c:356 | with no configured username, auth_error stays 0 (also lines 441-443) |
| ServerAuth.MissingHeaderIs11 | src/onvif_simple_server.c:363 | a missing Security or UsernameToken header gives auth_error 11 (also lines 438-440) |
| ServerAuth.MissingFieldFails | src/onvif_simple_server.c:375-405 | any missing field gives a code in 1..4, the code of the last field missing |
| ServerAuth.TooLargeIs10 | src/onvif_simple_server.c:410-412 | more than 128 bytes to hash gives code 10 before any digest is computed |
| ServerAuth.AcceptedIff | src/onvif_simple_server.c:414-435 | with every field present and the bytes fitting, the check passes iff the username and the received Password equal the configured user and the computed digest exactly; otherwise the code is 10 |
| ServerAuth.FailureIsNonZero | src/onvif_simple_server.c:356-440 | with authentication on, code 0 means both headers and all fields are present and username and digest match |
| ServerAuth.WhitelistPasses | src/onvif_simple_server.c:445-450 | for device_service, a method named, case aside, in the six-entry whitelist passes whatever the request holds, and any other method gets the ordinary authentication answer |
| ServerAuth.WhitelistOnlyDevice | src/onvif_simple_server.c:445-450 | for any other program name the whitelist changes nothing |
| ServerAuth.DigestFits | src/onvif_simple_server.c:368-427 | a 20-byte SHA-1 gives a 28-character digest that fits the buffer, so the comparison is against the full digest |
| ServerAuth.ClientTokenAccepted | src/onvif_simple_server.c:407-436 | a token built by generate_ws_security_digest with the configured credentials passes the server check |
| ServerAuth.Replies | src/onvif_simple_server.c:471-488 | the first reply is the handler's iff auth_error is 0 and the authentication error otherwise; a second reply, the MaxNVTProfiles fault, is there iff the Synology condition holds |
| ServerAuth.NoMethodNoDispatch | src/onvif_simple_server.c:344-351 | without a method name the request fails before authentication and nothing is dispatched |
| ServerAuth.DispatchedIffAuthenticated | src/onvif_simple_server.c:471-478 | the handler is dispatched iff auth_error is 0; otherwise only the authentication error is sent |
| ServerAuth.SynologyCreateProfileTwoReplies | src/onvif_simple_server.c:471-488 | with the Synology switch on, an authenticated media_service CreateProfile gets the handler's reply and then the MaxNVTProfiles fault |
| Dispatch.ServiceName | src/onvif_dispatch.c:50-162 | each service of the table has a non-empty name |
| Dispatch.ServiceOfSpec | src/onvif_dispatch.c:212-226 | a name denotes a service iff it equals that service's name under strcasecmp; no two service names collide |
| Dispatch.MatchesIsCaseEq | src/onvif_dispatch.c:185 | a row matches iff strcasecmp accepts both its service and its method |
| Dispatch.FirstSelected | src/onvif_dispatch.c:184-196 | the index found is in the table and its row matches and has its condition met |
| Dispatch.FirstSelectedSpec | src/onvif_dispatch.c:184-196 | the scan finds nothing iff no row selects the call, and otherwise stops at a selecting row with none before it |
| Dispatch.FirstSelectedAt | src/onvif_dispatch.c:184-196 | a selecting row with none selecting before it is the one the scan stops at |
| Dispatch.FirstSelectedAppend | src/onvif_dispatch.c:184 | scanning two tables one after the other finds the first table's row when it has one, else the second's, shifted |
| Dispatch.ConditionFalseSkipped | src/onvif_dispatch.c:187-190 | a matching row whose condition is false is passed over and the scan continues with the next row |
| Dispatch.Dispatch | src/onvif_dispatch.c:177-227 | the loop with its continue returns exactly the outcome the specification gives |
| Dispatch.MissingArguments | src/onvif_dispatch.c:179-181 | a NULL service or method returns -1 and invokes no handler |
| Dispatch.InvokesFirstSelecting | src/onvif_dispatch.c:184-196 | a handler is invoked iff some row selects the call, and it is the first selecting row's handler |
| Dispatch.DeviceEntries | src/onvif_dispatch.c:52-62 | the device_service block has 11 rows, all of device_service |
| Dispatch.DeviceIoEntries | src/onvif_dispatch.c:65-72 | the deviceio_service block has 8 rows, all of deviceio_service |
| Dispatch.MediaEntriesA | src/onvif_dispatch.c:75-83 | the first 9 media rows are unconditional, the first 8 are Get methods and the ninth is CreateProfile |
| Dispatch.MediaEntriesB | src/onvif_dispatch.c:84-95 | the next 12 media rows are unconditional Get methods |
| Dispatch.MediaEntriesC | src/onvif_dispatch.c:96-108 | the next 13 media rows are unconditional Get methods |
| Dispatch.MediaSetEntries | src/onvif_dispatch.c:110-114 | the 5 media Set rows are all under condition_adv_fault_if_set |
| Dispatch.PtzEntries | src/onvif_dispatch.c:117-133 | the ptz_service block has 17 rows, all of ptz_service |
| Dispatch.EventsEntries | src/onvif_dispatch.c:136-143 | the events_service block has 8 rows, all of events_service |
| Dispatch.Media2Entries | src/onvif_dispatch.c:146-162 | the media2_service block has 17 rows, all under condition_adv_enable_media2 |
| Dispatch.TableBlocks | src/onvif_dispatch.c:50-164 | the table is the six blocks in order, each of one service |
| Dispatch.SelectedEntryAppend | src/onvif_dispatch.c:184 | the scan of two tables stops in the first when it can |
| Dispatch.DispatchOfSelected | src/onvif_dispatch.c:184-226 | the dispatch outcome is set by the row the scan stops at, or by the fallback when there is none |
| Dispatch.OtherService | src/onvif_dispatch.c:185 | a block of one service selects nothing for a call to another service |
| Dispatch.Media2Disabled | src/onvif_dispatch.c:39-42 | with adv_enable_media2 off, every media2_service call reaches media2_unsupported (also lines 146-162, 216-217) |
| Dispatch.UnknownService | src/onvif_dispatch.c:212-226 | a service name the table does not know reaches device_unsupported |
| Dispatch.ImagingIsUnknown | src/onvif_dispatch.c:50-162 | imaging_service is not a service of the table |
| Dispatch.UnmatchedFallsBack | src/onvif_dispatch.c:212-226 | an unmatched call to a known service goes to that service's unsupported handler, the Synology case aside |
| Dispatch.MediaCreateProfile | src/onvif_dispatch.c:83 | CreateProfile is answered by its unconditional row within the media block |
| Dispatch.SynologyBranchUnreachable | src/onvif_dispatch.c:83 | the Synology MaxNVTProfiles branch after the loop is unreachable: the unconditional CreateProfile row always matches first (also lines 201-209) |
| Dispatch.MediaGetRowsMissS | src/onvif_dispatch.c:75-108 | no media Get row matches a method starting with 's' |
| Dispatch.MediaSetRows | src/onvif_dispatch.c:110-114 | a Set method is answered by its Set row when adv_fault_if_set is 1 and by no media row otherwise |
| Dispatch.MediaSetNeedsFaultIfSet | src/onvif_dispatch.c:34-37 | media_service Set methods reach their handler only when adv_fault_if_set is 1, and media_unsupported otherwise (also lines 110-114, 214-215) |
| Dispatch.FallbackOwnService | src/onvif_dispatch.c:212-226 | each service's own name falls back to that service's unsupported handler |
| Xml.WalkCons | src/mxml_wrapper.c:122 | mxmlWalkNext order with MXML_DESCEND_ALL: a node, then its subtree, then its later siblings (also lines 229, 243) |
| Xml.NameMatchesColon | src/mxml_wrapper.c:308 | an element name matches iff it equals the name or ends with ':' followed by the name (also lines 320-324, 501) |
| Xml.FirstWhere | src/mxml_wrapper.c:229-244 | the element a walk finds fits the pattern and lies on the walk |
| Xml.FirstWhereSpec | src/mxml_wrapper.c:229-244 | the search finds nothing iff no position fits, and otherwise the earliest one that fits |
| Xml.FirstWhereAppend | src/mxml_wrapper.c:122-139 | a search over two walks, one after the other, tries the first walk first |
| Xml.FirstText | src/mxml_wrapper.c:310-316 | a text is found iff some child is a text node, and it is a text child's text (also lines 463-470) |
| Xml.MatchedText | src/mxml_wrapper.c:308-318 | a matched element without a text child reads as ""; otherwise as the text of one of its text children |
| Xml.FirstElementName | src/mxml_wrapper.c:204-210 | the method name is an element child's name; there is none only when every child is text |
| Xml.FirstElement | src/mxml_wrapper.c:67-73 | the node the sibling walk settles on is an element; none only when every node is text |
| Xml.InitRoot | src/mxml_wrapper.c:35-152 | no buffer or an unparseable one gives no root; a direct element is root iff it is an element; the root chosen is always an element |
| Xml.InitFindsEnvelope | src/mxml_wrapper.c:97-148 | when an element whose name ends with "Envelope" lies where init_xml looks, the root it settles on has such a name |
| Xml.WalkOfText | src/mxml_wrapper.c:70-73 | a forest of text nodes holds no element anywhere in its walk |
| Xml.XmlContext.Init | src/mxml_wrapper.c:35-152 | a missing buffer changes nothing; otherwise root_xml and doc_xml are set from the parsed tree as init_xml chooses them |
| Xml.XmlContext.Close | src/mxml_wrapper.c:169-182 | close_xml clears both pointers |
| Xml.StripPrefix | src/mxml_wrapper.c:213-222 | with skip_prefix the name after its first ':' is returned, else the full name |
| Xml.GetMethod | src/mxml_wrapper.c:189-196 | without a root there is no method |
| Xml.GetMethodPrefix | src/mxml_wrapper.c:203-266 | skipping the prefix changes only the text up to the first ':', never whether a method is found |
| Xml.GetMethodFromBody | src/mxml_wrapper.c:200-244 | a "Body" element with an element child gives the method; the ":Body" fallback is tried only when it does not |
| Xml.SearchTextCons | src/mxml_wrapper.c:305-357 | a search from a node tries the node, then its subtree, then its later siblings |
| Xml.RecMxmlSearches | src/mxml_wrapper.c:281-360 | get_element_rec_mxml with its go_to_parent flag is the depth-first search in document order, and the flag is set exactly when nothing is found |
| Xml.ChildPositions | src/mxml_wrapper.c:288-302 | each child is paired with the siblings that follow it |
| Xml.GetElementSearches | src/mxml_wrapper.c:287-303 | without a parent only the first top-level child whose name ends with first_node is searched (no ':' needed); with a parent the walk starts at the root (also lines 362-367) |
| Xml.GetElementPtr | src/mxml_wrapper.c:376-447 | without a root there is no element; a found element matches the name exactly or after a ':' |
| Xml.GetElementPtrPrefersExact | src/mxml_wrapper.c:417-446 | an exact-name element anywhere in scope wins over the first prefix:name one; the lookup fails only when neither is in scope |
| Xml.DirectMatch | src/mxml_wrapper.c:489-507 | the first direct child element whose name matches, and none before it matches |
| Xml.ElementInElementPtr | src/mxml_wrapper.c:481-510 | NULL for a NULL father; otherwise only the direct children are inspected, in sibling order, and the first match is returned |
| Xml.GetElementInElement | src/mxml_wrapper.c:455-473 | NULL for a NULL father or no matching child; for a matching child, NULL exactly when it has no text child, and otherwise the text of one of its text children |
| Xml.AttrValue | src/mxml_wrapper.c:524 | the value returned is that of an attribute with that name; none when no attribute has the name |
| Xml.GetAttribute | src/mxml_wrapper.c:518-525 | NULL when the node or the name is NULL; otherwise the element's attribute value |
| PtzTours.ValueAfter | src/ptz_service.c:315-323 | the value found lies after the key, between two quotes, and holds no quote |
| PtzTours.Field | src/ptz_service.c:329-356 | an optional field is cut to its array: at most 63 characters for the name, 15 for the status |
| PtzTours.Record | src/ptz_service.c:324-365 | a record is kept only with a non-empty token; it has a status and fields within their arrays |
| PtzTours.ScanPass | src/ptz_service.c:311-367 | every record a pass reads is one the store can hold |
| PtzTours.LoadedTours | src/ptz_service.c:286-430 | every record a load appends is one the store can hold |
| PtzTours.LoadedRecordsHeld | src/ptz_service.c:324-364 | every loaded record has a non-empty token, a status (Idle when the file gives none), and token and name within 63 characters and status within 15 |
| PtzTours.LowercaseOnlyAsFallback | src/ptz_service.c:369-372 | the lowercase keys are tried only when the TitleCase pass found nothing |
| PtzTours.TokenIndex | src/ptz_service.c:452-459 | the index of the first exact, case-sensitive token match, and -1 iff no record has the token |
| PtzTours.TokenIndexOfMember | src/ptz_service.c:452-459 | looking a record up by its own token finds it or an earlier record with that token |
| PtzTours.MaxTourNumber | src/ptz_service.c:2274-2285 | the maximum is at least 0 and at least every N read from a PresetTourToken_N token |
| PtzTours.CreatedTokenFresh | src/ptz_service.c:2274-2318 | the created token differs from every existing token |
| PtzTours.OperationStatus | src/ptz_service.c:2410-2437 | Start, Stop and Pause, compared case-insensitively, set exactly Touring, Idle and Paused, and every other operation is unsupported |
| PtzTours.Precheck | src/ptz_service.c:2289-2307 | -1 without a ProfileToken element, -2 with PTZ disabled, and 0 iff both are there |
| PtzTours.TourStore.Contents | src/ptz_service.c:271-279 | the store holds count records, each one the store can hold |
| PtzTours.TourStore.constructor | src/ptz_service.c:277-279 | a fresh process has no records and nothing loaded |
| PtzTours.TourStore.Append | src/ptz_service.c:358-364 | realloc and copy add the record at the end and change nothing else |
| PtzTours.TourStore.AppendAll | src/ptz_service.c:311-427 | the records of a load are appended in order |
| PtzTours.TourStore.EnsureLoaded | src/ptz_service.c:286-430 | the file is read at most once: afterwards the store is loaded, and a store already loaded is unchanged |
| PtzTours.TourStore.Save | src/ptz_service.c:432-450 | the file holds the saved text of the current records, an empty status written as Idle, and the records are unchanged |
| PtzTours.TourStore.IndexByToken | src/ptz_service.c:452-459 | the loop returns the first exact match, -1 for none |
| PtzTours.TourStore.NextTourNumber | src/ptz_service.c:2274-2285 | the loop returns one more than the largest tour number among the tokens |
| PtzTours.TourStore.Create | src/ptz_service.c:2287-2330 | a failed precheck leaves the store as it was; -3 with the contents as loaded when max_preset_tours is positive and reached; otherwise exactly one Idle record with the fresh token and the request's name is appended and the store saved; the file is unchanged on every failure |
| PtzTours.TourStore.Modify | src/ptz_service.c:2332-2373 | success iff the prechecks pass and the token is found; only that record's name changes, and only to a non-empty name; the store is saved |
| PtzTours.TourStore.Operate | src/ptz_service.c:2375-2445 | success iff the prechecks pass, the token is found and the operation has its backend command; then the command is run with the tour token and only that record's status changes; otherwise the status is unchanged |
| PtzTours.TourStore.ShiftDown | src/ptz_service.c:2479-2481 | the records become the old ones without the one at idx |
| PtzTours.TourStore.Remove | src/ptz_service.c:2447-2486 | success iff the prechecks pass and the token is found; then exactly that record is deleted and the store saved |
| PtzTours.TourStore.Get | src/ptz_service.c:2194-2246 | the record for the token is shown with an empty status as Idle; success iff the prechecks pass and the token is found; a failed precheck and a missing token (-3) leave the store as it was, an unknown token (-4) leaves it as loaded; the file is never changed |
| PtzTours.ShiftLeft | src/ptz_service.c:2479-2480 | the shifting loop leaves the first n-1 elements equal to the first n without the one at idx, and the rest of the array unchanged |
| PtzTours.RemoveKeepsOrder | src/ptz_service.c:2479-2481 | removal drops the count by one, keeps earlier records in place, shifts later ones down by one in order, and removes exactly that record from the multiset |
| PtzTours.WithoutHeld | src/ptz_service.c:2479-2481 | the records left after a removal are still ones the store can hold |
| PtzPresets.VelocitySpaceFault | src/ptz_service.c:1113-1167 | ContinuousMove refuses with -3 and the Pan/Tilt reason when PanTilt names a space other than the generic velocity space, else with the Zoom reason when Zoom does; it passes exactly when each axis given names no space or its generic velocity space (ptz_space_matches, lines 195-200) |
| PtzPresets.OtherSpaceRefused | src/ptz_service.c:1113-1167 | a velocity naming any other space on either axis is refused whatever the other axis says; axes without a space attribute, or with the generic spaces, pass |
| PtzPresets.ZoomSpaceNotPanTilt | src/ptz_service.c:1116 | the zoom velocity space given for Pan/Tilt is refused with the Pan/Tilt reason |
| PtzPresets.StopAxes | src/ptz_service.c:1709-1728 | the stop command is "all" when neither PanTilt nor Zoom says false, "pantilt" or "zoom" when only the other does, and none when both do |
| PtzPresets.Stop | src/ptz_service.c:1676-1728 | Stop answers 0 exactly when the profile node exists, PTZ is enabled and a move_stop command is configured; that command is then the only one run, with the axes StopAxes picks; otherwise -1, -2 or -3 |
| PtzPresets.NumberedName | src/ptz_service.c:1977-1984 | the name found for a preset number belongs to a listed preset with that number, and none is found exactly when no preset has that number |
| PtzPresets.SetPresetDecision | src/ptz_service.c:1874-2026 | an accepted SetPreset names a known profile, has a valid name and a configured set_preset command; a new preset gets number -1 and a name no preset uses, an update keeps the token's number; every rejection is a code between -9 and -1 |
| PtzPresets.FindProfile | src/ptz_service.c:1880-1886 | the profile loop finds the token exactly when some profile's name equals it, case aside |
| PtzPresets.FindClash | src/ptz_service.c:1954-1965 | the duplicate-name loops report a clash exactly when another preset uses the name, case aside |
| PtzPresets.FindNumber | src/ptz_service.c:1977-1984 | the token lookup loop returns the name of the first preset with the number, or none |
| PtzPresets.CheckSetPreset | src/ptz_service.c:1864-2026 | the checks of SetPreset, with their loops, decide exactly what SetPresetDecision decides |
| PtzPresets.PresetTokenText | src/ptz_service.c:1971 | the reported token starts with "PresetToken_" and scanning it back with "PresetToken_%d" gives the number |
| PtzPresets.SetPresetReply | src/ptz_service.c:2035-2047 | SetPreset fails with -10 exactly when a new preset left the preset count unchanged; otherwise it reports the token of a preset with the name, case aside, or "" when none has it |
| PtzPresets.ReportedToken | src/ptz_service.c:2041-2047 | the reported token is the token of a preset whose name equals the requested one, case aside, and is "" exactly when no preset has that name |
| PtzPresets.FindReportedToken | src/ptz_service.c:2041-2047 | the loop that builds preset_token_out produces ReportedToken |
| PtzPresets.AcceptedNameUnique | src/ptz_service.c:1954-1965 | an accepted new preset's name differs, case aside, from every listed preset's, and a renamed preset's from every other preset's |
| PtzPresets.InvalidNameRejected | src/ptz_service.c:1944-1953 | a new preset with a name is rejected with -3 exactly when the name has a space, is empty or is longer than 64 characters |
| PtzPresets.RenameToSelfAllowed | src/ptz_service.c:2008-2019 | renaming a preset to its own name, in another case, is no clash |
| PtzPresets.PresetTokenOverflows | src/ptz_service.c:1872 | "PresetToken_1000" and its NUL need 17 bytes, more than preset_token_out's 16 |
| PtzPresets.PresetTokenFitsCorrected | src/ptz_service.c:2044 | with a 24-byte buffer every 32-bit preset number fits |
| Imaging.EntryIndex | src/imaging_service.c:129-145 | with no token or an empty one the first source is chosen; otherwise the first source whose token equals it, case aside, or none when no source has it; no source ever comes from an empty list |
| Imaging.FirstSource | src/imaging_service.c:134-142 | the index found is the first at or after `from` whose token equals the request's, case aside; none means no such source |
| Imaging.SourceTokens | src/imaging_service.c:134-142 | the tokens are the sources' own, in configuration order |
| Imaging.FindImagingEntry | src/imaging_service.c:129-145 | the lookup loop returns what EntryIndex specifies |
| Imaging.IrCutText | src/imaging_service.c:147-159 | every mode prints as On, Off or Auto |
| Imaging.IrCutParse | src/imaging_service.c:161-174 | a mode is parsed only from its own name, case aside; no value is unspecified |
| Imaging.IrCutRoundTrip | src/imaging_service.c:147-174 | printing a specified mode and parsing it back gives that mode |
| Imaging.IrCutUnknown | src/imaging_service.c:161-174 | text that is none of On, Off, Auto, case aside, parses as unspecified |
| Imaging.ResolveSpeed | src/imaging_service.c:688-697 | the requested speed wins, then the move's configured speed, then the focus default speed, then 1.0 |
| Imaging.Command | src/imaging_service.c:111-125 | a command exists exactly when the template is not empty and its rendering is shorter than the 1024-byte buffer, and it is that rendering |
| Imaging.PresetTemplate | src/imaging_service.c:798-812 | a preset's own command is used before the source's cmd_apply_preset, and there is none when both are empty |
| Imaging.PresetIndex | src/imaging_service.c:740-752 | the preset found is the first whose token equals the request's, case aside; none means no preset has it |
| Imaging.FindPreset | src/imaging_service.c:740-752 | the lookup loop returns what PresetIndex specifies |
| Imaging.StepChecks | src/imaging_service.c:838-922 | an absolute or relative move clears its checks only when supported, with the position given and in range and the resolved speed in range; an unsupported move is refused as not supported |
| Imaging.ContinuousChecks | src/imaging_service.c:924-951 | a continuous move clears its checks only when supported with a speed given and in range |
| Imaging.StepOutcome | src/imaging_service.c:838-879 | a refused check is reported as it is, and a cleared one moves the focus exactly when its command can be built |
| Imaging.ImagingEntry.SetIrCut | src/imaging_service.c:1207-1245 | an unknown IrCutFilter value and an unsupported mode are refused; a supported mode is applied, its command runs only for a mode other than the current one, and nothing but the mode changes |
| Imaging.ImagingEntry.MoveAbsolute | src/imaging_service.c:838-879 | the move runs exactly when StepChecks clears it and its command fits, the focus ends idle whenever the checks passed, and only a move that ran records the requested position |
| Imaging.ImagingEntry.MoveRelative | src/imaging_service.c:881-922 | the move runs exactly when StepChecks clears it and its command fits, the focus ends idle whenever the checks passed, and only a move that ran adds the distance to the recorded position, or records it when there is none |
| Imaging.ImagingEntry.MoveContinuous | src/imaging_service.c:924-951 | the move runs exactly when ContinuousChecks clears it and its command fits; the focus ends idle whenever the checks passed and the recorded position is left alone |
| Imaging.ImagingEntry.StopFocus | src/imaging_service.c:1399-1405 | the stop command runs exactly when one is configured, and the focus is then idle |
| Imaging.ImagingEntry.SetCurrentPreset | src/imaging_service.c:1485-1507 | no presets, no token, an unknown token and a command that cannot be built each give their own fault with the source's message; the preset is applied exactly when it is listed and its command built, and only then does the current preset change |
| Imaging.ImagingEntry.ShownState | src/imaging_service.c:654-674 | an unknown focus state is reported as IDLE, a known one as itself |
| Imaging.FocusStatusXml | src/imaging_service.c:654-674 | the status reply is its lines concatenated and cut to the 16384-byte buffer |
| Imaging.PresetPieces | src/imaging_service.c:765-778 | there is at most one element per preset |
| Imaging.PresetsXml | src/imaging_service.c:765-778 | the presets reply is the elements of the presets with a token, in order, cut to the buffer |
| Imaging.Move | src/imaging_service.c:1315-1360 | Move answers no imaging, no source, not capable, missing Focus or not exactly one move in that order; with exactly one move it runs that move on the chosen source and reports the outcome RequestedMove gives for it, keeping that source's IR-cut mode and preset and every other source unchanged; a refused Move changes no source |
| XmlBuilding.XmlBuilder.Text | src/imaging_service.c:345-378 | the buffer holds everything appended, cut to the buffer's size less one |
| XmlBuilding.XmlBuilder.constructor | src/imaging_service.c:345-354 | a fresh builder has the whole buffer left and an empty text |
| XmlBuilding.XmlBuilder.Write | src/imaging_service.c:360-366 | a text that fits is written at the cursor with its NUL, and the text before the cursor is kept |
| XmlBuilding.XmlBuilder.Append | src/imaging_service.c:356-378 | a text that fits extends the text and moves the cursor on; one that does not fit keeps the part that fits and leaves the builder full; a full builder changes nothing |
| XmlBuilding.FullStaysFull | src/imaging_service.c:356-378 | once the cut text is full no later append changes it |
| XmlBuilding.Concat | src/imaging_service.c:356-378 | the pieces one after another, the last one at the end |
| XmlBuilding.Build | src/imaging_service.c:345-378 | a fresh builder given the pieces in order holds their concatenation cut to the buffer size less one |
| Media2.DecoderProfiles | src/media2_service.c:31-39 | the number of decoding profiles is at most the number of profiles |
| Media2.NoDecoderProfiles | src/media2_service.c:31-39 | the count is zero exactly when no profile decodes audio |
| Media2.CountDecoderProfiles | src/media2_service.c:31-39 | the counting loop returns DecoderProfiles |
| Media2.AudioOutputSupported | src/media2_service.c:41-53 | audio output is supported exactly when the output is enabled and some profile decodes audio |
| Media2.CapabilityName | src/media2_service.c:60-74 | each capability name is a non-empty word of at most 12 characters without a space |
| Media2.Add | src/media2_service.c:60-74 | a conditional strcat keeps what was there and adds the capability exactly when its condition holds |
| Media2.AddMember | src/media2_service.c:60-74 | after a conditional strcat a capability is present exactly when it was before or was just added |
| Media2.Offered | src/media2_service.c:60 | the announced capabilities always begin with VideoSource and VideoEncoder |
| Media2.OfferedMember | src/media2_service.c:55-81 | each capability is announced exactly under its condition: audio source and encoder when the first profile, or the second of exactly two, encodes; audio output when enabled; audio decoder likewise for decoding; PTZ when the node is enabled |
| Media2.OfferedAscending | src/media2_service.c:60-74 | the capabilities always come in the same fixed order |
| Media2.SplitJoin | src/media2_service.c:55-81 | words without spaces, joined with single spaces and split again, are the same words |
| Media2.TextStep | src/media2_service.c:61-74 | one strcat of " name" turns the join of the capabilities so far into the join of one more |
| Media2.Announce | src/media2_service.c:61-74 | a conditional strcat keeps the text the join of the capabilities announced so far |
| Media2.VideoText | src/media2_service.c:60 | the first strcat is the two video names with a space between |
| Media2.AppendCapability | src/media2_service.c:61-74 | the strcat of one capability under its condition gives the join of the capabilities after it, at most 13 characters longer |
| Media2.ServiceCapabilities | src/media2_service.c:55-81 | the capability string is the announced capabilities joined by single spaces, and it fits cap[256] |
| Media2.CapabilityWords | src/media2_service.c:55-81 | a reader splitting the capability string finds exactly the announced capabilities, in order |
| Media2.RequestedStep | src/media2_service.c:126-157 | the flags after one more Type are the flags before, each set when the text names it, all seven when it contains All |
| Media2.ReadType | src/media2_service.c:129-153 | the body of the Type loop sets each flag whose name the text contains, and all seven for All |
| Media2.ReadTypes | src/media2_service.c:124-157 | the Type loop asks for exactly what RequestedBy says, counts every Type node, and a Type containing All asks for everything |
| Media2.TokenProfile | src/media2_service.c:174-180 | a token names the first profile, or the second when there are exactly two, by case-insensitive name; no other profile is ever named |
| Media2.SelectProfiles | src/media2_service.c:159-183 | no profiles gives the empty reply; no Token gives the one profile or the two; a Token naming a profile gives exactly that profile, one naming none the NoProfile fault; no Token and more than two profiles selects nothing |
| Media2.ThreeProfilesUnanswered | src/media2_service.c:167-173 | three profiles and no Token get no reply at all |
| Media2.SelectProfilesCorrected | src/media2_service.c:159-183 | the corrected selection always answers and lists only existing profiles |
| Media2.CorrectedSelectionAgrees | src/media2_service.c:159-183 | the correction agrees with the code wherever the code answers, and lists the first two profiles when there are more than two and no Token |
| Media2.ProfileSections | src/media2_service.c:204-280 | no part is written when no Type was given; otherwise each part exactly when asked and its condition holds: the audio source when some profile encodes, the audio encoder when this profile encodes, PTZ when the node is enabled, the audio output when this profile decodes and output is enabled, the audio decoder when this profile decodes |
| Media2.AllSectionsWritten | src/media2_service.c:204-280 | asking for All of a listed profile that encodes and decodes audio, with audio output and PTZ enabled, writes every part |
| Media2.NoDecoderNoOutput | src/media2_service.c:256-280 | a profile that decodes no audio never gets the audio output or decoder part |
| Media2.SourceToken | src/media2_service.c:484-495 | the source lookup token is the ProfileToken cut to 9 characters, else the ConfigurationToken cut to 22, else the first profile's name cut to 9 |
| Media2.EncoderToken | src/media2_service.c:578-588 | the encoder lookup token is the ConfigurationToken cut to 9 characters, else the ProfileToken cut to 9, else empty |
| Media2.TokenNamesProfile | src/media2_service.c:583-587 | a nine-character profile name followed by anything, such as Profile_0_VideoEncoderConfig, is read as the name alone |
| Media2.SourceConfigurationTokenKept | src/media2_service.c:491-492 | the 22-character VideoSourceConfigToken survives its cut |
| Media2.SourceKnownAsWritten | src/media2_service.c:497-498 | the written comparison reads a profile that does not exist exactly when there are no profiles, or one profile that does not match |
| Media2.SourceConfigurationReadsPastEnd | src/media2_service.c:497 | with one profile the VideoSourceConfigToken request compares against profiles[1], past the profile array |
| Media2.SourceKnown | src/media2_service.c:497-498 | the corrected match holds exactly when the first or second profile has the token's name |
| Media2.SourceKnownAgrees | src/media2_service.c:497-498 | wherever the written comparison is defined, the corrected one agrees with it |
| Media2.OptionsOf | src/media2_service.c:1170-1200 | G711 reports 64 kbit/s at 8 kHz and AAC 50 kbit/s at 16 kHz |
| Media2.DefaultToken | src/media2_service.c:1152-1165 | with no token, the name (cut to 9 characters) of the first profile with the codec is used, of the second only when there are exactly two, and none when neither has it |
| Media2.AudioEncoderOptions | src/media2_service.c:1136-1236 | -1 exactly when no token resolves, -4 exactly when the token names no profile; for the profile the token names, its encoder's codec and rates when G711 or AAC, else -2 for the first profile and -3 for the second |
| Media2.AudioDecoderOptions | src/media2_service.c:1497-1577 | -1 exactly when no token resolves, -2 for a token naming no profile; for the profile the token names, its decoder's codec and rates when G711 or AAC, else -2 |
| Media2.NoOptionsWithoutCodec | src/media2_service.c:1170-1187 | naming a profile whose codec is G726 or none never gives options |
| Media2.SetConfiguration | src/media2_service.c:1719-1826 | every Set* call faults; ConfigModify exactly for the encoder methods and for a method's own token in any case, NoConfig otherwise |
| DeviceIo.DefaultRelayToken | src/deviceio_service.c:166 | a relay's default token is "RelayOutputToken_" followed by its index in decimal |
| DeviceIo.ServiceCapabilities | src/deviceio_service.c:43-81 | the relay count is printed in decimal; one audio source exactly when the first profile, or the second of exactly two, encodes audio; one audio output exactly when output is enabled |
| DeviceIo.RelayCountFits | src/deviceio_service.c:45-47 | the relay count and its NUL fit relay_outputs[2] exactly when there are fewer than ten relays |
| DeviceIo.FormIndex | src/deviceio_service.c:212-215 | as written, a token is accepted exactly when it has 18 characters, starts with the prefix in any case, and its last character minus '0' is a relay index |
| DeviceIo.DefaultTokenAccepted | src/deviceio_service.c:212-216 | the listed token of each of the first ten relays, with its prefix in any case, names that relay |
| DeviceIo.FormIndexIsDefault | src/deviceio_service.c:212-216 | an accepted token ending in a digit names a relay below ten and is its listed token up to case |
| DeviceIo.ListedTokenRejected | src/deviceio_service.c:204-212 | the listed token of relay ten or later is never accepted back |
| DeviceIo.ColonNamesTen | src/deviceio_service.c:213-215 | with more than ten relays the token ending in ':' names relay ten |
| DeviceIo.TokenIndex | src/deviceio_service.c:212-218 | the corrected check accepts only the prefix, in any case, followed by the decimal text of an existing relay index |
| DeviceIo.ListedTokenIndexed | src/deviceio_service.c:204 | under the corrected check every listed token names its own relay |
| DeviceIo.TokenIndexAgrees | src/deviceio_service.c:212-218 | the corrected check agrees with the written one on every listed token below ten |
| DeviceIo.RelayOutputOptions | src/deviceio_service.c:180-228 | without a token every relay is listed by its default token, in order; with one at most the relay the form check accepts, by its default token |
| DeviceIo.RelayOutputSettings | src/deviceio_service.c:230-258 | settings are accepted exactly when the form check accepts the token; -1 for a well-formed token past the relays, -2 for a missing or malformed one |
| DeviceIo.OptionsAndSettingsAgree | src/deviceio_service.c:212-253 | GetRelayOutputOptions and SetRelayOutputSettings accept the same tokens |
| DeviceIo.RelayToken | src/deviceio_service.c:162-166 | a relay is known by its own non-empty token, otherwise by its default token |
| DeviceIo.RelayOutputs | src/deviceio_service.c:141-178 | one item per relay, in order, with its token cut to 31 characters and its idle state as open or close |
| DeviceIo.LookupFrom | src/deviceio_service.c:275-292 | the relay found is the first from `from` on known by exactly this token; none means no such relay |
| DeviceIo.Lookup | src/deviceio_service.c:275-292 | the relay found is the first known by exactly this token; none means no relay is |
| DeviceIo.FindRelay | src/deviceio_service.c:262-296 | the lookup loop sets itoken to the index Lookup finds, or leaves it -1 |
| DeviceIo.ListedTokenSwitches | src/deviceio_service.c:141-178 | a token GetRelayOutputs lists switches the relay it was listed for, when it was not cut and no earlier relay shares it |
| DeviceIo.LongTokenNotSwitchable | src/deviceio_service.c:163-164 | a relay token longer than 31 characters is listed cut, and the cut token never switches that relay |
| DeviceIo.ChosenCommand | src/deviceio_service.c:300-311 | "active", in any case, drives the relay away from its idle state; any other state drives it into its idle state |
| DeviceIo.ActiveAndInactiveDiffer | src/deviceio_service.c:300-311 | the active and the inactive command are the relay's two state commands |
| DeviceIo.StateReplyOf | src/deviceio_service.c:260-323 | SetRelayOutputState faults exactly when the token is missing, or names no relay; for the relay the token names, a state with a command sets that relay with the command ChosenCommand picks, and the reply is undefined exactly when the state or the command is missing |
| DeviceIo.Executed | src/deviceio_service.c:314-316 | a command runs exactly when a state was set and its command is not empty |
| DeviceIo.SetRelayOutputState | src/deviceio_service.c:260-323 | the lookup loop and the command choice give the reply StateReplyOf describes, and run what Executed says |
| Conf.Item | src/conf.c:40 | cJSON_GetObjectItemCaseSensitive finds a member with exactly that name whenever the value is an object that has one, and nothing otherwise |
| Conf.MemberNamed | src/conf.c:40 | the member found has exactly the requested name; none means no member has it |
| Conf.GetBool | src/conf.c:293-303 | a flag is 1 exactly when its member is true and 0 otherwise, whatever it held before |
| Conf.Getters | src/conf.c:37-66 | a string, number or double member of the right kind replaces the variable; a member that is missing or of another kind leaves it as it was; a missing flag reads 0 |
| Conf.VideoFrom | src/conf.c:132-143 | a stream type changes from its default only to a type whose name the text matches, case aside; no text keeps the default |
| Conf.VideoNamed | src/conf.c:132-143 | a recognised stream type name selects that type whatever the default |
| Conf.AudioFrom | src/conf.c:145-170 | an audio codec changes from its default only to a codec whose name the text matches, case aside; no text keeps the default |
| Conf.AudioNamed | src/conf.c:145-170 | a recognised codec name selects that codec whatever the default |
| Conf.UnknownNamesKeepDefault | src/conf.c:132-170 | an unrecognised stream or codec text keeps the default |
| Conf.DefaultProfile | src/conf.c:112-176 | a profiles.json entry with none of the keys is a profile with no name, 0x0, H264, AAC encoding and no decoding |
| Conf.RelayIdleState | src/conf.c:239-250 | a relay idles open exactly when idle_state is "open" in any case, and its token is never read |
| Conf.RelayIdlesClosed | src/conf.c:239 | a relay without idle_state idles closed |
| Conf.RelayEventNamesRelay | src/conf.c:466-497 | the event added for relay i carries the token GetRelayOutputOptions lists for relay i, and distinct relays get distinct events |
| Conf.Profiles | src/conf.c:112-176 | one profile per profiles.json member |
| Conf.ProfilesAt | src/conf.c:112-176 | the i-th profile loaded is read from the i-th member |
| Conf.RelaysAt | src/conf.c:230-252 | the i-th relay loaded is read from the i-th entry |
| Conf.RelayEventsAt | src/conf.c:470-497 | the i-th relay event added is the event of relay from + i |
| Conf.Scopes | src/conf.c:407-416 | one scope per entry of the scopes array, and none when scopes is not an array |
| Conf.EmptySettings | src/conf.c:342-422 | an empty main file gives port 80, no credentials, every flag off and the raw log path /tmp/onvif_raw.log |
| Conf.ServiceConfig.constructor | src/conf.c:355-364 | a fresh configuration has no profiles, relays or events, events off and PTZ disabled |
| Conf.ServiceConfig.LoadProfiles | src/conf.c:99-178 | an object appends one profile per member, in order; a missing file or a non-object appends nothing |
| Conf.ServiceConfig.LoadPtz | src/conf.c:180-214 | ptz.json's enable replaces the flag when it is a number; no file leaves it |
| Conf.ServiceConfig.LoadRelays | src/conf.c:216-253 | an array appends its entries in order while the count stays below the cap; later entries are skipped; a missing file or a non-array changes nothing |
| Conf.ServiceConfig.AppendRelays | src/conf.c:230-252 | the loop appends just the entries that keep the count below the cap and skips every later one |
| Conf.ServiceConfig.LoadEvents | src/conf.c:255-291 | events.json's enable replaces the mode; the events array's entries are appended in order up to the cap; without the array no event is added |
| Conf.ServiceConfig.AppendEvents | src/conf.c:268-288 | the loop appends entries until the cap is reached and stops at the first one beyond it |
| Conf.ServiceConfig.AddRelayEvents | src/conf.c:466-497 | with relays, events off turns into pull-point; one event per relay is added while room remains, and -2 exactly when they do not all fit |
| Conf.ServiceConfig.AppendRelayEvents | src/conf.c:470-497 | the loop adds the events of relays 0 .. n - 1 while room remains, and answers -2 exactly when they do not all fit |
| Conf.ServiceConfig.LoadDirectory | src/conf.c:449-455 | loading the four directory files keeps relays below their cap and events within theirs |
| Conf.ServiceConfig.Process | src/conf.c:305-502 | a missing file or a short read gives -1 and an unparseable one -2, with nothing changed; a parsed file sets every setting from its members, loads the directory unless conf_dir is empty, and answers 0 or -2 |
| Conf.ServiceConfig.LoadFromScratch | src/conf.c:355-497 | from the reset of the arrays on, the profiles, PTZ flag, relays, events, event mode and answer are what LoadedFrom gives for the directory files |
| Conf.ConfDir | src/conf.c:441-448 | conf_dir defaults to /etc/onvif.d |
| Conf.ProfilesLoaded | src/conf.c:99-178 | a profiles.json object gives one profile per member, and anything else gives none |
| Conf.RelaysLoaded | src/conf.c:216-253 | the relays taken keep the count below the cap, and a missing file or a non-array gives none |
| Conf.EventsLoaded | src/conf.c:255-291 | the events taken keep the count within the cap |
| Conf.LoadedOf | src/conf.c:449-497 | the directory load answers 0 or -2, keeps the relays below their cap, and on success keeps the events within theirs |
| Conf.LoadedFrom | src/conf.c:449-455 | an empty conf_dir loads no file: no profiles, PTZ off, no relays or events, the event mode at its reset value and the answer 0 |
| Conf.LoadedEntries | src/conf.c:112-252 | the i-th profile loaded is made from the i-th member of profiles.json and the i-th relay from the i-th entry of relays.json |
| Conf.LoadedEventsAll | src/conf.c:466-497 | a successful load holds the events of events.json followed by one event for each relay, in relay order |
| Conf.LoadedRelayEvents | src/conf.c:470-494 | on success, the event of relay i sits right after the events of events.json and names the token the service lists for relay i |
| Log.LevelStr | src/log.c:20-38 | a level's name is UNK exactly for a value off the scale, and every name has three to five characters |
| Log.SyslogPrio | src/log.c:40-58 | every level maps to a priority from LOG_CRIT to LOG_DEBUG, and exactly TRACE, DEBUG and values off the scale map to LOG_DEBUG |
| Log.PrioMonotone | src/log.c:40-75 | a more verbose level never has a more urgent priority, so LOG_UPTO of the maximum lets every less verbose level through |
| Log.PrioDistinct | src/log.c:40-58 | distinct levels from FATAL to DEBUG have distinct priorities |
| Log.UpperChar | src/log.c:106-110 | lower-case ASCII letters become upper case and every other character is kept |
| Log.UpperPrefix | src/log.c:103-113 | upper_str holds the first 15 characters of the text, each made upper case |
| Log.CopyUpper | src/log.c:103-113 | the copying loop produces UpperPrefix |
| Log.NamedLevel | src/log.c:115-121 | the strcmp chain yields only levels on the scale, and only for a text starting with an upper-case letter |
| Log.WholeNumber | src/log.c:124-125 | strtol accepts only a non-empty text |
| Log.LevelOf | src/log.c:98-131 | the level read is -1 or on the scale, and -1 for no text or an empty one; a level other than -1 comes from its own name in some case, WARNING in some case for WARN, or the whole decimal text of the level |
| Log.CaseEqOfUpper | src/log.c:104-113 | a text whose upper_str is an upper-case name shorter than the buffer equals that name, case aside |
| Log.NamedLevelCaseEq | src/log.c:115-121 | a text the strcmp chain names is that level's name, or WARNING, in some case |
| Log.LevelFromString | src/log.c:98-131 | log_level_from_string, with its loop, returns LevelOf |
| Log.UpperOfCaseEq | src/log.c:103-121 | comparing upper_str with an upper-case name is comparing the text with it case aside |
| Log.NameRoundTrip | src/log.c:115-136 | every level's name, in any case, is read back as that level |
| Log.LevelRoundTrip | src/log.c:98-136 | log_level_from_string(log_level_to_string(l)) is l on the scale |
| Log.WarningAlias | src/log.c:118 | WARNING, in any case, is read as WARN |
| Log.UnknownNameRejected | src/log.c:20-38 | the name printed for a level off the scale is not read back as a level (also lines 98-131) |
| Log.NumericLevel | src/log.c:124-128 | the decimal text of a number is read as that number when it is on the scale, and rejected otherwise |
| Log.WholeDecimal | src/log.c:124-125 | strtol reads the whole decimal text of a number back |
| Log.Clamp | src/log.c:67-84 | clamping keeps a level on the scale, and sends values below FATAL to FATAL and above TRACE to TRACE |
| Log.TrimNewline | src/log.c:151-154 | one trailing newline, if present, is removed and nothing else |
| Log.TrimOnlyOne | src/log.c:151-154 | exactly one newline goes: a message ending in two keeps one |
| Log.SlashAfter | src/log.c:157-161 | the position found follows a '/' and no '/' comes after it |
| Log.BaseName | src/log.c:157-161 | the file name shown has no '/', ends the path, and is the whole path or preceded by '/' |
| Log.FindBaseName | src/log.c:156-161 | the for loop that moves slash past every '/' produces BaseName |
| Log.LineText | src/log.c:163-164 | the line starts with "[LEVEL:" and ends with "]: " and the message |
| Log.Emit | src/log.c:146-176 | a logged line goes out at the level's syslog priority, cut to outbuf, and to stderr with a newline exactly when mirroring is on |
| Log.ShortLineWhole | src/log.c:146-164 | a short message on a short path comes out whole, without the directory part and without its newline |
| Log.Logger.constructor | src/log.c:11-18 | the initial state is level FATAL, no stderr, LOG_DAEMON, no ident and not initialised |
| Log.Logger.Init | src/log.c:60-77 | log_init stores "onvif" for a NULL ident cut to 31 characters, the facility, the clamped level, the stderr flag, and sets the mask from the level |
| Log.Logger.SetLevel | src/log.c:79-88 | log_set_level stores the clamped level and resets the mask only once log_init has run; nothing else changes |
| Log.Logger.SetLevelStr | src/log.c:90-96 | a text that is not a level changes nothing; a level name or number sets that level |
| Log.Logger.LogLine | src/log.c:138-177 | a call is logged exactly when its level is on the scale and within the maximum, as Emit describes, and after log_init its priority passes the mask |
| XmlLogger.SafeChar | src/xml_logger.c:206-213 | letters, digits, '.', ':' and '-' are kept and every other character becomes '_' |
| XmlLogger.Sanitized | src/xml_logger.c:195-215 | the sanitized name is the address cut to the buffer less one, each character made safe; nothing for a missing address or an empty buffer |
| XmlLogger.SanitizedNames | src/xml_logger.c:195-215 | every character of a sanitized name is allowed or '_', and a short name of allowed characters passes unchanged |
| XmlLogger.SanitizeIp | src/xml_logger.c:195-215 | the buffer receives the sanitized name followed by a NUL; an empty buffer is left alone |
| XmlLogger.Mask | src/xml_logger.c:419-429 | the mask of an element text has the text's length |
| XmlLogger.MaskShape | src/xml_logger.c:419-429 | a mask is REDACTED padded with spaces, or the first characters of REDACTED when the text is shorter |
| XmlLogger.MaskChars | src/xml_logger.c:419-429 | every character of a mask is a letter of REDACTED or a space |
| XmlLogger.OverlayAt | src/xml_logger.c:423-429 | writing over a range changes that range to the text and nothing outside it |
| XmlLogger.FindFromSpec | src/xml_logger.c:411-415 | strstr from a position finds the first occurrence at or after it, and none only when there is none |
| XmlLogger.CharFromSpec | src/xml_logger.c:412 | strchr from a position finds the first such character at or after it, and none only when there is none |
| XmlLogger.NextElement | src/xml_logger.c:411-417 | an element found lies after the search start, its text ends before its closing tag, and the closing tag fits in the text |
| XmlLogger.NextElementSpec | src/xml_logger.c:411-417 | the element found starts at the first open tag from the start, its text begins after that tag's first '>' and ends at the first closing tag after it |
| XmlLogger.ElementRanges | src/xml_logger.c:410-431 | the element texts one pass finds: none exactly when no element is found, the first is the first found, each lies after the start with its closing tag inside the text, and each starts after the previous closing tag |
| XmlLogger.RedactFrom | src/xml_logger.c:410-431 | one tag pair's pass keeps the text's length |
| XmlLogger.RedactDone | src/xml_logger.c:411 | when no further element is found the pass leaves the text as it is |
| XmlLogger.RedactAdvance | src/xml_logger.c:418-430 | after masking the element found, the pass goes on from just past its closing tag |
| XmlLogger.RedactFromKeepsPrefix | src/xml_logger.c:410-431 | the pass never changes anything before where it started |
| XmlLogger.RedactFromMasks | src/xml_logger.c:410-431 | every character after the pass is the original or part of a mask |
| XmlLogger.RedactFromMasksExactly | src/xml_logger.c:410-431 | the pass from a position masks exactly the element texts it finds and keeps every other character |
| XmlLogger.ThreePasses | src/xml_logger.c:395-435 | after three passes, what the first two masked is still mask characters and what none of them masked is the original |
| XmlLogger.FirstElementMasked | src/xml_logger.c:418-430 | the text of the first element found is masked in the result |
| XmlLogger.RedactTagPass | src/xml_logger.c:407-432 | one pass over the whole text masks exactly the texts of the elements the pass finds and keeps every other character |
| XmlLogger.Redact | src/xml_logger.c:395-435 | the redacted copy is as long as the XML; every password element text is masked, every created element the second pass finds is masked, the nonce pass masks exactly its elements, and every character outside the three passes' elements is kept |
| XmlLogger.Fill | src/xml_logger.c:423-429 | the memcpy and memset write the mask over exactly that range of the array |
| XmlLogger.RedactTag | src/xml_logger.c:410-431 | the in-place while loop of one tag pair leaves the array as RedactFrom describes |
| XmlLogger.RedactBetweenTags | src/xml_logger.c:395-435 | the fresh copy holds the redacted XML |
| XmlLogger.BestMount | src/xml_logger.c:127-142 | the mount scan picks the first of the longest mount points that cover the path, and -1 exactly when none covers it |
| XmlLogger.ExternalMountReady | src/xml_logger.c:102-160 | the directory is ready exactly when it is configured, exists, is writable, resolves, /proc/mounts opens, and the best covering mount is neither the root nor an in-memory or overlay file system |
| XmlLogger.FirstLongestUnique | src/xml_logger.c:136-140 | the first longest covering mount is the only one with that property |
| XmlLogger.CoveringMountsNest | src/xml_logger.c:135 | two mount points that cover one path are one inside the other |
| XmlLogger.LoggingNeverEnabledAsLoaded | src/xml_logger.c:69 | for every main file, the loaded raw_log_directory is unset, so logging is never turned on, whatever the level, the directory, or a "log_directory" member |
| XmlLogger.LogDirectoryCorrected | src/onvif_simple_server.h:310 | the corrected directory is the main file's "log_directory" member, the key the field's declaration names, when it is a string, and unset otherwise; the loader reads raw_xml_log_file instead (src/conf.c:399) |
| XmlLogger.LoggingEnabledCorrected | src/xml_logger.c:54-99 | with the directory read from the main file's "log_directory" member, logging is on exactly when loglevel is debug or above, the member is a non-empty string and the directory is usable |
| XmlLogger.ClientDirectory | src/xml_logger.c:304-313 | the client directory is "unknown" without an address and the sanitized address otherwise |
| XmlLogger.Decided | src/xml_logger.c:54-99 | a decision once made is kept; an undecided state becomes 1 exactly when the level and directory checks pass, else 0 |
| XmlLogger.WriteOutcome | src/xml_logger.c:224-250 | a file is written (code 0) exactly when the client directory name fits in 1024 bytes and can be made, the file path fits in 1280 bytes and the write succeeds; otherwise -1; the file is base/ip/timestamp_kind.xml (also lines 316-327, 361-372) |
| XmlLogger.XmlLogState.constructor | src/xml_logger.c:44-48 | the logger starts with no decision made and no timestamp |
| XmlLogger.XmlLogState.IsEnabled | src/xml_logger.c:54-99 | the new cached decision is Decided of the old one, and the answer is whether it is 1 |
| XmlLogger.XmlLogState.WriteLog | src/xml_logger.c:314-327 | the directory creation, the path check and the write give exactly WriteOutcome |
| XmlLogger.XmlLogState.LogRequest | src/xml_logger.c:291-328 | the cached decision becomes Decided of the old one; when logging is on and there is content, the timestamp is the fresh one and the code and file are what WriteOutcome gives for the request file; otherwise 0, no file and the timestamp kept |
| XmlLogger.XmlLogState.LogResponse | src/xml_logger.c:333-373 | the cached decision becomes Decided of the old one; when logging is on and there is content, the timestamp is the request's one (a fresh one when there is none) and the code and file are what WriteOutcome gives for the response file; otherwise 0, no file and the timestamp kept |
| XmlLogger.RequestAndResponse | src/xml_logger.c:308-354 | a logged request and its response name their files with the same timestamp, whatever the clock says at the response |
| XmlLogger.ErrorCapture | src/xml_logger.c:539-563 | an error capture writes at most 2 MiB of the redacted XML, then the TRUNCATED marker exactly when the XML is larger |
| XmlLogger.SmallCaptureIsRedacted | src/xml_logger.c:539-563 | the capture of an XML within the limit is its redacted form in full, with no secret text in it |
| XmlLogger.ErrorPreviewAsWritten | src/xml_logger.c:578 | the NUL store at redacted[120] lies inside the copy exactly when the XML has at least 120 characters, and the preview is then the intended one; a shorter XML makes it write past the end |
| XmlLogger.Preview | src/xml_logger.c:577-579 | the corrected preview is the first 120 characters, or all of a shorter text |
| XmlLogger.PreviewOfShortCapture | src/xml_logger.c:577-579 | the preview of a short capture is the whole redacted text |
| Fault.EmptyResponseName | src/fault.c:31-32 | the element name is the namespace, ':', the method and "Response", nine characters more than the two parts |
| Fault.EmptyResponseNameFits | src/fault.c:31-32 | the name and its NUL fill the buffer of strlen(ns) + strlen(method) + 10 bytes exactly |
| Fault.SplitResponseName | src/fault.c:32 | a split name's prefix has no ':' |
| Fault.EmptyResponseNameSplits | src/fault.c:32 | the element name gives back the namespace prefix and the method, as long as the prefix has no ':' of its own |
| Fault.PortSuffix | src/fault.c:57-59 | the port part is empty exactly on port 80, otherwise ':' and the port in decimal |
| Fault.DeviceAddress | src/fault.c:60 | the device address is http:// and the IP, then the port part, then /onvif |
| Fault.ServiceAddress | src/fault.c:61 | the service address is the device address followed by '/' and the service |
| Fault.DefaultPortAddresses | src/fault.c:57-61 | on port 80 the addresses carry no port at all |
| Fault.OtherPortReadsBack | src/fault.c:57-61 | on any other port the number after the address reads back as the port, and /onvif follows it |
| Fault.PortSuffixFits | src/fault.c:54-59 | port[8] holds ":<port>" and its NUL for every TCP port |
| Fault.ValueOf | src/fault.c:65-83 | a placeholder has a value exactly when some substitution names it |
| Fault.SendEmptyResponse | src/fault.c:28-43 | the empty response has no status line, uses Empty.xml and fills %METHOD% with the response element name |
| Fault.SendFault | src/fault.c:45-110 | a fault is answered with status 500 from Fault.xml with eight substitutions; each of the eight keys gets the value send_fault passes for it (the device and service addresses, the codes, the reason and the detail) |
| Fault.ValueAt | src/fault.c:65-83 | the first substitution with a key gives that key's value |
| Fault.FaultListAddresses | src/fault.c:65-73 | in the substitution list, %UUID% gets the message UUID, %ADDRESS% the device address and %SERVICE% the service address |
| Fault.FaultListCodes | src/fault.c:74-79 | in the substitution list, %REC_SEND%, %SUBCODE% and %SUBCODE_EX% get the caller's codes |
| Fault.FaultListText | src/fault.c:80-83 | in the substitution list, %REASON% gets the caller's reason and %DETAIL% the caller's detail |
| Fault.SendPullMessagesFault | src/fault.c:112-122 | the PullMessages fault has status 500 and reports the caller's timeout and message limit |
| Fault.ActionFailedDetail | src/fault.c:127 | the detail is the fixed sentence followed by the code, which reads back from it |
| Fault.ActionFailed | src/fault.c:128 | an action-failed fault is a Receiver fault with ter:Action, ter:ActionFailed, reason "Action failed" and the code's detail |
| Fault.SendActionFailedFault | src/fault.c:124-129 | the reply has status 500 and Fault.xml, with the Receiver code, ter:Action, ter:ActionFailed, "Action failed", the device address and a detail from which the error code reads back |
| Fault.ActionFailedDistinct | src/fault.c:127 | distinct error codes give distinct details |
| Fault.ActionFailedDetailFits | src/fault.c:126-127 | the detail fits error_string[1024] for every 32-bit code |
| Fault.SendAuthenticationError | src/fault.c:131-141 | the authentication error has status 400, AuthenticationError.xml and no substitutions |
| Fault.Head | src/fault.c:36-89 | the headers start with the status line and end with the Content-Length of the body and a blank line |
| Fault.Written | src/fault.c:34-39 | the output starts with the status line and ends with the body cat writes; the headers before the body end with a Content-Length that is the body's length in decimal (also lines 65-109) |
| Fault.StatusLines | src/fault.c:86-136 | faults are marked 500 and authentication errors 400 on the first line; the empty response has no status line |
| CgiHarness.HeaderGet | tests/www/server.py:36-38 | headers.get finds a header whose name equals the requested one, case aside, with its value; none means no header has that name |
| CgiHarness.TrailingSpace | tests/www/server.py:36 | the white space counted at the end is all white space, and the character before it is not |
| CgiHarness.LeadingSpace | tests/www/server.py:36 | the white space counted at the start is all white space, and the character after it is not |
| CgiHarness.PyStrip | tests/www/server.py:36 | a stripped text starts and ends with something other than white space |
| CgiHarness.StripUnspaced | tests/www/server.py:36 | stripping leaves a text without white space at its ends as it is |
| CgiHarness.SignedOfDigits | tests/www/server.py:36 | an unsigned run of digits reads as its value |
| CgiHarness.PyIntOfDecimal | tests/www/server.py:36-37 | int() reads back the number str() wrote |
| CgiHarness.ContentLength | tests/www/server.py:36 | the length is 0 without a Content-Length header, otherwise what int() reads from it, or its ValueError |
| CgiHarness.ReadCount | tests/www/server.py:39 | rfile.read(n) reads at most what is left, exactly n when that much is left |
| CgiHarness.PostEnvironment | tests/www/server.py:33-38 | the POST environment is the server's with REQUEST_METHOD, CONTENT_LENGTH and CONTENT_TYPE set, and every other variable as it was |
| CgiHarness.Success200 | tests/www/server.py:45-56 | a success is the 200 status, the text/html header, the end of the headers, then the body writes in order |
| CgiHarness.CgiReply | tests/www/server.py:24-58 | run_cgi never reads more of the body than is there |
| CgiHarness.MissingBeforeForbidden | tests/www/server.py:26-31 | a missing script gives 404 and one that is not executable 403; neither runs anything or reads the body |
| CgiHarness.PostRunsWithBody | tests/www/server.py:33-50 | a POST runs the script in the POST environment on exactly Content-Length bytes of the body, and reads just those |
| CgiHarness.PostStderrAppended | tests/www/server.py:45-50 | a POST reply is 200 whatever the script's exit status: its output, then its error output when there is any |
| CgiHarness.GetStdoutOnly | tests/www/server.py:51-56 | a GET reply carries the script's output only, and the request body is not read |
| CgiHarness.BadLengthIs500 | tests/www/server.py:36-58 | a Content-Length that int() cannot read gives 500, and nothing is run |
| CgiHarness.GetIgnoresRequest | tests/www/server.py:52 | a GET runs with the server's own environment, so neither the headers nor the body of the request can change its answer |
| CgiHarness.Handler.constructor | tests/www/server.py:11 | a fresh handler has the whole body unread and nothing written |
| CgiHarness.Handler.WriteSuccess | tests/www/server.py:45-50 | the handler writes Success200 of the bodies and reads nothing |
| CgiHarness.Handler.RunPost | tests/www/server.py:33-50 | the POST branch writes what CgiReply says and consumes what it reads |
| CgiHarness.Handler.RunCgi | tests/www/server.py:24-58 | run_cgi writes what CgiReply says and consumes what it reads |
| CgiHarness.Handler.DoGet | tests/www/server.py:12-16 | a GET under /onvif/ runs the script, anything else is served as a static file |
| CgiHarness.Handler.DoPost | tests/www/server.py:18-22 | a POST under /onvif/ runs the script, anything else gets 501 |
| Xml.XmlContext.constructor | src/mxml_wrapper.c:27-28 | both pointers start out NULL |
| CString.FindSpec | src/media2_service.c:130-144 | strstr finds the first occurrence, and none only when there is none |
| CString.IndexOf | src/xml_logger.c:412 | strchr finds the first occurrence of the character, and none only when the text lacks it |
| CString.Truncate | src/deviceio_service.c:163-164 | strncpy with a terminating NUL keeps at most `size` characters, the whole text when it fits, and always a prefix of it |
| CString.ScanIntOfDecimal | src/ptz_service.c:1899 | sscanf("%d") reads back the number printf("%d") wrote, whatever non-digit text follows it |
| CString.DecimalInjective | src/deviceio_service.c:204 | distinct numbers print as distinct decimal texts |


## Left out

- Not part of this model: utils.c and utils.h. That includes `cat`, `b64_encode`/`b64_decode`, `hashSHA1`, `gen_uuid`, `get_ip_address`, `output_http_headers` and `html_escape`. Their effects are parameters. Constants defined there (`MAX_RELAY_OUTPUTS`, `MAX_EVENTS`, `MAX_LEN`) are parameters too.
- Not part of this model: the mxml, cJSON and json_config libraries. Their trees and values are datatypes.
- SHA-1 is an arbitrary function, so nothing is proved about the hash itself.
- Base64 encoding is implemented concretely, following section 4 of RFC 4648. Decoding is modelled twice: strictly, with its round trip proved, and as CPython's non-strict `binascii.a2b_base64` behind `base64.b64decode`. The model does not state that the fixed nonce of tests/generate_onvif_auth.py decodes.
- Randomness (`os.urandom`, `random.choices`) and the clock (`datetime.now`) are inputs.
- Files, `/proc/mounts`, stat/access/realpath/mkdir and the CGI subprocess are inputs.
- `system`/`popen` and the backend commands are modelled only as the command text a request chooses.
- Floating-point PTZ and imaging numerics are left out. Imaging positions and speeds are `real`, without rounding.
- The prudynt bridge, and the merging of prudynt state into imaging settings, are left out.
- The XML and JSON templates, and the text substituted into them, are left out. A reply is modelled as its status, the template it names and its substitutions.
- syslog, the stderr mirror and the mutex of log.c are left out. The text vsnprintf would produce is a parameter.
- The CLI and environment plumbing of `main` is left out: getopt, `dump_env`, the configuration path and reading stdin.
- Strings are NUL-free ASCII `seq<char>`. C's `"(null)"` printing of a NULL `%s` is not modelled.
- `init_xml_from_file` is left out. The parent-correction branch of `init_xml` (src/mxml_wrapper.c:104-116) cannot be reached in the model, because every root is an element.
- Undefined behaviour is not modelled:
  - a relay command string used as a `sprintf` format;
  - a NULL relay command;
  - `strcasecmp` on a missing LogicalState in `deviceio_set_relay_output_state`.
- Missing final returns (src/media2_service.c:451, src/deviceio_service.c:228, src/fault.c:129) are not modelled. The model returns on every path.
- conf.c never loads a relay's `token`, so the listed token is always `RelayOutputToken_i` (`Conf.RelayIdleState`).
- The capability counts are formatted into `char[2]` buffers. `DeviceIo.RelayCountFits` states the relay count limit under which that holds.
- ptz.json: only `enable` is loaded. Doubles and backend commands are not.
- A scope entry that is not a JSON string is not modelled.
- `events_num` after the -2 return of relay-event synthesis is not modelled.
- PATH_MAX truncation of capture paths is not modelled.
- In xml_logger.c, the loop that chooses an unused error-file name (pid/attempt) is not modelled.
- `redact_between_tags` with NULL input is not modelled.
- RedactFrom: its own ensures states only that the length is kept. That it masks exactly the element texts it finds and keeps every other character is stated by `XmlLogger.RedactFromMasksExactly`, and `RedactTagPass` and `Redact` carry it in their ensures.
- Log: strtol's clamping to the `long` range is not modelled. The glibc values of the syslog priorities appear as named constants only.
- Fault: a reply longer than `MAX_LEN` is not modelled, and neither is a port outside 0..65535.
- The test web server:
  - `translate_path` and static file serving are left out;
  - the body of `send_error` and the Server/Date headers are left out;
  - Python `int()` accepts underscores, Unicode digits and Unicode whitespace; the model reads ASCII only;
  - `repr` quoting and the difference between bytes and str are not modelled;
  - shell quoting in `os.popen` is not modelled;
  - the content of the file opened but never used in `run_cgi` is not modelled.
- A GET under /onvif/ runs the script with the server's own environment, not the `env` it builds (tests/www/server.py:52). This is modelled as written (`CgiHarness.GetIgnoresRequest`).
- `Media2.ServiceCapabilities` requires at least one profile, because media2_get_service_capabilities reads `profiles[0]` unconditionally.
- In Media2, each literal appended to the capability string is written as the name it spells, and " AudioSource AudioEncoder" counts as two names. `ProfileSections` is a record of flags, so the order in which the configurations are written is fixed by the order of its fields.
- `CgiHarness.CgiReply`: its own ensures states only that no more of the body is read than is present. The responses are stated by the lemmas beside it.
- `ServerAuth.Serve` is stated over any dispatch table. The server uses `Dispatch.Table()`.
- PtzPresets.SetPresetDecision: a given PresetName is copied with `strcpy` into `preset_name_out[UUID_LEN + 8]` (src/ptz_service.c:1869, 1941) before the 64-character check at line 1944, so a name longer than the buffer overflows it before it is refused. `UUID_LEN` is in utils.h, which is not part of this model, so the model checks the name as if the copy always fitted. The same holds for the `strcpy` of a listed preset name at line 1980.
- DeviceIo.RelayOutputSettings: `deviceio_set_relay_output_settings` passes its uninitialised `node` as the search start of `get_element_ptr` (src/deviceio_service.c:236). That is undefined behaviour; the model searches from the document root, as a NULL start does.
- ServerAuth.AuthError, and the members built on it (`FinalAuthError`, `Authenticate`, `Serve` and their lemmas), require a password whenever a username is configured. With a username and no password the C code calls `strlen(service_ctx.password)` on NULL (src/onvif_simple_server.c:410), which is undefined behaviour.
- PtzTours.MaxTourNumber: the `max + 1` of the new tour number is unbounded here; C's `int` overflow at 2147483647 is not modelled.
- CString.ScanIntOfDecimal: `sscanf("%d")` of a number outside the `int` range is undefined in C; the model reads it unbounded.
- PtzTours.TourStore.Save: writing the tours file always succeeds here. The mkdir and fopen failures at src/ptz_service.c:432-450 are not modelled.
- Media2.DefaultToken and Media2.SourceToken read a profile without a name as the empty name; C would pass NULL to `strcasecmp` or `strncpy`.
- ServiceContext.NameIs, and the members built on it (`Media2.TokenProfile`, `Media2.SelectProfiles`, `Media2.SourceKnownAsWritten`, `Media2.SourceKnown`, `Media2.AudioEncoderOptions`, `Media2.AudioDecoderOptions` and their lemmas), compare a profile without a name as not matching. C calls `strcasecmp` with a NULL name (src/media2_service.c:174, 177, 497, 1168), which is undefined behaviour.
- DeviceIo.ServiceCapabilities requires at least one profile, because deviceio_get_service_capabilities reads `profiles[0]` without looking at the profile count (src/deviceio_service.c:48). With no profiles that read is out of bounds.
- PtzPresets.VelocitySpaceFault: only the space checks of ptz_continuous_move are modelled. The velocity decoding, the reverse mode and the move commands are floating-point work and are left out, with the other moves.

## Findings

| source | as written | input that shows it | evidently intended | confidence | as-written member | corrected member |
|---|---|---|---|---|---|---|
| src/ptz_service.c:1872 | `preset_token_out[16]` receives `"PresetToken_%d"` of the backend's preset number | a preset numbered 1000 needs 17 bytes with its NUL | a buffer large enough for any `int` (24 bytes) | not executed | `PtzPresets.PresetTokenOverflows` | `PtzPresets.PresetTokenFitsCorrected` |
| src/media2_service.c:167-173 | with no Token, only a count of one or two profiles selects what to list | three profiles and no Token: no branch sets `q`, so what happens next depends on an uninitialised variable; the model answers nothing | from two profiles on, the two profiles the service describes are listed when no Token is given | not executed | `Media2.ThreeProfilesUnanswered` | `Media2.CorrectedSelectionAgrees` |
| src/media2_service.c:497 | the source configuration check compares the token with `profiles[1]` whatever the profile count | one profile named `Profile_0` and the ConfigurationToken `VideoSourceConfigToken`: `profiles[1]` is read past the end | only existing profiles are compared | not executed | `Media2.SourceConfigurationReadsPastEnd` | `Media2.SourceKnownAgrees` |
| src/deviceio_service.c:212-218 | the relay index is `token[17] - '0'` of an 18-character token | with ten or more relays (as far as `MAX_RELAY_OUTPUTS` allows), the listed token `RelayOutputToken_10` is rejected, and `RelayOutputToken_:` names relay 10 | the index is the decimal number after the prefix | not executed | `DeviceIo.ListedTokenRejected` | `DeviceIo.TokenIndexAgrees` |
| src/xml_logger.c:69 | logging is on only when `raw_log_directory` is set, but conf.c never reads it and fills `raw_xml_log_file` instead (src/conf.c:399) | any main file, even one with a `log_directory` member and loglevel DEBUG: XML logging stays off | the loader reads the main file's `log_directory` member, the key the declaration of `raw_log_directory` names (src/onvif_simple_server.h:310), so that directory enables logging at DEBUG and above | not executed | `XmlLogger.LoggingNeverEnabledAsLoaded` | `XmlLogger.LoggingEnabledCorrected` |
| src/xml_logger.c:578 | the preview is cut with `redacted[120] = 0` | a capture shorter than 120 bytes: the write lands past the end of the copy | the preview is the first min(length, 120) bytes | not executed | `XmlLogger.ErrorPreviewAsWritten` | `XmlLogger.PreviewOfShortCapture` |
