/** The request generator of tests/tests/generate_auth_soap.py: a random
    alphanumeric nonce, a microsecond timestamp, the password digest with
    its fallback for a nonce that is not base64, and the substitution of
    three placeholders in a template text. The random draws, the clock and
    the template file's contents are parameters. */
module AuthSoap {
  import opened Wrappers
  import opened CString
  import opened Base64
  import opened WsSecurity
  import opened Timestamps
  import opened Placeholders

  // ---------------------------------------------------------------------
  // generate_nonce

  const DefaultNonceLength: nat := 16

  /** string.ascii_letters + string.digits, position by position. */
  function NonceChar(i: nat): (c: char)
    requires i < 62
  {
    if i < 26 then ('a' as int + i) as char
    else if i < 52 then ('A' as int + i - 26) as char
    else ('0' as int + i - 52) as char
  }

  predicate IsAsciiAlnum(c: char) {
    ('a' <= c <= 'z') || ('A' <= c <= 'Z') || ('0' <= c <= '9')
  }

  /** generate_nonce(len(picks)): random.choices draws the alphabet
      positions `picks` (taken modulo the alphabet's size). */
  function GenerateNonce(picks: seq<nat>): (r: string)
    ensures |r| == |picks|
    ensures forall i :: 0 <= i < |r| ==> IsAsciiAlnum(r[i])
  {
    seq(|picks|, i requires 0 <= i < |picks| => NonceChar(picks[i] % 62))
  }

  /** Every string of ASCII letters and digits is a possible nonce: the
      alphabet is exactly the letters and digits. */
  lemma EveryAlnumNonce(w: string)
    requires forall i :: 0 <= i < |w| ==> IsAsciiAlnum(w[i])
    ensures exists picks: seq<nat> :: |picks| == |w| && GenerateNonce(picks) == w
  {
    var picks := seq(|w|, i requires 0 <= i < |w| =>
      var c := w[i];
      if 'a' <= c <= 'z' then c as int - 'a' as int
      else if 'A' <= c <= 'Z' then c as int - 'A' as int + 26
      else c as int - '0' as int + 52);
    assert GenerateNonce(picks) == w;
  }

  // ---------------------------------------------------------------------
  // generate_timestamp

  /** datetime.now(timezone.utc).strftime('%Y-%m-%dT%H:%M:%S.%fZ'), for
      the time `now`. */
  function GenerateTimestamp(now: DateTime): (r: string)
    requires Valid(now)
    ensures |r| == 27 && r[19] == '.' && r[26] == 'Z'
    ensures ReadIsoMicros(r) == now
  {
    IsoMicrosLayout(now);
    IsoMicros(now)
  }

  // ---------------------------------------------------------------------
  // calculate_password_digest

  /** The bytes hashed for a nonce text: its base64 decoding, or, when
      b64decode raises, its UTF-8 bytes. */
  function NonceBytes(nonce: string): (r: Bytes)
    ensures PythonDecode(nonce).Some? ==> r == PythonDecode(nonce).value
    ensures PythonDecode(nonce).None? ==> r == Utf8(nonce)
  {
    match PythonDecode(nonce)
    case Some(b) => b
    case None => Utf8(nonce)
  }

  /** calculate_password_digest(nonce, timestamp, password) */
  function CalculatePasswordDigest(sha1: Sha1, nonce: string, timestamp: string, password: string): string {
    PasswordDigest(sha1, NonceBytes(nonce), timestamp, password)
  }

  /** The hashed bytes are the nonce bytes, then the timestamp, then the
      password, and the fallback never fails. */
  lemma DigestByteOrder(sha1: Sha1, nonce: string, timestamp: string, password: string)
    ensures var input := DigestInput(NonceBytes(nonce), timestamp, password);
      CalculatePasswordDigest(sha1, nonce, timestamp, password) == Encode(sha1(input))
      && input[..|NonceBytes(nonce)|] == NonceBytes(nonce)
      && input[|NonceBytes(nonce)|..|NonceBytes(nonce)| + |Utf8(timestamp)|] == Utf8(timestamp)
      && input[|NonceBytes(nonce)| + |Utf8(timestamp)|..] == Utf8(password)
  {
  }

  // ---------------------------------------------------------------------
  // create_authenticated_soap

  /** The three values create_authenticated_soap substitutes. */
  datatype Credentials = Credentials(nonceB64: string, timestamp: string, digest: string)

  /** The nonce, its base64 text, the timestamp and the digest, for the
      random positions `picks` and the time `now`. */
  function MakeCredentials(sha1: Sha1, password: string, picks: seq<nat>, now: DateTime): (c: Credentials)
    requires Valid(now)
    ensures c.nonceB64 == Encode(Utf8(GenerateNonce(picks)))
    ensures c.timestamp == GenerateTimestamp(now)
    ensures c.digest == CalculatePasswordDigest(sha1, c.nonceB64, c.timestamp, password)
  {
    var nonceB64 := Encode(Utf8(GenerateNonce(picks)));
    var timestamp := GenerateTimestamp(now);
    Credentials(nonceB64, timestamp, CalculatePasswordDigest(sha1, nonceB64, timestamp, password))
  }

  /** The text create_authenticated_soap writes for the template text
      `content`. The username is accepted but only printed. */
  function CreateAuthenticatedSoap(sha1: Sha1, content: string, username: string, password: string,
                                   picks: seq<nat>, now: DateTime): string
    requires |picks| == DefaultNonceLength && Valid(now)
  {
    var c := MakeCredentials(sha1, password, picks, now);
    Replace(Replace(Replace(content, DigestPlaceholder, c.digest), NoncePlaceholder, c.nonceB64),
            TimestampPlaceholder, c.timestamp)
  }

  /** The nonce bytes that are hashed are the sixteen ASCII codes of the
      generated nonce: encoding it to base64 and decoding it back loses
      nothing, so the fallback is never taken. */
  lemma HashedNonceIsNonceText(sha1: Sha1, password: string, picks: seq<nat>, now: DateTime)
    requires |picks| == DefaultNonceLength && Valid(now)
    ensures var nonce := GenerateNonce(picks);
      var c := MakeCredentials(sha1, password, picks, now);
      NonceBytes(c.nonceB64) == Utf8(nonce)
      && |NonceBytes(c.nonceB64)| == 16
      && (forall i :: 0 <= i < 16 ==> NonceBytes(c.nonceB64)[i] == nonce[i] as int)
  {
    var nonce := GenerateNonce(picks);
    PythonDecodeEncode(Utf8(nonce));
    Utf8Ascii(nonce);
  }

  /** None of the substituted values holds '_': the base64 texts and the
      timestamp are drawn from alphabets without it. */
  lemma CredentialsHaveNoUnderscore(sha1: Sha1, password: string, picks: seq<nat>, now: DateTime)
    requires Valid(now)
    ensures var c := MakeCredentials(sha1, password, picks, now);
      '_' !in c.nonceB64 && '_' !in c.timestamp && '_' !in c.digest
  {
    var c := MakeCredentials(sha1, password, picks, now);
    EncodingHasNoUnderscore(Utf8(GenerateNonce(picks)));
    EncodingHasNoUnderscore(sha1(DigestInput(NonceBytes(c.nonceB64), c.timestamp, password)));
    TimestampHasNoUnderscore(now);
  }

  lemma EncodingHasNoUnderscore(b: Bytes)
    ensures '_' !in Encode(b)
  {
    EncodeAlphabet(b);
  }

  lemma TimestampHasNoUnderscore(now: DateTime)
    requires Valid(now)
    ensures '_' !in IsoMicros(now)
  {
    var t := IsoMicros(now);
    IsoMicrosLayout(now);
    forall i | 0 <= i < |t| ensures t[i] != '_' {
      TimestampChar(now, i);
    }
  }

  lemma TimestampChar(now: DateTime, i: nat)
    requires Valid(now) && i < 27
    ensures IsDigit(IsoMicros(now)[i]) || IsoMicros(now)[i] in "-T:.Z"
  {
    IsoMicrosLayout(now);
    var t := IsoMicros(now);
    assert t == Pad(now.year, 4) + "-" + Pad(now.month, 2) + "-" + Pad(now.day, 2) + "T"
      + Pad(now.hour, 2) + ":" + Pad(now.minute, 2) + ":" + Pad(now.second, 2)
      + "." + Pad(now.microsecond, 6) + "Z";
  }

  /** The generated request for a template whose literal text holds no
      '_': every placeholder is filled in with its value, and none of the
      three placeholders is left in the text written. */
  lemma NoPlaceholderLeft(sha1: Sha1, ps: seq<Piece>, username: string, password: string, picks: seq<nat>, now: DateTime)
    requires |picks| == DefaultNonceLength && Valid(now) && PlainText(ps)
    ensures var c := MakeCredentials(sha1, password, picks, now);
            CreateAuthenticatedSoap(sha1, Render(ps), username, password, picks, now)
              == Render(Fill(Fill(Fill(ps, DigestSlot, c.digest), NonceSlot, c.nonceB64), TimestampSlot, c.timestamp))
    ensures var r := CreateAuthenticatedSoap(sha1, Render(ps), username, password, picks, now);
            !Contains(r, DigestPlaceholder) && !Contains(r, NoncePlaceholder) && !Contains(r, TimestampPlaceholder)
  {
    var c := MakeCredentials(sha1, password, picks, now);
    CredentialsHaveNoUnderscore(sha1, password, picks, now);
    FillThree(ps, c.digest, c.nonceB64, c.timestamp);
  }

  /** The username has no influence on the written text. */
  lemma UsernameIgnored(sha1: Sha1, content: string, u1: string, u2: string, password: string,
                        picks: seq<nat>, now: DateTime)
    requires |picks| == DefaultNonceLength && Valid(now)
    ensures CreateAuthenticatedSoap(sha1, content, u1, password, picks, now)
         == CreateAuthenticatedSoap(sha1, content, u2, password, picks, now)
  {
  }
}
