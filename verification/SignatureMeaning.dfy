/** What a signature header says and what its tag covers, in terms of texts and bytes: which fields are read,
    that the tag is one of the timestamp's digits, a dot and the payload, and that it is good for nothing else. */
module SignatureMeaning {
  import opened Wrappers
  import opened DeliveryModel
  import opened Arithmetic
  import opened Text
  import opened Decimal
  import opened SignatureHeader

  // ---------- Fields ----------

  /** The first equals sign divides the part into the key and the value, and the spaces around them do not matter. */
  ghost predicate IsField(part: string, key: string, value: string) {
    exists before, after :: part == before + ['='] + after && '=' !in before && IsTrimOf(before, key) && IsTrimOf(after, value)
  }

  lemma {:induction false} TrimLeftHas(s: string, c: char)
    requires c in TrimLeft(s)
    ensures c in s
  {
    if s != "" && IsSpace(s[0]) {
      TrimLeftHas(s[1..], c);
    }
  }

  lemma {:induction false} TrimRightHas(s: string, c: char)
    requires c in TrimRight(s)
    ensures c in s
  {
    if s != "" && IsSpace(s[|s| - 1]) {
      TrimRightHas(s[..|s| - 1], c);
    }
  }

  lemma CutTrimmed(before: string, after: string)
    requires '=' !in before
    ensures Cut(TrimSpace(before + ['='] + after), '=') == Some(Field(TrimLeft(before), TrimRight(after)))
  {
    var left := TrimLeft(before);
    assert !IsSpace('=');
    TrimLeftJoin(before, ['='] + after);
    assert before + ['='] + after == before + (['='] + after);
    assert left + (['='] + after) == (left + ['=']) + after;
    TrimRightStops(left + ['='], after);
    if '=' in left {
      TrimLeftHas(before, '=');
    }
    CutAt(left, '=', TrimRight(after));
  }

  lemma FieldOfDivided(before: string, after: string)
    requires '=' !in before
    ensures FieldOf(before + ['='] + after) == Some(Field(TrimSpace(before), TrimSpace(after)))
  {
    CutTrimmed(before, after);
    TrimLeftTwice(before);
    TrimRightFirst(after);
  }

  /** That is what is read as a field. */
  lemma FieldReadIff(part: string, key: string, value: string)
    ensures FieldOf(part) == Some(Field(key, value)) <==> IsField(part, key, value)
  {
    if FieldOf(part) == Some(Field(key, value)) {
      ReadIsField(part, key, value);
    }
    if before, after :| part == before + ['='] + after && '=' !in before && IsTrimOf(before, key) && IsTrimOf(after, value) {
      FieldOfDivided(before, after);
      TrimSpaceIff(before, key);
      TrimSpaceIff(after, value);
    }
  }

  lemma ReadIsField(part: string, key: string, value: string)
    requires FieldOf(part) == Some(Field(key, value))
    ensures IsField(part, key, value)
  {
    CutMeans(TrimSpace(part), '=');
    if '=' !in part {
      NoFieldWithoutSign(part);
    } else {
      CutMeans(part, '=');
      var Field(before, after) := Cut(part, '=').value;
      FieldOfDivided(before, after);
      TrimSpaceIff(before, key);
      TrimSpaceIff(after, value);
    }
  }

  lemma NoFieldWithoutSign(part: string)
    requires '=' !in part
    ensures FieldOf(part).None?
  {
    CutMeans(TrimSpace(part), '=');
    if '=' in TrimSpace(part) {
      TrimRightHas(TrimLeft(part), '=');
      TrimLeftHas(part, '=');
    }
  }

  // ---------- The header ----------

  /** The `i`-th of the parts between commas is this field. */
  ghost predicate HasField(header: string, i: int, key: string, value: string) {
    0 <= i < |Split(header, ',')| && IsField(Split(header, ',')[i], key, value)
  }

  lemma {:induction false} ValueIsInParts(key: string, parts: seq<string>, value: string)
    ensures value in ValuesOf(key, parts) <==> exists i :: 0 <= i < |parts| && FieldOf(parts[i]) == Some(Field(key, value))
  {
    if parts != [] {
      ValueIsInParts(key, parts[1..], value);
      if value in ValuesOf(key, parts[1..]) {
        var i :| 0 <= i < |parts[1..]| && FieldOf(parts[1..][i]) == Some(Field(key, value));
        assert parts[i + 1] == parts[1..][i];
      }
      if i :| 0 <= i < |parts| && FieldOf(parts[i]) == Some(Field(key, value)) {
        assert i == 0 || parts[i] == parts[1..][i - 1];
      }
    }
  }

  lemma ValueIsInHeader(header: string, key: string, value: string)
    ensures value in ValuesOf(key, Split(header, ',')) <==> exists i :: HasField(header, i, key, value)
  {
    var parts := Split(header, ',');
    ValueIsInParts(key, parts, value);
    forall i | 0 <= i < |parts| ensures FieldOf(parts[i]) == Some(Field(key, value)) <==> HasField(header, i, key, value) {
      FieldReadIff(parts[i], key, value);
    }
    if i :| HasField(header, i, key, value) {
      assert FieldOf(parts[i]) == Some(Field(key, value));
    }
  }

  lemma {:induction false} NonEmptyMeans(values: seq<string>, value: string)
    ensures value in NonEmpty(values) <==> value in values && value != ""
  {
    if values != [] {
      NonEmptyMeans(values[1..], value);
    }
  }

  /** The last value of a key is that of the last part with the key. */
  lemma {:induction false} LastValue(key: string, parts: seq<string>) returns (i: nat)
    requires ValuesOf(key, parts) != []
    ensures i < |parts| && FieldOf(parts[i]) == Some(Field(key, ValuesOf(key, parts)[|ValuesOf(key, parts)| - 1]))
    ensures forall j, value :: i < j < |parts| ==> FieldOf(parts[j]) != Some(Field(key, value))
  {
    var rest := ValuesOf(key, parts[1..]);
    if rest == [] {
      i := 0;
      forall j, value | i < j < |parts| ensures FieldOf(parts[j]) != Some(Field(key, value)) {
        ValueIsInParts(key, parts[1..], value);
        assert parts[1..][j - 1] == parts[j];
      }
    } else {
      i := LastValue(key, parts[1..]);
      i := i + 1;
      assert forall j :: 1 <= j < |parts| ==> parts[1..][j - 1] == parts[j];
    }
  }

  /** The timestamp is unusable: there is none, or one of them is no number. */
  ghost predicate NoTimestamp(header: string) {
    || (forall i, value :: !HasField(header, i, "t", value))
    || (exists i, value :: HasField(header, i, "t", value) && ParseInt64(value).None?)
  }

  lemma TimesAreFields(header: string, value: string)
    ensures value in Timestamps(Split(header, ',')) <==> exists i :: HasField(header, i, "t", value)
  {
    ValueIsInHeader(header, "t", value);
  }

  lemma NoTimestampIsFailure(header: string)
    requires NoTimestamp(header)
    ensures Parsed(header) == Failure(MissingTimestamp)
  {
    var times := Timestamps(Split(header, ','));
    if i, value :| HasField(header, i, "t", value) && ParseInt64(value).None? {
      TimesAreFields(header, value);
      var k :| 0 <= k < |times| && times[k] == value;
    } else if times != [] {
      TimesAreFields(header, times[0]);
    }
  }

  lemma FailureIsNoTimestamp(header: string)
    requires Parsed(header) == Failure(MissingTimestamp)
    ensures NoTimestamp(header)
  {
    var times := Timestamps(Split(header, ','));
    if times == [] {
      forall i, value ensures !HasField(header, i, "t", value) {
        TimesAreFields(header, value);
      }
    } else {
      var k :| 0 <= k < |times| && ParseInt64(times[k]).None?;
      TimesAreFields(header, times[k]);
    }
  }

  lemma SignatureIsInHeader(header: string, value: string)
    ensures value in Signatures(Split(header, ',')) <==> value != "" && exists i :: HasField(header, i, "v1", value)
  {
    NonEmptyMeans(ValuesOf("v1", Split(header, ',')), value);
    ValueIsInHeader(header, "v1", value);
  }

  lemma NoSignatureIff(header: string)
    ensures Signatures(Split(header, ',')) == [] <==> forall i, value :: HasField(header, i, "v1", value) ==> value == ""
  {
    var signatures := Signatures(Split(header, ','));
    if signatures == [] {
      forall i, value | HasField(header, i, "v1", value) ensures value == "" {
        SignatureIsInHeader(header, value);
      }
    } else {
      SignatureIsInHeader(header, signatures[0]);
      assert signatures[0] in signatures;
    }
  }

  /** The last timestamp of the header is the `i`-th part. */
  ghost predicate IsLastTimestamp(header: string, i: int, value: string, timestamp: int) {
    && HasField(header, i, "t", value) && ParseInt64(value) == Some(timestamp)
    && forall j, other :: HasField(header, j, "t", other) ==> j <= i
  }

  lemma LastTimestamp(header: string) returns (i: nat, value: string)
    requires Parsed(header).Success?
    ensures IsLastTimestamp(header, i, value, Parsed(header).value.timestamp)
  {
    var parts, times := Split(header, ','), Timestamps(Split(header, ','));
    i := LastValue("t", parts);
    value := times[|times| - 1];
    FieldReadIff(parts[i], "t", value);
    forall j, other | HasField(header, j, "t", other) ensures j <= i {
      FieldReadIff(parts[j], "t", other);
    }
  }

  /** How a header is read: every timestamp must be a number and the last one counts; every "v1" field with a
      value is a signature; a bad timestamp is reported before a missing signature. */
  lemma ParsedMeans(header: string)
    ensures Parsed(header) == Failure(MissingTimestamp) <==> NoTimestamp(header)
    ensures Parsed(header) == Failure(MissingSignature) <==>
              !NoTimestamp(header) && forall i, value :: HasField(header, i, "v1", value) ==> value == ""
    ensures Parsed(header).Success? ==>
              && (exists i, value :: IsLastTimestamp(header, i, value, Parsed(header).value.timestamp))
              && forall value :: value in Parsed(header).value.signatures <==> IsSignature(header, value)
  {
    ErrorsMean(header);
    if Parsed(header).Success? {
      var i, value := LastTimestamp(header);
      SignaturesMean(header);
    }
  }

  lemma ErrorsMean(header: string)
    ensures Parsed(header) == Failure(MissingTimestamp) <==> NoTimestamp(header)
    ensures Parsed(header) == Failure(MissingSignature) <==>
              !NoTimestamp(header) && forall i, value :: HasField(header, i, "v1", value) ==> value == ""
  {
    if NoTimestamp(header) {
      NoTimestampIsFailure(header);
    } else if Parsed(header) == Failure(MissingTimestamp) {
      FailureIsNoTimestamp(header);
    }
    NoSignatureIff(header);
  }

  ghost predicate IsSignature(header: string, value: string) {
    value != "" && exists i :: HasField(header, i, "v1", value)
  }

  lemma SignaturesMean(header: string)
    requires Parsed(header).Success?
    ensures forall value :: value in Parsed(header).value.signatures <==> IsSignature(header, value)
  {
    forall value ensures value in Parsed(header).value.signatures <==> IsSignature(header, value) {
      SignatureIsInHeader(header, value);
    }
  }

  // ---------- Hex ----------

  predicate SameHex(c: char, lower: char) {
    c == lower || ('A' <= c <= 'F' && 'a' <= lower <= 'f' && (c - 'A') as int == (lower - 'a') as int)
  }

  lemma {:induction false} EncodedDigits(b: Bytes, i: nat)
    requires i < |b|
    ensures HexEncode(b)[2 * i] == "0123456789abcdef"[b[i] as int / 16]
    ensures HexEncode(b)[2 * i + 1] == "0123456789abcdef"[b[i] as int % 16]
  {
    if i > 0 {
      EncodedDigits(b[1..], i - 1);
    }
  }

  predicate SameHexText(s: string, lower: string) {
    |s| == |lower| && forall i :: 0 <= i < |s| ==> SameHex(s[i], lower[i])
  }

  lemma SameHexStep(s: string, lower: string)
    requires |s| == |lower| >= 2
    ensures SameHexText(s, lower) <==> SameHex(s[0], lower[0]) && SameHex(s[1], lower[1]) && SameHexText(s[2..], lower[2..])
  {
    if SameHexText(s[2..], lower[2..]) {
      assert forall i :: 2 <= i < |s| ==> s[i] == s[2..][i - 2] && lower[i] == lower[2..][i - 2];
    }
  }

  lemma DigitMeans(c: char, d: int)
    requires 0 <= d < 16
    ensures HexValue(c) == Some(d) <==> SameHex(c, "0123456789abcdef"[d])
  {
  }

  lemma ByteMeans(high: char, low: char, byte: uint8)
    ensures AreDigitsOf(high, low, byte) <==>
              SameHex(high, "0123456789abcdef"[byte as int / 16]) && SameHex(low, "0123456789abcdef"[byte as int % 16])
  {
    DigitMeans(high, byte as int / 16);
    DigitMeans(low, byte as int % 16);
    if HexValue(high).Some? && HexValue(low).Some? {
      assert 0 <= HexValue(high).value < 16 && 0 <= HexValue(low).value < 16;
    }
  }

  predicate AreDigitsOf(high: char, low: char, byte: uint8) {
    match (HexValue(high), HexValue(low))
    case (Some(h), Some(l)) => 16 * h + l == byte as int
    case _ => false
  }

  lemma ConsEquals(first: uint8, rest: Bytes, b: Bytes)
    requires b != []
    ensures [first] + rest == b <==> first == b[0] && rest == b[1..]
  {
    assert b == [b[0]] + b[1..];
    assert ([first] + rest)[0] == first && ([first] + rest)[1..] == rest;
  }

  lemma DecodeStep(s: string, b: Bytes)
    requires |s| >= 2 && b != []
    ensures HexDecode(s) == Some(b) <==> AreDigitsOf(s[0], s[1], b[0]) && HexDecode(s[2..]) == Some(b[1..])
  {
    match (HexValue(s[0]), HexValue(s[1]), HexDecode(s[2..]))
    case (Some(h), Some(l), Some(rest)) => ConsEquals((16 * h + l) as uint8, rest, b);
    case _ =>
  }

  /** A text decodes to bytes exactly when it is their lower-case hex form, or differs from it only in case. */
  lemma {:induction false} DecodedIff(s: string, b: Bytes)
    ensures HexDecode(s) == Some(b) <==> SameHexText(s, HexEncode(b))
    decreases |s|
  {
    if |s| >= 2 && b != [] {
      DecodedIff(s[2..], b[1..]);
      DecodeStep(s, b);
      ByteMeans(s[0], s[1], b[0]);
      EncodedDigits(b, 0);
      assert HexEncode(b)[2..] == HexEncode(b[1..]);
      if |s| == |HexEncode(b)| {
        SameHexStep(s, HexEncode(b));
      }
    }
  }

  // ---------- What is signed ----------

  lemma {:induction false} AsciiBytesAre(s: string)
    requires forall i :: 0 <= i < |s| ==> s[i] as int < 128
    ensures |AsciiBytes(s)| == |s| && forall i :: 0 <= i < |s| ==> AsciiBytes(s)[i] as int == s[i] as int
  {
    if s != "" {
      AsciiBytesAre(s[1..]);
    }
  }

  /** The message is the numeral of the timestamp in ASCII, a dot and the payload. */
  ghost predicate IsLaidOut(message: Bytes, numeral: string, payload: Bytes) {
    && |message| == |numeral| + 1 + |payload|
    && (forall i :: 0 <= i < |numeral| ==> message[i] as int == numeral[i] as int)
    && message[|numeral|] as int == '.' as int
    && message[|numeral| + 1..] == payload
  }

  lemma MessageIsLaidOut(timestamp: int, payload: Bytes)
    ensures IsLaidOut(SignedMessage(timestamp, payload), FormatInt(timestamp), payload)
  {
    var text := FormatInt(timestamp);
    forall i | 0 <= i < |text| ensures text[i] as int < 128 {
      FormattedChars(timestamp, text[i]);
    }
    AsciiBytesAre(text);
    AsciiBytesAre(".");
    assert SignedMessage(timestamp, payload) == AsciiBytes(text) + AsciiBytes(".") + payload;
  }

  /** Every int64 timestamp is covered as a decimal numeral that is read back as it, followed by a dot and the payload. */
  lemma SignedMessageLayout(timestamp: int, payload: Bytes)
    requires InInt64(timestamp)
    ensures exists numeral :: ParseInt64(numeral) == Some(timestamp) && IsNumeral(numeral, timestamp)
                              && IsLaidOut(SignedMessage(timestamp, payload), numeral, payload)
  {
    MessageIsLaidOut(timestamp, payload);
    ParseFormatted(timestamp);
    FormattedIffNumeral(FormatInt(timestamp), timestamp);
  }

  /** The header that is sent, character by character: the timestamp's numeral and the MAC of that message in
      lower-case hex. */
  lemma SignedHeaderLayout(mac: Mac, secret: string, payload: Bytes, now: int)
    ensures exists numeral, message ::
              && IsNumeral(numeral, now) && IsLaidOut(message, numeral, payload)
              && SignHeader(mac, secret, payload, now) == "t=" + numeral + ", v1=" + HexEncode(mac(secret, message))
  {
    MessageIsLaidOut(now, payload);
    FormattedIffNumeral(FormatInt(now), now);
  }

  lemma FormatIsInjective(m: int, n: int)
    requires FormatInt(m) == FormatInt(n)
    ensures m == n
  {
    FormattedIffNumeral(FormatInt(m), m);
    FormattedIffNumeral(FormatInt(n), n);
    DigitsAreExact(if m < 0 then -m else m);
    DigitsAreExact(if n < 0 then -n else n);
    assert m >= 0 ==> IsDigit(FormatInt(m)[0]);
    assert n >= 0 ==> IsDigit(FormatInt(n)[0]);
  }

  lemma NumeralEndsAtDot(message: Bytes, m: int, p: Bytes, n: int, q: Bytes)
    requires IsLaidOut(message, FormatInt(m), p) && IsLaidOut(message, FormatInt(n), q)
    ensures |FormatInt(m)| <= |FormatInt(n)|
  {
    var a, b := FormatInt(m), FormatInt(n);
    if |b| < |a| {
      FormattedChars(m, a[|b|]);
      assert false;
    }
  }

  /** The dot ends the numeral, so no two pairs of timestamp and payload have the same message. */
  lemma SignedMessageIsInjective(m: int, p: Bytes, n: int, q: Bytes)
    requires SignedMessage(m, p) == SignedMessage(n, q)
    ensures m == n && p == q
  {
    var message := SignedMessage(m, p);
    MessageIsLaidOut(m, p);
    MessageIsLaidOut(n, q);
    NumeralEndsAtDot(message, m, p, n, q);
    NumeralEndsAtDot(message, n, q, m, p);
    assert FormatInt(m) == FormatInt(n) by {
      forall i | 0 <= i < |FormatInt(m)| ensures FormatInt(m)[i] == FormatInt(n)[i] {
        assert message[i] as int == FormatInt(m)[i] as int == FormatInt(n)[i] as int;
      }
    }
    FormatIsInjective(m, n);
  }

  // ---------- What is accepted ----------

  /** One of the header's signatures is the tag in hex. */
  ghost predicate CarriesTag(header: string, tag: Bytes) {
    exists value :: IsSignature(header, value) && SameHexText(value, HexEncode(tag))
  }

  lemma CarriedIffDecoded(header: string, tag: Bytes)
    requires Parsed(header).Success?
    ensures AnyDecodesTo(Parsed(header).value.signatures, tag) <==> CarriesTag(header, tag)
  {
    var signatures := Parsed(header).value.signatures;
    SignaturesMean(header);
    if CarriesTag(header, tag) {
      var value :| IsSignature(header, value) && SameHexText(value, HexEncode(tag));
      DecodedIff(value, tag);
      var k :| 0 <= k < |signatures| && signatures[k] == value;
    }
    if AnyDecodesTo(signatures, tag) {
      var k :| 0 <= k < |signatures| && HexDecode(signatures[k]) == Some(tag);
      DecodedIff(signatures[k], tag);
      assert signatures[k] in signatures;
    }
  }

  /** The verdicts on a header that is read. One that is not expired passes exactly when one of its signatures is
      the MAC of the message that belongs to its own timestamp and the payload. */
  lemma VerdictMeans(mac: Mac, secret: string, header: string, payload: Bytes, now: int, tolerance: int)
    ensures Parsed(header).Failure? ==>
              Verdict(mac, secret, header, payload, now, tolerance) == Fail(Parsed(header).error)
    ensures Parsed(header).Success? ==>
              var timestamp := Parsed(header).value.timestamp;
              Verdict(mac, secret, header, payload, now, tolerance)
              == if tolerance > 0 && WrappedAge(now, timestamp) > tolerance then Fail(TimestampExpired)
                 else if CarriesTag(header, mac(secret, SignedMessage(timestamp, payload))) then Pass
                 else Fail(InvalidSignature)
  {
    if Parsed(header).Success? {
      CarriedIffDecoded(header, mac(secret, SignedMessage(Parsed(header).value.timestamp, payload)));
    }
  }

  /** Two different messages with the same tag. */
  ghost predicate Collide(mac: Mac, secret: string, a: Bytes, b: Bytes) {
    a != b && mac(secret, a) == mac(secret, b)
  }

  lemma OneSignatureDecodes(raw: Bytes, tag: Bytes)
    ensures AnyDecodesTo([HexEncode(raw)], tag) <==> raw == tag
  {
    HexRoundTrip(raw);
    assert HexDecode([HexEncode(raw)][0]) == Some(raw);
  }

  lemma OneTagParsed(timestamp: int, raw: Bytes)
    requires InInt64(timestamp) && raw != []
    ensures Parsed("t=" + FormatInt(timestamp) + ", v1=" + HexEncode(raw)) == Success(Header(timestamp, [HexEncode(raw)]))
  {
    var tag := HexEncode(raw);
    HexIsPlain(raw);
    ParsedFields(timestamp, tag);
    assert "t=" + FormatInt(timestamp) + ", v1=" + tag == ("t" + "=" + FormatInt(timestamp)) + "," + (" " + ("v1" + "=" + tag));
  }

  lemma VerdictOnOneTag(mac: Mac, secret: string, timestamp: int, raw: Bytes, payload: Bytes, now: int, tolerance: int)
    requires InInt64(timestamp) && raw != []
    ensures Verdict(mac, secret, "t=" + FormatInt(timestamp) + ", v1=" + HexEncode(raw), payload, now, tolerance)
         == if Expired(now, timestamp, tolerance) then Fail(TimestampExpired)
            else if raw == mac(secret, SignedMessage(timestamp, payload)) then Pass
            else Fail(InvalidSignature)
  {
    OneTagParsed(timestamp, raw);
    OneSignatureDecodes(raw, mac(secret, SignedMessage(timestamp, payload)));
  }

  /** A tag is good for the timestamp and the payload it was made for and, unless the MAC itself collides, for no
      other: sent with another timestamp or another payload it is rejected, whatever the tolerance. */
  lemma TagIsForOneMessage(mac: Mac, secret: string, signedAt: int, payload: Bytes, claimedAt: int, other: Bytes, now: int, tolerance: int)
    requires IsMac(mac) && InInt64(claimedAt)
    requires !Collide(mac, secret, SignedMessage(signedAt, payload), SignedMessage(claimedAt, other))
    ensures var tag := HexEncode(mac(secret, SignedMessage(signedAt, payload)));
            var verdict := Verdict(mac, secret, "t=" + FormatInt(claimedAt) + ", v1=" + tag, other, now, tolerance);
            verdict == if Expired(now, claimedAt, tolerance) then Fail(TimestampExpired)
                       else if claimedAt == signedAt && other == payload then Pass
                       else Fail(InvalidSignature)
  {
    VerdictOnOneTag(mac, secret, claimedAt, mac(secret, SignedMessage(signedAt, payload)), other, now, tolerance);
    if SignedMessage(signedAt, payload) == SignedMessage(claimedAt, other) {
      SignedMessageIsInjective(signedAt, payload, claimedAt, other);
    }
  }
}
