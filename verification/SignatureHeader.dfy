/** Signature headers of the form "t=<unix time>, v1=<hex>": how they are written, read and checked.
    The MAC (HMAC, section 2 of RFC 2104) is a parameter. */
module SignatureHeader {
  import opened Wrappers
  import opened DeliveryModel
  import opened Arithmetic
  import opened Text
  import opened Decimal

  /** From a secret and a message to a tag. */
  type Mac = (string, Bytes) -> Bytes

  const TAG_SIZE := 32

  ghost predicate IsMac(mac: Mac) {
    forall secret, message :: |mac(secret, message)| == TAG_SIZE
  }

  // ---------- Hex ----------

  function HexDigit(d: int): char
    requires 0 <= d < 16
  {
    if d < 10 then '0' + d as char else 'a' + (d - 10) as char
  }

  function HexValue(c: char): Option<int> {
    if '0' <= c <= '9' then Some((c - '0') as int)
    else if 'a' <= c <= 'f' then Some((c - 'a') as int + 10)
    else if 'A' <= c <= 'F' then Some((c - 'A') as int + 10)
    else None
  }

  function HexEncode(b: Bytes): (s: string)
    ensures |s| == 2 * |b|
  {
    if b == [] then "" else [HexDigit(b[0] as int / 16), HexDigit(b[0] as int % 16)] + HexEncode(b[1..])
  }

  function HexDecode(s: string): Option<Bytes> {
    if s == "" then Some([])
    else if |s| == 1 then None
    else
      match (HexValue(s[0]), HexValue(s[1]), HexDecode(s[2..]))
      case (Some(high), Some(low), Some(rest)) => Some([(16 * high + low) as uint8] + rest)
      case _ => None
  }

  // ---------- Writing ----------

  function AsciiBytes(s: string): Bytes
    requires forall i :: 0 <= i < |s| ==> s[i] as int < 128
  {
    if s == "" then [] else [s[0] as int as uint8] + AsciiBytes(s[1..])
  }

  function SignedMessage(timestamp: int, payload: Bytes): Bytes {
    var text := FormatInt(timestamp);
    assert forall i :: 0 <= i < |text| ==> text[i] as int < 128 by {
      forall i | 0 <= i < |text| ensures text[i] as int < 128 {
        FormattedChars(timestamp, text[i]);
      }
    }
    AsciiBytes(text) + AsciiBytes(".") + payload
  }

  function Tag(mac: Mac, secret: string, timestamp: int, payload: Bytes): Bytes {
    mac(secret, SignedMessage(timestamp, payload))
  }

  function SignHeader(mac: Mac, secret: string, payload: Bytes, now: int): string {
    "t=" + FormatInt(now) + ", v1=" + HexEncode(Tag(mac, secret, now, payload))
  }

  // ---------- Reading ----------

  datatype HeaderError = MissingTimestamp | MissingSignature | InvalidSignature | TimestampExpired

  datatype Header = Header(timestamp: int, signatures: seq<string>)

  /** The part's field, without surrounding space, if it has an equals sign. */
  function FieldOf(part: string): Option<Field> {
    match Cut(TrimSpace(part), '=')
    case None => None
    case Some(field) => Some(Field(TrimSpace(field.key), TrimSpace(field.value)))
  }

  function ValueOf(key: string, part: string): seq<string> {
    match FieldOf(part)
    case None => []
    case Some(field) => if field.key == key then [field.value] else []
  }

  function ValuesOf(key: string, parts: seq<string>): seq<string> {
    if parts == [] then [] else ValueOf(key, parts[0]) + ValuesOf(key, parts[1..])
  }

  function Timestamps(parts: seq<string>): seq<string> {
    ValuesOf("t", parts)
  }

  function Signatures(parts: seq<string>): seq<string> {
    NonEmpty(ValuesOf("v1", parts))
  }

  function NonEmpty(values: seq<string>): seq<string> {
    if values == [] then []
    else (if values[0] == "" then [] else [values[0]]) + NonEmpty(values[1..])
  }

  /** Every timestamp must be a number, and the last one counts. */
  function Read(parts: seq<string>): Result<Header, HeaderError> {
    var times, signatures := Timestamps(parts), Signatures(parts);
    if times == [] || exists i :: 0 <= i < |times| && ParseInt64(times[i]).None? then Failure(MissingTimestamp)
    else if signatures == [] then Failure(MissingSignature)
    else Success(Header(ParseInt64(times[|times| - 1]).value, signatures))
  }

  function Parsed(header: string): Result<Header, HeaderError> {
    Read(Split(header, ','))
  }

  lemma {:induction false} ValuesJoin(key: string, a: seq<string>, b: seq<string>)
    ensures ValuesOf(key, a + b) == ValuesOf(key, a) + ValuesOf(key, b)
  {
    if a == [] {
      assert a + b == b;
    } else {
      assert (a + b)[1..] == a[1..] + b;
      ValuesJoin(key, a[1..], b);
    }
  }

  lemma {:induction false} NonEmptyJoin(a: seq<string>, b: seq<string>)
    ensures NonEmpty(a + b) == NonEmpty(a) + NonEmpty(b)
  {
    if a == [] {
      assert a + b == b;
    } else {
      assert (a + b)[1..] == a[1..] + b;
      NonEmptyJoin(a[1..], b);
    }
  }

  lemma PartsJoin(a: seq<string>, b: seq<string>)
    ensures Timestamps(a + b) == Timestamps(a) + Timestamps(b)
    ensures Signatures(a + b) == Signatures(a) + Signatures(b)
  {
    ValuesJoin("t", a, b);
    ValuesJoin("v1", a, b);
    NonEmptyJoin(ValuesOf("v1", a), ValuesOf("v1", b));
  }

  lemma NextPart(parts: seq<string>, i: nat)
    requires i < |parts|
    ensures Timestamps(parts[..i + 1]) == Timestamps(parts[..i]) + ValueOf("t", parts[i])
    ensures Signatures(parts[..i + 1]) == Signatures(parts[..i]) + NonEmpty(ValueOf("v1", parts[i]))
  {
    var part := [parts[i]];
    PartsJoin(parts[..i], part);
    assert parts[..i + 1] == parts[..i] + part;
    assert part[1..] == [];
    assert ValuesOf("v1", part) == ValueOf("v1", parts[i]) + [];
    assert ValuesOf("t", part) == ValueOf("t", parts[i]) + [];
  }

  lemma AnyBadTimestamp(times: seq<string>, k: nat, parts: seq<string>)
    requires times == Timestamps(parts) && k < |times| && ParseInt64(times[k]).None?
    ensures Read(parts) == Failure(MissingTimestamp)
  {
  }

  lemma TimestampsAround(parts: seq<string>, i: nat)
    requires i < |parts|
    ensures Timestamps(parts) == Timestamps(parts[..i]) + ValueOf("t", parts[i]) + Timestamps(parts[i + 1..])
  {
    NextPart(parts, i);
    PartsJoin(parts[..i + 1], parts[i + 1..]);
    assert parts == parts[..i + 1] + parts[i + 1..];
  }

  lemma BadTimestamp(parts: seq<string>, i: nat, value: string)
    requires i < |parts| && ValueOf("t", parts[i]) == [value] && ParseInt64(value).None?
    ensures Read(parts) == Failure(MissingTimestamp)
  {
    TimestampsAround(parts, i);
    AnyBadTimestamp(Timestamps(parts), |Timestamps(parts[..i])|, parts);
  }

  /** The timestamps so far are numbers, and the last of them is the one remembered. */
  ghost predicate Remembered(times: seq<string>, foundTime: bool, timestamp: int) {
    && (forall k :: 0 <= k < |times| ==> ParseInt64(times[k]).Some?)
    && (foundTime <==> times != [])
    && (foundTime ==> ParseInt64(times[|times| - 1]) == Some(timestamp))
  }

  lemma KeyDecides(part: string)
    ensures match FieldOf(part)
            case None => ValueOf("t", part) == [] && ValueOf("v1", part) == []
            case Some(field) =>
              && (field.key == "t" ==> ValueOf("t", part) == [field.value] && ValueOf("v1", part) == [])
              && (field.key == "v1" ==> ValueOf("t", part) == [] && ValueOf("v1", part) == [field.value])
              && (field.key !in ["t", "v1"] ==> ValueOf("t", part) == [] && ValueOf("v1", part) == [])
  {
    assert |"t"| != |"v1"|;
  }

  /** What the loop knows after the first parts. */
  ghost predicate HasRead(parts: seq<string>, foundTime: bool, timestamp: int, values: seq<string>) {
    Remembered(Timestamps(parts), foundTime, timestamp) && values == Signatures(parts)
  }

  lemma TimePart(parts: seq<string>, i: nat, foundTime: bool, timestamp: int, values: seq<string>, value: string, parsed: int)
    requires i < |parts| && HasRead(parts[..i], foundTime, timestamp, values)
    requires FieldOf(parts[i]) == Some(Field("t", value)) && ParseInt64(value) == Some(parsed)
    ensures HasRead(parts[..i + 1], true, parsed, values)
  {
    NextPart(parts, i);
    KeyDecides(parts[i]);
  }

  lemma BadTimePart(parts: seq<string>, i: nat, value: string)
    requires i < |parts| && FieldOf(parts[i]) == Some(Field("t", value)) && ParseInt64(value).None?
    ensures Read(parts) == Failure(MissingTimestamp)
  {
    KeyDecides(parts[i]);
    BadTimestamp(parts, i, value);
  }

  lemma NonEmptyOne(value: string)
    ensures NonEmpty([value]) == if value == "" then [] else [value]
  {
    assert [value][1..] == [];
  }

  lemma SignaturePartRead(parts: seq<string>, i: nat, foundTime: bool, timestamp: int, values: seq<string>, value: string)
    requires i < |parts| && HasRead(parts[..i], foundTime, timestamp, values) && FieldOf(parts[i]) == Some(Field("v1", value))
    ensures HasRead(parts[..i + 1], foundTime, timestamp, if value != "" then values + [value] else values)
  {
    NextPart(parts, i);
    KeyDecides(parts[i]);
    NonEmptyOne(value);
    assert Timestamps(parts[..i]) + [] == Timestamps(parts[..i]);
    assert value == "" ==> values + [] == values;
  }

  lemma OtherPart(parts: seq<string>, i: nat, foundTime: bool, timestamp: int, values: seq<string>)
    requires i < |parts| && HasRead(parts[..i], foundTime, timestamp, values)
    requires FieldOf(parts[i]).Some? ==> FieldOf(parts[i]).value.key !in ["t", "v1"]
    ensures HasRead(parts[..i + 1], foundTime, timestamp, values)
  {
    NextPart(parts, i);
    KeyDecides(parts[i]);
  }

  lemma ReadRemembered(parts: seq<string>, foundTime: bool, timestamp: int, values: seq<string>)
    requires HasRead(parts, foundTime, timestamp, values)
    ensures Read(parts) == if !foundTime then Failure(MissingTimestamp)
                           else if values == [] then Failure(MissingSignature)
                           else Success(Header(timestamp, values))
  {
  }

  method ParseHeader(header: string) returns (r: Result<Header, HeaderError>)
    ensures r == Parsed(header)
  {
    var parts := Split(header, ',');
    var timestamp, foundTime := 0, false;
    var values: seq<string> := [];
    assert parts[..0] == [];
    for i := 0 to |parts|
      invariant HasRead(parts[..i], foundTime, timestamp, values)
    {
      match FieldOf(parts[i]) {
        case None =>
          OtherPart(parts, i, foundTime, timestamp, values);
        case Some(Field(key, value)) =>
          if key == "t" {
            var parsed := ParseInt64(value);
            if parsed.None? {
              BadTimePart(parts, i, value);
              return Failure(MissingTimestamp);
            }
            TimePart(parts, i, foundTime, timestamp, values, value, parsed.value);
            timestamp, foundTime := parsed.value, true;
          } else if key == "v1" {
            SignaturePartRead(parts, i, foundTime, timestamp, values, value);
            if value != "" {
              values := values + [value];
            }
          } else {
            OtherPart(parts, i, foundTime, timestamp, values);
          }
      }
    }
    assert parts[..|parts|] == parts;
    ReadRemembered(parts, foundTime, timestamp, values);
    if !foundTime {
      return Failure(MissingTimestamp);
    }
    if |values| == 0 {
      return Failure(MissingSignature);
    }
    return Success(Header(timestamp, values));
  }

  // ---------- Checking ----------

  /** The distance of a timestamp and its age as the code computes them: every step is an int64. */
  function WrappedGap(now: int, timestamp: int): int {
    var delta := Wrap64(now - timestamp);
    if delta < 0 then Wrap64(-delta) else delta
  }

  function WrappedAge(now: int, timestamp: int): int {
    Wrap64(WrappedGap(now, timestamp) * SECOND)
  }

  predicate Expired(now: int, timestamp: int, tolerance: int) {
    tolerance > 0 && WrappedAge(now, timestamp) > tolerance
  }

  predicate AnyDecodesTo(signatures: seq<string>, tag: Bytes) {
    exists i :: 0 <= i < |signatures| && HexDecode(signatures[i]) == Some(tag)
  }

  function Verdict(mac: Mac, secret: string, header: string, payload: Bytes, now: int, tolerance: int): Outcome<HeaderError> {
    match Parsed(header)
    case Failure(e) => Fail(e)
    case Success(h) =>
      if Expired(now, h.timestamp, tolerance) then Fail(TimestampExpired)
      else if AnyDecodesTo(h.signatures, Tag(mac, secret, h.timestamp, payload)) then Pass
      else Fail(InvalidSignature)
  }

  method CheckAge(now: int, timestamp: int, tolerance: int) returns (expired: bool)
    ensures expired == Expired(now, timestamp, tolerance)
  {
    if tolerance > 0 {
      var delta := Wrap64(now - timestamp);
      if delta < 0 {
        delta := Wrap64(-delta);
      }
      if Wrap64(delta * SECOND) > tolerance {
        return true;
      }
    }
    return false;
  }

  method FindTag(signatures: seq<string>, expected: Bytes) returns (found: bool)
    ensures found == AnyDecodesTo(signatures, expected)
  {
    for i := 0 to |signatures|
      invariant forall k :: 0 <= k < i ==> HexDecode(signatures[k]) != Some(expected)
    {
      var decoded := HexDecode(signatures[i]);
      if decoded.Some? && decoded.value == expected {
        return true;
      }
    }
    return false;
  }

  method VerifyHeader(mac: Mac, secret: string, header: string, payload: Bytes, now: int, tolerance: int)
    returns (r: Outcome<HeaderError>)
    ensures r == Verdict(mac, secret, header, payload, now, tolerance)
  {
    var parsed := ParseHeader(header);
    if parsed.Failure? {
      return Fail(parsed.error);
    }
    var h := parsed.value;
    var expired := CheckAge(now, h.timestamp, tolerance);
    if expired {
      return Fail(TimestampExpired);
    }
    var tag := Tag(mac, secret, h.timestamp, payload);
    HexRoundTrip(tag);
    var expected := HexDecode(HexEncode(tag)).value;
    var found := FindTag(h.signatures, expected);
    return if found then Pass else Fail(InvalidSignature);
  }

  // ---------- A header that was signed is accepted ----------

  lemma {:induction false} HexRoundTrip(b: Bytes)
    ensures HexDecode(HexEncode(b)) == Some(b)
  {
    if b != [] {
      HexRoundTrip(b[1..]);
      assert HexEncode(b)[2..] == HexEncode(b[1..]);
      assert b == [b[0]] + b[1..];
    }
  }

  lemma {:induction false} HexChars(b: Bytes, i: nat)
    requires i < 2 * |b|
    ensures HexValue(HexEncode(b)[i]).Some?
  {
    if i >= 2 {
      HexChars(b[1..], i - 2);
    }
  }

  /** Text without spaces, commas or equals signs. */
  ghost predicate IsPlain(s: string) {
    forall i :: 0 <= i < |s| ==> !IsSpace(s[i]) && s[i] != ',' && s[i] != '='
  }

  lemma NumbersArePlain(n: int)
    ensures IsPlain(FormatInt(n)) && FormatInt(n) != ""
  {
    DigitsAreExact(if n < 0 then -n else n);
    forall i | 0 <= i < |FormatInt(n)| ensures FormatInt(n)[i] == '-' || IsDigit(FormatInt(n)[i]) {
      FormattedChars(n, FormatInt(n)[i]);
    }
  }

  lemma HexIsPlain(b: Bytes)
    ensures IsPlain(HexEncode(b))
  {
    forall i | 0 <= i < |HexEncode(b)| ensures HexValue(HexEncode(b)[i]).Some? {
      HexChars(b, i);
    }
  }

  lemma PlainField(key: string, value: string)
    requires IsPlain(key) && IsPlain(value) && key != "" && value != ""
    ensures FieldOf(key + "=" + value) == Some(Field(key, value))
    ensures FieldOf(" " + (key + "=" + value)) == Some(Field(key, value))
    ensures ',' !in key + "=" + value
  {
    var part := key + "=" + value;
    TrimNothing(part);
    TrimNothing(key);
    TrimNothing(value);
    CutAt(key, '=', value);
    assert (" " + part)[1..] == part;
  }

  lemma SplitTwoFields(a: string, b: string)
    requires ',' !in a && ',' !in b
    ensures Split(a + "," + b, ',') == [a, b]
  {
    SplitJoined(a, ',', b);
    SplitWithout(a, ',');
    SplitWithout(b, ',');
  }

  lemma ValuesOfOne(key: string, a: string)
    ensures ValuesOf(key, [a]) == ValueOf(key, a)
  {
    assert [a][1..] == [] && ValueOf(key, a) + [] == ValueOf(key, a);
  }

  lemma ValuesOfTwo(key: string, a: string, b: string)
    ensures ValuesOf(key, [a, b]) == ValueOf(key, a) + ValueOf(key, b)
  {
    ValuesJoin(key, [a], [b]);
    ValuesOfOne(key, a);
    ValuesOfOne(key, b);
    assert [a] + [b] == [a, b];
  }

  lemma TimestampsOfTwo(a: string, b: string, time: string, tag: string)
    requires FieldOf(a) == Some(Field("t", time)) && FieldOf(b) == Some(Field("v1", tag))
    ensures Timestamps([a, b]) == [time]
  {
    KeyDecides(a);
    KeyDecides(b);
    ValuesOfTwo("t", a, b);
  }

  lemma SignaturesOfTwo(a: string, b: string, time: string, tag: string)
    requires FieldOf(a) == Some(Field("t", time)) && FieldOf(b) == Some(Field("v1", tag)) && tag != ""
    ensures Signatures([a, b]) == [tag]
  {
    KeyDecides(a);
    KeyDecides(b);
    ValuesOfTwo("v1", a, b);
    OneSignature(tag);
  }

  lemma ReadGiven(parts: seq<string>, now: int, tag: string)
    requires Timestamps(parts) == [FormatInt(now)] && Signatures(parts) == [tag] && InInt64(now)
    ensures Read(parts) == Success(Header(now, [tag]))
  {
    ParseFormatted(now);
  }

  lemma ReadTwoFields(a: string, b: string, now: int, tag: string)
    requires FieldOf(a) == Some(Field("t", FormatInt(now))) && InInt64(now)
    requires FieldOf(b) == Some(Field("v1", tag)) && tag != ""
    ensures Read([a, b]) == Success(Header(now, [tag]))
  {
    TimestampsOfTwo(a, b, FormatInt(now), tag);
    SignaturesOfTwo(a, b, FormatInt(now), tag);
    ReadGiven([a, b], now, tag);
  }

  lemma OneSignature(tag: string)
    requires tag != ""
    ensures NonEmpty([] + [tag]) == [tag]
  {
    assert [] + [tag] == [tag] && [tag][1..] == [];
  }

  lemma ParsedFields(now: int, tag: string)
    requires InInt64(now) && IsPlain(tag) && tag != ""
    ensures Parsed(("t" + "=" + FormatInt(now)) + "," + (" " + ("v1" + "=" + tag))) == Success(Header(now, [tag]))
  {
    var a, b := "t" + "=" + FormatInt(now), " " + ("v1" + "=" + tag);
    NumbersArePlain(now);
    PlainField("t", FormatInt(now));
    PlainField("v1", tag);
    SplitTwoFields(a, b);
    ReadTwoFields(a, b, now, tag);
  }

  lemma ParsedOwnHeader(mac: Mac, secret: string, payload: Bytes, now: int)
    requires IsMac(mac) && InInt64(now)
    ensures Parsed(SignHeader(mac, secret, payload, now))
         == Success(Header(now, [HexEncode(Tag(mac, secret, now, payload))]))
  {
    var tag := HexEncode(Tag(mac, secret, now, payload));
    HexIsPlain(Tag(mac, secret, now, payload));
    ParsedFields(now, tag);
    assert "t=" + FormatInt(now) + ", v1=" + tag == ("t" + "=" + FormatInt(now)) + "," + (" " + ("v1" + "=" + tag));
  }

  /** A header is accepted for what it was signed for exactly while its timestamp is not expired, and the
      timestamp is the only reason to reject it. */
  lemma SignThenVerify(mac: Mac, secret: string, payload: Bytes, signedAt: int, now: int, tolerance: int)
    requires IsMac(mac) && InInt64(signedAt)
    ensures Verdict(mac, secret, SignHeader(mac, secret, payload, signedAt), payload, now, tolerance)
         == if Expired(now, signedAt, tolerance) then Fail(TimestampExpired) else Pass
  {
    ParsedOwnHeader(mac, secret, payload, signedAt);
    HexRoundTrip(Tag(mac, secret, signedAt, payload));
    assert HexDecode([HexEncode(Tag(mac, secret, signedAt, payload))][0]) == Some(Tag(mac, secret, signedAt, payload));
  }

  // ---------- More fields ----------

  /** Fields added behind an accepted header cannot make it rejected, unless one of them is a timestamp. */
  lemma MoreFieldsKeepAcceptance(mac: Mac, secret: string, header: string, more: string, payload: Bytes, now: int, tolerance: int)
    requires Verdict(mac, secret, header, payload, now, tolerance) == Pass
    requires Timestamps(Split(more, ',')) == []
    ensures Verdict(mac, secret, header + "," + more, payload, now, tolerance) == Pass
  {
    SplitJoined(header, ',', more);
    PartsJoin(Split(header, ','), Split(more, ','));
    var h, longer := Parsed(header).value, Parsed(header + "," + more).value;
    assert longer.timestamp == h.timestamp && h.signatures <= longer.signatures;
    var i :| 0 <= i < |h.signatures| && HexDecode(h.signatures[i]) == Some(Tag(mac, secret, h.timestamp, payload));
    assert HexDecode(longer.signatures[i]) == Some(Tag(mac, secret, h.timestamp, payload));
  }

  lemma SignatureFieldIsNoTimestamp(value: string)
    ensures ValueOf("t", "v1=" + value) == []
  {
    var part, rest := "v1=" + value, TrimRight(value);
    TrimRightStops("v1=", value);
    assert TrimSpace(part) == "v1" + ['='] + rest;
    CutAt("v1", '=', rest);
    TrimNothing("v1");
    assert |"t"| != |"v1"|;
  }

  lemma SignaturePart(value: string)
    requires ',' !in value
    ensures Timestamps(Split("v1=" + value, ',')) == []
  {
    SplitWithout("v1=" + value, ',');
    ValuesOfOne("t", "v1=" + value);
    SignatureFieldIsNoTimestamp(value);
  }

  /** During a secret's rotation a header carries several signatures; each further one is harmless. */
  lemma MoreSignaturesKeepAcceptance(mac: Mac, secret: string, header: string, value: string, payload: Bytes, now: int, tolerance: int)
    requires Verdict(mac, secret, header, payload, now, tolerance) == Pass
    requires ',' !in value
    ensures Verdict(mac, secret, header + "," + ("v1=" + value), payload, now, tolerance) == Pass
  {
    SignaturePart(value);
    MoreFieldsKeepAcceptance(mac, secret, header, "v1=" + value, payload, now, tolerance);
  }

  // ---------- Expiry ----------

  /** The distance of two times. */
  function Gap(a: int, b: int): (d: int)
    ensures d >= 0 && (a == b + d || b == a + d)
  {
    if a < b then b - a else a - b
  }

  lemma WrappedGapOf(now: int, timestamp: int)
    requires InInt64(now) && InInt64(timestamp)
    ensures var gap := Gap(now, timestamp);
            WrappedGap(now, timestamp) == if gap < TWO_63 then gap else if gap == TWO_63 then -gap else TWO_64 - gap
  {
  }

  lemma WrapShift(x: int, k: int)
    ensures Wrap64(x + k * TWO_64) == Wrap64(x)
  {
    assert (x + TWO_63 + k * TWO_64) % TWO_64 == (x + TWO_63) % TWO_64;
  }

  lemma WrappedAgeOf(now: int, timestamp: int)
    requires InInt64(now) && InInt64(timestamp)
    ensures var gap := Gap(now, timestamp);
            WrappedAge(now, timestamp) == Wrap64(if gap < TWO_63 then gap * SECOND else -gap * SECOND)
  {
    var gap := Gap(now, timestamp);
    WrappedGapOf(now, timestamp);
    WrapShift(-gap * SECOND, SECOND);
  }

  /** A timestamp within the tolerance is never called expired, and one outside it is, if the age fits. */
  lemma ExpiryIsExactWhenAgeFits(now: int, timestamp: int, tolerance: int)
    requires InInt64(now) && InInt64(timestamp) && 0 < tolerance <= MAX_INT64
    ensures var age := Gap(now, timestamp) * SECOND;
            && (Expired(now, timestamp, tolerance) ==> age > tolerance)
            && (age <= MAX_INT64 ==> (Expired(now, timestamp, tolerance) <==> age > tolerance))
  {
    WrappedAgeOf(now, timestamp);
  }

  /** The computed expiry agrees with the true age under every tolerance exactly when the age fits in an int64
      of nanoseconds, about 292 years. */
  lemma ExpiryIsExactIff(now: int, timestamp: int)
    requires InInt64(now) && InInt64(timestamp)
    ensures var age := Gap(now, timestamp) * SECOND;
            (forall tolerance | 0 < tolerance <= MAX_INT64 :: Expired(now, timestamp, tolerance) <==> age > tolerance)
            <==> age <= MAX_INT64
  {
    forall tolerance | 0 < tolerance <= MAX_INT64
      ensures var age := Gap(now, timestamp) * SECOND;
              age <= MAX_INT64 ==> (Expired(now, timestamp, tolerance) <==> age > tolerance)
    {
      ExpiryIsExactWhenAgeFits(now, timestamp, tolerance);
    }
    assert !Expired(now, timestamp, MAX_INT64);
  }

  predicate WithinTolerance(signedAt: int, now: int, tolerance: int) {
    tolerance <= 0 || Gap(now, signedAt) * SECOND <= tolerance
  }

  /** A header is accepted for what it was signed for whenever it is within the tolerance. That this is the only
      case in which it is accepted, under every tolerance, is true exactly when its age fits. */
  lemma SignedHeaderAcceptedIff(mac: Mac, secret: string, payload: Bytes, signedAt: int, now: int)
    requires IsMac(mac) && InInt64(signedAt) && InInt64(now)
    ensures var header := SignHeader(mac, secret, payload, signedAt);
            && (forall tolerance | InInt64(tolerance) && WithinTolerance(signedAt, now, tolerance) ::
                  Verdict(mac, secret, header, payload, now, tolerance) == Pass)
            && ((forall tolerance | InInt64(tolerance) ::
                   Verdict(mac, secret, header, payload, now, tolerance) == Pass <==> WithinTolerance(signedAt, now, tolerance))
                <==> Gap(now, signedAt) * SECOND <= MAX_INT64)
  {
    var header := SignHeader(mac, secret, payload, signedAt);
    forall tolerance | InInt64(tolerance)
      ensures Verdict(mac, secret, header, payload, now, tolerance) == Pass <==> !Expired(now, signedAt, tolerance)
      ensures WithinTolerance(signedAt, now, tolerance) ==> !Expired(now, signedAt, tolerance)
      ensures Gap(now, signedAt) * SECOND <= MAX_INT64 ==>
                (!Expired(now, signedAt, tolerance) <==> WithinTolerance(signedAt, now, tolerance))
    {
      SignThenVerify(mac, secret, payload, signedAt, now, tolerance);
      if tolerance > 0 {
        ExpiryIsExactWhenAgeFits(now, signedAt, tolerance);
      }
    }
    assert !Expired(now, signedAt, MAX_INT64);
    assert WithinTolerance(signedAt, now, MAX_INT64) <==> Gap(now, signedAt) * SECOND <= MAX_INT64;
  }

  /** A timestamp 9,223,372,037 seconds away counts as fresh under every tolerance. */
  lemma FarTimestampExample(timestamp: int, tolerance: int)
    requires InInt64(timestamp) && InInt64(timestamp + 9_223_372_037)
    ensures !Expired(timestamp + 9_223_372_037, timestamp, tolerance)
  {
  }
}
