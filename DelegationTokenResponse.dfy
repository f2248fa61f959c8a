/**
 * Delegation-token responses: reading the token out of a Get response and the expiration
 * time out of a Renew response, and the two response parsers (one for JSON maps, one for
 * the empty body of a Cancel response). JSON decoding itself is done by a library; the
 * model starts from the value it produced.
 */
module DelegationTokenResponse {
  import opened Wrappers

  newtype Int32 = x: int | -0x8000_0000 <= x < 0x8000_0000
  newtype Int64 = x: int | -0x8000_0000_0000_0000 <= x < 0x8000_0000_0000_0000
  type Byte = x: int | 0 <= x < 256

  /** A decoded JSON value, keeping the Java type each value is decoded to: a number becomes
      an Integer, a Long, a BigInteger or a Double (kept as its literal text). */
  datatype Json =
    | JNull
    | JBool(b: bool)
    | JInteger(i: Int32)
    | JLong(l: Int64)
    | JBigInteger(n: int)
    | JDouble(literal: string)
    | JString(s: string)
    | JList(items: seq<Json>)
    | JMap(fields: map<string, Json>)

  datatype ErrorCode = ServerError

  /** The exceptions the code throws. */
  datatype Thrown =
    | SolrException(code: ErrorCode, msg: string)
    | RuntimeException(message: string)
    | NullPointerException

  const ParsingError := SolrException(ServerError, "parsing error")

  /** A response body: the named entries of the top-level JSON object. */
  type NamedList = map<string, Json>

  /** A Java reference read from a map is null when the key is absent or the value is null. */
  predicate IsNull(v: Option<Json>) {
    v.None? || v.value.JNull?
  }

  /** `Get.getDelegationToken`: the `urlString` of the `Token` map. */
  function GetDelegationToken(response: NamedList): (r: Result<Option<string>, Thrown>)
    ensures IsNull(Lookup(response, "Token")) ==> r == Success(None)
    ensures !IsNull(Lookup(response, "Token")) && !response["Token"].JMap? ==> r == Failure(ParsingError)
    ensures !IsNull(Lookup(response, "Token")) && response["Token"].JMap? ==>
              var token := response["Token"].fields;
              && (IsNull(Lookup(token, "urlString")) ==> r == Success(None))
              && (!IsNull(Lookup(token, "urlString")) && token["urlString"].JString? ==> r == Success(Some(token["urlString"].s)))
              && (!IsNull(Lookup(token, "urlString")) && !token["urlString"].JString? ==> r == Failure(ParsingError))
    ensures r.Failure? ==> r.error == ParsingError
  {
    var token: Option<Json> := Lookup(response, "Token");
    match token
    case None => Success(None)
    case Some(JNull) => Success(None)
    case Some(JMap(token)) =>
      var url: Option<Json> := Lookup(token, "urlString");
      (match url
       case None => Success(None)
       case Some(JNull) => Success(None)
       case Some(JString(url)) => Success(Some(url))
       case Some(_) => Failure(ParsingError))
    case Some(_) => Failure(ParsingError)
  }

  /** `Renew.getExpirationTime`: the `long` entry, which must have been decoded as a Long. */
  function GetExpirationTime(response: NamedList): (r: Result<Option<Int64>, Thrown>)
    ensures IsNull(Lookup(response, "long")) ==> r == Success(None)
    ensures !IsNull(Lookup(response, "long")) && response["long"].JLong? ==> r == Success(Some(response["long"].l))
    ensures !IsNull(Lookup(response, "long")) && !response["long"].JLong? ==> r == Failure(ParsingError)
  {
    var expiration: Option<Json> := Lookup(response, "long");
    match expiration
    case None => Success(None)
    case Some(JNull) => Success(None)
    case Some(JLong(t)) => Success(Some(t))
    case Some(_) => Failure(ParsingError)
  }

  /** The body a server sends for a Get request, with the token's url string. */
  function GetResponseBody(urlString: string): NamedList {
    map["Token" := JMap(map["urlString" := JString(urlString)])]
  }

  /** The body a server sends for a Renew request, with the new expiration time. */
  function RenewResponseBody(expiration: Int64): NamedList {
    map["long" := JLong(expiration)]
  }

  /** Reading a Get response gives back the token it was built with. */
  lemma GetRoundTrip(urlString: string, extra: NamedList)
    requires "Token" !in extra
    ensures GetDelegationToken(GetResponseBody(urlString)) == Success(Some(urlString))
    ensures GetDelegationToken(extra + GetResponseBody(urlString)) == Success(Some(urlString))
  {
  }

  /** Reading a Renew response gives back the expiration time it was built with. */
  lemma RenewRoundTrip(expiration: Int64, extra: NamedList)
    ensures GetExpirationTime(RenewResponseBody(expiration)) == Success(Some(expiration))
    ensures GetExpirationTime(extra + RenewResponseBody(expiration)) == Success(Some(expiration))
  {
  }

  /** An expiration time small enough to be decoded as an Integer is not a Long: reading it
      is a parsing error. */
  lemma SmallExpirationIsParsingError(t: Int32)
    ensures GetExpirationTime(map["long" := JInteger(t)]) == Failure(ParsingError)
  {
  }

  // ---- The response parsers ----

  datatype ResponseParser = JsonMapResponseParser | NullResponseParser

  function WriterType(p: ResponseParser): (r: Option<string>)
    ensures p.JsonMapResponseParser? ==> r == Some("json")
    ensures p.NullResponseParser? ==> r == None
  {
    match p
    case JsonMapResponseParser => Some("json")
    case NullResponseParser => None
  }

  function ContentType(p: ResponseParser): (r: Option<string>)
    ensures p.JsonMapResponseParser? ==> r == Some("application/json")
    ensures p.NullResponseParser? ==> r == None
  {
    match p
    case JsonMapResponseParser => Some("application/json")
    case NullResponseParser => None
  }

  function Version(p: ResponseParser): (r: string)
    ensures r == "1"
  {
    "1"
  }

  /** Neither parser reads a character stream. */
  function ProcessReader(p: ResponseParser, characters: string): (r: Result<NamedList, Thrown>)
    ensures r == Failure(RuntimeException("Cannot handle character stream"))
  {
    Failure(RuntimeException("Cannot handle character stream"))
  }

  /** What the JSON library's `readValue(body, Map.class)` did: gave a map, gave null (the
      body was the JSON literal null), or threw an I/O exception (unreadable or malformed
      body, or a top-level value that is not an object). */
  datatype MapDecoding = DecodedMap(entries: NamedList) | DecodedNull | DecodingFailed

  /** `JsonMapResponseParser.processResponse` on a byte stream. */
  function ProcessJsonBody(decoded: MapDecoding): (r: Result<NamedList, Thrown>)
    ensures decoded.DecodedMap? <==> r.Success?
    ensures decoded.DecodedMap? ==> r.value == decoded.entries
    ensures decoded.DecodingFailed? ==> r == Failure(ParsingError)
    // a null map reaches `addAll`, which dereferences it
    ensures decoded.DecodedNull? ==> r == Failure(NullPointerException)
  {
    match decoded
    case DecodedMap(entries) => Success(entries)
    case DecodedNull => Failure(NullPointerException)
    case DecodingFailed => Failure(ParsingError)
  }

  /** A byte stream: the bytes it holds, or a stream whose read throws an I/O exception. */
  datatype InputStream = Bytes(content: seq<Byte>) | Broken

  const EmptyBodyPrefix := "expected empty body, got first byte of: "

  /** `NullResponseParser.processResponse`: a single read must report the end of the stream. */
  function ProcessEmptyBody(body: InputStream): (r: Result<NamedList, Thrown>)
    ensures r.Success? <==> body == Bytes([])
    ensures r.Success? ==> r.value == map[]
    ensures body.Broken? ==> r == Failure(ParsingError)
    ensures body.Bytes? && body.content != [] ==>
              r == Failure(SolrException(ServerError, EmptyBodyPrefix + Decimal(body.content[0])))
  {
    match body
    case Broken => Failure(ParsingError)
    case Bytes(content) =>
      if content == [] then Success(map[])
      else Failure(SolrException(ServerError, EmptyBodyPrefix + Decimal(content[0])))
  }

  /** The error for a non-empty body names its first byte: the byte can be read back. */
  lemma {:induction false} EmptyBodyErrorNamesFirstByte(content: seq<Byte>)
    requires content != []
    ensures var r := ProcessEmptyBody(Bytes(content));
            && r.Failure? && r.error.SolrException?
            && |EmptyBodyPrefix| <= |r.error.msg|
            && r.error.msg[..|EmptyBodyPrefix|] == EmptyBodyPrefix
            && ParseDecimal(r.error.msg[|EmptyBodyPrefix|..]) == content[0]
  {
    var msg := EmptyBodyPrefix + Decimal(content[0]);
    assert msg[|EmptyBodyPrefix|..] == Decimal(content[0]);
    assert msg[..|EmptyBodyPrefix|] == EmptyBodyPrefix;
    DecimalRoundTrip(content[0]);
  }

  // ---- Decimal rendering of an int, as in string concatenation ----

  function DigitChar(d: nat): char
    requires d < 10
  {
    "0123456789"[d]
  }

  function DigitValue(c: char): nat {
    if '0' <= c <= '9' then (c as int - '0' as int) as nat else 0
  }

  /** The decimal digits of `n`, without leading zeros. */
  function Decimal(n: nat): (s: string)
    ensures |s| > 0
    ensures forall i | 0 <= i < |s| :: '0' <= s[i] <= '9'
    ensures |s| > 1 ==> s[0] != '0'
  {
    if n < 10 then [DigitChar(n)] else Decimal(n / 10) + [DigitChar(n % 10)]
  }

  function ParseDecimal(s: string): nat {
    if s == [] then 0 else ParseDecimal(s[..|s| - 1]) * 10 + DigitValue(s[|s| - 1])
  }

  lemma {:induction false} DecimalRoundTrip(n: nat)
    ensures ParseDecimal(Decimal(n)) == n
  {
    if n >= 10 {
      DecimalRoundTrip(n / 10);
      var s := Decimal(n);
      assert s[..|s| - 1] == Decimal(n / 10);
      assert DigitValue(s[|s| - 1]) == n % 10;
    } else {
      assert DigitValue(DigitChar(n)) == n;
    }
  }
}
