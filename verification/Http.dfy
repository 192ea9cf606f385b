/** The vocabulary of the HTTP layer: methods, requests, character classes and numbers. */
module Http {
  datatype Option<+T> = None | Some(value: T)

  datatype HttpMethod = GET | POST | PUT | DELETE | HEAD | OPTIONS | TRACE | PATCH | INVALID

  datatype HttpVersion = HTTP_1_0 | HTTP_1_1 | HTTP_2_0 | NO_VERSION

  /** `HttpRequest` without its stream. `contentLength` is a C++ `int`. */
  datatype Request = Request(
    verb: HttpMethod, // `Method` in the source
    version: HttpVersion,
    contentLength: int,
    path: string,
    host: string,
    contentType: string,
    headers: map<string, string>,
    body: string)

  datatype Header = Header(key: string, value: string)

  function MethodToString(m: HttpMethod): string {
    match m
    case GET => "GET"
    case POST => "POST"
    case PUT => "PUT"
    case DELETE => "DELETE"
    case HEAD => "HEAD"
    case OPTIONS => "OPTIONS"
    case TRACE => "TRACE"
    case PATCH => "PATCH"
    case INVALID => "INVALID"
  }

  function MethodFromString(s: string): HttpMethod {
    if s == "GET" then GET
    else if s == "POST" then POST
    else if s == "PUT" then PUT
    else if s == "DELETE" then DELETE
    else if s == "HEAD" then HEAD
    else if s == "OPTIONS" then OPTIONS
    else if s == "TRACE" then TRACE
    else if s == "PATCH" then PATCH
    else INVALID
  }

  /** Parsing a method name undoes printing it, and only printed names are recognised. */
  lemma MethodRoundTrip(m: HttpMethod, s: string)
    ensures MethodFromString(MethodToString(m)) == m
    ensures MethodFromString(s) != INVALID ==> MethodToString(MethodFromString(s)) == s
    ensures MethodToString(m) != "" && forall c | c in MethodToString(m) :: IsAlpha(c)
  {
    assert |"GET"| == 3 && |"POST"| == 4 && |"PUT"| == 3 && |"DELETE"| == 6 && |"HEAD"| == 4
        && |"OPTIONS"| == 7 && |"TRACE"| == 5 && |"PATCH"| == 5 && |"INVALID"| == 7;
    assert "GET"[0] == 'G' && "PUT"[0] == 'P' && "POST"[0] == 'P' && "HEAD"[0] == 'H'
        && "TRACE"[0] == 'T' && "PATCH"[0] == 'P' && "OPTIONS"[0] == 'O' && "INVALID"[0] == 'I';
  }

  // ---------------------------------------------------------------------
  // Character classes (the "C" locale)
  // ---------------------------------------------------------------------

  predicate IsAlpha(c: char) {
    'a' <= c <= 'z' || 'A' <= c <= 'Z'
  }

  predicate IsDigit(c: char) {
    '0' <= c <= '9'
  }

  predicate IsAlnum(c: char) {
    IsAlpha(c) || IsDigit(c)
  }

  /** `strchr` also finds the terminator, so NUL counts as a path character. */
  predicate IsPathChar(c: char) {
    IsAlnum(c) || c in "-._~:/?#[]@!$&'()*+,;=" || c == '\0'
  }

  predicate IsHeaderKeyChar(c: char) {
    IsAlnum(c) || c == '-'
  }

  predicate IsHeaderValueChar(c: char) {
    33 as char <= c <= 126 as char || c == '\t' || c == ' '
  }

  lemma PathCharsAreNotDelimiters(c: char)
    requires IsPathChar(c)
    ensures c != ' ' && c != '\r' && c != '\n' && c < 128 as char
  {
  }

  // ---------------------------------------------------------------------
  // std::stoi and decimal output
  // ---------------------------------------------------------------------

  predicate IsSpace(c: char) {
    c == ' ' || 9 as char <= c <= 13 as char
  }

  function SkipSpaces(s: string): string {
    if s != "" && IsSpace(s[0]) then SkipSpaces(s[1..]) else s
  }

  /** The longest prefix of digits. */
  function Digits(s: string): (d: string)
    ensures forall i | 0 <= i < |d| :: IsDigit(d[i])
  {
    if s != "" && IsDigit(s[0]) then [s[0]] + Digits(s[1..]) else ""
  }

  function DecimalValue(d: string): nat
    requires forall i | 0 <= i < |d| :: IsDigit(d[i])
  {
    if d == "" then 0
    else
      var last := d[|d| - 1];
      assert IsDigit(last);
      10 * DecimalValue(d[..|d| - 1]) + (last as int - '0' as int)
  }

  const INT_MAX := 0x7fff_ffff
  const INT_MIN := -0x8000_0000

  /** `std::stoi` in base 10: leading white space, a sign, digits, anything after them.
      `None` stands for the exceptions `invalid_argument` and `out_of_range`. */
  function Stoi(s: string): (r: Option<int>)
    ensures r.Some? ==> INT_MIN <= r.value <= INT_MAX
  {
    var t := SkipSpaces(s);
    var negative := t != "" && t[0] == '-';
    var u := if t != "" && (t[0] == '-' || t[0] == '+') then t[1..] else t;
    var d := Digits(u);
    if d == "" then None
    else
      var magnitude: int := DecimalValue(d);
      var n := if negative then -magnitude else magnitude;
      if INT_MIN <= n <= INT_MAX then Some(n) else None
  }

  /** How a stream prints a non-negative `int`. */
  function Decimal(n: nat): (d: string)
    ensures d != "" && forall i | 0 <= i < |d| :: IsDigit(d[i])
  {
    if n < 10 then [(n + '0' as int) as char]
    else Decimal(n / 10) + [(n % 10 + '0' as int) as char]
  }

  lemma {:induction false} DecimalValueOfDecimal(n: nat)
    ensures DecimalValue(Decimal(n)) == n
  {
    var d := Decimal(n);
    if n >= 10 {
      DecimalValueOfDecimal(n / 10);
      assert d[..|d| - 1] == Decimal(n / 10);
    } else {
      assert d[..|d| - 1] == "";
    }
  }

  lemma {:induction false} DigitsOfDigits(d: string)
    requires forall i | 0 <= i < |d| :: IsDigit(d[i])
    ensures Digits(d) == d
  {
    if d != "" {
      DigitsOfDigits(d[1..]);
    }
  }

  /** `stoi` undoes printing. */
  lemma StoiOfDecimal(n: nat)
    requires n <= INT_MAX
    ensures Stoi(Decimal(n)) == Some(n)
  {
    var d := Decimal(n);
    assert IsDigit(d[0]);
    DigitsOfDigits(d);
    DecimalValueOfDecimal(n);
  }
}
