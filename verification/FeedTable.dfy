/** The answer of the push-driven parser to every character at every place of a request, with the
    characters and the state numbers written out. */
module FeedTable {
  import opened Http
  import opened AsyncParser
  import opened Grammar

  // ---------------------------------------------------------------------
  // The characters, by their codes and by section 2 of RFC 3986
  // ---------------------------------------------------------------------

  predicate Letter(c: char) {
    65 <= c as int <= 90 || 97 <= c as int <= 122
  }

  predicate Digit(c: char) {
    48 <= c as int <= 57
  }

  predicate Unreserved(c: char) {
    Letter(c) || Digit(c) || c == '-' || c == '.' || c == '_' || c == '~'
  }

  predicate GenDelim(c: char) {
    c == ':' || c == '/' || c == '?' || c == '#' || c == '[' || c == ']' || c == '@'
  }

  predicate SubDelim(c: char) {
    || c == '!' || c == '$' || c == '&' || c == '\'' || c == '(' || c == ')'
    || c == '*' || c == '+' || c == ',' || c == ';' || c == '='
  }

  predicate PathCharacter(c: char) {
    Unreserved(c) || GenDelim(c) || SubDelim(c) || c as int == 0
  }

  predicate KeyCharacter(c: char) {
    Letter(c) || Digit(c) || c == '-'
  }

  predicate ValueCharacter(c: char) {
    c as int == 9 || 32 <= c as int <= 126
  }

  /** The parser's classes are these; a path may have no percent sign. */
  lemma CharacterClasses(c: char)
    ensures IsAlpha(c) <==> Letter(c)
    ensures IsDigit(c) <==> Digit(c)
    ensures IsPathChar(c) <==> PathCharacter(c)
    ensures IsHeaderKeyChar(c) <==> KeyCharacter(c)
    ensures IsHeaderValueChar(c) <==> ValueCharacter(c)
    ensures !IsPathChar('%')
  {
    PathPunctuation(c);
    PathPunctuation('%');
  }

  lemma PathPunctuation(c: char)
    ensures c in "-._~:/?#[]@!$&'()*+,;=" <==>
            c == '-' || c == '.' || c == '_' || c == '~' || GenDelim(c) || SubDelim(c)
  {
    var s := "-._~:/?#[]@!$&'()*+,;=";
    assert |s| == 22;
    assert s[0] == '-' && s[1] == '.' && s[2] == '_' && s[3] == '~' && s[4] == ':' && s[5] == '/' && s[6] == '?'
        && s[7] == '#' && s[8] == '[' && s[9] == ']' && s[10] == '@' && s[11] == '!' && s[12] == '$' && s[13] == '&'
        && s[14] == '\'' && s[15] == '(' && s[16] == ')' && s[17] == '*' && s[18] == '+' && s[19] == ','
        && s[20] == ';' && s[21] == '=';
  }

  /** The eight methods. */
  predicate MethodName(word: string) {
    || word == "GET" || word == "POST" || word == "PUT" || word == "DELETE"
    || word == "HEAD" || word == "OPTIONS" || word == "TRACE" || word == "PATCH"
  }

  lemma MethodNames(word: string)
    ensures MethodFromString(word) != INVALID <==> MethodName(word)
    ensures MethodToString(GET) == "GET" && MethodToString(POST) == "POST" && MethodToString(PUT) == "PUT"
    ensures MethodToString(DELETE) == "DELETE" && MethodToString(HEAD) == "HEAD"
    ensures MethodToString(OPTIONS) == "OPTIONS" && MethodToString(TRACE) == "TRACE" && MethodToString(PATCH) == "PATCH"
  {
  }

  // ---------------------------------------------------------------------
  // The table
  // ---------------------------------------------------------------------

  function Either(taken: bool, state: int): Outcome {
    if taken then Progress else Rejected(state)
  }

  /** The answer to `ch` behind the beginning `w` of a request, whose last Content-Length so far is
      `length`. */
  function Answer(w: Partial, ch: char, length: int): Outcome {
    match w
    case InMethod(word) =>
      if word == "" then Either(Letter(ch), 10) else Either(Letter(ch) || (ch == ' ' && MethodName(word)), 11)
    case AfterMethod(_) => Either(ch == '/', 12)
    case InPath(_, _) => Either(PathCharacter(ch) || ch == ' ', 13)
    case AfterPath(_, _) => Either(ch == 'H', 14)
    case InVersion(_, _, n) => Either(n <= 8 && ch == "HTTP/1.1\r"[n], 15)
    case AfterVersion(_, _) => Either(ch == '\n', 16)
    case InKey(_, _) => Either(KeyCharacter(ch) || ch == ':' || ch == '\r', 17)
    case AfterColon(_, _) => Either(ch == ' ', 18)
    case AfterSpace(_, _) => Either(ValueCharacter(ch), 19)
    case InValue(_, key, value) =>
      if ch == '\r' && key == "Content-Length" && Stoi(value).None? then Threw
      else Either(ValueCharacter(ch) || ch == '\r', 20)
    case AfterValue(_) => Either(ch == '\n', 21)
    case AtEnd(_, _) => if ch == '\n' && length == 0 then Accepted else Either(ch == '\n', 22)
    case InBody(_, _, body) => if |body| + 1 == ToSize(length) then Accepted else Progress
  }

  lemma MethodAnswer(q: Request, e: int, word: string, ch: char)
    ensures Consume(StateOf(q, e, InMethod(word)), ch).1 == Answer(InMethod(word), ch, q.contentLength)
  {
    CharacterClasses(ch);
    MethodNames(word);
    var p := StateOf(q, e, InMethod(word));
    if word != "" { assert Consume(p, ch) == ConsumeMethod(p, ch); }
  }

  lemma VersionAnswer(q: Request, e: int, verb: HttpMethod, path: string, n: nat, ch: char)
    requires 1 <= n <= 8
    ensures var w := InVersion(verb, path, n); Consume(StateOf(q, e, w), ch).1 == Answer(w, ch, q.contentLength)
  {
    var p := StateOf(q, e, InVersion(verb, path, n));
    assert Consume(p, ch) == ConsumeVersion(p, ch);
    assert |p.token| == n;
    if n < 8 { assert "HTTP/1.1\r"[n] == VERSION_TEXT[n]; }
  }

  lemma ValueAnswer(q: Request, e: int, h: Head, key: string, value: string, ch: char)
    ensures Consume(StateOf(q, e, InValue(h, key, value)), ch).1 == Answer(InValue(h, key, value), ch, q.contentLength)
  {
    CharacterClasses(ch);
    var p := StateOf(q, e, InValue(h, key, value));
    assert Consume(p, ch) == ConsumeHeaderValue(p, ch);
  }

  lemma EndAnswer(q: Request, e: int, h: Head, ending: string, ch: char)
    ensures Consume(StateOf(q, e, AtEnd(h, ending)), ch).1 == Answer(AtEnd(h, ending), ch, q.contentLength)
  {
    var p := StateOf(q, e, AtEnd(h, ending));
    assert Consume(p, ch) == ConsumeEndLine(p, ch);
  }

  lemma BodyAnswer(q: Request, e: int, h: Head, ending: string, body: string, ch: char)
    requires q.body == body && |body| < ToSize(q.contentLength)
    ensures var w := InBody(h, ending, body); Consume(StateOf(q, e, w), ch).1 == Answer(w, ch, q.contentLength)
  {
    var p := StateOf(q, e, InBody(h, ending, body));
    assert Consume(p, ch) == ConsumeBody(p, ch);
  }

  lemma PathAnswer(q: Request, e: int, verb: HttpMethod, path: string, ch: char)
    ensures Consume(StateOf(q, e, InPath(verb, path)), ch).1 == Answer(InPath(verb, path), ch, q.contentLength)
  {
    CharacterClasses(ch);
    var p := StateOf(q, e, InPath(verb, path));
    assert Consume(p, ch) == ConsumePath(p, ch);
  }

  lemma KeyAnswer(q: Request, e: int, h: Head, key: string, ch: char)
    ensures Consume(StateOf(q, e, InKey(h, key)), ch).1 == Answer(InKey(h, key), ch, q.contentLength)
  {
    CharacterClasses(ch);
    var p := StateOf(q, e, InKey(h, key));
    assert Consume(p, ch) == ConsumeHeaderKey(p, ch);
  }

  lemma MarkAnswer(q: Request, e: int, w: Partial, ch: char)
    requires || w.AfterMethod? || w.AfterPath? || w.AfterVersion? || w.AfterColon? || w.AfterSpace? || w.AfterValue?
    ensures Consume(StateOf(q, e, w), ch).1 == Answer(w, ch, q.contentLength)
  {
    CharacterClasses(ch);
  }

  lemma AnyAnswer(q: Request, e: int, w: Partial, ch: char)
    requires (w.InVersion? ==> 1 <= w.n <= 8) && (w.InBody? ==> q.body == w.body && |w.body| < ToSize(q.contentLength))
    ensures Consume(StateOf(q, e, w), ch).1 == Answer(w, ch, q.contentLength)
  {
    match w
    case InMethod(word) => MethodAnswer(q, e, word, ch);
    case InPath(verb, path) => PathAnswer(q, e, verb, path, ch);
    case InVersion(verb, path, n) => VersionAnswer(q, e, verb, path, n, ch);
    case InKey(h, key) => KeyAnswer(q, e, h, key, ch);
    case InValue(h, key, value) => ValueAnswer(q, e, h, key, value, ch);
    case AtEnd(h, ending) => EndAnswer(q, e, h, ending, ch);
    case InBody(h, ending, body) => BodyAnswer(q, e, h, ending, body, ch);
    case _ => MarkAnswer(q, e, w, ch);
  }

  /** The length that counts at the end of the head and in the body. */
  function LengthAt(w: Partial): int
    requires Valid(w)
  {
    if w.AtEnd? || w.InBody? then ContentLength(w.head.headers) else 0
  }

  lemma LengthHere(r: Request, w: Partial)
    requires Valid(w) && r.body == ""
    ensures w.AtEnd? || w.InBody? ==> RequestAt(r, w).contentLength == LengthAt(w)
    ensures w.InBody? ==> RequestAt(r, w).body == w.body
  {
    if w.AtEnd? || w.InBody? { HeadLength(r, w.head); }
  }

  lemma LengthMatters(w: Partial, ch: char, a: int, b: int)
    requires w.AtEnd? || w.InBody? ==> a == b
    ensures Answer(w, ch, a) == Answer(w, ch, b)
  {
  }

  /** What `Feed` answers to any character behind any beginning of a request is what the table says:
      0, 1, the number of the state that rejects, or the exception of `stoi`. */
  lemma FeedAnswers(r: Request, e: int, w: Partial, ch: char)
    requires Valid(w) && r.body == ""
    ensures FeedAll(NewParser(r, e), Text(w)) == (StateAt(r, e, w), Progress)
    ensures Consume(StateAt(r, e, w), ch).1 == Answer(w, ch, LengthAt(w))
  {
    ReadsPartial(r, e, w);
    LengthHere(r, w);
    AnyAnswer(RequestAt(r, w), e, w, ch);
    LengthMatters(w, ch, RequestAt(r, w).contentLength, LengthAt(w));
  }

  /** A character that is rejected is answered with the number of its place, and so is every later
      one. */
  lemma {:induction false} RejectedForEver(r: Request, e: int, w: Partial, ch: char, more: string)
    requires Valid(w) && r.body == "" && Answer(w, ch, LengthAt(w)).Rejected?
    ensures 10 <= Answer(w, ch, LengthAt(w)).code <= 22
    ensures var p := Consume(StateAt(r, e, w), ch).0;
            && |FeedOn(p, more).1| == |more|
            && forall i | 0 <= i < |more| :: FeedOn(p, more).1[i] == Answer(w, ch, LengthAt(w))
  {
    FeedAnswers(r, e, w, ch);
    VerdictSettles(StateAt(r, e, w), ch);
    VerdictIsFinal(Consume(StateAt(r, e, w), ch).0, Answer(w, ch, LengthAt(w)), more);
  }

  /** The size of body that a Content-Length asks for: a negative one is taken modulo 2^64. */
  lemma BodySizes(n: int)
    requires -2147483648 <= n <= 2147483647
    ensures n >= 0 ==> ToSize(n) == n
    ensures n < 0 ==> ToSize(n) == 18446744073709551616 + n && ToSize(n) > 18446744071562067967
  {
  }

  /** A body that is already too long when the head ends is rejected as state 23. */
  lemma LongBody(p: Parser, ch: char)
    requires p.handler == Body && |p.request.body| >= ToSize(p.request.contentLength)
    ensures Consume(p, ch).1 == Rejected(23)
  {
    assert Consume(p, ch) == ConsumeBody(p, ch);
  }
}
