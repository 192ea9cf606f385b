/** The language of the pull-driven parser: a grammar over bytes that does not know its tokens, and
    the proof that the parser accepts exactly the texts that begin with one of its sentences. */
module PullGrammar {
  import opened Http
  import opened AsyncParser
  import opened Streams
  import opened SyncParser
  import opened BodyReading
  import opened ParserAgreement

  /** A word as it is written: its characters and the byte behind them that is lost, if any. */
  datatype Spelling = Spelling(text: string, stop: string)

  datatype HeaderField = HeaderField(key: Spelling, blanks: string, value: Spelling)

  datatype Line = Line(verb: Spelling, path: Spelling, version: Spelling)

  datatype Sentence = Sentence(line: Line, fields: seq<HeaderField>, body: string)

  function Spell(w: Spelling): string {
    w.text + w.stop
  }

  function LineText(l: Line): string {
    Spell(l.verb) + " " + Spell(l.path) + " " + Spell(l.version) + "\r\n"
  }

  function FieldText(f: HeaderField): string {
    Spell(f.key) + ": " + f.blanks + Spell(f.value) + "\r\n"
  }

  function FieldsText(fs: seq<HeaderField>): string {
    if fs == [] then "" else FieldText(fs[0]) + FieldsText(fs[1..])
  }

  function SentenceText(m: Sentence): string {
    LineText(m.line) + FieldsText(m.fields) + "\r\n" + m.body
  }

  /** The bytes of words, by their codes: not blank, colon, carriage return or line feed, and in
      values not the last two; and never NUL or 255, which is -1 as a `char`. */
  lemma WordBytes(c: char)
    requires c < 256 as char
    ensures Ordinary(c, TOKEN_DELIMITERS) <==> c as int !in {0, 10, 13, 32, 58, 255}
    ensures Ordinary(c, STRING_DELIMITERS) <==> c as int !in {0, 10, 13, 255}
    ensures LooksLikeEnd(c) <==> c as int == 255
  {
    assert TOKEN_DELIMITERS == [' ', ':', '\r', '\n'] && STRING_DELIMITERS == ['\r', '\n'];
  }

  /** Nothing, NUL, or the byte that looks like the end of the input. */
  predicate StopOk(stop: string) {
    stop == "" || (|stop| == 1 && (stop[0] == '\0' || LooksLikeEnd(stop[0])))
  }

  /** Only a NUL ends an empty word. */
  predicate SpellingOk(w: Spelling, delimiters: string) {
    AllOrdinary(w.text, delimiters) && StopOk(w.stop) && (w.text == "" ==> w.stop == "\0")
  }

  predicate LineOk(l: Line) {
    && SpellingOk(l.verb, TOKEN_DELIMITERS) && (l.verb.text == "GET" || l.verb.text == "POST")
    && SpellingOk(l.path, TOKEN_DELIMITERS) && !AllSlashes(l.path.text)
    && SpellingOk(l.version, TOKEN_DELIMITERS) && l.version.text == VERSION_TEXT
  }

  predicate AllBlanks(s: string) {
    forall i | 0 <= i < |s| :: s[i] == ' '
  }

  predicate FieldOk(f: HeaderField) {
    && SpellingOk(f.key, TOKEN_DELIMITERS) && AllBlanks(f.blanks)
    && SpellingOk(f.value, STRING_DELIMITERS) && !BeginsBlank(f.value.text)
  }

  predicate FieldsOk(fs: seq<HeaderField>) {
    forall i | 0 <= i < |fs| :: FieldOk(fs[i])
  }

  /** `None`: some Content-Length is one that `stoi` does not take. */
  function StoreFields(r: Request, fs: seq<HeaderField>): Option<Request>
    decreases |fs|
  {
    if fs == [] then Some(r)
    else
      match StoreHeader(r, fs[0].key.text, fs[0].value.text)
      case None => None
      case Some(q) => StoreFields(q, fs[1..])
  }

  function WithPullLine(r: Request, l: Line): Request
    requires LineOk(l)
  {
    CleanPathMeaning(l.path.text);
    r.(verb := if l.verb.text == "GET" then GET else POST, path := CleanPath(l.path.text).value, version := HTTP_1_1)
  }

  /** The body has the length that the request object then holds, unless that is not positive. */
  predicate BodyFits(q: Request, body: string) {
    if q.contentLength <= 0 then body == "" else |body| == q.contentLength <= 4096
  }

  /** A sentence, for a request object to read it into. */
  predicate IsSentence(r: Request, m: Sentence) {
    LineOk(m.line) && FieldsOk(m.fields) &&
    match StoreFields(WithPullLine(r, m.line), m.fields)
    case None => false
    case Some(q) => BodyFits(q, m.body)
  }

  /** What the request object then holds. */
  function PullMeaning(r: Request, m: Sentence): Request
    requires IsSentence(r, m)
  {
    var q := StoreFields(WithPullLine(r, m.line), m.fields).value;
    if q.contentLength > 0 then q.(body := m.body) else q
  }

  // ---------------------------------------------------------------------
  // A sentence is read
  // ---------------------------------------------------------------------

  lemma Joined(a: string, b: string, c: string)
    ensures (a + b) + c == a + (b + c)
    ensures a + "" == a && "" + a == a
  {
  }

  /** A word in front of a delimiter. */
  lemma WordIsRead(w: Spelling, c: char, rest: string, delimiters: string)
    requires SpellingOk(w, delimiters) && c in delimiters && c != '\0' && !LooksLikeEnd(c)
    ensures Word(Spell(w) + ([c] + rest), delimiters) == (w.text, [c] + rest)
  {
    if w.stop == "" {
      assert Spell(w) == w.text;
      WordOf(w.text, c, rest, delimiters);
    } else {
      assert w.stop == [w.stop[0]];
      Joined(w.text, w.stop, [c] + rest);
      LostWord(w.text, w.stop[0], [c] + rest, delimiters);
    }
  }

  /** The same as a token. */
  lemma WordToken(w: Spelling, c: char, rest: string)
    requires SpellingOk(w, TOKEN_DELIMITERS) && c in TOKEN_DELIMITERS
    ensures ReadToken(Spell(w) + ([c] + rest)) == (Str(w.text), [c] + rest)
  {
    var u := Spell(w) + ([c] + rest);
    WordIsRead(w, c, rest, TOKEN_DELIMITERS);
    assert u[0] == if w.text == "" then '\0' else w.text[0];
    assert ' ' in TOKEN_DELIMITERS && ':' in TOKEN_DELIMITERS && '\r' in TOKEN_DELIMITERS;
  }

  lemma LineToken(rest: string)
    ensures ReadToken("\r\n" + rest) == (Token.NewLine, rest)
  {
    MarkToken(rest);
    LineEndSplits(rest);
  }

  lemma LineEndSplits(rest: string)
    ensures "\r\n" + rest == ['\r'] + (['\n'] + rest)
  {
    Joined(['\r'], ['\n'], rest);
    assert "\r\n" == ['\r'] + ['\n'];
  }

  lemma GroupPullLine(l: Line, rest: string)
    ensures LineText(l) + rest
         == Spell(l.verb) + ([' '] + (Spell(l.path) + ([' '] + (Spell(l.version) + (['\r'] + (['\n'] + rest))))))
  {
    GroupLine(Spell(l.verb), Spell(l.path), Spell(l.version), rest);
  }

  lemma VersionIsRead(r: Request, l: Line, rest: string)
    requires LineOk(l)
    ensures ReadVersion(r, [' '] + (Spell(l.version) + (['\r'] + (['\n'] + rest))))
         == Parsed(r.(version := HTTP_1_1), rest, Ok)
  {
    MarkToken(Spell(l.version) + (['\r'] + (['\n'] + rest)));
    WordToken(l.version, '\r', ['\n'] + rest);
    MarkToken(rest);
  }

  lemma PathIsRead(r: Request, l: Line, rest: string)
    requires LineOk(l)
    ensures CleanPath(l.path.text).Some?
    ensures ReadPath(r, [' '] + (Spell(l.path) + ([' '] + rest)))
         == ReadVersion(r.(path := CleanPath(l.path.text).value), [' '] + rest)
  {
    CleanPathMeaning(l.path.text);
    MarkToken(Spell(l.path) + ([' '] + rest));
    WordToken(l.path, ' ', rest);
  }

  lemma PullLineIsRead(r: Request, l: Line, rest: string)
    requires LineOk(l)
    ensures ReadStartLine(r, LineText(l) + rest) == Parsed(WithPullLine(r, l), rest, Ok)
  {
    var afterPath := Spell(l.version) + (['\r'] + (['\n'] + rest));
    var verb := if l.verb.text == "GET" then GET else POST;
    GroupPullLine(l, rest);
    WordToken(l.verb, ' ', Spell(l.path) + ([' '] + afterPath));
    PathIsRead(r.(verb := verb), l, afterPath);
    VersionIsRead(r.(verb := verb, path := CleanPath(l.path.text).value), l, rest);
  }

  lemma {:induction false} BlanksAreSkipped(blanks: string, u: string)
    requires AllBlanks(blanks) && (u != "" ==> u[0] != ' ')
    ensures SkipBlanks(blanks + u) == u
  {
    if blanks == "" {
      Empty2(u);
    } else {
      assert (blanks + u)[1..] == blanks[1..] + u;
      BlanksAreSkipped(blanks[1..], u);
    }
  }

  lemma ValueIsRead(f: HeaderField, rest: string)
    requires FieldOk(f)
    ensures ReadString(f.blanks + (Spell(f.value) + (['\r'] + rest))) == (Str(f.value.text), ['\r'] + rest)
  {
    var u := Spell(f.value) + (['\r'] + rest);
    assert u[0] == if f.value.text == "" then '\0' else f.value.text[0];
    BlanksAreSkipped(f.blanks, u);
    WordIsRead(f.value, '\r', rest, STRING_DELIMITERS);
    assert '\r' in STRING_DELIMITERS;
  }

  lemma GroupField(f: HeaderField, rest: string)
    ensures FieldText(f) + rest
         == Spell(f.key) + ([':'] + ([' '] + (f.blanks + (Spell(f.value) + (['\r'] + (['\n'] + rest))))))
  {
    GroupBlanks(Spell(f.key), f.blanks, Spell(f.value), rest);
  }

  lemma GroupBlanks(key: string, blanks: string, value: string, rest: string)
    ensures key + ": " + blanks + value + "\r\n" + rest
         == key + ([':'] + ([' '] + (blanks + (value + (['\r'] + (['\n'] + rest))))))
  {
  }

  lemma FieldIsRead(r: Request, f: HeaderField, rest: string)
    requires FieldOk(f) && StoreHeader(r, f.key.text, f.value.text).Some?
    ensures ReadHeader(r, FieldText(f) + rest) == Parsed(StoreHeader(r, f.key.text, f.value.text).value, rest, Ok)
  {
    var value := f.blanks + (Spell(f.value) + (['\r'] + (['\n'] + rest)));
    GroupField(f, rest);
    WordToken(f.key, ':', [' '] + value);
    MarkToken([' '] + value);
    MarkToken(value);
    ValueIsRead(f, ['\n'] + rest);
    MarkToken(rest);
  }

  lemma {:induction false} FieldsAreRead(r: Request, fs: seq<HeaderField>, rest: string)
    requires FieldsOk(fs) && StoreFields(r, fs).Some?
    ensures ReadHeaders(r, FieldsText(fs) + ("\r\n" + rest)) == Parsed(StoreFields(r, fs).value, rest, NotMatch)
    decreases |fs|
  {
    var tail := "\r\n" + rest;
    if fs == [] {
      Empty2(tail);
      LineToken(rest);
    } else {
      var others := FieldsText(fs[1..]) + tail;
      var q := StoreHeader(r, fs[0].key.text, fs[0].value.text).value;
      Joined(FieldText(fs[0]), FieldsText(fs[1..]), tail);
      FieldIsRead(r, fs[0], others);
      HeaderLeavesRest(r, FieldText(fs[0]) + others);
      FieldsAreRead(q, fs[1..], rest);
    }
  }

  lemma GroupSentence(m: Sentence, rest: string)
    ensures SentenceText(m) + rest == LineText(m.line) + (FieldsText(m.fields) + ("\r\n" + (m.body + rest)))
  {
  }

  /** A sentence, followed by anything, is accepted with its meaning; the rest stays unread. */
  lemma SentenceIsRead(r: Request, m: Sentence, rest: string)
    requires IsSentence(r, m)
    ensures ReadHead(r, SentenceText(m) + rest)
         == Parsed(StoreFields(WithPullLine(r, m.line), m.fields).value, m.body + rest, NotMatch)
    ensures ReadRequest(r, SentenceText(m) + rest) == (PullMeaning(r, m), rest, Code(0))
  {
    var r1 := WithPullLine(r, m.line);
    var q := StoreFields(r1, m.fields).value;
    GroupSentence(m, rest);
    PullLineIsRead(r, m.line, FieldsText(m.fields) + ("\r\n" + (m.body + rest)));
    FieldsAreRead(r1, m.fields, m.body + rest);
    BodyIsRead(q, m.body, rest);
  }

  lemma BodyIsRead(q: Request, body: string, rest: string)
    requires BodyFits(q, body)
    ensures ReadBody(q, body + rest) == (if q.contentLength > 0 then q.(body := body) else q, rest, Code(0))
  {
    Empty2(rest);
    assert (body + rest)[..|body|] == body && (body + rest)[|body|..] == rest;
  }

  // ---------------------------------------------------------------------
  // What is accepted is a sentence
  // ---------------------------------------------------------------------

  /** How a word was written. */
  lemma {:induction false} WordSplits(u: string, delimiters: string) returns (w: Spelling)
    ensures w.text == Word(u, delimiters).0 && u == Spell(w) + Word(u, delimiters).1
    ensures AllOrdinary(w.text, delimiters) && StopOk(w.stop)
    ensures w.stop == "" && Word(u, delimiters).1 != "" ==> Word(u, delimiters).1[0] in delimiters
    ensures w.text == "" && w.stop != "" ==> w.stop == u[..1]
  {
    if u == "" {
      w := Spelling("", "");
    } else if LooksLikeEnd(u[0]) || u[0] == '\0' {
      w := Spelling("", u[..1]);
    } else if u[0] in delimiters {
      w := Spelling("", "");
    } else {
      var v := WordSplits(u[1..], delimiters);
      w := Spelling([u[0]] + v.text, v.stop);
      assert u == [u[0]] + u[1..];
      Joined([u[0]], v.text, v.stop);
      Joined([u[0]], Spell(v), Word(u[1..], delimiters).1);
    }
  }

  lemma MarkSplits(u: string)
    ensures ReadToken(u).0 == Token.Space ==> u == " " + ReadToken(u).1
    ensures ReadToken(u).0 == Token.Colon ==> u == ":" + ReadToken(u).1
    ensures ReadToken(u).0 == Token.NewLine ==> u == "\r\n" + ReadToken(u).1
  {
    if u != "" {
      assert u == [u[0]] + u[1..];
      if u[0] == '\r' && u[1..] != "" {
        assert u[1..] == [u[1]] + u[1..][1..];
      }
    }
  }

  /** A line feed is a word to the parser, and an empty one. */
  predicate AtLineFeed(u: string) {
    u != "" && u[0] == '\n'
  }

  lemma LineFeedIsNoMark(u: string)
    requires AtLineFeed(u)
    ensures ReadToken(u).0 == Str("")
  {
    assert '\n' in TOKEN_DELIMITERS;
  }

  lemma TokenSplits(u: string) returns (w: Spelling)
    requires ReadToken(u).0.Str?
    ensures w.text == ReadToken(u).0.value && u == Spell(w) + ReadToken(u).1
    ensures SpellingOk(w, TOKEN_DELIMITERS) || AtLineFeed(ReadToken(u).1)
  {
    w := WordSplits(u, TOKEN_DELIMITERS);
    if w.text == "" {
      assert w.stop == "" ==> Spell(w) + ReadToken(u).1 == ReadToken(u).1;
    }
  }

  lemma VersionSplits(r: Request, u: string) returns (w: Spelling)
    requires ReadVersion(r, u).status == Ok
    ensures SpellingOk(w, TOKEN_DELIMITERS) && w.text == VERSION_TEXT
    ensures var p := ReadVersion(r, u);
            u == " " + Spell(w) + "\r\n" + p.rest && p.request == r.(version := HTTP_1_1)
  {
    var v := ReadToken(u).1;
    MarkSplits(u);
    w := TokenSplits(v);
    var v1 := ReadToken(v).1;
    MarkSplits(v1);
    if AtLineFeed(v1) { LineFeedIsNoMark(v1); }
    GroupVersion(Spell(w), ReadToken(v1).1);
  }

  lemma GroupVersion(w: string, rest: string)
    ensures " " + (w + ("\r\n" + rest)) == " " + w + "\r\n" + rest
  {
  }

  lemma PathSplits(r: Request, u: string) returns (path: Spelling, version: Spelling)
    requires ReadPath(r, u).status == Ok
    ensures SpellingOk(path, TOKEN_DELIMITERS) && CleanPath(path.text).Some?
    ensures SpellingOk(version, TOKEN_DELIMITERS) && version.text == VERSION_TEXT
    ensures var p := ReadPath(r, u);
            && u == " " + Spell(path) + " " + Spell(version) + "\r\n" + p.rest
            && p.request == r.(path := CleanPath(path.text).value, version := HTTP_1_1)
  {
    var v := ReadToken(u).1;
    MarkSplits(u);
    path := TokenSplits(v);
    var v1 := ReadToken(v).1;
    if AtLineFeed(v1) { LineFeedIsNoMark(v1); }
    version := VersionSplits(r.(path := CleanPath(path.text).value), v1);
    GroupPath(Spell(path), Spell(version), ReadPath(r, u).rest);
  }

  lemma GroupPath(path: string, version: string, rest: string)
    ensures " " + (path + (" " + version + "\r\n" + rest)) == " " + path + " " + version + "\r\n" + rest
  {
  }

  lemma LineSplits(r: Request, u: string) returns (l: Line)
    requires ReadStartLine(r, u).status == Ok
    ensures LineOk(l)
    ensures var p := ReadStartLine(r, u); u == LineText(l) + p.rest && p.request == WithPullLine(r, l)
  {
    var (t, v) := ReadToken(u);
    var verb := TokenSplits(u);
    var q := r.(verb := if t == Str("GET") then GET else POST);
    if AtLineFeed(v) { LineFeedIsNoMark(v); }
    var path, version := PathSplits(q, v);
    l := Line(verb, path, version);
    CleanPathMeaning(path.text);
    GroupVerb(Spell(verb), Spell(path), Spell(version), ReadStartLine(r, u).rest);
  }

  lemma GroupVerb(verb: string, path: string, version: string, rest: string)
    ensures verb + (" " + path + " " + version + "\r\n" + rest) == (verb + " " + path + " " + version + "\r\n") + rest
  {
  }

  lemma {:induction false} BlanksSplit(u: string) returns (blanks: string)
    ensures AllBlanks(blanks) && u == blanks + SkipBlanks(u)
    ensures SkipBlanks(u) != "" ==> SkipBlanks(u)[0] != ' '
  {
    if u != "" && u[0] == ' ' {
      var more := BlanksSplit(u[1..]);
      blanks := [u[0]] + more;
      assert u == [u[0]] + u[1..];
      Joined([u[0]], more, SkipBlanks(u[1..]));
    } else {
      blanks := "";
      Empty2(u);
    }
  }

  lemma StringSplits(u: string) returns (blanks: string, w: Spelling)
    requires ReadString(u).0.Str?
    ensures w.text == ReadString(u).0.value && u == blanks + (Spell(w) + ReadString(u).1) && AllBlanks(blanks)
    ensures (SpellingOk(w, STRING_DELIMITERS) && !BeginsBlank(w.text)) || AtLineFeed(ReadString(u).1)
  {
    blanks := BlanksSplit(u);
    var v := SkipBlanks(u);
    w := WordSplits(v, STRING_DELIMITERS);
    if w.text == "" {
      assert w.stop == "" ==> Spell(w) + ReadString(u).1 == ReadString(u).1;
    } else {
      assert v[0] == w.text[0];
    }
  }

  lemma ValueSplits(r: Request, key: string, u: string) returns (blanks: string, w: Spelling)
    requires ReadValue(r, key, u).status == Ok
    ensures AllBlanks(blanks) && SpellingOk(w, STRING_DELIMITERS) && !BeginsBlank(w.text)
    ensures var p := ReadValue(r, key, u);
            u == blanks + (Spell(w) + ("\r\n" + p.rest)) && StoreHeader(r, key, w.text) == Some(p.request)
  {
    blanks, w := StringSplits(u);
    var v := ReadString(u).1;
    if AtLineFeed(v) { LineFeedIsNoMark(v); }
    MarkSplits(v);
  }

  lemma FieldSplits(r: Request, u: string) returns (f: HeaderField)
    requires ReadHeader(r, u).status == Ok
    ensures FieldOk(f)
    ensures var p := ReadHeader(r, u);
            u == FieldText(f) + p.rest && StoreHeader(r, f.key.text, f.value.text) == Some(p.request)
  {
    var v := ReadToken(u).1;
    var key := TokenSplits(u);
    if AtLineFeed(v) { LineFeedIsNoMark(v); }
    MarkSplits(v);
    var v1 := ReadToken(v).1;
    MarkSplits(v1);
    var v2 := ReadToken(v1).1;
    var blanks, value := ValueSplits(r, key.text, v2);
    f := HeaderField(key, blanks, value);
    GroupKey(Spell(key), blanks, Spell(value), ReadHeader(r, u).rest);
  }

  lemma GroupKey(key: string, blanks: string, value: string, rest: string)
    ensures key + (":" + (" " + (blanks + (value + ("\r\n" + rest))))) == (key + ": " + blanks + value + "\r\n") + rest
  {
  }

  lemma {:induction false} HeadersSplit(r: Request, u: string) returns (fs: seq<HeaderField>)
    requires ReadHeaders(r, u).status == NotMatch
    ensures FieldsOk(fs)
    ensures var p := ReadHeaders(r, u);
            u == FieldsText(fs) + ("\r\n" + p.rest) && StoreFields(r, fs) == Some(p.request)
    decreases |u|
  {
    var p := ReadHeader(r, u);
    HeaderLeavesRest(r, u);
    if p.status == Ok {
      var f := FieldSplits(r, u);
      var others := HeadersSplit(p.request, p.rest);
      fs := [f] + others;
      assert fs[1..] == others;
      Joined(FieldText(f), FieldsText(others), "\r\n" + ReadHeaders(r, u).rest);
    } else {
      fs := [];
      NoMatchSplits(r, u);
      Empty2(u);
    }
  }

  lemma NoMatchSplits(r: Request, u: string)
    requires ReadHeader(r, u).status == NotMatch
    ensures u == "\r\n" + ReadHeader(r, u).rest && ReadHeader(r, u).request == r
  {
    var (t, v) := ReadToken(u);
    MarkSplits(u);
    if t.Str? { FieldIsMatch(r, t.value, v); }
  }

  lemma FieldIsMatch(r: Request, key: string, u: string)
    ensures ReadField(r, key, u).status != NotMatch
  {
  }

  lemma BodySplits(q: Request, u: string) returns (body: string)
    requires ReadBody(q, u).2 == Code(0)
    ensures BodyFits(q, body) && u == body + ReadBody(q, u).1
  {
    if q.contentLength <= 0 {
      body := "";
      Empty2(u);
    } else {
      body := u[..q.contentLength];
    }
  }

  lemma AcceptedHead(r: Request, u: string)
    requires ReadRequest(r, u).2 == Code(0)
    ensures var line := ReadStartLine(r, u);
            var head := ReadHeaders(line.request, line.rest);
            line.status == Ok && head.status == NotMatch && ReadBody(head.request, head.rest).2 == Code(0)
  {
    LineIsNoMatch(r, u);
  }

  /** The sentence that an accepted text begins with. */
  lemma AcceptedIsSentence(r: Request, u: string) returns (m: Sentence)
    requires ReadRequest(r, u).2 == Code(0)
    ensures IsSentence(r, m) && u == SentenceText(m) + ReadRequest(r, u).1
  {
    var line := ReadStartLine(r, u);
    var head := ReadHeaders(line.request, line.rest);
    AcceptedHead(r, u);
    var l := LineSplits(r, u);
    var fs := HeadersSplit(line.request, line.rest);
    var body := BodySplits(head.request, head.rest);
    m := Sentence(l, fs, body);
    GroupSentence(m, ReadBody(head.request, head.rest).1);
  }

  // ---------------------------------------------------------------------
  // The language
  // ---------------------------------------------------------------------

  ghost predicate BeginsWithSentence(r: Request, u: string) {
    exists m :: IsSentence(r, m) && SentenceText(m) <= u
  }

  /** On any bytes, the pull-driven parser returns 0 exactly if they begin with a sentence. */
  lemma PullLanguage(r: Request, u: string)
    ensures ReadRequest(r, u).2 == Code(0) <==> BeginsWithSentence(r, u)
  {
    if ReadRequest(r, u).2 == Code(0) {
      var m := AcceptedIsSentence(r, u);
      assert SentenceText(m) <= u;
    }
    if m :| IsSentence(r, m) && SentenceText(m) <= u {
      BeginningIsAccepted(r, m, u);
    }
  }

  lemma BeginningIsAccepted(r: Request, m: Sentence, u: string)
    requires IsSentence(r, m) && SentenceText(m) <= u
    ensures ReadRequest(r, u) == (PullMeaning(r, m), u[|SentenceText(m)|..], Code(0))
  {
    var n := |SentenceText(m)|;
    assert u == SentenceText(m) + u[n..];
    SentenceIsRead(r, m, u[n..]);
  }

  /** No text begins with two sentences of different meaning or length. */
  lemma SentencesAreUnique(r: Request, a: Sentence, b: Sentence, u: string)
    requires IsSentence(r, a) && IsSentence(r, b) && SentenceText(a) <= u && SentenceText(b) <= u
    ensures SentenceText(a) == SentenceText(b) && PullMeaning(r, a) == PullMeaning(r, b)
  {
    BeginningIsAccepted(r, a, u);
    BeginningIsAccepted(r, b, u);
    assert |u[|SentenceText(a)|..]| == |u| - |SentenceText(a)| && |u[|SentenceText(b)|..]| == |u| - |SentenceText(b)|;
  }

  /** A sentence with nothing behind it is read so from any stream, however that splits the bytes
      and ends. */
  lemma SentenceFromStream(r: Request, m: Sentence, limits: seq<nat>, clean: bool)
    requires IsSentence(r, m) && Positive(limits)
    ensures RequestFrom(r, FreshReader(SentenceText(m), limits, clean)) == (PullMeaning(r, m), "", Code(0))
  {
    SentenceIsRead(r, m, "");
    assert SentenceText(m) + "" == SentenceText(m) && m.body + "" == m.body;
    ParseIsExact(r, SentenceText(m), limits, clean);
  }
}
