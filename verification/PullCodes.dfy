/** The result of the pull-driven parser on any bytes: which of its codes, an exception or an
    operation on an empty string, by what the bytes begin with. */
module PullCodes {
  import opened Http
  import opened AsyncParser
  import opened SyncParser
  import opened BodyReading
  import opened ParserAgreement
  import opened PullGrammar

  /** A word, however it ends: `rest` is what is read next. */
  predicate WordEnds(w: Spelling, rest: string, delimiters: string) {
    && AllOrdinary(w.text, delimiters) && StopOk(w.stop)
    && (w.stop == "" && rest != "" ==> rest[0] in delimiters)
  }

  /** It is no mark: only NUL and a line feed make an empty word. */
  predicate IsWord(w: Spelling, rest: string) {
    WordEnds(w, rest, TOKEN_DELIMITERS) && (w.text == "" ==> w.stop == "\0" || (w.stop == "" && AtLineFeed(rest)))
  }

  lemma {:induction false} EndedWord(w: Spelling, rest: string, delimiters: string)
    requires WordEnds(w, rest, delimiters)
    ensures Word(Spell(w) + rest, delimiters).0 == w.text
    ensures w.stop != "" ==> Word(Spell(w) + rest, delimiters).1 == rest
    ensures w.stop == "" && (rest == "" || (rest[0] != '\0' && !LooksLikeEnd(rest[0]))) ==>
              Word(Spell(w) + rest, delimiters).1 == rest
    decreases |w.text|
  {
    var u := Spell(w) + rest;
    if w.text == "" {
      assert Spell(w) == w.stop;
      if w.stop != "" {
        assert w.stop == [w.stop[0]];
        assert u[0] == w.stop[0] && u[1..] == rest;
      } else {
        assert u == rest;
      }
    } else {
      var v := Spelling(w.text[1..], w.stop);
      assert u[0] == w.text[0] && u[1..] == Spell(v) + rest;
      EndedWord(v, rest, delimiters);
      assert w.text == [w.text[0]] + v.text;
    }
  }

  lemma DelimitersAreRead(c: char)
    requires c in TOKEN_DELIMITERS || c in STRING_DELIMITERS
    ensures c != '\0' && !LooksLikeEnd(c)
  {
  }

  lemma IsWordToken(w: Spelling, rest: string)
    requires IsWord(w, rest)
    ensures ReadToken(Spell(w) + rest) == (Str(w.text), rest)
  {
    var u := Spell(w) + rest;
    if w.stop == "" && rest != "" { DelimitersAreRead(rest[0]); }
    EndedWord(w, rest, TOKEN_DELIMITERS);
    assert ' ' in TOKEN_DELIMITERS && ':' in TOKEN_DELIMITERS && '\r' in TOKEN_DELIMITERS;
    assert u != "" && u[0] == if w.text != "" then w.text[0] else if w.stop != "" then '\0' else '\n';
  }

  lemma TokenIsWord(u: string) returns (w: Spelling)
    requires ReadToken(u).0.Str?
    ensures w.text == ReadToken(u).0.value && u == Spell(w) + ReadToken(u).1 && IsWord(w, ReadToken(u).1)
  {
    w := WordSplits(u, TOKEN_DELIMITERS);
    if w.text == "" {
      assert w.stop == "" ==> Spell(w) + ReadToken(u).1 == ReadToken(u).1;
    }
  }

  // ---------------------------------------------------------------------
  // The request line
  // ---------------------------------------------------------------------

  ghost predicate BeginsWithLine(u: string) {
    exists l, rest :: LineOk(l) && u == LineText(l) + rest
  }

  /** GET or POST, a blank, and a path without anything but slashes. */
  predicate IsSlashPath(u: string, verb: Spelling, path: Spelling, rest: string) {
    && SpellingOk(verb, TOKEN_DELIMITERS) && (verb.text == "GET" || verb.text == "POST")
    && IsWord(path, rest) && AllSlashes(path.text) && u == Spell(verb) + (" " + (Spell(path) + rest))
  }

  ghost predicate BeginsWithSlashes(u: string) {
    exists verb, path, rest :: IsSlashPath(u, verb, path, rest)
  }

  lemma SlashesAreUndefined(r: Request, u: string, verb: Spelling, path: Spelling, rest: string)
    requires IsSlashPath(u, verb, path, rest)
    ensures ReadStartLine(r, u).status == Undefined
  {
    var v := Spell(path) + rest;
    assert " " + v == [' '] + v;
    WordToken(verb, ' ', v);
    MarkToken(v);
    IsWordToken(path, rest);
    CleanPathMeaning(path.text);
  }

  lemma UndefinedIsSlashes(r: Request, u: string)
    requires ReadStartLine(r, u).status == Undefined
    ensures BeginsWithSlashes(u)
  {
    var (t, v) := ReadToken(u);
    var verb := TokenSplits(u);
    var q := r.(verb := if t == Str("GET") then GET else POST);
    VersionIsDefined(q, v);
    if AtLineFeed(v) { LineFeedIsNoMark(v); }
    MarkSplits(v);
    var v1 := ReadToken(v).1;
    var path := TokenIsWord(v1);
    CleanPathMeaning(path.text);
    assert IsSlashPath(u, verb, path, ReadToken(v1).1);
  }

  lemma VersionIsDefined(r: Request, u: string)
    ensures ReadPath(r, u).status == Undefined ==>
              && ReadToken(u).0 == Token.Space && ReadToken(ReadToken(u).1).0.Str?
              && CleanPath(ReadToken(ReadToken(u).1).0.value).None?
  {
  }

  lemma LineCodes(r: Request, u: string)
    ensures ReadStartLine(r, u).status == Ok <==> BeginsWithLine(u)
    ensures ReadStartLine(r, u).status == Undefined <==> BeginsWithSlashes(u)
    ensures ReadStartLine(r, u).status in {Ok, Undefined, Failed}
  {
    LineIsNoMatch(r, u);
    if ReadStartLine(r, u).status == Ok { var l := LineSplits(r, u); }
    if l, rest :| LineOk(l) && u == LineText(l) + rest { PullLineIsRead(r, l, rest); }
    if ReadStartLine(r, u).status == Undefined { UndefinedIsSlashes(r, u); }
    if verb, path, rest :| IsSlashPath(u, verb, path, rest) { SlashesAreUndefined(r, u, verb, path, rest); }
  }

  // ---------------------------------------------------------------------
  // The headers
  // ---------------------------------------------------------------------

  /** A whole head, with the request it leaves and what follows. */
  predicate IsHead(r: Request, u: string, l: Line, fs: seq<HeaderField>, q: Request, rest: string) {
    && LineOk(l) && FieldsOk(fs) && StoreFields(WithPullLine(r, l), fs) == Some(q)
    && u == LineText(l) + (FieldsText(fs) + ("\r\n" + rest))
  }

  /** A header up to the value that `stoi` does not take. */
  predicate IsBadField(q: Request, v: string, f: HeaderField, rest: string) {
    && SpellingOk(f.key, TOKEN_DELIMITERS) && AllBlanks(f.blanks) && !BeginsBlank(f.value.text)
    && WordEnds(f.value, rest, STRING_DELIMITERS)
    && (f.value.text == "" ==> f.value.stop == "\0" || (f.value.stop == "" && AtLineFeed(rest)))
    && StoreHeader(q, f.key.text, f.value.text).None?
    && v == Spell(f.key) + (": " + (f.blanks + (Spell(f.value) + rest)))
  }

  /** The first headers, and then a bad one. */
  ghost predicate IsBadHead(r: Request, u: string, l: Line, fs: seq<HeaderField>, q: Request,
                            f: HeaderField, rest: string)
  {
    && LineOk(l) && FieldsOk(fs) && StoreFields(WithPullLine(r, l), fs) == Some(q)
    && exists v :: u == LineText(l) + (FieldsText(fs) + v) && IsBadField(q, v, f, rest)
  }

  ghost predicate BeginsWithBadField(r: Request, u: string) {
    exists l, fs, q, f, rest :: IsBadHead(r, u, l, fs, q, f, rest)
  }

  lemma ColonBlank(v: string)
    ensures ": " + v == [':'] + ([' '] + v)
  {
  }

  lemma BadFieldThrows(q: Request, v: string, f: HeaderField, rest: string)
    requires IsBadField(q, v, f, rest)
    ensures ReadHeader(q, v).status == Status.Threw
  {
    var value := Spell(f.value) + rest;
    ColonBlank(f.blanks + value);
    WordToken(f.key, ':', [' '] + (f.blanks + value));
    MarkToken([' '] + (f.blanks + value));
    MarkToken(f.blanks + value);
    BadValueString(f, rest);
  }

  lemma BadValueString(f: HeaderField, rest: string)
    requires AllBlanks(f.blanks) && !BeginsBlank(f.value.text) && WordEnds(f.value, rest, STRING_DELIMITERS)
    requires f.value.text == "" ==> f.value.stop == "\0" || (f.value.stop == "" && AtLineFeed(rest))
    ensures ReadString(f.blanks + (Spell(f.value) + rest)).0 == Str(f.value.text)
  {
    var w := f.value;
    var u := Spell(w) + rest;
    assert u != "" && u[0] == if w.text != "" then w.text[0] else if w.stop != "" then '\0' else '\n';
    assert '\r' in STRING_DELIMITERS;
    BlanksAreSkipped(f.blanks, u);
    EndedWord(w, rest, STRING_DELIMITERS);
  }

  lemma ThrowIsBadField(q: Request, v: string) returns (f: HeaderField, rest: string)
    requires ReadHeader(q, v).status == Status.Threw
    ensures IsBadField(q, v, f, rest)
  {
    var v1 := ReadToken(v).1;
    var key := TokenSplits(v);
    if AtLineFeed(v1) { LineFeedIsNoMark(v1); }
    MarkSplits(v1);
    var v2 := ReadToken(v1).1;
    MarkSplits(v2);
    var v3 := ReadToken(v2).1;
    var blanks, value := BadValueSplits(v3);
    rest := ReadString(v3).1;
    f := HeaderField(key, blanks, value);
    assert ":" + (" " + v3) == ": " + v3;
  }

  lemma BadValueSplits(u: string) returns (blanks: string, w: Spelling)
    requires ReadString(u).0.Str?
    ensures w.text == ReadString(u).0.value && u == blanks + (Spell(w) + ReadString(u).1) && AllBlanks(blanks)
    ensures WordEnds(w, ReadString(u).1, STRING_DELIMITERS) && !BeginsBlank(w.text)
    ensures w.text == "" ==> w.stop == "\0" || (w.stop == "" && AtLineFeed(ReadString(u).1))
  {
    blanks := BlanksSplit(u);
    var v := SkipBlanks(u);
    w := WordSplits(v, STRING_DELIMITERS);
    if w.text == "" {
      assert w.stop == "" ==> Spell(w) + ReadString(u).1 == ReadString(u).1;
    } else {
      assert v[0] == w.text[0];
    }
  }

  /** Headers that are taken are stored, and the loop goes on. */
  lemma {:induction false} FieldsGoOn(r: Request, fs: seq<HeaderField>, tail: string)
    requires FieldsOk(fs) && StoreFields(r, fs).Some?
    ensures ReadHeaders(r, FieldsText(fs) + tail) == ReadHeaders(StoreFields(r, fs).value, tail)
    decreases |fs|
  {
    if fs == [] {
      Empty2(tail);
    } else {
      var others := FieldsText(fs[1..]) + tail;
      Joined(FieldText(fs[0]), FieldsText(fs[1..]), tail);
      FieldIsRead(r, fs[0], others);
      HeaderLeavesRest(r, FieldText(fs[0]) + others);
      FieldsGoOn(StoreHeader(r, fs[0].key.text, fs[0].value.text).value, fs[1..], tail);
    }
  }

  lemma {:induction false} ThrowSplits(r: Request, u: string) returns (fs: seq<HeaderField>, q: Request, v: string)
    requires ReadHeaders(r, u).status == Status.Threw
    ensures FieldsOk(fs) && StoreFields(r, fs) == Some(q) && u == FieldsText(fs) + v
    ensures ReadHeader(q, v).status == Status.Threw
    decreases |u|
  {
    var p := ReadHeader(r, u);
    HeaderLeavesRest(r, u);
    if p.status == Ok {
      var f := FieldSplits(r, u);
      var others: seq<HeaderField>;
      others, q, v := ThrowSplits(p.request, p.rest);
      fs := [f] + others;
      assert fs[1..] == others;
      Joined(FieldText(f), FieldsText(others), v);
    } else {
      fs, q, v := [], r, u;
      Empty2(u);
    }
  }

  lemma HeadIsHead(r: Request, u: string, l: Line, fs: seq<HeaderField>, q: Request, rest: string)
    requires IsHead(r, u, l, fs, q, rest)
    ensures ReadStartLine(r, u).status == Ok && ReadHead(r, u) == Parsed(q, rest, NotMatch)
  {
    PullLineIsRead(r, l, FieldsText(fs) + ("\r\n" + rest));
    FieldsAreRead(WithPullLine(r, l), fs, rest);
  }

  lemma HeadSplits(r: Request, u: string) returns (l: Line, fs: seq<HeaderField>)
    requires ReadHead(r, u).status == NotMatch
    ensures IsHead(r, u, l, fs, ReadHead(r, u).request, ReadHead(r, u).rest)
  {
    LineIsNoMatch(r, u);
    var line := ReadStartLine(r, u);
    l := LineSplits(r, u);
    fs := HeadersSplit(line.request, line.rest);
  }

  lemma BadHeadThrows(r: Request, u: string, l: Line, fs: seq<HeaderField>, q: Request, f: HeaderField, rest: string)
    requires IsBadHead(r, u, l, fs, q, f, rest)
    ensures ReadHead(r, u).status == Status.Threw
  {
    var v :| u == LineText(l) + (FieldsText(fs) + v) && IsBadField(q, v, f, rest);
    PullLineIsRead(r, l, FieldsText(fs) + v);
    FieldsGoOn(WithPullLine(r, l), fs, v);
    BadFieldThrows(q, v, f, rest);
    HeaderLeavesRest(q, v);
  }

  lemma ThrowIsBadHead(r: Request, u: string)
    requires ReadHead(r, u).status == Status.Threw
    ensures BeginsWithBadField(r, u)
  {
    LineIsNoMatch(r, u);
    var line := ReadStartLine(r, u);
    var l := LineSplits(r, u);
    var fs, q, v := ThrowSplits(line.request, line.rest);
    var f, rest := ThrowIsBadField(q, v);
    assert IsBadHead(r, u, l, fs, q, f, rest);
  }

  // ---------------------------------------------------------------------
  // The codes
  // ---------------------------------------------------------------------

  /** A head that states more than 4096 bytes. */
  ghost predicate StatesTooMuch(r: Request, u: string) {
    exists l, fs, q, rest :: IsHead(r, u, l, fs, q, rest) && q.contentLength > 4096
  }

  /** A head with fewer bytes behind it than it states. */
  ghost predicate StatesMoreThanFollows(r: Request, u: string) {
    exists l, fs, q, rest :: IsHead(r, u, l, fs, q, rest) && |rest| < q.contentLength <= 4096
  }

  ghost predicate BeginsWithHead(r: Request, u: string) {
    exists l, fs, q, rest :: IsHead(r, u, l, fs, q, rest)
  }

  lemma HeadCodes(r: Request, u: string)
    ensures ReadHead(r, u).status == NotMatch <==> BeginsWithHead(r, u)
    ensures ReadHead(r, u).status == Status.Threw <==> BeginsWithBadField(r, u)
  {
    if ReadHead(r, u).status == NotMatch { var l, fs := HeadSplits(r, u); }
    if l, fs, q, rest :| IsHead(r, u, l, fs, q, rest) { HeadIsHead(r, u, l, fs, q, rest); }
    if ReadHead(r, u).status == Status.Threw { ThrowIsBadHead(r, u); }
    if l, fs, q, f, rest :| IsBadHead(r, u, l, fs, q, f, rest) { BadHeadThrows(r, u, l, fs, q, f, rest); }
  }

  lemma BodyCodes(r: Request, u: string)
    ensures StatesTooMuch(r, u) <==> ReadHead(r, u).status == NotMatch && ReadHead(r, u).request.contentLength > 4096
    ensures StatesMoreThanFollows(r, u) <==>
              && ReadHead(r, u).status == NotMatch
              && |ReadHead(r, u).rest| < ReadHead(r, u).request.contentLength <= 4096
  {
    if ReadHead(r, u).status == NotMatch { var l, fs := HeadSplits(r, u); }
    if l, fs, q, rest :| IsHead(r, u, l, fs, q, rest) && q.contentLength > 4096 { HeadIsHead(r, u, l, fs, q, rest); }
    if l, fs, q, rest :| IsHead(r, u, l, fs, q, rest) && |rest| < q.contentLength <= 4096 {
      HeadIsHead(r, u, l, fs, q, rest);
    }
  }

  /** The result on any bytes. No line: 2, or an operation on an empty string if there is no path
      to clean. A line, but no head: an exception if `stoi` meets a value it does not take, or else 3.
      A head that states more than 4096 bytes: 4. Fewer bytes behind it than stated: 5. Otherwise 0. */
  lemma ResultCodes(r: Request, u: string)
    ensures var result := ReadRequest(r, u).2;
            && (result == Crash <==> BeginsWithSlashes(u))
            && (result == Code(2) <==> !BeginsWithLine(u) && !BeginsWithSlashes(u))
            && (result == Exception <==> BeginsWithBadField(r, u))
            && (result == Code(3) <==> BeginsWithLine(u) && !BeginsWithHead(r, u) && !BeginsWithBadField(r, u))
            && (result == Code(4) <==> StatesTooMuch(r, u))
            && (result == Code(5) <==> StatesMoreThanFollows(r, u))
            && (result == Code(0) <==> BeginsWithSentence(r, u))
            && result in {Code(0), Code(2), Code(3), Code(4), Code(5), Exception, Crash}
  {
    LineCodes(r, u);
    HeadCodes(r, u);
    BodyCodes(r, u);
    PullLanguage(r, u);
    CodeOfHead(r, u);
  }

  lemma CodeOfHead(r: Request, u: string)
    ensures var line, head, result := ReadStartLine(r, u), ReadHead(r, u), ReadRequest(r, u).2;
            if line.status == Undefined then result == Crash && head.status == Undefined
            else if line.status != Ok then result == Code(2) && head.status == Failed
            else if head.status == Status.Threw then result == Exception
            else if head.status != NotMatch then result == Code(3)
            else if head.request.contentLength > 4096 then result == Code(4)
            else if |head.rest| < head.request.contentLength then result == Code(5)
            else result == Code(0)
  {
    LineIsNoMatch(r, u);
  }
}
