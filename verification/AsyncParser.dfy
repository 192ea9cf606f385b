/** `AsyncHttpRequestParser`: the push-driven parser as a function on its state, and the class
    with the source's fields and handlers, proved to compute that function. */
module AsyncParser {
  import opened Http

  /** The member function `_handler` points to. */
  datatype Handler =
    | Start | Method | Space1 | Path | Space2 | Version | NewLine | HeaderKey | Colon | Space3
    | HeaderValue | HeaderNewLine | EndLine | Body | Done | Error

  /** The code of a state in `enum class State`. */
  function StateCode(h: Handler): int {
    match h
    case Start => 10
    case Method => 11
    case Space1 => 12
    case Path => 13
    case Space2 => 14
    case Version => 15
    case NewLine => 16
    case HeaderKey => 17
    case Colon => 18
    case Space3 => 19
    case HeaderValue => 20
    case HeaderNewLine => 21
    case EndLine => 22
    case Body => 23
    case Done => 24
    case Error => 25
  }

  /** What `Feed` returns: 0, 1 or a state code; `Threw` is an exception leaving `stoi`. */
  datatype Outcome = Progress | Accepted | Rejected(code: int) | Threw

  datatype Parser = Parser(handler: Handler, token: string, key: string, request: Request, error: int)

  const VERSION_TEXT := "HTTP/1.1"

  /** `static_cast<size_t>` of an `int`. */
  function ToSize(n: int): int {
    if n >= 0 then n else n + 0x1_0000_0000_0000_0000
  }

  function NewParser(request: Request, error: int): Parser {
    Parser(Start, "", "", request.(contentLength := 0), error)
  }

  function Reject(p: Parser, state: Handler): (Parser, Outcome) {
    (p.(handler := Error, error := StateCode(state)), Rejected(StateCode(state)))
  }

  function Push(p: Parser, ch: char, next: Handler): (Parser, Outcome) {
    (p.(token := p.token + [ch], handler := next), Progress)
  }

  /** Where a header's value is stored; `None` when `stoi` throws. */
  function StoreHeader(r: Request, key: string, value: string): Option<Request> {
    if key == "Content-Length" then
      (match Stoi(value)
       case None => None
       case Some(n) => Some(r.(contentLength := n)))
    else if key == "Content-Type" then Some(r.(contentType := value))
    else if key == "Host" then Some(r.(host := value))
    else Some(r.(headers := r.headers[key := value]))
  }

  // One function for each handler that does more than wait for a fixed character.

  function ConsumeMethod(p: Parser, ch: char): (Parser, Outcome) {
    if IsAlpha(ch) then Push(p, ch, Method)
    else if ch == ' ' then
      var verb := MethodFromString(p.token);
      var q := p.(request := p.request.(verb := verb), token := "");
      if verb == INVALID then Reject(q, Method) else (q.(handler := Space1), Progress)
    else Reject(p, Method)
  }

  function ConsumePath(p: Parser, ch: char): (Parser, Outcome) {
    if ch == ' ' then (p.(request := p.request.(path := p.token), token := "", handler := Space2), Progress)
    else if IsPathChar(ch) then Push(p, ch, Path)
    else Reject(p, Path)
  }

  function ConsumeVersion(p: Parser, ch: char): (Parser, Outcome) {
    if 1 <= |p.token| < 8 && ch == VERSION_TEXT[|p.token|] then Push(p, ch, Version)
    else if |p.token| == 8 && ch == '\r' then
      (p.(request := p.request.(version := HTTP_1_1), token := "", handler := NewLine), Progress)
    else Reject(p, Version)
  }

  function ConsumeHeaderKey(p: Parser, ch: char): (Parser, Outcome) {
    if ch == '\r' then (p.(handler := EndLine), Progress)
    else if IsHeaderKeyChar(ch) then Push(p, ch, HeaderKey)
    else if ch == ':' then (p.(key := p.token, token := "", handler := Colon), Progress)
    else Reject(p, HeaderKey)
  }

  function ConsumeHeaderValue(p: Parser, ch: char): (Parser, Outcome) {
    if IsHeaderValueChar(ch) then Push(p, ch, HeaderValue)
    else if ch == '\r' then
      (match StoreHeader(p.request, p.key, p.token)
       case None => (p, Threw)
       case Some(r) => (p.(request := r, token := "", handler := HeaderNewLine), Progress))
    else Reject(p, HeaderValue)
  }

  function ConsumeEndLine(p: Parser, ch: char): (Parser, Outcome) {
    if ch == '\n' then
      if p.request.contentLength == 0 then (p.(handler := Done), Accepted)
      else (p.(handler := Body), Progress)
    else Reject(p, EndLine)
  }

  function ConsumeBody(p: Parser, ch: char): (Parser, Outcome) {
    if |p.request.body| < ToSize(p.request.contentLength) then
      var q := p.(request := p.request.(body := p.request.body + [ch]));
      if |q.request.body| == ToSize(q.request.contentLength) then (q.(handler := Done), Accepted)
      else (q, Progress)
    else Reject(p, Body)
  }

  /** One character, in the handler `_handler` points to. */
  function Consume(p: Parser, ch: char): (Parser, Outcome) {
    match p.handler
    case Start => if IsAlpha(ch) then Push(p, ch, Method) else Reject(p, Start)
    case Method => ConsumeMethod(p, ch)
    case Space1 => if ch == '/' then Push(p, ch, Path) else Reject(p, Space1)
    case Path => ConsumePath(p, ch)
    case Space2 => if ch == 'H' then Push(p, ch, Version) else Reject(p, Space2)
    case Version => ConsumeVersion(p, ch)
    case NewLine => if ch == '\n' then (p.(handler := HeaderKey), Progress) else Reject(p, NewLine)
    case HeaderKey => ConsumeHeaderKey(p, ch)
    case Colon => if ch == ' ' then (p.(handler := Space3), Progress) else Reject(p, Colon)
    case Space3 => if IsHeaderValueChar(ch) then Push(p, ch, HeaderValue) else Reject(p, Space3)
    case HeaderValue => ConsumeHeaderValue(p, ch)
    case HeaderNewLine => if ch == '\n' then (p.(handler := HeaderKey), Progress) else Reject(p, HeaderNewLine)
    case EndLine => ConsumeEndLine(p, ch)
    case Body => ConsumeBody(p, ch)
    case Done => (p, Accepted)
    case Error => (p, Rejected(p.error))
  }

  /** Feeding characters until one of them does not just make progress. */
  function FeedAll(p: Parser, s: string): (Parser, Outcome) {
    if s == "" then (p, Progress)
    else
      var (q, o) := FeedAll(p, s[..|s| - 1]);
      if o.Progress? then Consume(q, s[|s| - 1]) else (q, o)
  }

  /** `Feed` returns 0 on every character of `s` but the last, and 1 on the last. */
  predicate AcceptsExactly(p: Parser, s: string) {
    s != "" && FeedAll(p, s[..|s| - 1]).1.Progress? && FeedAll(p, s).1.Accepted?
  }

  /** Feeding characters whatever the answers are. */
  function FeedOn(p: Parser, s: string): (Parser, seq<Outcome>) {
    if s == "" then (p, [])
    else
      var (q, os) := FeedOn(p, s[..|s| - 1]);
      var (q', o) := Consume(q, s[|s| - 1]);
      (q', os + [o])
  }

  /** The parser has given its verdict `o`. */
  predicate Settled(p: Parser, o: Outcome) {
    if o.Accepted? then p.handler.Done? else p.handler.Error? && o == Rejected(p.error)
  }

  lemma VerdictSettles(p: Parser, ch: char)
    ensures var (q, o) := Consume(p, ch); o.Accepted? || o.Rejected? ==> Settled(q, o)
  {
    match p.handler
    case HeaderValue => assert Consume(p, ch).1.Rejected? ==> Consume(p, ch).0.handler.Error?;
    case _ =>
  }

  /** A parser that has accepted or rejected gives the same answer to every further character
      and never touches the request again. */
  lemma {:induction false} VerdictIsFinal(p: Parser, o: Outcome, more: string)
    requires Settled(p, o)
    ensures FeedOn(p, more).0 == p
    ensures |FeedOn(p, more).1| == |more| && forall i | 0 <= i < |more| :: FeedOn(p, more).1[i] == o
  {
    if more != "" {
      VerdictIsFinal(p, o, more[..|more| - 1]);
      assert Consume(p, more[|more| - 1]) == (p, o);
    }
  }

  class AsyncHttpRequestParser {
    var handler: Handler
    var token: string
    var key: string
    var request: Request
    var error: int // uninitialised in the source

    function View(): Parser
      reads this
    {
      Parser(handler, token, key, request, error)
    }

    constructor (request: Request, error: int)
      ensures View() == NewParser(request, error)
    {
      this.handler := Start;
      this.token, this.key := "", "";
      this.request := request.(contentLength := 0);
      this.error := error;
    }

    method RaiseError(state: Handler) returns (r: Outcome)
      modifies this`handler, this`error
      ensures (View(), r) == Reject(old(View()), state)
    {
      handler := Error;
      error := StateCode(state);
      return Rejected(error);
    }

    method ParseMethod(ch: char) returns (r: Outcome)
      requires handler == Method
      modifies this
      ensures (View(), r) == Consume(old(View()), ch)
    {
      if IsAlpha(ch) {
        token := token + [ch];
      } else if ch == ' ' {
        request := request.(verb := MethodFromString(token));
        token := "";
        if request.verb == INVALID {
          r := RaiseError(Method);
          return;
        }
        handler := Space1;
      } else {
        r := RaiseError(Method);
        return;
      }
      return Progress;
    }

    method ParsePath(ch: char) returns (r: Outcome)
      requires handler == Path
      modifies this
      ensures (View(), r) == Consume(old(View()), ch)
    {
      if ch == ' ' {
        request := request.(path := token);
        token := "";
        handler := Space2;
      } else if IsPathChar(ch) {
        token := token + [ch];
      } else {
        r := RaiseError(Path);
        return;
      }
      return Progress;
    }

    method ParseVersion(ch: char) returns (r: Outcome)
      requires handler == Version
      modifies this
      ensures (View(), r) == Consume(old(View()), ch)
    {
      var length := |token|;
      var wanted: char;
      match length {
        case 1 => wanted := 'T';
        case 2 => wanted := 'T';
        case 3 => wanted := 'P';
        case 4 => wanted := '/';
        case 5 => wanted := '1';
        case 6 => wanted := '.';
        case 7 => wanted := '1';
        case 8 =>
          if ch == '\r' {
            request := request.(version := HTTP_1_1);
            token := "";
            handler := NewLine;
            return Progress;
          }
          r := RaiseError(Version);
          return;
        case _ =>
          r := RaiseError(Version);
          return;
      }
      assert wanted == VERSION_TEXT[length];
      if ch == wanted {
        token := token + [ch];
        return Progress;
      }
      r := RaiseError(Version);
    }

    method ParseHeaderKey(ch: char) returns (r: Outcome)
      requires handler == HeaderKey
      modifies this
      ensures (View(), r) == Consume(old(View()), ch)
    {
      if ch == '\r' {
        handler := EndLine;
      } else if IsHeaderKeyChar(ch) {
        token := token + [ch];
      } else if ch == ':' {
        key := token;
        token := "";
        handler := Colon;
      } else {
        r := RaiseError(HeaderKey);
        return;
      }
      return Progress;
    }

    method ParseHeaderValue(ch: char) returns (r: Outcome)
      requires handler == HeaderValue
      modifies this
      ensures (View(), r) == Consume(old(View()), ch)
    {
      if IsHeaderValueChar(ch) {
        token := token + [ch];
      } else if ch == '\r' {
        if key == "Content-Length" {
          var n := Stoi(token);
          if n.None? {
            return Threw;
          }
          request := request.(contentLength := n.value);
        } else if key == "Content-Type" {
          request := request.(contentType := token);
        } else if key == "Host" {
          request := request.(host := token);
        } else {
          request := request.(headers := request.headers[key := token]);
        }
        token := "";
        handler := HeaderNewLine;
      } else {
        r := RaiseError(HeaderValue);
        return;
      }
      return Progress;
    }

    method ParseEndLine(ch: char) returns (r: Outcome)
      requires handler == EndLine
      modifies this
      ensures (View(), r) == Consume(old(View()), ch)
    {
      if ch == '\n' {
        if request.contentLength == 0 {
          handler := Done;
          return Accepted;
        } else {
          handler := Body;
        }
      } else {
        r := RaiseError(EndLine);
        return;
      }
      return Progress;
    }

    method ParseBody(ch: char) returns (r: Outcome)
      requires handler == Body
      modifies this
      ensures (View(), r) == Consume(old(View()), ch)
    {
      if |request.body| < ToSize(request.contentLength) {
        request := request.(body := request.body + [ch]);
        if |request.body| == ToSize(request.contentLength) {
          handler := Done;
          return Accepted;
        }
      } else {
        r := RaiseError(Body);
        return;
      }
      return Progress;
    }

    /** The handlers that wait for one particular character or class, keep it if `keep` is
        set, and move on. */
    method Expect(matches: bool, ch: char, keep: bool, next: Handler) returns (r: Outcome)
      modifies this
      ensures (View(), r) ==
              if !matches then Reject(old(View()), old(handler))
              else if keep then Push(old(View()), ch, next)
              else (old(View()).(handler := next), Progress)
    {
      if matches {
        if keep {
          token := token + [ch];
        }
        handler := next;
        return Progress;
      }
      r := RaiseError(handler);
    }

    method Feed(ch: char) returns (r: Outcome)
      modifies this
      ensures (View(), r) == Consume(old(View()), ch)
    {
      match handler {
        case Start => r := Expect(IsAlpha(ch), ch, true, Method);
        case Method => r := ParseMethod(ch);
        case Space1 => r := Expect(ch == '/', ch, true, Path);
        case Path => r := ParsePath(ch);
        case Space2 => r := Expect(ch == 'H', ch, true, Version);
        case Version => r := ParseVersion(ch);
        case NewLine => r := Expect(ch == '\n', ch, false, HeaderKey);
        case HeaderKey => r := ParseHeaderKey(ch);
        case Colon => r := Expect(ch == ' ', ch, false, Space3);
        case Space3 => r := Expect(IsHeaderValueChar(ch), ch, true, HeaderValue);
        case HeaderValue => r := ParseHeaderValue(ch);
        case HeaderNewLine => r := Expect(ch == '\n', ch, false, HeaderKey);
        case EndLine => r := ParseEndLine(ch);
        case Body => r := ParseBody(ch);
        case Done => r := Accepted;
        case Error => r := Rejected(error);
      }
    }
  }
}
