/** The buffered writer and the stream it writes to. */
module Writer {
  const AGAIN := -2
  const ERROR := -3
  const BUFFER_SIZE: nat := 1024

  /** A stream that takes a write as a whole or not at all. A negative entry of `answers` is the
      status with which the next write fails; anything else, and an empty list, is success. */
  class Sink {
    var delivered: string
    var answers: seq<int>

    /** Will the next write succeed? */
    predicate Succeeds()
      reads this
    {
      answers == [] || answers[0] >= 0
    }

    method Write(buffer: array<char>, length: nat) returns (r: int)
      requires 0 < length <= buffer.Length
      modifies this
      ensures old(Succeeds()) ==> r == length && delivered == old(delivered) + buffer[..length]
      ensures !old(Succeeds()) ==> r == old(answers[0]) < 0 && delivered == old(delivered)
      ensures answers == if old(answers) == [] then [] else old(answers[1..])
    {
      if Succeeds() {
        delivered := delivered + buffer[..length];
        r := length;
      } else {
        r := answers[0];
      }
      if answers != [] {
        answers := answers[1..];
      }
    }
  }

  class BufferedStreamWriter {
    const sink: Sink
    const buffer: array<char>
    var tail: nat

    ghost predicate Valid()
      reads this
    {
      buffer.Length == BUFFER_SIZE && tail <= BUFFER_SIZE
    }

    function Buffered(): string
      requires Valid()
      reads this, buffer
    {
      buffer[..tail]
    }

    /** Everything accepted so far, delivered or not. */
    function Accepted(): string
      requires Valid()
      reads this, sink, buffer
    {
      sink.delivered + Buffered()
    }

    constructor (sink: Sink)
      ensures Valid() && this.sink == sink && fresh(buffer) && tail == 0
    {
      this.sink := sink;
      this.buffer := new char[BUFFER_SIZE];
      this.tail := 0;
    }

    /** Reports a failure even when the stream took everything. Nothing is lost either way. */
    method Flush() returns (r: int)
      requires Valid()
      modifies this`tail, sink
      ensures Valid() && Accepted() == old(Accepted())
      ensures r == 0 <==> old(tail) == 0
      ensures old(tail) != 0 ==>
                r == if !old(sink.Succeeds()) && old(sink.answers[0]) == AGAIN then AGAIN else ERROR
      ensures old(tail) == 0 ==> tail == 0 && sink.delivered == old(sink.delivered) && sink.answers == old(sink.answers)
      ensures old(tail) != 0 && old(sink.Succeeds()) ==> tail == 0 && sink.delivered == old(Accepted())
      ensures !old(sink.Succeeds()) ==> tail == old(tail) && sink.delivered == old(sink.delivered)
    {
      if tail == 0 {
        return 0;
      }
      r := sink.Write(buffer, tail);
      if r >= 0 {
        assert r == tail;
        tail := 0;
      } else if r == AGAIN {
        return AGAIN;
      }
      return ERROR;
    }

    /** `Write(char)`: a full buffer is flushed, but the character is refused all the same. */
    method WriteChar(ch: char) returns (r: int)
      requires Valid()
      modifies this`tail, buffer, sink
      ensures Valid()
      ensures old(tail) < BUFFER_SIZE ==>
                r == 1 && Buffered() == old(Buffered()) + [ch] && sink.delivered == old(sink.delivered)
      ensures old(tail) == BUFFER_SIZE ==>
                r < 0 && Accepted() == old(Accepted()) && tail == if old(sink.Succeeds()) then 0 else BUFFER_SIZE
    {
      if tail == BUFFER_SIZE {
        r := Flush();
        if r < 0 {
          return;
        }
      }
      buffer[tail] := ch;
      tail := tail + 1;
      assert Buffered() == old(Buffered()) + [ch];
      return 1;
    }

    /** `memcpy(_tail, buffer, size)`. */
    method CopyAfter(source: string)
      requires Valid() && tail + |source| <= BUFFER_SIZE
      modifies buffer
      ensures buffer[..tail + |source|] == old(buffer[..tail]) + source
    {
      ghost var before := buffer[..tail];
      var i := 0;
      while i < |source|
        invariant 0 <= i <= |source|
        invariant buffer[..tail + i] == before + source[..i]
        modifies buffer
      {
        buffer[tail + i] := source[i];
        i := i + 1;
      }
      assert source[..i] == source;
    }

    /** `Write(buffer, length)`: accepts what is free in the buffer at entry and nothing more,
        since the flush of a full buffer always reports a failure. */
    method Write(source: string) returns (n: nat)
      requires Valid()
      modifies this`tail, buffer, sink
      ensures Valid()
      ensures n == if |source| <= BUFFER_SIZE - old(tail) then |source| else BUFFER_SIZE - old(tail)
      ensures Accepted() == old(Accepted()) + source[..n]
      ensures |source| <= BUFFER_SIZE - old(tail) ==>
                && Buffered() == old(Buffered()) + source
                && sink.delivered == old(sink.delivered) && sink.answers == old(sink.answers)
      ensures |source| > BUFFER_SIZE - old(tail) ==> tail == if old(sink.Succeeds()) then 0 else BUFFER_SIZE
    {
      var remaining := |source|;
      ghost var free := BUFFER_SIZE - tail;
      while remaining > 0
        invariant 0 <= remaining <= |source| && Valid()
        invariant sink.delivered == old(sink.delivered) && sink.answers == old(sink.answers)
        invariant tail == old(tail) + (|source| - remaining)
        invariant Buffered() == old(Buffered()) + source[..|source| - remaining]
        invariant remaining == |source| || remaining == 0 || tail == BUFFER_SIZE
        decreases remaining
      {
        var at := |source| - remaining;
        var size := if remaining < BUFFER_SIZE - tail then remaining else BUFFER_SIZE - tail;
        CopyAfter(source[at..at + size]);
        if tail == BUFFER_SIZE {
          var r := Flush();
          if r < 0 {
            break;
          }
        }
        assert source[..at] + source[at..at + size] == source[..at + size];
        tail := tail + size;
        remaining := remaining - size;
      }
      return |source| - remaining;
    }
  }
}
