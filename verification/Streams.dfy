/** Input streams and the buffered reader over them. The reader is proved to compute functions
    on `Reader`, the value of its fields; what it promises is proved about these functions. */
module Streams {
  /** The `int` that a signed 8-bit `char` is promoted to. Texts consist of bytes; the model's
      larger characters, which never occur, keep their code. */
  function Promote(c: char): (n: int)
    ensures Narrow(n) == c
    ensures n == 0 <==> c == '\0'
    ensures c < 128 as char ==> n == c as int
  {
    if 128 as char <= c < 256 as char then c as int - 256 else c as int
  }

  /** `static_cast<char>`, the way back. */
  function Narrow(n: int): char {
    if -128 <= n < 0 then (n + 256) as char
    else if 0 <= n < 0xD800 || 0xE000 <= n < 0x11_0000 then n as char
    else '\0'
  }

  const END_OF_FILE := -1
  const EMPTY := 0
  const ERROR := -3

  const BUFFER_SIZE: nat := 1024

  predicate Positive(limits: seq<nat>) {
    forall i | 0 <= i < |limits| :: limits[i] > 0
  }

  function Min(a: nat, b: nat): nat {
    if a < b then a else b
  }

  /** How many bytes a read of `length` delivers when `available` are left. */
  function ChunkSize(limits: seq<nat>, length: nat, available: nat): (n: nat)
    requires Positive(limits) && length > 0 && available > 0
    ensures 0 < n <= length && n <= available
  {
    Min(if limits == [] then length else Min(limits[0], length), available)
  }

  function Later(limits: seq<nat>): (l: seq<nat>)
    ensures Positive(limits) ==> Positive(l)
  {
    if limits == [] then [] else limits[1..]
  }

  // ---------------------------------------------------------------------
  // The reader as a value
  // ---------------------------------------------------------------------

  /** The fields of a reader and its stream: the filled part of the buffer, `_head` in it, the
      bytes the stream still has, the sizes of its next reads, whether it ends with 0 bytes
      rather than an error, and `_eof`. */
  datatype Reader = Reader(window: string, head: nat, pending: string, limits: seq<nat>, clean: bool, eof: bool)

  predicate ReaderOk(r: Reader) {
    && r.head <= |r.window| <= BUFFER_SIZE && Positive(r.limits)
    && (r.eof ==> r.pending == "")
  }

  /** Everything the reader will still return, one by one. */
  function BytesLeft(r: Reader): string
    requires r.head <= |r.window|
  {
    if r.eof then "" else r.window[r.head..] + r.pending
  }

  /** `_Flush`. On an error `_head` is reset and `_tail` keeps its old value. */
  function Refill(r: Reader): (q: Reader)
    requires ReaderOk(r)
    ensures ReaderOk(q) && q.clean == r.clean
  {
    if r.head != |r.window| then r
    else if r.pending == "" then
      if r.clean then r.(window := "", head := 0, eof := true) else r.(head := 0, eof := true)
    else
      var n := ChunkSize(r.limits, BUFFER_SIZE, |r.pending|);
      r.(window := r.pending[..n], head := 0, pending := r.pending[n..], limits := Later(r.limits))
  }

  /** `Read()`. */
  function ReadOne(r: Reader): (result: (int, Reader))
    requires ReaderOk(r)
    ensures ReaderOk(result.1) && result.1.clean == r.clean
  {
    var q := Refill(r);
    if q.eof then (END_OF_FILE, q)
    else if q.head == |q.window| then (EMPTY, q)
    else (Promote(q.window[q.head]), q.(head := q.head + 1))
  }

  /** The reader after `k` such reads. */
  function Skip(r: Reader, k: nat): (q: Reader)
    requires ReaderOk(r)
    ensures ReaderOk(q) && q.clean == r.clean
    decreases k
  {
    if k == 0 then r else Skip(ReadOne(r).1, k - 1)
  }

  /** `memcpy(buffer, _head, size)`: the reader afterwards, and what has been copied in all. */
  function CopyOne(q: Reader, size: nat): (r: Reader)
    requires ReaderOk(q) && size <= |q.window| - q.head
    ensures ReaderOk(r) && r.clean == q.clean
  {
    q.(head := q.head + size)
  }

  function Gathered(q: Reader, size: nat, done: string): (s: string)
    requires ReaderOk(q) && size <= |q.window| - q.head
    ensures |s| == |done| + size
  {
    done + q.window[q.head..q.head + size]
  }

  /** What `Read(buffer, length)` does: the bytes it copies and the reader afterwards, or a copy
      past the end of the caller's buffer. */
  datatype Bulk = Copied(data: string, reader: Reader) | Overflow

  datatype Round = Finished(result: Bulk) | More(reader: Reader, done: string)

  /** One round of the loop, when `done` is copied. The size of a copy is the minimum with
      `length` and not with what remains. */
  function OneRound(r: Reader, length: nat, done: string): (o: Round)
    requires ReaderOk(r) && |done| <= length
    ensures o.More? ==> ReaderOk(o.reader) && |done| < |o.done| <= length
    ensures o.Finished? && o.result.Copied? ==> ReaderOk(o.result.reader) && o.result.data == done
  {
    if |done| == length || r.eof then Finished(Copied(done, r))
    else
      var q := Refill(r);
      var size := Min(length, |q.window| - q.head);
      if size == 0 then Finished(Copied(done, q))
      else if size > length - |done| then Finished(Overflow)
      else More(CopyOne(q, size), Gathered(q, size, done))
  }

  /** The loop. */
  function BulkFrom(r: Reader, length: nat, done: string): (b: Bulk)
    requires ReaderOk(r) && |done| <= length
    ensures b.Copied? ==> ReaderOk(b.reader) && |done| <= |b.data| <= length
    decreases length - |done|
  {
    match OneRound(r, length, done)
    case Finished(b) => b
    case More(q, more) => BulkFrom(q, length, more)
  }

  // ---------------------------------------------------------------------
  // Byte by byte
  // ---------------------------------------------------------------------

  lemma Split(s: string, n: nat)
    requires n <= |s|
    ensures s[..n] + s[n..] == s
  {
  }

  /** A refill loses nothing, and finds the end exactly when nothing is left. */
  lemma RefillKeeps(r: Reader)
    requires ReaderOk(r)
    ensures BytesLeft(Refill(r)) == BytesLeft(r)
    ensures BytesLeft(r) != "" ==> !Refill(r).eof && Refill(r).head < |Refill(r).window|
    ensures BytesLeft(r) == "" && !r.eof ==> Refill(r).eof
    ensures r.eof ==> Refill(r).eof
  {
    if r.head == |r.window| && r.pending != "" {
      Split(r.pending, ChunkSize(r.limits, BUFFER_SIZE, |r.pending|));
    }
  }

  /** A refill takes what the stream gives to a read of 1024 bytes. */
  lemma RefillAmount(r: Reader)
    requires ReaderOk(r) && r.head == |r.window| && r.pending != ""
    ensures var n := |Refill(r).window|;
            && n <= 1024 && Refill(r).window == r.pending[..n] && Refill(r).pending == r.pending[n..]
            && (r.limits == [] ==> n == if |r.pending| < 1024 then |r.pending| else 1024)
            && (r.limits != [] && r.limits[0] < 1024 && r.limits[0] <= |r.pending| ==> n == r.limits[0])
  {
  }

  /** The bytes come one by one in order, whatever the sizes of the reads, and then end-of-file
      for ever. */
  lemma ReadsInOrder(r: Reader)
    requires ReaderOk(r)
    ensures var (ch, q) := ReadOne(r);
            && (BytesLeft(r) == "" ==> ch == END_OF_FILE && q.eof && BytesLeft(q) == "")
            && (BytesLeft(r) != "" ==> ch == Promote(BytesLeft(r)[0]) && !q.eof && BytesLeft(q) == BytesLeft(r)[1..])
  {
    RefillKeeps(r);
    var q := Refill(r);
    if BytesLeft(r) != "" {
      assert q.window[q.head..] + q.pending == [q.window[q.head]] + (q.window[q.head + 1..] + q.pending);
    }
  }

  lemma {:induction false} SkipLeaves(r: Reader, k: nat)
    requires ReaderOk(r) && k <= |BytesLeft(r)| && !r.eof
    ensures BytesLeft(Skip(r, k)) == BytesLeft(r)[k..] && !Skip(r, k).eof
    decreases k
  {
    if k > 0 {
      ReadsInOrder(r);
      SkipLeaves(ReadOne(r).1, k - 1);
      assert BytesLeft(r)[1..][k - 1..] == BytesLeft(r)[k..];
    }
  }

  lemma {:induction false} SkipMore(r: Reader, a: nat, b: nat, c: nat)
    requires ReaderOk(r) && c == a + b
    ensures Skip(Skip(r, a), b) == Skip(r, c)
    decreases a
  {
    if a > 0 {
      var q := ReadOne(r).1;
      SkipMore(q, a - 1, b, c - 1);
      assert Skip(r, a) == Skip(q, a - 1);
    }
  }

  /** `b` is `a` after some reads of one byte, as long as these have not met the end. */
  ghost predicate Advanced(a: Reader, b: Reader) {
    && ReaderOk(a) && ReaderOk(b) && (a.eof ==> b.eof)
    && (!b.eof ==> |BytesLeft(b)| <= |BytesLeft(a)| && b == Skip(a, |BytesLeft(a)| - |BytesLeft(b)|))
  }

  lemma ReadAdvances(a: Reader, b: Reader)
    requires Advanced(a, b)
    ensures Advanced(a, ReadOne(b).1)
  {
    var c := ReadOne(b).1;
    RefillKeeps(b);
    ReadsInOrder(b);
    if !c.eof {
      var n := |BytesLeft(a)| - |BytesLeft(b)|;
      SkipMore(a, n, 1, n + 1);
    }
  }

  // ---------------------------------------------------------------------
  // In bulk
  // ---------------------------------------------------------------------

  /** The bulk read delivers the next `length` bytes, or all there are, and nothing else. */
  predicate Exact(b: Bulk, r: Reader, length: nat)
    requires ReaderOk(r) && (b.Copied? ==> ReaderOk(b.reader))
  {
    var u := BytesLeft(r);
    b.Copied? && b.data == u[..Min(length, |u|)] && BytesLeft(b.reader) == u[Min(length, |u|)..]
  }

  /** The same in the middle of the loop. */
  predicate ExactFrom(b: Bulk, r: Reader, length: nat, done: string)
    requires ReaderOk(r) && |done| <= length && (b.Copied? ==> ReaderOk(b.reader))
  {
    var u := BytesLeft(r);
    var n := Min(length - |done|, |u|);
    b.Copied? && b.data == done + u[..n] && BytesLeft(b.reader) == u[n..]
  }

  lemma DropFront(w: string, p: string, size: nat)
    requires size <= |w|
    ensures (w + p)[size..] == w[size..] + p && (w + p)[..size] == w[..size]
  {
  }

  lemma Middle(s: string, from: nat, size: nat)
    requires from + size <= |s|
    ensures s[from..from + size] == s[from..][..size] && s[from..][size..] == s[from + size..]
  {
  }

  lemma CopyTakes(q: Reader, size: nat)
    requires ReaderOk(q) && !q.eof && size <= |q.window| - q.head
    ensures var u := BytesLeft(q);
            size <= |u| && q.window[q.head..q.head + size] == u[..size] && BytesLeft(CopyOne(q, size)) == u[size..]
  {
    Middle(q.window, q.head, size);
    DropFront(q.window[q.head..], q.pending, size);
  }

  lemma CopyCounts(q: Reader, size: nat)
    requires ReaderOk(q) && !q.eof && size <= |q.window| - q.head
    ensures |BytesLeft(q)| == size + |BytesLeft(CopyOne(q, size))| && !CopyOne(q, size).eof
  {
  }

  lemma Continue(done: string, u: string, size: nat, n: nat)
    requires size <= n <= |u|
    ensures (done + u[..size]) + u[size..][..n - size] == done + u[..n] && u[size..][n - size..] == u[n..]
  {
  }

  /** Nothing more to copy. */
  lemma ExactEnd(q: Reader, length: nat, done: string)
    requires ReaderOk(q) && |done| <= length && (|done| == length || BytesLeft(q) == "")
    ensures ExactFrom(Copied(done, q), q, length, done)
  {
    NothingMore(done, BytesLeft(q));
  }

  /** A copy that fits continues towards the same end. */
  lemma ExactLater(b: Bulk, q: Reader, length: nat, done: string, size: nat)
    requires ReaderOk(q) && !q.eof && size <= |q.window| - q.head && |done| + size <= length
    requires b.Copied? ==> ReaderOk(b.reader)
    requires ExactFrom(b, CopyOne(q, size), length, Gathered(q, size, done))
    ensures ExactFrom(b, q, length, done)
  {
    CopyTakes(q, size);
    var u := BytesLeft(q);
    Continue(done, u, size, Min(length - |done|, |u|));
  }

  /** What is left after a refill is what was left before. */
  lemma ExactBefore(b: Bulk, r: Reader, q: Reader, length: nat, done: string)
    requires ReaderOk(r) && ReaderOk(q) && BytesLeft(q) == BytesLeft(r) && |done| <= length
    requires b.Copied? ==> ReaderOk(b.reader)
    ensures ExactFrom(b, q, length, done) <==> ExactFrom(b, r, length, done)
  {
  }

  /** A round that goes on: what is copied and what is left stay the same in all. */
  lemma RoundGoesOn(r: Reader, length: nat, done: string)
    requires ReaderOk(r) && |done| <= length && !r.eof && OneRound(r, length, done).More?
    requires BytesLeft(r) != ""
    ensures var o := OneRound(r, length, done);
            && !o.reader.eof && o.reader.clean == r.clean
            && |o.done| + |BytesLeft(o.reader)| == |done| + |BytesLeft(r)|
  {
    RefillKeeps(r);
    var q := Refill(r);
    CopyCounts(q, Min(length, |q.window| - q.head));
  }

  /** The shape of a round that goes on. */
  lemma RoundCopies(r: Reader, length: nat, done: string)
    requires ReaderOk(r) && |done| <= length && OneRound(r, length, done).More?
    ensures var q := Refill(r);
            var size := Min(length, |q.window| - q.head);
            && |done| + size <= length && !r.eof
            && OneRound(r, length, done) == More(CopyOne(q, size), Gathered(q, size, done))
  {
  }

  /** The same for a use that does not look inside a refill. */
  lemma RoundShape(r: Reader, length: nat, done: string) returns (p: Reader, size: nat)
    requires ReaderOk(r) && |done| <= length && OneRound(r, length, done).More? && BytesLeft(r) != ""
    ensures ReaderOk(p) && !p.eof && BytesLeft(p) == BytesLeft(r)
    ensures size <= |p.window| - p.head && |done| + size <= length
    ensures OneRound(r, length, done) == More(CopyOne(p, size), Gathered(p, size, done))
  {
    RefillKeeps(r);
    RoundCopies(r, length, done);
    p := Refill(r);
    size := Min(length, |p.window| - p.head);
  }

  /** What holds of the rest after a copy of `size` bytes holds before the refill and the copy. */
  lemma ExactRound(b: Bulk, r: Reader, q: Reader, length: nat, done: string, size: nat)
    requires ReaderOk(r) && ReaderOk(q) && !q.eof && BytesLeft(q) == BytesLeft(r)
    requires size <= |q.window| - q.head && |done| + size <= length && (b.Copied? ==> ReaderOk(b.reader))
    requires ExactFrom(b, CopyOne(q, size), length, Gathered(q, size, done))
    ensures ExactFrom(b, r, length, done)
  {
    ExactLater(b, q, length, done, size);
    ExactBefore(b, r, q, length, done);
  }

  lemma RoundEnds(r: Reader, length: nat, done: string)
    requires ReaderOk(r) && |done| <= length && !r.eof && OneRound(r, length, done).Finished?
    requires length - |done| <= |BytesLeft(r)| || r.clean
    ensures var b := OneRound(r, length, done).result; b == Overflow || ExactFrom(b, r, length, done)
  {
    RefillKeeps(r);
    var q := Refill(r);
    ExactBefore(Copied(done, q), r, q, length, done);
    if |done| == length { ExactEnd(r, length, done); } else if BytesLeft(q) == "" { ExactEnd(q, length, done); }
  }

  /** With a clean end and nothing left, the loop ends. */
  lemma NothingLeft(r: Reader, length: nat, done: string)
    requires ReaderOk(r) && |done| <= length && !r.eof && BytesLeft(r) == "" && (r.clean || |done| == length)
    ensures OneRound(r, length, done).Finished?
  {
    RefillKeeps(r);
  }

  /** The loop goes wrong only by an overflow, or at an end that is an error. */
  lemma {:induction false} ExactOrOverflow(r: Reader, length: nat, done: string)
    requires ReaderOk(r) && |done| <= length && !r.eof
    requires length - |done| <= |BytesLeft(r)| || r.clean
    ensures var b := BulkFrom(r, length, done); b == Overflow || ExactFrom(b, r, length, done)
    decreases length - |done|
  {
    if BytesLeft(r) == "" { NothingLeft(r, length, done); }
    match OneRound(r, length, done)
    case Finished(_) => RoundEnds(r, length, done);
    case More(q, more) =>
      RoundGoesOn(r, length, done);
      ExactOrOverflow(q, length, more);
      var p, size := RoundShape(r, length, done);
      var b := BulkFrom(q, length, more);
      if b.Copied? { ExactRound(b, r, p, length, done, size); }
  }

  lemma NothingMore(done: string, u: string)
    ensures done + u[..0] == done && u[0..] == u
  {
  }

  /** No copy is too long when nothing follows the bytes asked for. */
  lemma {:induction false} NothingFollows(r: Reader, length: nat, done: string)
    requires ReaderOk(r) && |done| <= length && !r.eof
    requires |BytesLeft(r)| == length - |done| || (|BytesLeft(r)| < length - |done| && r.clean)
    ensures BulkFrom(r, length, done).Copied?
    decreases length - |done|
  {
    if BytesLeft(r) == "" { NothingLeft(r, length, done); }
    match OneRound(r, length, done)
    case Finished(_) => RoundFits(r, length, done);
    case More(q, more) =>
      RoundGoesOn(r, length, done);
      NothingFollows(q, length, more);
  }

  lemma RoundFits(r: Reader, length: nat, done: string)
    requires ReaderOk(r) && |done| <= length && !r.eof
    requires |BytesLeft(r)| <= length - |done|
    ensures BytesLeft(r) != "" ==> OneRound(r, length, done) != Finished(Overflow)
    ensures BytesLeft(r) == "" && r.clean ==> OneRound(r, length, done) != Finished(Overflow)
    ensures |done| == length ==> OneRound(r, length, done) != Finished(Overflow)
  {
    RefillKeeps(r);
    var q := Refill(r);
    if !q.eof { CopyCounts(q, Min(length, |q.window| - q.head)); }
  }

  /** The condition under which a bulk read is exact however its stream splits the data: the
      buffer holds enough, or nothing follows what is asked for, or at most one byte is, or the
      bytes end before and end cleanly, or there are none and the buffer was never filled. */
  predicate Fits(r: Reader, length: nat)
    requires ReaderOk(r)
  {
    var u := |BytesLeft(r)|;
    || length <= |r.window| - r.head
    || u == length
    || (length < u && length <= 1)
    || (u < length && (r.clean || (u == 0 && r.window == "")))
  }

  lemma FitsIsExact(r: Reader, length: nat)
    requires ReaderOk(r) && !r.eof && Fits(r, length)
    ensures Exact(BulkFrom(r, length, ""), r, length)
  {
    var u := |BytesLeft(r)|;
    if u < length && !r.clean {
      RefillKeeps(r);
    } else {
      ExactOrOverflow(r, length, "");
      if u == length || u < length {
        NothingFollows(r, length, "");
      } else {
        FirstCopy(r, length);
      }
      DoneNothing(BulkFrom(r, length, ""), r, length);
    }
  }

  lemma DoneNothing(b: Bulk, r: Reader, length: nat)
    requires ReaderOk(r) && (b.Copied? ==> ReaderOk(b.reader))
    ensures ExactFrom(b, r, length, "") <==> Exact(b, r, length)
  {
    assert "" + BytesLeft(r)[..Min(length, |BytesLeft(r)|)] == BytesLeft(r)[..Min(length, |BytesLeft(r)|)];
  }

  /** Enough in the buffer, or one byte: the first copy is the last. */
  lemma FirstCopy(r: Reader, length: nat)
    requires ReaderOk(r) && !r.eof && length <= |BytesLeft(r)|
    requires length <= |r.window| - r.head || length <= 1
    ensures BulkFrom(r, length, "").Copied?
  {
    if length > 0 {
      RefillKeeps(r);
      var q := Refill(r);
      assert Min(length, |q.window| - q.head) == length;
      var done := Gathered(q, length, "");
      assert BulkFrom(CopyOne(q, length), length, done) == Copied(done, CopyOne(q, length));
    }
  }

  // The failing inputs.

  function Ones(n: nat): (l: seq<nat>)
    ensures |l| == n && Positive(l)
  {
    seq(n, _ => 1)
  }

  /** Reads of one byte each up to the last one asked for, and then a read of two. */
  function Unlucky(n: nat): (l: seq<nat>)
    requires n > 0
    ensures Positive(l)
  {
    Ones(n - 1) + [2]
  }

  lemma LaterUnlucky(n: nat)
    requires n > 1
    ensures Unlucky(n)[0] == 1 && Later(Unlucky(n)) == Unlucky(n - 1)
  {
  }

  lemma UnluckyRound(r: Reader, length: nat, done: string)
    requires ReaderOk(r) && !r.eof && r.head == |r.window| && length >= 2
    requires |done| < length && |r.pending| > length - |done| && r.limits == Unlucky(length - |done|)
    ensures |done| + 1 == length ==> OneRound(r, length, done) == Finished(Overflow)
    ensures |done| + 1 < length ==>
              var o := OneRound(r, length, done);
              && o.More? && |o.done| == |done| + 1 && !o.reader.eof && o.reader.head == |o.reader.window|
              && |o.reader.pending| == |r.pending| - 1 && o.reader.limits == Unlucky(length - |done| - 1)
  {
    if |done| + 1 < length { LaterUnlucky(length - |done|); }
  }

  /** With more bytes to come than asked for and an empty buffer, these reads overflow. */
  lemma {:induction false} UnluckyOverflows(r: Reader, length: nat, done: string)
    requires ReaderOk(r) && !r.eof && r.head == |r.window| && length >= 2
    requires |done| < length && |r.pending| > length - |done| && r.limits == Unlucky(length - |done|)
    ensures BulkFrom(r, length, done) == Overflow
    decreases length - |done|
  {
    UnluckyRound(r, length, done);
    if |done| + 1 < length {
      var o := OneRound(r, length, done);
      UnluckyOverflows(o.reader, length, o.done);
    }
  }

  /** The same with a buffer that holds something, but not enough. */
  lemma UnluckyAfterBuffer(r: Reader, length: nat)
    requires ReaderOk(r) && !r.eof && 0 < |r.window| - r.head < length && |BytesLeft(r)| > length
    requires r.limits == Unlucky(length - (|r.window| - r.head))
    ensures BulkFrom(r, length, "") == Overflow
  {
    var size := |r.window| - r.head;
    assert Refill(r) == r && Min(length, size) == size;
    UnluckyOverflows(CopyOne(r, size), length, Gathered(r, size, ""));
  }

  /** At an end that is an error the last refill is delivered again. */
  lemma {:induction false} StaleEnd(r: Reader, length: nat, done: string)
    requires ReaderOk(r) && !r.eof && !r.clean && |done| + |BytesLeft(r)| < length
    requires r.window != "" || r.pending != ""
    ensures var b := BulkFrom(r, length, done); b == Overflow || |b.data| > |done| + |BytesLeft(r)|
    decreases length - |done|
  {
    StaleRound(r, length, done);
    if BytesLeft(r) != "" {
      var o := OneRound(r, length, done);
      RoundGoesOn(r, length, done);
      StaleEnd(o.reader, length, o.done);
    }
  }

  lemma StaleRound(r: Reader, length: nat, done: string)
    requires ReaderOk(r) && !r.eof && !r.clean && |done| + |BytesLeft(r)| < length
    requires r.window != "" || r.pending != ""
    ensures BytesLeft(r) != "" ==> var o := OneRound(r, length, done); o.More? && o.reader.window != ""
    ensures BytesLeft(r) == "" ==>
              var o := OneRound(r, length, done); o == Finished(Overflow) || (o.More? && o.reader.eof)
  {
    RefillKeeps(r);
    RoundFits(r, length, done);
  }

  /** Some sizes of the coming reads make the bulk read go wrong whenever the condition fails. */
  lemma UnfitFails(r: Reader, length: nat) returns (limits: seq<nat>)
    requires ReaderOk(r) && !r.eof && !Fits(r, length)
    ensures Positive(limits)
    ensures var s := r.(limits := limits); !Exact(BulkFrom(s, length, ""), s, length)
  {
    var buffered := |r.window| - r.head;
    if |BytesLeft(r)| < length {
      limits := [];
      StaleEnd(r.(limits := []), length, "");
    } else if buffered == 0 {
      limits := Unlucky(length);
      UnluckyOverflows(r.(limits := limits), length, "");
    } else {
      limits := Unlucky(length - buffered);
      UnluckyAfterBuffer(r.(limits := limits), length);
    }
  }

  /** A bulk read is exact for all sizes of the stream's reads if and only if it fits. */
  lemma ExactIffFits(r: Reader, length: nat)
    requires ReaderOk(r) && !r.eof
    ensures (forall limits: seq<nat> | Positive(limits) ::
               Exact(BulkFrom(r.(limits := limits), length, ""), r.(limits := limits), length)) <==> Fits(r, length)
  {
    if Fits(r, length) {
      forall limits: seq<nat> | Positive(limits)
        ensures Exact(BulkFrom(r.(limits := limits), length, ""), r.(limits := limits), length)
      {
        FitsIsExact(r.(limits := limits), length);
      }
    } else {
      var limits := UnfitFails(r, length);
    }
  }

  /** Eight bytes that arrive as three and five, of which five are asked for. */
  lemma OverflowExample()
    ensures BulkFrom(Reader("", 0, "abcdefgh", [3], true, false), 5, "") == Overflow
  {
    var r := Reader("", 0, "abcdefgh", [3], true, false);
    assert "abcdefgh"[..3] == "abc" && "abcdefgh"[3..] == "defgh";
    assert Refill(r) == Reader("abc", 0, "defgh", [], true, false);
    var q := CopyOne(Refill(r), 3);
    assert Refill(q) == Reader("defgh", 0, "", [], true, false) by {
      assert "defgh"[..5] == "defgh" && "defgh"[5..] == "";
    }
  }

  // ---------------------------------------------------------------------
  // The classes
  // ---------------------------------------------------------------------

  /** A stream holding fixed data. Each read may deliver fewer bytes than asked for: at most
      the next entry of `limits`. At its end a socket reports 0 bytes and a `BufferInputStream`
      an error. With no limits this class is `BufferInputStream`. */
  class Stream {
    const buffer: string
    const errorAtEnd: bool
    var offset: nat
    var closed: bool
    var limits: seq<nat>

    ghost predicate Valid()
      reads this
    {
      offset <= |buffer| && Positive(limits)
    }

    /** The bytes still to be delivered. */
    function Pending(): string
      requires offset <= |buffer|
      reads this
    {
      if closed then [] else buffer[offset..]
    }

    predicate CleanEnd()
      reads this
    {
      !closed && !errorAtEnd
    }

    constructor (buffer: string, errorAtEnd: bool, limits: seq<nat>)
      requires Positive(limits)
      ensures Valid() && Pending() == buffer && !closed && this.errorAtEnd == errorAtEnd && this.limits == limits
    {
      this.buffer := buffer;
      this.errorAtEnd := errorAtEnd;
      this.offset, this.closed := 0, false;
      this.limits := limits;
    }

    method Read(target: array<char>, length: nat) returns (n: int)
      requires Valid() && 0 < length <= target.Length
      modifies this, target
      ensures Valid() && closed == old(closed)
      ensures old(Pending()) == [] ==>
                && n == (if CleanEnd() then 0 else ERROR) && Pending() == [] && limits == old(limits)
                && target[..] == old(target[..])
      ensures old(Pending()) != [] ==>
                && n == ChunkSize(old(limits), length, |old(Pending())|) && limits == Later(old(limits))
                && target[..] == old(Pending())[..n] + old(target[..])[n..]
                && Pending() == old(Pending())[n..]
    {
      if closed {
        return ERROR;
      }
      if offset >= |buffer| {
        return if errorAtEnd then ERROR else 0;
      }
      var size := ChunkSize(limits, length, |buffer| - offset);
      limits := Later(limits);
      Slices(buffer, offset, size);
      CopyIn(target, buffer[offset..offset + size]);
      offset := offset + size;
      return size;
    }

    static lemma Slices(s: string, offset: nat, size: nat)
      requires offset + size <= |s|
      ensures s[offset..][..size] == s[offset..offset + size]
      ensures s[offset..][size..] == s[offset + size..]
    {
    }

    static method CopyIn(target: array<char>, source: string)
      requires |source| <= target.Length
      modifies target
      ensures target[..] == source + old(target[..])[|source|..]
    {
      ghost var before := target[..];
      var i := 0;
      while i < |source|
        invariant 0 <= i <= |source|
        invariant forall j | 0 <= j < i :: target[j] == source[j]
        invariant forall j | i <= j < target.Length :: target[j] == before[j]
      {
        target[i] := source[i];
        i := i + 1;
      }
    }

    method Close() returns (r: int)
      requires Valid()
      modifies this`closed
      ensures r == 0 && Valid() && Pending() == []
    {
      closed := true;
      return 0;
    }
  }

  class BufferedStreamReader {
    const stream: Stream
    const buffer: array<char>
    var head: nat
    var tail: nat
    var eof: bool

    ghost predicate Valid()
      reads this, stream
    {
      && buffer.Length == BUFFER_SIZE && head <= tail <= BUFFER_SIZE
      && stream.Valid() && (eof ==> stream.Pending() == [])
    }

    ghost function View(): (r: Reader)
      requires Valid()
      reads this, stream, buffer
      ensures ReaderOk(r)
    {
      Reader(buffer[..tail], head, stream.Pending(), stream.limits, stream.CleanEnd(), eof)
    }

    /** Everything the reader will still return. */
    ghost function Unread(): string
      requires Valid()
      reads this, stream, buffer
    {
      BytesLeft(View())
    }

    constructor (stream: Stream)
      requires stream.Valid()
      ensures Valid() && this.stream == stream && fresh(buffer)
      ensures View() == Reader("", 0, stream.Pending(), stream.limits, stream.CleanEnd(), false)
      ensures Unread() == stream.Pending()
    {
      this.stream := stream;
      this.buffer := new char[BUFFER_SIZE];
      this.head, this.tail := 0, 0;
      this.eof := false;
    }

    /** `_Flush`. */
    method Flush()
      requires Valid()
      modifies this`head, this`tail, this`eof, stream, buffer
      ensures Valid() && stream.closed == old(stream.closed) && View() == Refill(old(View()))
    {
      if head != tail {
        return;
      }
      head := 0;
      var size := stream.Read(buffer, BUFFER_SIZE);
      if size >= 0 {
        tail := head + size;
        eof := size == 0;
      } else {
        eof := true;
      }
    }

    /** `Read()`. */
    method Read() returns (ch: int)
      requires Valid()
      modifies this`head, this`tail, this`eof, stream, buffer
      ensures Valid() && stream.closed == old(stream.closed) && (ch, View()) == ReadOne(old(View()))
      ensures old(Unread()) == [] ==> ch == END_OF_FILE && Unread() == [] && eof
      ensures old(Unread()) != [] ==> ch == Promote(old(Unread())[0]) && Unread() == old(Unread())[1..] && !eof
    {
      ReadsInOrder(View());
      Flush();
      if eof {
        return END_OF_FILE;
      }
      if head == tail {
        return EMPTY;
      }
      ch := Promote(buffer[head]);
      head := head + 1;
    }

    /** `Read(buffer, length)`: all of what it does, with `overflow` for a copy past the end of
        the caller's buffer, at which the model stops. */
    method ReadBulk(target: array<char>, length: nat) returns (n: int, overflow: bool)
      requires Valid() && length <= target.Length && target != buffer
      modifies this`head, this`tail, this`eof, stream, buffer, target
      ensures Valid() && stream.closed == old(stream.closed)
      ensures old(eof) ==> n == END_OF_FILE && !overflow && View() == old(View()) && target[..] == old(target[..])
      ensures !old(eof) ==>
                match BulkFrom(old(View()), length, "")
                case Overflow => overflow
                case Copied(data, r) =>
                  !overflow && n == |data| && target[..] == data + old(target[..])[|data|..] && View() == r
    {
      if eof {
        return END_OF_FILE, false;
      }
      n, overflow := CopyAll(target, length);
    }

    /** The loop; the result is how far `buffer` was advanced. */
    method CopyAll(target: array<char>, length: nat) returns (at: nat, overflow: bool)
      requires Valid() && !eof && length <= target.Length && target != buffer
      modifies this`head, this`tail, this`eof, stream, buffer, target
      ensures Valid() && stream.closed == old(stream.closed)
      ensures match BulkFrom(old(View()), length, "")
              case Overflow => overflow
              case Copied(data, r) =>
                !overflow && CopiedTo(target, old(target[..]), data) && at == |data| && View() == r
    {
      ghost var before, result := target[..], BulkFrom(View(), length, "");
      ghost var done := "";
      var stop := false;
      at, overflow := 0, false;
      while at < length && !eof && !stop
        invariant Valid() && stream.closed == old(stream.closed)
        invariant |done| == at <= length && CopiedTo(target, before, done)
        invariant overflow ==> stop && result == Overflow
        invariant !stop ==> BulkFrom(View(), length, done) == result
        invariant stop && !overflow ==> result == Copied(done, View())
        decreases length - at, !stop
      {
        at, stop, overflow, done := Step(target, length, at, before, done, result);
      }
    }

    /** `target` starts with `data` and is otherwise as it was. */
    ghost predicate CopiedTo(target: array<char>, before: string, data: string)
      reads target
    {
      |before| == target.Length && |data| <= target.Length && target[..] == data + before[|data|..]
    }

    /** One round: refill, measure, and copy if the bytes fit. */
    method Step(target: array<char>, length: nat, at: nat, ghost before: string, ghost done: string, ghost result: Bulk)
      returns (next: nat, stop: bool, overflow: bool, ghost more: string)
      requires Valid() && !eof && at < length <= target.Length && target != buffer
      requires |done| == at && CopiedTo(target, before, done) && BulkFrom(View(), length, done) == result
      modifies this`head, this`tail, this`eof, stream, buffer, target
      ensures Valid() && stream.closed == old(stream.closed)
      ensures |more| == next <= length && CopiedTo(target, before, more)
      ensures overflow ==> stop && result == Overflow
      ensures !stop ==> at < next && BulkFrom(View(), length, more) == result
      ensures stop ==> next == at
      ensures stop && !overflow ==> result == Copied(more, View())
    {
      Flush();
      var size := Min(length, tail - head);
      more := done;
      if size == 0 {
        return at, true, false, more;
      }
      if size > length - at {
        return at, true, true, more;
      }
      more := CopyOut(target, at, size, before, done);
      return at + size, false, false, more;
    }

    /** `memcpy(buffer, _head, size); _head += size`. */
    method CopyOut(target: array<char>, at: nat, size: nat, ghost before: string, ghost done: string)
      returns (ghost more: string)
      requires Valid() && size <= tail - head && at + size <= target.Length && target != buffer
      requires |done| == at && CopiedTo(target, before, done)
      modifies this`head, target
      ensures Valid() && View() == CopyOne(old(View()), size)
      ensures more == Gathered(old(View()), size, done) && CopiedTo(target, before, more)
    {
      more := Gathered(View(), size, done);
      SameSlice(buffer, tail, head, size);
      Blit(target, at, buffer, head, size, before, done);
      head := head + size;
    }

    static lemma SameSlice(a: array<char>, tail: nat, from: nat, size: nat)
      requires from + size <= tail <= a.Length
      ensures a[from..from + size] == a[..tail][from..from + size]
    {
      TakeThenSlice(a[..], tail, from, size);
    }

    static lemma TakeThenSlice(s: string, tail: nat, from: nat, size: nat)
      requires from + size <= tail <= |s|
      ensures s[from..from + size] == s[..tail][from..from + size]
    {
    }

    /** `memcpy`. */
    method Blit(target: array<char>, at: nat, source: array<char>, from: nat, size: nat,
                ghost before: string, ghost done: string)
      requires at + size <= target.Length && from + size <= source.Length && target != source
      requires |done| == at && CopiedTo(target, before, done)
      modifies target
      ensures CopiedTo(target, before, done + source[from..from + size])
    {
      var i := 0;
      while i < size
        invariant 0 <= i <= size
        invariant CopiedTo(target, before, done + source[from..from + i])
        modifies target
      {
        target[at + i] := source[from + i];
        i := i + 1;
      }
    }
  }
}
