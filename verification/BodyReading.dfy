/** When the pull-driven parser reads the body exactly: the bulk read of the buffered reader as
    the parser meets it, after the bytes of the head. */
module BodyReading {
  import opened Http
  import opened Streams
  import opened SyncParser

  // ---------------------------------------------------------------------
  // The head leaves the rest
  // ---------------------------------------------------------------------

  lemma VersionLeavesRest(r: Request, u: string)
    ensures IsRest(ReadVersion(r, u).rest, u)
  {
    var v := ReadToken(u).1;
    var v1 := ReadToken(v).1;
    TokenLeavesRest(u);
    TokenLeavesRest(v);
    TokenLeavesRest(v1);
    RestOfRest(v1, v, u);
    RestOfRest(ReadToken(v1).1, v1, u);
  }

  lemma PathLeavesRest(r: Request, u: string)
    ensures IsRest(ReadPath(r, u).rest, u)
  {
    var v := ReadToken(u).1;
    var (t1, v1) := ReadToken(v);
    TokenLeavesRest(u);
    TokenLeavesRest(v);
    RestOfRest(v1, v, u);
    if t1.Str? && CleanPath(t1.value).Some? {
      var q := r.(path := CleanPath(t1.value).value);
      VersionLeavesRest(q, v1);
      RestOfRest(ReadVersion(q, v1).rest, v1, u);
    }
  }

  lemma LineLeavesRest(r: Request, u: string)
    ensures IsRest(ReadStartLine(r, u).rest, u)
  {
    var v := ReadToken(u).1;
    TokenLeavesRest(u);
    PathLeavesRest(r.(verb := GET), v);
    PathLeavesRest(r.(verb := POST), v);
    RestOfRest(ReadPath(r.(verb := GET), v).rest, v, u);
    RestOfRest(ReadPath(r.(verb := POST), v).rest, v, u);
  }

  lemma {:induction false} HeadersLeaveRest(r: Request, u: string)
    ensures IsRest(ReadHeaders(r, u).rest, u)
    ensures ReadHeaders(r, u).status == NotMatch ==> |ReadHeaders(r, u).rest| < |u|
    decreases |u|
  {
    var p := ReadHeader(r, u);
    HeaderLeavesRest(r, u);
    if p.status == Ok {
      HeadersLeaveRest(p.request, p.rest);
      RestOfRest(ReadHeaders(p.request, p.rest).rest, p.rest, u);
    }
  }

  lemma HeadLeavesRest(r: Request, u: string)
    ensures IsRest(ReadHead(r, u).rest, u)
    ensures HasBody(ReadHead(r, u)) ==> |ReadHead(r, u).rest| < |u| && ReadStartLine(r, u).status == Ok
  {
    var line := ReadStartLine(r, u);
    LineLeavesRest(r, u);
    LineIsNoMatch(r, u);
    if line.status == Ok {
      HeadersLeaveRest(line.request, line.rest);
      RestOfRest(ReadHeaders(line.request, line.rest).rest, line.rest, u);
    }
  }

  lemma LineIsNoMatch(r: Request, u: string)
    ensures ReadStartLine(r, u).status in {Ok, Failed, Undefined}
  {
  }

  // ---------------------------------------------------------------------
  // The reader at the body
  // ---------------------------------------------------------------------

  lemma {:induction false} SkipFills(r: Reader, k: nat)
    requires ReaderOk(r) && !r.eof && 0 < k <= |BytesLeft(r)|
    ensures Skip(r, k).window != ""
    decreases k
  {
    ReadsInOrder(r);
    if k > 1 {
      SkipFills(ReadOne(r).1, k - 1);
    }
  }

  lemma ReaderAtBody(u: string, limits: seq<nat>, clean: bool, rest: string)
    requires Positive(limits) && IsRest(rest, u) && |rest| < |u|
    ensures var v := BodyReader(FreshReader(u, limits, clean), rest);
            BytesLeft(v) == rest && !v.eof && v.clean == clean && v.window != ""
  {
    var start := FreshReader(u, limits, clean);
    assert BytesLeft(start) == u;
    SkipLeaves(start, |u| - |rest|);
    SkipFills(start, |u| - |rest|);
  }

  /** Reads of one byte each leave nothing in the buffer. */
  lemma {:induction false} SkipOnes(r: Reader, k: nat, more: seq<nat>)
    requires ReaderOk(r) && !r.eof && r.head == |r.window| && k <= |r.pending|
    requires Positive(more) && r.limits == Ones(k) + more
    ensures var v := Skip(r, k);
            v.head == |v.window| && !v.eof && v.pending == r.pending[k..] && v.limits == more
    decreases k
  {
    if k == 0 {
      assert r.limits == more;
    } else {
      assert r.limits[0] == 1 && Later(r.limits) == Ones(k - 1) + more;
      var q := ReadOne(r).1;
      assert q.pending == r.pending[1..];
      SkipOnes(q, k - 1, more);
      assert r.pending[1..][k - 1..] == r.pending[k..];
    }
  }

  // ---------------------------------------------------------------------
  // Exactly when
  // ---------------------------------------------------------------------

  /** The body, or what there is of it, is delivered as it is. */
  predicate BodyExact(head: Parsed, start: Reader)
    requires ReaderOk(start)
  {
    HasBody(head) ==>
      var v, n := BodyReader(start, head.rest), head.request.contentLength;
      Exact(BulkFrom(v, n, ""), v, n)
  }

  /** The condition: the body is all that follows the head; or it has one byte; or it is cut short
      by a clean end. */
  predicate BodySafe(head: Parsed, clean: bool) {
    HasBody(head) ==>
      var n, k := head.request.contentLength, |head.rest|;
      k == n || (n < k && n == 1) || (k < n && clean)
  }

  /** An exact bulk read makes the parser do what it does on the bytes alone. */
  lemma ExactBody(r: Request, v: Reader)
    requires ReaderOk(v) && 0 < r.contentLength <= MAX_BODY
    requires Exact(BulkFrom(v, r.contentLength, ""), v, r.contentLength)
    ensures BodyFrom(r, v) == ReadBody(r, BytesLeft(v))
  {
    var n, u := r.contentLength, BytesLeft(v);
    if n <= |u| {
      assert Filled(r.body, n, u[..n]) == u[..n];
    } else {
      assert u[..|u|] == u && u[|u|..] == "";
    }
  }

  /** If the condition holds, the outcome is that of the bytes, however the stream splits them. */
  lemma ParseIsExact(r: Request, u: string, limits: seq<nat>, clean: bool)
    requires Positive(limits) && BodySafe(ReadHead(r, u), clean)
    ensures BodyExact(ReadHead(r, u), FreshReader(u, limits, clean))
    ensures RequestFrom(r, FreshReader(u, limits, clean)) == ReadRequest(r, u)
  {
    var head, start := ReadHead(r, u), FreshReader(u, limits, clean);
    assert BytesLeft(start) == u;
    HeadLeavesRest(r, u);
    if HasBody(head) {
      ReaderAtBody(u, limits, clean, head.rest);
      var v := BodyReader(start, head.rest);
      FitsIsExact(v, head.request.contentLength);
      ExactBody(head.request, v);
    }
  }

  /** If it fails, some sizes of the reads make the body overflow or arrive wrong. */
  lemma UnsafeBody(r: Request, u: string, clean: bool) returns (limits: seq<nat>)
    requires !BodySafe(ReadHead(r, u), clean)
    ensures Positive(limits) && !BodyExact(ReadHead(r, u), FreshReader(u, limits, clean))
  {
    var head := ReadHead(r, u);
    var n, k := head.request.contentLength, |head.rest|;
    HeadLeavesRest(r, u);
    if k < n {
      limits := [];
      ReaderAtBody(u, limits, clean, head.rest);
      StaleEnd(BodyReader(FreshReader(u, limits, clean), head.rest), n, "");
    } else {
      limits := Ones(|u| - k) + Unlucky(n);
      var start := FreshReader(u, limits, clean);
      assert BytesLeft(start) == u;
      SkipOnes(start, |u| - k, Unlucky(n));
      UnluckyOverflows(BodyReader(start, head.rest), n, "");
    }
  }

  /** The parser gets every body right, for all sizes of the reads, if and only if the condition
      holds. */
  lemma BodyExactIffSafe(r: Request, u: string, clean: bool)
    ensures (forall limits: seq<nat> | Positive(limits) :: BodyExact(ReadHead(r, u), FreshReader(u, limits, clean)))
            <==> BodySafe(ReadHead(r, u), clean)
  {
    if BodySafe(ReadHead(r, u), clean) {
      forall limits: seq<nat> | Positive(limits) ensures BodyExact(ReadHead(r, u), FreshReader(u, limits, clean)) {
        ParseIsExact(r, u, limits, clean);
      }
    } else {
      var limits := UnsafeBody(r, u, clean);
    }
  }
}
