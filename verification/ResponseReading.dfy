/** What a client reads in a response: the status, one length that is the body's, and the body. */
module ResponseReading {
  import opened Dispatcher
  import opened Grammar
  import opened Http
  import opened Numbers
  import opened Printer

  /** `static_cast<int>` keeps every length up to 2^31 - 1, and is that int which is congruent modulo
      2^32 for the others. */
  lemma ToIntMeaning(n: nat)
    ensures n <= 2147483647 ==> ToInt(n) == n
    ensures -2147483648 <= ToInt(n) <= 2147483647 && (n - ToInt(n)) % 4294967296 == 0
  {
    var m := n + 2147483648;
    var q, r := m / 4294967296, m % 4294967296;
    assert n - ToInt(n) == q * 4294967296;
    MultipleOfWord(q);
  }

  lemma MultipleOfWord(q: int)
    ensures q * 4294967296 % 4294967296 == 0
  {
  }

  /** Printing an int and reading it back. */
  lemma IntTextIsRead(n: int)
    requires -2147483648 <= n <= 2147483647
    ensures Stoi(IntText(n)) == Some(n)
  {
    if n >= 0 { StoiOfDecimal(n); } else { NegativeIsRead(-n); }
  }

  lemma NegativeIsRead(m: int)
    requires 0 < m <= 2147483648
    ensures Stoi("-" + Decimal(m)) == Some(-m)
  {
    var d := Decimal(m);
    var x := Numeral("", "-", d, "");
    assert forall i | 0 <= i < |d| :: IsDigit(d[i]);
    assert NumeralText(x) == "-" + d;
    ValueByPlaces(d);
    DecimalValueOfDecimal(m);
    StoiTakes(x);
  }

  /** The phrases of the status codes the server uses. */
  lemma StatusPhrases(code: int)
    ensures StatusCodeToDescription(200) == "OK" && StatusCodeToDescription(204) == "No Content"
    ensures StatusCodeToDescription(400) == "Bad Request" && StatusCodeToDescription(404) == "Not Found"
    ensures StatusCodeToDescription(405) == "Method Not Allowed"
    ensures StatusCodeToDescription(500) == "Internal Server Error"
    ensures code !in {200, 204, 400, 404, 405, 500} ==> StatusCodeToDescription(code) == "Unknown"
  {
  }

  /** How often a key occurs. */
  function CountKey(hs: seq<Header>, key: string): nat {
    if hs == [] then 0 else CountKey(hs[..|hs| - 1], key) + if hs[|hs| - 1].key == key then 1 else 0
  }

  lemma {:induction false} CountJoin(a: seq<Header>, b: seq<Header>, key: string)
    ensures CountKey(a + b, key) == CountKey(a, key) + CountKey(b, key)
  {
    if b == [] {
      assert a + b == a;
    } else {
      var front := b[..|b| - 1];
      assert (a + b)[..|a + b| - 1] == a + front && (a + b)[|a + b| - 1] == b[|b| - 1];
      CountJoin(a, front, key);
    }
  }

  lemma {:induction false} MapEntries(headers: map<string, string>, order: seq<string>, key: string)
    requires forall i | 0 <= i < |order| :: order[i] in headers
    ensures |MapHeaders(headers, order)| == |order|
    ensures forall i | 0 <= i < |order| :: MapHeaders(headers, order)[i] == Header(order[i], headers[order[i]])
    ensures key !in headers ==> CountKey(MapHeaders(headers, order), key) == 0
  {
    if order != [] {
      MapEntries(headers, order[..|order| - 1], key);
      assert order[|order| - 1] in headers;
    }
  }

  /** The lines of a response: what stands in the header block. */
  function ResponseHeaders(r: Response, order: seq<string>): seq<Header>
    requires IsOrder(order, r.headers.Keys)
  {
    FixedHeaders(r) + MapHeaders(r.headers, order)
  }

  lemma OneHeader(h: Header, key: string)
    ensures CountKey([h], key) == if h.key == key then 1 else 0
  {
    assert [h][..0] == [];
  }

  lemma FixedCount(r: Response)
    ensures CountKey(FixedHeaders(r), "Content-Length") == if r.statusCode == 204 then 0 else 1
    ensures CountKey(FixedHeaders(r), "Content-Type") == 1
  {
    SpecialHeaders();
    var t, l := Header("Content-Type", r.contentType), Header("Content-Length", IntText(ToInt(|r.body|)));
    OneHeader(t, "Content-Length");
    OneHeader(l, "Content-Length");
    OneHeader(t, "Content-Type");
    OneHeader(l, "Content-Type");
    CountJoin([t], [l], "Content-Length");
    CountJoin([t], [l], "Content-Type");
    assert [t] + [] == [t];
  }

  /** Reading the response back: HTTP/1.1, a code that reads as the status, its phrase; a block of
      header lines with the content type and every header of the map; one Content-Length, if the map
      has none, that reads as the length of the body up to 2^31 - 1 bytes; an empty line; and the
      body. With status 204 there is neither length nor body. */
  lemma ResponseIsRead(r: Response, order: seq<string>) returns (code: string, hs: seq<Header>)
    requires IsOrder(order, r.headers.Keys) && -2147483648 <= r.statusCode <= 2147483647
    ensures ResponseText(r, order)
         == "HTTP/1.1 " + code + " " + StatusCodeToDescription(r.statusCode) + "\r\n" + HeaderLines(hs) + "\r\n"
            + if r.statusCode == 204 then "" else r.body
    ensures Stoi(code) == Some(r.statusCode)
    ensures hs != [] && hs[0] == Header("Content-Type", r.contentType)
    ensures forall k | k in r.headers :: Header(k, r.headers[k]) in hs
    ensures forall h | h in hs ::
              || h == hs[0] || (h.key in r.headers && h.value == r.headers[h.key])
              || (r.statusCode != 204 && h.key == "Content-Length")
    ensures "Content-Length" !in r.headers ==>
              CountKey(hs, "Content-Length") == if r.statusCode == 204 then 0 else 1
    ensures r.statusCode != 204 ==>
              |hs| > 1 && hs[1].key == "Content-Length" && Stoi(hs[1].value) == Some(ToInt(|r.body|))
    ensures |r.body| <= 2147483647 ==> ToInt(|r.body|) == |r.body|
  {
    code, hs := IntText(r.statusCode), ResponseHeaders(r, order);
    IntTextIsRead(r.statusCode);
    ToIntMeaning(|r.body|);
    IntTextIsRead(ToInt(|r.body|));
    MapEntries(r.headers, order, "Content-Length");
    FixedCount(r);
    CountJoin(FixedHeaders(r), MapHeaders(r.headers, order), "Content-Length");
    forall k | k in r.headers ensures Header(k, r.headers[k]) in hs { EntryIsThere(r, order, k); }
    forall h | h in hs
      ensures || h == hs[0] || (h.key in r.headers && h.value == r.headers[h.key])
              || (r.statusCode != 204 && h.key == "Content-Length")
    {
      OnlyEntries(r, order, h);
    }
    GroupStatus(code, StatusCodeToDescription(r.statusCode));
  }

  lemma GroupStatus(code: string, phrase: string)
    ensures "HTTP/1.1" + " " + code + " " + phrase + "\r\n" == "HTTP/1.1 " + code + " " + phrase + "\r\n"
  {
    assert "HTTP/1.1" + " " == "HTTP/1.1 ";
  }

  lemma EntryIsThere(r: Response, order: seq<string>, k: string)
    requires IsOrder(order, r.headers.Keys) && k in r.headers
    ensures Header(k, r.headers[k]) in ResponseHeaders(r, order)
  {
    MapEntries(r.headers, order, k);
    var i :| 0 <= i < |order| && order[i] == k;
    var hs := ResponseHeaders(r, order);
    assert hs[|FixedHeaders(r)| + i] == MapHeaders(r.headers, order)[i];
  }

  lemma OnlyEntries(r: Response, order: seq<string>, h: Header)
    requires IsOrder(order, r.headers.Keys) && h in ResponseHeaders(r, order)
    ensures || h == Header("Content-Type", r.contentType) || (h.key in r.headers && h.value == r.headers[h.key])
            || (r.statusCode != 204 && h.key == "Content-Length")
  {
    MapEntries(r.headers, order, "");
    if h in MapHeaders(r.headers, order) {
      var i :| 0 <= i < |order| && MapHeaders(r.headers, order)[i] == h;
      assert order[i] in r.headers;
    }
  }
}
