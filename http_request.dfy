/**
 * The access-point revision's handling of one received TCP segment
 * (tcp_server_recv, picow_access_point.c): the copy into the connection's
 * 128-byte headers buffer, the in-place split of the request line into path
 * and parameters, the `janela=%d` parameter scan, and the completion test of
 * tcp_server_sent. The lwIP calls around them are not modelled.
 */
module HttpRequest {
  import opened Wrappers
  import opened CString

  /** sizeof(con_state->headers). */
  const HEADERS_SIZE := 128

  /** The request path starts at headers + sizeof("GET"): after "GET" and one more character. */
  const REQUEST_START := 4

  /**
   * pbuf_copy_partial into the headers buffer of a freshly allocated (zeroed)
   * connection: at most sizeof(headers) - 1 = 127 bytes are copied, so the
   * buffer always ends in NUL.
   */
  function CopyHeaders(packet: seq<char>): (b: seq<char>)
    ensures |b| == HEADERS_SIZE && b[HEADERS_SIZE - 1] == NUL
    ensures forall i :: 0 <= i < |packet| && i < HEADERS_SIZE - 1 ==> b[i] == packet[i]
    ensures forall i :: Min(|packet|, HEADERS_SIZE - 1) <= i < HEADERS_SIZE ==> b[i] == NUL
  {
    var n := Min(|packet|, HEADERS_SIZE - 1);
    packet[..n] + seq(HEADERS_SIZE - n, _ => NUL)
  }

  /** strncmp("GET", headers, 3) == 0. */
  predicate IsGet(b: seq<char>) {
    StartsWith(b, "GET")
  }

  /**
   * The headers buffer after the split: the first '?' of the request becomes
   * NUL and so does the first ' ' (searched from the request start, so it may
   * lie before or after the '?'). Without a '?' only the space is cut.
   * The C code's `if (*params)` test always passes, since *params is the '?'.
   */
  function SplitBuffer(b: seq<char>): (r: seq<char>)
    requires |b| == HEADERS_SIZE && b[HEADERS_SIZE - 1] == NUL
    ensures |r| == |b|
  {
    var question := Strchr(b, REQUEST_START, '?');
    var space := Strchr(b, REQUEST_START, ' ');
    var b1 := if question.Some? then b[question.value := NUL] else b;
    if space.Some? then b1[space.value := NUL] else b1
  }

  /**
   * Where params points after the split: just past the first '?' of the
   * request string (wherever it lies relative to the space), or NULL exactly
   * when the string holds no '?'.
   */
  function ParamsStart(b: seq<char>): (p: Option<nat>)
    requires |b| == HEADERS_SIZE && b[HEADERS_SIZE - 1] == NUL
    ensures p.Some? ==> REQUEST_START < p.value < HEADERS_SIZE && b[p.value - 1] == '?'
    ensures p.Some? ==> forall j :: REQUEST_START <= j < p.value - 1 ==> b[j] != '?' && b[j] != NUL
    ensures p.None? ==> forall j :: REQUEST_START <= j < CEnd(b, REQUEST_START) ==> b[j] != '?'
  {
    match Strchr(b, REQUEST_START, '?')
    case Some(q) => Some(q + 1)
    case None => None
  }

  /** The two strings server_content_handler receives. */
  datatype RequestLine = RequestLine(path: string, params: Option<string>)

  function SplitRequestLine(b: seq<char>): RequestLine
    requires |b| == HEADERS_SIZE && b[HEADERS_SIZE - 1] == NUL
  {
    var r := SplitBuffer(b);
    RequestLine(
      CStr(r, REQUEST_START),
      match ParamsStart(b) case Some(p) => Some(CStr(r, p)) case None => None)
  }

  /**
   * What the handler is called with for one received segment, or None when the
   * segment is empty or is not a GET (then nothing is sent).
   */
  function ParseRequest(packet: seq<char>): (r: Option<RequestLine>)
    ensures r.Some? <==> |packet| >= 3 && packet[..3] == "GET"
  {
    if |packet| == 0 then None
    else
      var b := CopyHeaders(packet);
      CopiedGet(packet);
      if IsGet(b) then Some(SplitRequestLine(b)) else None
  }

  /** The copy starts with "GET" exactly when the segment does. */
  lemma CopiedGet(packet: seq<char>)
    ensures IsGet(CopyHeaders(packet)) <==> |packet| >= 3 && packet[..3] == "GET"
  {
    var b := CopyHeaders(packet);
    if |packet| >= 3 {
      assert b[..3] == packet[..3];
    } else {
      assert b[|packet|] == NUL;
      assert "GET"[|packet|] != NUL;
    }
  }

  /**
   * The split of tcp_server_recv, done in place on the headers array: returns
   * where params starts, if there is a '?'.
   */
  method SplitInPlace(headers: array<char>) returns (params: Option<nat>)
    requires headers.Length == HEADERS_SIZE && headers[HEADERS_SIZE - 1] == NUL
    modifies headers
    ensures headers[..] == SplitBuffer(old(headers[..]))
    ensures params == ParamsStart(old(headers[..]))
  {
    var request := REQUEST_START;
    var question := Strchr(headers[..], request, '?');
    if question.Some? {
      var space := Strchr(headers[..], request, ' ');
      headers[question.value] := NUL;
      params := Some(question.value + 1);
      if space.Some? {
        headers[space.value] := NUL;
      }
    } else {
      var space := Strchr(headers[..], request, ' ');
      if space.Some? {
        headers[space.value] := NUL;
      }
      params := None;
    }
  }

  /** None of the characters that end a path or a parameter string. */
  predicate PlainText(s: string) {
    forall i :: 0 <= i < |s| ==> s[i] != '?' && s[i] != ' ' && s[i] != NUL
  }

  /**
   * The split of a buffer holding a '?' at q and the first space at sp after
   * it: the path is what lies between the request start and the '?', the
   * parameters what lies between the '?' and the space.
   */
  lemma SplitAtQuestion(b: seq<char>, q: nat, sp: nat)
    requires |b| == HEADERS_SIZE && b[HEADERS_SIZE - 1] == NUL
    requires REQUEST_START <= q < sp < HEADERS_SIZE && b[q] == '?' && b[sp] == ' '
    requires forall j :: REQUEST_START <= j < q ==> b[j] != '?' && b[j] != ' ' && b[j] != NUL
    requires forall j :: q < j < sp ==> b[j] != ' ' && b[j] != NUL
    ensures SplitRequestLine(b) == RequestLine(b[REQUEST_START..q], Some(b[q + 1..sp]))
  {
    StrchrAt(b, REQUEST_START, '?', q);
    StrchrAt(b, REQUEST_START, ' ', sp);
    var r := SplitBuffer(b);
    assert r == b[q := NUL][sp := NUL];
    CEndAt(r, REQUEST_START, q);
    CEndAt(r, q + 1, sp);
    assert CStr(r, REQUEST_START) == r[REQUEST_START..q] == b[REQUEST_START..q];
    assert CStr(r, q + 1) == r[q + 1..sp] == b[q + 1..sp];
  }

  /**
   * The split of a buffer with no '?' before its terminator and a space at sp:
   * the path ends at the space and there are no parameters.
   */
  lemma SplitAtSpace(b: seq<char>, sp: nat)
    requires |b| == HEADERS_SIZE && b[HEADERS_SIZE - 1] == NUL
    requires REQUEST_START <= sp < HEADERS_SIZE && b[sp] == ' '
    requires forall j :: REQUEST_START <= j < sp ==> b[j] != '?' && b[j] != ' ' && b[j] != NUL
    requires forall j :: sp < j < HEADERS_SIZE ==> b[j] != '?'
    ensures SplitRequestLine(b) == RequestLine(b[REQUEST_START..sp], None)
  {
    assert forall j :: REQUEST_START <= j < HEADERS_SIZE ==> b[j] != '?';
    assert Strchr(b, REQUEST_START, '?').None?;
    StrchrAt(b, REQUEST_START, ' ', sp);
    var r := SplitBuffer(b);
    assert r == b[sp := NUL];
    CEndAt(r, REQUEST_START, sp);
    assert CStr(r, REQUEST_START) == r[REQUEST_START..sp] == b[REQUEST_START..sp];
  }

  /** A segment that fits the buffer (with room for its NUL) is copied whole. */
  lemma CopyPrefix(packet: seq<char>, n: nat)
    requires n <= |packet| && n < HEADERS_SIZE
    ensures CopyHeaders(packet)[..n] == packet[..n]
  {
  }

  /**
   * A request line "GET <path>?<params> <rest>" that fits the buffer gives the
   * handler exactly <path> and <params>: the path ends at the '?', the
   * parameters at the first space.
   */
  lemma SplitWithQuery(path: string, query: string, rest: string)
    requires PlainText(path)
    requires forall i :: 0 <= i < |query| ==> query[i] != ' ' && query[i] != NUL
    requires 6 + |path| + |query| <= HEADERS_SIZE - 1
    ensures ParseRequest("GET " + path + "?" + query + " " + rest)
         == Some(RequestLine(path, Some(query)))
  {
    var line := "GET " + path + "?" + query + " ";
    var packet := "GET " + path + "?" + query + " " + rest;
    assert packet[..|line|] == line;
    var b := CopyHeaders(packet);
    var q := REQUEST_START + |path|;
    var sp := q + 1 + |query|;
    CopyPrefix(packet, |line|);
    assert b[..|line|] == line;
    assert b[..3] == line[..3] == "GET";
    assert b[REQUEST_START..q] == line[REQUEST_START..q] == path;
    assert b[q + 1..sp] == line[q + 1..sp] == query;
    assert b[q] == line[q] && b[sp] == line[sp];
    assert forall j :: REQUEST_START <= j < q ==> b[j] == path[j - REQUEST_START];
    assert forall j :: q < j < sp ==> b[j] == query[j - q - 1];
    SplitAtQuestion(b, q, sp);
  }

  /**
   * Without a '?' the path ends at the first space and params is NULL.
   */
  lemma SplitWithoutQuery(path: string, rest: string)
    requires PlainText(path)
    requires '?' !in rest
    requires 5 + |path| <= HEADERS_SIZE - 1
    ensures ParseRequest("GET " + path + " " + rest) == Some(RequestLine(path, None))
  {
    var line := "GET " + path + " ";
    var packet := "GET " + path + " " + rest;
    assert packet == line + rest;
    var b := CopyHeaders(packet);
    var sp := REQUEST_START + |path|;
    CopyPrefix(packet, |line|);
    assert b[..|line|] == line;
    assert b[..3] == line[..3] == "GET";
    assert b[REQUEST_START..sp] == line[REQUEST_START..sp] == path;
    assert b[sp] == line[sp];
    assert forall j :: REQUEST_START <= j < sp ==> b[j] == path[j - REQUEST_START];
    forall j | sp < j < HEADERS_SIZE ensures b[j] != '?' {
      if j < |packet| && j < HEADERS_SIZE - 1 {
        assert b[j] == packet[j] == rest[j - |line|];
      }
    }
    SplitAtSpace(b, sp);
  }

  // ---- the `janela=%d` parameter ----

  predicate IsDigit(c: char) {
    '0' <= c <= '9'
  }

  predicate AllDigits(s: string) {
    forall i :: 0 <= i < |s| ==> IsDigit(s[i])
  }

  function DigitValue(c: char): (v: int)
    requires IsDigit(c)
    ensures 0 <= v < 10
  {
    c as int - '0' as int
  }

  /** Length of the run of decimal digits at the start of s. */
  function DigitSpan(s: string): (n: nat)
    ensures n <= |s| && AllDigits(s[..n])
    ensures n < |s| ==> !IsDigit(s[n])
  {
    if s == [] || !IsDigit(s[0]) then 0 else 1 + DigitSpan(s[1..])
  }

  /** The value of a run of decimal digits, most significant first. */
  function DecimalValue(d: string): nat
    requires AllDigits(d)
  {
    if d == [] then 0 else DecimalValue(d[..|d| - 1]) * 10 + DigitValue(d[|d| - 1])
  }

  /**
   * `%d`: an optional sign and at least one digit; None when no digit follows
   * (sscanf then converts nothing).
   */
  function ScanInt(s: string): (r: Option<int>)
    ensures r.Some? <==> (|s| > 0 && IsDigit(s[0]))
                         || (|s| > 1 && (s[0] == '-' || s[0] == '+') && IsDigit(s[1]))
  {
    var negative := |s| > 0 && s[0] == '-';
    var body := if |s| > 0 && (s[0] == '-' || s[0] == '+') then s[1..] else s;
    var n := DigitSpan(body);
    if n == 0 then None
    else
      var v: int := DecimalValue(body[..n]);
      Some(if negative then -v else v)
  }

  /** sscanf(params, "janela=%d", &new_state) == 1, with the value scanned. */
  function ParseJanela(params: string): (r: Option<int>)
    ensures r.Some? ==> |params| > 7 && params[..7] == "janela="
  {
    if StartsWith(params, "janela=") then ScanInt(params[7..]) else None
  }

  /** printf's "%d" of a non-negative number. */
  function Decimal(n: nat): (d: string)
    ensures |d| > 0 && AllDigits(d)
  {
    if n < 10 then [('0' as int + n) as char]
    else Decimal(n / 10) + [('0' as int + n % 10) as char]
  }

  /** printf's "%d". */
  function FormatInt(n: int): string
  {
    if n < 0 then "-" + Decimal(-n) else Decimal(n)
  }

  lemma {:induction false} DecimalRoundTrip(n: nat)
    ensures DecimalValue(Decimal(n)) == n
  {
    var d := Decimal(n);
    if n >= 10 {
      DecimalRoundTrip(n / 10);
      assert d[..|d| - 1] == Decimal(n / 10);
    }
  }

  lemma {:induction false} DigitSpanOf(d: string, rest: string)
    requires AllDigits(d)
    requires rest == [] || !IsDigit(rest[0])
    ensures DigitSpan(d + rest) == |d|
  {
    if d != [] {
      assert (d + rest)[1..] == d[1..] + rest;
      DigitSpanOf(d[1..], rest);
    }
  }

  /** `%d` reads back any number printed with "%d", whatever non-digit text follows. */
  lemma ScanIntFormat(n: int, rest: string)
    requires rest == [] || !IsDigit(rest[0])
    ensures ScanInt(FormatInt(n) + rest) == Some(n)
  {
    var m: nat := if n < 0 then -n else n;
    var d := Decimal(m);
    DigitSpanOf(d, rest);
    DecimalRoundTrip(m);
    assert (d + rest)[..|d|] == d;
    if n < 0 {
      var s := "-" + (d + rest);
      assert FormatInt(n) + rest == s;
      assert s[1..] == d + rest;
    } else {
      assert FormatInt(n) + rest == d + rest;
      assert d[0] != '-' && d[0] != '+';
    }
  }

  /**
   * The parameter scan reads back any number printed with "%d" after "janela=",
   * whatever non-digit text follows it.
   */
  lemma ParseJanelaFormat(n: int, rest: string)
    requires rest == [] || !IsDigit(rest[0])
    ensures ParseJanela("janela=" + FormatInt(n) + rest) == Some(n)
  {
    var params := "janela=" + FormatInt(n) + rest;
    assert params[..7] == "janela=";
    assert params[7..] == FormatInt(n) + rest;
    ScanIntFormat(n, rest);
  }

  // ---- tcp_server_sent ----

  /**
   * The acknowledgement of `len` more bytes: the new count of bytes sent, and
   * whether the connection is now closed (everything queued has been sent).
   */
  function Sent(sentLen: int, len: nat, headerLen: int, resultLen: int): (int, bool)
  {
    var total := sentLen + len;
    (total, total >= headerLen + resultLen)
  }

  /** The total length of a series of acknowledgements. */
  function Total(acks: seq<nat>): nat {
    if acks == [] then 0 else acks[0] + Total(acks[1..])
  }

  /**
   * tcp_server_sent over a series of acknowledgements: the index of the one
   * that closes the connection (closing removes the callback, so no later one
   * is seen), or None when the connection is still open after them all.
   */
  function ClosingAck(sentLen: int, acks: seq<nat>, headerLen: int, resultLen: int): Option<nat>
    decreases |acks|
  {
    if acks == [] then None
    else
      var (total, done) := Sent(sentLen, acks[0], headerLen, resultLen);
      if done then Some(0)
      else match ClosingAck(total, acks[1..], headerLen, resultLen)
           case None => None
           case Some(k) => Some(k + 1)
  }

  /** After acknowledgement j, everything queued (headers and body) has been sent. */
  predicate Covered(sentLen: int, acks: seq<nat>, j: nat, headerLen: int, resultLen: int)
    requires j < |acks|
    decreases j
  {
    if j == 0 then sentLen + acks[0] >= headerLen + resultLen
    else Covered(sentLen + acks[0], acks[1..], j - 1, headerLen, resultLen)
  }

  /** Coverage after ack j is the running total of bytes sent up to ack j reaching header_len + result_len. */
  lemma {:induction false} CoveredIsRunningTotal(sentLen: int, acks: seq<nat>, j: nat, headerLen: int, resultLen: int)
    requires j < |acks|
    ensures Covered(sentLen, acks, j, headerLen, resultLen)
        <==> sentLen + Total(acks[..j + 1]) >= headerLen + resultLen
    decreases j
  {
    assert acks[..j + 1][0] == acks[0];
    assert acks[..j + 1][1..] == acks[1..][..j];
    if j > 0 {
      CoveredIsRunningTotal(sentLen + acks[0], acks[1..], j - 1, headerLen, resultLen);
    } else {
      assert acks[1..][..0] == [];
    }
  }

  /** No acknowledgement before ack k has covered everything queued. */
  predicate NoneCoveredBefore(sentLen: int, acks: seq<nat>, k: nat, headerLen: int, resultLen: int)
    requires k <= |acks|
  {
    forall j :: 0 <= j < k ==> !Covered(sentLen, acks, j, headerLen, resultLen)
  }

  /**
   * The connection closes at the first acknowledgement that covers everything
   * queued (its running total reaches header_len + result_len, see
   * CoveredIsRunningTotal) and at no earlier one; it stays open exactly when
   * no acknowledgement covers it.
   */
  lemma {:induction false} ClosesAtFirstCompleteAck(sentLen: int, acks: seq<nat>, headerLen: int, resultLen: int)
    ensures forall k :: 0 <= k < |acks| ==>
              (ClosingAck(sentLen, acks, headerLen, resultLen) == Some(k)
               <==> Covered(sentLen, acks, k, headerLen, resultLen)
                    && NoneCoveredBefore(sentLen, acks, k, headerLen, resultLen))
    ensures ClosingAck(sentLen, acks, headerLen, resultLen).None?
            <==> NoneCoveredBefore(sentLen, acks, |acks|, headerLen, resultLen)
    decreases |acks|
  {
    if acks != [] {
      var total := sentLen + acks[0];
      var rest := acks[1..];
      if total < headerLen + resultLen {
        ClosesAtFirstCompleteAck(total, rest, headerLen, resultLen);
        forall k | 0 < k <= |acks|
          ensures NoneCoveredBefore(sentLen, acks, k, headerLen, resultLen)
              <==> NoneCoveredBefore(total, rest, k - 1, headerLen, resultLen)
        {
          if NoneCoveredBefore(sentLen, acks, k, headerLen, resultLen) {
            forall j | 0 <= j < k - 1 ensures !Covered(total, rest, j, headerLen, resultLen) {
              assert !Covered(sentLen, acks, j + 1, headerLen, resultLen);
            }
          }
          if NoneCoveredBefore(total, rest, k - 1, headerLen, resultLen) {
            forall j | 0 < j < k ensures !Covered(sentLen, acks, j, headerLen, resultLen) {
              assert !Covered(total, rest, j - 1, headerLen, resultLen);
            }
          }
        }
      } else {
        assert Covered(sentLen, acks, 0, headerLen, resultLen);
      }
    }
  }

  /**
   * Acknowledgements accumulate: two acks count as one ack of their sum, and
   * once everything queued has been acknowledged the connection stays done.
   */
  lemma SentAccumulates(sentLen: int, len1: nat, len2: nat, headerLen: int, resultLen: int)
    ensures Sent(Sent(sentLen, len1, headerLen, resultLen).0, len2, headerLen, resultLen)
         == Sent(sentLen, len1 + len2, headerLen, resultLen)
    ensures Sent(sentLen, len1, headerLen, resultLen).1
            ==> Sent(Sent(sentLen, len1, headerLen, resultLen).0, len2, headerLen, resultLen).1
  {
  }
}
