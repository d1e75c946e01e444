/** The bytes sent to Redis: commands written as arrays of bulk strings, and a reader for that
    form which knows nothing of the writer. */
module Resp {
  import opened Wrappers
  import Decimal

  const CRLF := "\r\n"
  const UINT_RANGE := 0x1_0000_0000

  datatype Request = Publish(channel: string, message: string) | Ping

  /** A length as it is printed: the 64-bit size narrowed to a 32-bit unsigned number. */
  function Length(n: nat): string {
    Decimal.Print(n % UINT_RANGE)
  }

  function Bulk(s: string): string {
    "$" + Length(|s|) + CRLF + s + CRLF
  }

  function Encode(r: Request): (s: string)
    ensures |s| > 0
  {
    match r
    case Publish(channel, message) => "*3\r\n" + "$7\r\nPUBLISH\r\n" + Bulk(channel) + Bulk(message)
    case Ping => "*1\r\n" + "$4\r\nPING\r\n"
  }

  function EncodeAll(rs: seq<Request>): string {
    if rs == [] then "" else Encode(rs[0]) + EncodeAll(rs[1..])
  }

  /** What a publisher reserves in the output buffer before printing. */
  function Reserved(r: Request): nat {
    match r
    case Publish(channel, message) =>
      |"*3\r\n"| + |"$7\r\nPUBLISH\r\n"| + |"$\r\n\r\n"| + 10 + |channel| + |"$\r\n\r\n"| + 10 + |message|
    case Ping => |"*1\r\n" + "$4\r\nPING\r\n"|
  }

  // The reader ---------------------------------------------------------------------------------

  /** A decimal number followed by CRLF. */
  function ReadNumber(s: string): (r: Option<(nat, string)>)
    ensures r.Some? ==> |r.value.1| < |s|
  {
    var k := Decimal.Span(s);
    if 0 < k && k + 2 <= |s| && s[k..k + 2] == CRLF
    then Some((Decimal.Value(s[..k]), s[k + 2..]))
    else None
  }

  function ReadBulk(s: string): (r: Option<(string, string)>)
    ensures r.Some? ==> |r.value.1| < |s|
  {
    if s == "" || s[0] != '$' then None
    else
      var (n, body) :- ReadNumber(s[1..]);
      if n + 2 <= |body| && body[n..n + 2] == CRLF then Some((body[..n], body[n + 2..])) else None
  }

  function ReadBulks(s: string, n: nat): (r: Option<(seq<string>, string)>)
    ensures r.Some? ==> |r.value.1| <= |s| && |r.value.0| == n
  {
    if n == 0 then Some(([], s))
    else
      var (first, rest) :- ReadBulk(s);
      var (others, end) :- ReadBulks(rest, n - 1);
      Some(([first] + others, end))
  }

  function ReadRequest(s: string): (r: Option<(Request, string)>)
    ensures r.Some? ==> |r.value.1| < |s|
  {
    if s == "" || s[0] != '*' then None
    else
      var (n, body) :- ReadNumber(s[1..]);
      var (args, rest) :- ReadBulks(body, n);
      if n == 3 && args[0] == "PUBLISH" then Some((Publish(args[1], args[2]), rest))
      else if args == ["PING"] then Some((Ping, rest))
      else None
  }

  function Decode(s: string): Option<seq<Request>>
    decreases |s|
  {
    if s == "" then Some([])
    else
      var (first, rest) :- ReadRequest(s);
      var others :- Decode(rest);
      Some([first] + others)
  }

  // Reader against writer ------------------------------------------------------------------------

  /** Both lengths are numbers of 32 bits. */
  predicate Fits(r: Request) {
    r.Publish? ==> |r.channel| <= 0xFFFF_FFFF && |r.message| <= 0xFFFF_FFFF
  }

  lemma ReadPrinted(n: nat, rest: string)
    ensures ReadNumber(Decimal.Print(n) + CRLF + rest) == Some((n, rest))
  {
    var d := Decimal.Print(n);
    var s := d + CRLF + rest;
    assert s == d + (CRLF + rest);
    Decimal.SpanOfDigits(d, CRLF + rest);
    Decimal.ValueOfPrint(n);
    assert s[|d|..|d| + 2] == CRLF && s[|d| + 2..] == rest;
  }

  lemma ReadSmallNumber(d: char, n: nat, rest: string)
    requires n < 10 && d == ('0' as int + n) as char
    ensures ReadNumber([d] + CRLF + rest) == Some((n, rest))
  {
    assert Decimal.Print(n) == [d];
    ReadPrinted(n, rest);
  }

  lemma ReadAnnounced(b: string, rest: string)
    ensures ReadNumber((Bulk(b) + rest)[1..]) == Some((|b| % UINT_RANGE, b + CRLF + rest))
  {
    hide ReadNumber;
    assert (Bulk(b) + rest)[1..] == Length(|b|) + CRLF + (b + CRLF + rest);
    ReadPrinted(|b| % UINT_RANGE, b + CRLF + rest);
  }

  /** Reading a written bulk string: the announced length is the true one modulo 2^32. */
  lemma ReadWrittenBulk(b: string, rest: string)
    ensures |b| < UINT_RANGE ==> ReadBulk(Bulk(b) + rest) == Some((b, rest))
    ensures |b| >= UINT_RANGE ==>
              ReadBulk(Bulk(b) + rest).Some? ==> |ReadBulk(Bulk(b) + rest).value.0| < |b|
  {
    hide ReadNumber;
    var body := b + CRLF + rest;
    ReadAnnounced(b, rest);
    if |b| < UINT_RANGE {
      assert body[..|b|] == b && body[|b|..|b| + 2] == CRLF && body[|b| + 2..] == rest;
    }
  }

  /** Arguments are read one bulk string at a time. */
  lemma ReadBulksStep(b: string, rest: string, n: nat)
    requires |b| < UINT_RANGE
    ensures var more := ReadBulks(rest, n);
            ReadBulks(Bulk(b) + rest, n + 1)
            == if more.Some? then Some(([b] + more.value.0, more.value.1)) else None
  {
    ReadWrittenBulk(b, rest);
  }

  /** The command names are themselves bulk strings, with their lengths written out. */
  lemma CommandNames()
    ensures "$7\r\nPUBLISH\r\n" == Bulk("PUBLISH")
    ensures "$4\r\nPING\r\n" == Bulk("PING")
  {
    assert Length(7) == "7" && Length(4) == "4";
  }

  lemma ReadHeader(d: char, n: nat, body: string)
    requires n < 10 && d == ('0' as int + n) as char
    ensures ReadNumber(([ '*', d ] + CRLF + body)[1..]) == Some((n, body))
  {
    assert ([ '*', d ] + CRLF + body)[1..] == [d] + CRLF + body;
    ReadSmallNumber(d, n, body);
  }

  lemma ReadWrittenPing(rest: string)
    ensures ReadRequest(Encode(Ping) + rest) == Some((Ping, rest))
  {
    CommandNames();
    var body := Bulk("PING") + rest;
    assert Encode(Ping) + rest == ['*', '1'] + CRLF + body;
    ReadHeader('1', 1, body);
    ReadBulksStep("PING", rest, 0);
  }

  lemma PublishShape(c: string, m: string, rest: string)
    ensures Encode(Publish(c, m)) + rest == ['*', '3'] + CRLF + (Bulk("PUBLISH") + (Bulk(c) + (Bulk(m) + rest)))
  {
    CommandNames();
    var name, first, second := Bulk("PUBLISH"), Bulk(c), Bulk(m);
    assert Encode(Publish(c, m)) == "*3\r\n" + name + first + second;
    assert "*3\r\n" == ['*', '3'] + CRLF;
  }

  /** Reading a PUBLISH comes down to reading its two arguments. */
  lemma ReadPublishArguments(args: string)
    ensures var r := ReadBulks(args, 2);
            ReadRequest(['*', '3'] + CRLF + (Bulk("PUBLISH") + args))
            == if r.Some? then Some((Publish(r.value.0[0], r.value.0[1]), r.value.1)) else None
  {
    var body := Bulk("PUBLISH") + args;
    ReadHeader('3', 3, body);
    var r := ReadBulks(args, 2);
    assert ReadBulks(body, 3) == if r.Some? then Some((["PUBLISH"] + r.value.0, r.value.1)) else None by {
      ReadBulksStep("PUBLISH", args, 2);
    }
  }

  /** The two arguments of a written PUBLISH are read back when both lengths fit, and when either
      does not, what is read is never the request that was written. */
  lemma ReadWrittenPublish(c: string, m: string, rest: string)
    ensures var r := ReadRequest(Encode(Publish(c, m)) + rest);
            if Fits(Publish(c, m)) then r == Some((Publish(c, m), rest))
            else r.Some? ==> r.value.0 != Publish(c, m)
  {
    PublishShape(c, m, rest);
    var tail := Bulk(m) + rest;
    ReadPublishArguments(Bulk(c) + tail);
    ReadWrittenBulk(c, tail);
    ReadWrittenBulk(m, rest);
    assert ReadBulks(rest, 0) == Some(([], rest));
    if |c| < UINT_RANGE {
      ReadBulksStep(c, tail, 1);
    }
  }

  /** Pipelined requests are told apart again from their concatenated bytes, for any channels and
      messages, exactly when every length survives the narrowing to 32 bits. */
  lemma {:induction false} PipelineDecodesUniquely(rs: seq<Request>)
    ensures Decode(EncodeAll(rs)) == Some(rs) <==> (forall i :: 0 <= i < |rs| ==> Fits(rs[i]))
  {
    hide ReadRequest, Encode;
    if rs != [] {
      var rest := EncodeAll(rs[1..]);
      PipelineDecodesUniquely(rs[1..]);
      match rs[0] {
        case Publish(c, m) => ReadWrittenPublish(c, m, rest);
        case Ping => ReadWrittenPing(rest);
      }
      var s := EncodeAll(rs);
      if Fits(rs[0]) {
        assert ReadRequest(s) == Some((rs[0], rest));
        assert rs == [rs[0]] + rs[1..];
      }
    }
  }

  lemma {:induction false} EncodeAllConcat(a: seq<Request>, b: seq<Request>)
    ensures EncodeAll(a + b) == EncodeAll(a) + EncodeAll(b)
  {
    if a == [] {
      assert a + b == b;
    } else {
      assert (a + b)[1..] == a[1..] + b;
      EncodeAllConcat(a[1..], b);
    }
  }

  /** The printed request never outgrows the reservation, whatever the lengths. */
  lemma FitsReservation(r: Request)
    ensures |Encode(r)| <= Reserved(r)
  {
    if r.Publish? {
      assert Decimal.Pow10(10) > UINT_RANGE by {
        assert Decimal.Pow10(4) == 10000;
        assert Decimal.Pow10(7) == 10000000;
      }
      Decimal.DigitCount(|r.channel| % UINT_RANGE, 10);
      Decimal.DigitCount(|r.message| % UINT_RANGE, 10);
    }
  }

  lemma {:induction false} TenDigits(n: nat)
    requires 1_000_000_000 <= n <= 0xFFFF_FFFF
    ensures |Decimal.Print(n)| == 10
  {
    assert Decimal.Pow10(4) == 10000 && Decimal.Pow10(7) == 10000000;
    assert Decimal.Pow10(9) == 1_000_000_000 && Decimal.Pow10(10) == 10_000_000_000;
    Decimal.DigitCount(n, 9);
    Decimal.DigitCount(n, 10);
  }

  /** No byte less would do: the longest lengths use up the reservation. */
  lemma ReservationIsNeeded(c: string, m: string)
    requires 1_000_000_000 <= |c| <= 0xFFFF_FFFF && 1_000_000_000 <= |m| <= 0xFFFF_FFFF
    ensures |Encode(Publish(c, m))| == Reserved(Publish(c, m))
  {
    hide Bulk;
    LongBulk(c);
    LongBulk(m);
    assert |"*3\r\n"| == 4 && |"$7\r\nPUBLISH\r\n"| == 13 && |"$\r\n\r\n"| == 5;
  }

  lemma LongBulk(s: string)
    requires 1_000_000_000 <= |s| <= 0xFFFF_FFFF
    ensures |Bulk(s)| == 15 + |s|
  {
    hide Bulk, Decimal.Print;
    TenDigits(|s|);
    BulkLength(s);
  }

  lemma BulkLength(s: string)
    ensures |Bulk(s)| == 5 + |Length(|s|)| + |s|
  {
  }
}
