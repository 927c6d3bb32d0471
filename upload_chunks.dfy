/**
 * The pure arithmetic of the browser upload manager: which strategy a file
 * size selects, how a resumable upload cuts the file into byte ranges, the
 * `Content-Range` header each range is sent with, the `Range: bytes=0-N`
 * header a 308 reply carries, and the back-off between failed attempts.
 */
module UploadChunks {
  import opened Common
  import opened Decimal

  const Mebibyte: nat := 1024 * 1024
  /** Files of at least this many bytes go through the resumable path. */
  const ResumableThresholdBytes: nat := 10 * Mebibyte
  /** Every chunk but the last holds exactly this many bytes. */
  const ChunkSize: nat := 3 * Mebibyte
  const MaxChunkRetries: nat := 3
  const BackoffBaseMs: nat := 500

  datatype Strategy = SinglePut | Resumable

  function ChooseStrategy(size: nat): Strategy {
    if size >= ResumableThresholdBytes then Resumable else SinglePut
  }

  /** The strategy is resumable exactly for files of 10 MiB or more. */
  lemma StrategyThreshold(size: nat)
    ensures ChooseStrategy(size) == Resumable <==> size >= 10 * 1024 * 1024
    ensures ChooseStrategy(size) == SinglePut <==> size < 10 * 1024 * 1024
  {
  }

  /** The last byte of the chunk that starts at `start`. */
  function ChunkEnd(start: nat, total: nat): (end: nat)
    requires start < total
    ensures start <= end < total
    ensures end - start + 1 <= ChunkSize
    ensures end - start + 1 == ChunkSize || end == total - 1
  {
    Min(total - 1, start + ChunkSize - 1)
  }

  /** An inclusive byte range `[first, last]`. */
  datatype ByteRange = ByteRange(first: nat, last: nat)

  /** The ranges the chunk loop walks through from `start` when every chunk is accepted. */
  function Chunks(start: nat, total: nat): seq<ByteRange>
    decreases total - start
  {
    if start >= total then []
    else
      var end := ChunkEnd(start, total);
      [ByteRange(start, end)] + Chunks(end + 1, total)
  }

  function CeilDiv(a: nat, b: nat): nat
    requires b > 0
  {
    (a + b - 1) / b
  }

  /** An independent description of chunk `i` of a file of `total` bytes. */
  function NthChunk(i: nat, total: nat): ByteRange
    requires i * ChunkSize < total
  {
    ByteRange(i * ChunkSize, Min(total - 1, i * ChunkSize + ChunkSize - 1))
  }

  /**
   * Walking from a chunk boundary `k * ChunkSize`, the walk produces the
   * chunks `k, k+1, ...` of the closed form, and there are as many as the
   * remaining bytes need.
   */
  lemma {:induction false} ChunksFrom(k: nat, total: nat)
    requires k * ChunkSize <= total
    ensures |Chunks(k * ChunkSize, total)| == CeilDiv(total - k * ChunkSize, ChunkSize)
    ensures forall i :: 0 <= i < |Chunks(k * ChunkSize, total)| ==>
              (k + i) * ChunkSize < total && Chunks(k * ChunkSize, total)[i] == NthChunk(k + i, total)
    decreases total - k * ChunkSize
  {
    var start := k * ChunkSize;
    if start < total {
      var end := ChunkEnd(start, total);
      if end == total - 1 {
        assert Chunks(end + 1, total) == [];
        assert total - start <= ChunkSize;
        assert CeilDiv(total - start, ChunkSize) == 1;
      } else {
        assert end + 1 == (k + 1) * ChunkSize;
        ChunksFrom(k + 1, total);
        var rest := Chunks(end + 1, total);
        assert Chunks(start, total) == [ByteRange(start, end)] + rest;
        assert CeilDiv(total - start, ChunkSize) == 1 + CeilDiv(total - (k + 1) * ChunkSize, ChunkSize);
        forall i | 0 <= i < |Chunks(start, total)|
          ensures (k + i) * ChunkSize < total && Chunks(start, total)[i] == NthChunk(k + i, total)
        {
          if i > 0 {
            assert Chunks(start, total)[i] == rest[i - 1];
          }
        }
      }
    } else {
      assert total - start == 0;
    }
  }

  /** Consecutive chunks of a file touch: each starts one byte after its predecessor ends. */
  lemma ChunksContiguous(total: nat)
    ensures forall i :: 0 < i < |Chunks(0, total)| ==>
              Chunks(0, total)[i].first == Chunks(0, total)[i - 1].last + 1
  {
    ChunksFrom(0, total);
    var c := Chunks(0, total);
    forall i | 0 < i < |c|
      ensures c[i].first == c[i - 1].last + 1
    {
      assert c[i] == NthChunk(i, total) && c[i - 1] == NthChunk(i - 1, total);
      assert i * ChunkSize < total;
      assert (i - 1) * ChunkSize + ChunkSize - 1 == i * ChunkSize - 1;
    }
  }

  /** The first chunk of a non-empty file starts at 0 and the last ends at total - 1. */
  lemma ChunksEnds(total: nat)
    requires total > 0
    ensures |Chunks(0, total)| >= 1
    ensures Chunks(0, total)[0].first == 0
    ensures Chunks(0, total)[|Chunks(0, total)| - 1].last == total - 1
  {
    ChunksFrom(0, total);
    var c := Chunks(0, total);
    var n := |c|;
    CeilDivBounds(total, ChunkSize);
    assert c[n - 1] == NthChunk(n - 1, total);
    assert (n - 1) * ChunkSize + ChunkSize - 1 == n * ChunkSize - 1;
  }

  /**
   * The chunks of a whole file: there are ceil(total / ChunkSize) of them,
   * chunk i is [i*ChunkSize, min(total-1, i*ChunkSize + ChunkSize - 1)], the first
   * starts at 0, each starts one byte after its predecessor ends, and the last
   * ends at total - 1.
   */
  lemma ChunksOfFile(total: nat)
    ensures |Chunks(0, total)| == CeilDiv(total, ChunkSize)
    ensures forall i :: 0 <= i < |Chunks(0, total)| ==>
              i * ChunkSize < total && Chunks(0, total)[i] == NthChunk(i, total)
    ensures total > 0 ==> Chunks(0, total)[0].first == 0
    ensures forall i :: 0 < i < |Chunks(0, total)| ==>
              Chunks(0, total)[i].first == Chunks(0, total)[i - 1].last + 1
    ensures total > 0 ==> Chunks(0, total)[|Chunks(0, total)| - 1].last == total - 1
  {
    ChunksFrom(0, total);
    var c := Chunks(0, total);
    forall i | 0 <= i < |c|
      ensures i * ChunkSize < total && c[i] == NthChunk(i, total)
    {
      assert 0 + i == i;
    }
    ChunksContiguous(total);
    if total > 0 {
      ChunksEnds(total);
    }
  }

  /** n = ceil(a / b) is the least n with a <= n * b. */
  lemma CeilDivBounds(a: nat, b: nat)
    requires a > 0 && b > 0
    ensures CeilDiv(a, b) >= 1
    ensures (CeilDiv(a, b) - 1) * b < a <= CeilDiv(a, b) * b
  {
    var q := CeilDiv(a, b);
    var r := (a + b - 1) % b;
    assert a + b - 1 == q * b + r;
    assert (q - 1) * b == q * b - b;
  }

  /** Every byte of the file lies in exactly one chunk: chunk number `b / ChunkSize`. */
  lemma ChunksCover(total: nat, b: nat, i: nat)
    requires b < total
    requires i < |Chunks(0, total)|
    ensures Chunks(0, total)[i].first <= b <= Chunks(0, total)[i].last <==> i == b / ChunkSize
  {
    ChunksOfFile(total);
  }

  /** The example from the design notes: a 50 MiB file takes 17 chunks of 3 MiB. */
  lemma FiftyMebibytesTakeSeventeenChunks()
    ensures |Chunks(0, 50 * 1024 * 1024)| == 17
  {
    ChunksOfFile(50 * 1024 * 1024);
  }

  /** The `Content-Range` header built by hand for one chunk: `bytes start-end/total`. */
  function ContentRange(first: nat, last: nat, total: nat): string {
    "bytes " + NatToString(first) + "-" + NatToString(last) + "/" + NatToString(total)
  }

  /** Reads a digit run that is followed by `sep`, returning its value and what follows `sep`. */
  function ParseNumberThen(s: string, sep: char): Option<(nat, string)> {
    var k := DigitPrefixLen(s);
    if k == 0 || k == |s| || s[k] != sep then None else Some((DigitsValue(s[..k]), s[k + 1..]))
  }

  /** Reads back a header of the form `bytes A-B/C`; anything else is rejected. */
  function ParseContentRange(h: string): Option<(nat, nat, nat)> {
    if |h| < 6 || h[..6] != "bytes " then None
    else
      match ParseNumberThen(h[6..], '-')
      case None => None
      case Some((first, r2)) =>
        match ParseNumberThen(r2, '/')
        case None => None
        case Some((last, r3)) =>
          var k3 := DigitPrefixLen(r3);
          if k3 == 0 || k3 != |r3| then None else Some((first, last, DigitsValue(r3)))
  }

  /** The spelling of a number followed by a separator reads back as that number. */
  lemma ParseNumberThenSpelling(n: nat, sep: char, rest: string)
    requires !IsDigit(sep)
    ensures ParseNumberThen(NatToString(n) + [sep] + rest, sep) == Some((n, rest))
  {
    var d := NatToString(n);
    var s := d + [sep] + rest;
    assert s == d + ([sep] + rest);
    DigitPrefixOfConcat(d, [sep] + rest);
    assert s[..|d|] == d;
    assert s[|d| + 1..] == rest;
    DigitsValueOfNatToString(n);
  }

  /** The header of a chunk determines the chunk's range and the file size: it reads back. */
  lemma ContentRangeRoundTrip(first: nat, last: nat, total: nat)
    ensures ParseContentRange(ContentRange(first, last, total)) == Some((first, last, total))
  {
    var a, b, c := NatToString(first), NatToString(last), NatToString(total);
    var h := ContentRange(first, last, total);
    assert h == "bytes " + (a + ['-'] + (b + ['/'] + c));
    assert h[6..] == a + ['-'] + (b + ['/'] + c);
    ParseNumberThenSpelling(first, '-', b + ['/'] + c);
    ParseNumberThenSpelling(last, '/', c);
    DigitPrefixOfConcat(c, []);
    assert c + [] == c;
    DigitsValueOfNatToString(total);
  }

  /** The literal the server-offset pattern `/bytes=0-(\d+)/` starts with. */
  const ResumePrefix: string := "bytes=0-"

  /**
   * The unanchored search of `/bytes=0-(\d+)/` in `h` from position `i`: the
   * leftmost place where the prefix is followed by at least one digit, the
   * greedy digit run read as a number.
   */
  function FindResumeOffset(h: string, i: nat): Option<nat>
    decreases |h| - i
  {
    if i + |ResumePrefix| >= |h| then None
    else if h[i..i + |ResumePrefix|] == ResumePrefix && IsDigit(h[i + |ResumePrefix|]) then
      var digits := h[i + |ResumePrefix|..];
      Some(DigitsValue(digits[..DigitPrefixLen(digits)]))
    else FindResumeOffset(h, i + 1)
  }

  function ResumeOffset(h: string): Option<nat> { FindResumeOffset(h, 0) }

  /** A header `bytes=0-N` produced by a server that holds bytes 0..N reads as N. */
  lemma ResumeOffsetRoundTrip(n: nat)
    ensures ResumeOffset(ResumePrefix + NatToString(n)) == Some(n)
  {
    var d := NatToString(n);
    var h := ResumePrefix + d;
    assert h[0..|ResumePrefix|] == ResumePrefix;
    assert h[|ResumePrefix|..] == d;
    assert h[|ResumePrefix|] == d[0];
    DigitPrefixOfConcat(d, []);
    assert d + [] == d;
    DigitsValueOfNatToString(n);
  }

  /** A header with no digit anywhere can never yield an offset. */
  lemma {:induction false} NoDigitNoOffset(h: string, i: nat)
    requires forall j :: 0 <= j < |h| ==> !IsDigit(h[j])
    ensures FindResumeOffset(h, i) == None
    decreases |h| - i
  {
    if i + |ResumePrefix| < |h| {
      NoDigitNoOffset(h, i + 1);
    }
  }

  /** The sleep after failed attempt `attempt` (counted from 1): 500 * 2^(attempt-1) ms. */
  function Backoff(attempt: nat): nat
    requires attempt >= 1
    decreases attempt
  {
    if attempt == 1 then BackoffBaseMs else 2 * Backoff(attempt - 1)
  }

  /** The two sleeps a chunk can incur before its third and last attempt. */
  lemma BackoffSchedule()
    ensures Backoff(1) == 500 && Backoff(2) == 1000
  {
  }
}
