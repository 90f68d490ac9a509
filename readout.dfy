/**
 * Arithmetic of the readout buffer shared by the partition and endpoint
 * nodes and the master command line: how many whole events a word count
 * holds, how many words a read asks for, and how read-out words are
 * labelled in tables.
 */
module Readout {
  import opened Wrappers

  /** Words per event in the partition buffer (`kWordsPerEvent`, `kEventSize` in the master commands). */
  const WordsPerEvent: nat := 6

  /** `EventReadError`: more events requested than the buffer holds. */
  datatype ReadError = EventReadError(requested: nat, available: nat)

  /** The number of complete events in a buffer holding `count` words. */
  function EventsInBuffer(count: U32): (n: U32)
    ensures n * WordsPerEvent <= count < (n + 1) * WordsPerEvent
  {
    count / WordsPerEvent
  }

  /**
   * The events a request for `requested` events reads, 0 meaning all of
   * them, or the error raised when the buffer holds fewer.  The request is
   * taken at full width (see `EventsToReadAsWritten`).
   */
  function EventsToRead(requested: nat, count: U32): (r: Result<U32, ReadError>)
    ensures r.Err? <==> requested > EventsInBuffer(count)
    ensures r.Err? ==> r.error == EventReadError(requested, EventsInBuffer(count))
    ensures r.Ok? ==> r.value * WordsPerEvent <= count
    ensures r.Ok? && requested != 0 ==> r.value == requested
    ensures r.Ok? && requested == 0 ==> count - r.value * WordsPerEvent < WordsPerEvent
  {
    var available := EventsInBuffer(count);
    var toRead := if requested == 0 then available else requested;
    if available < toRead then Err(EventReadError(requested, available)) else Ok(toRead)
  }

  /**
   * The event count as both `read_events` and `readEvents` compute it: the
   * `size_t` request is stored in a `uint32_t`, which keeps it modulo 2^32,
   * before it is compared with the events available.
   */
  function EventsToReadAsWritten(requested: nat, count: U32): (r: Result<U32, ReadError>)
    ensures r.Ok? ==> r.value * WordsPerEvent <= count
    ensures requested < 0x1_0000_0000 ==> r == EventsToRead(requested, count)
    ensures requested != 0 && requested % 0x1_0000_0000 == 0 ==> r == Ok(0)
  {
    var available := EventsInBuffer(count);
    var toRead: U32 := if requested == 0 then available else requested % 0x1_0000_0000;
    if available < toRead then Err(EventReadError(requested, available)) else Ok(toRead)
  }

  /** A request for 2^32 events from an empty buffer reads nothing instead of raising `EventReadError`. */
  lemma TruncatedRequestIsNotRejected()
    ensures EventsToReadAsWritten(0x1_0000_0000, 0) == Ok(0)
    ensures EventsToRead(0x1_0000_0000, 0).Err?
  {
  }

  /** The words to read from a buffer holding `count` words: all of them, or only those of complete events. */
  function WordsToRead(count: U32, readAll: bool, eventSize: nat): (n: U32)
    requires eventSize > 0
    ensures n <= count
    ensures readAll ==> n == count
    ensures !readAll ==> IsMultiple(n, eventSize) && count - n < eventSize
  {
    if readAll then count
    else
      var events := count / eventSize;
      assert count == events * eventSize + count % eventSize;
      assert IsMultiple(events * eventSize, eventSize);
      events * eventSize
  }

  /** `n` is a whole number of `size`-word events. */
  ghost predicate IsMultiple(n: nat, size: nat)
  {
    exists k: nat :: n == k * size
  }

  // ---------------------------------------------------------------------------
  // Word labels: the index of a word in decimal, zero-padded to four digits.

  predicate IsDigits(s: string)
  {
    forall i :: 0 <= i < |s| ==> '0' <= s[i] <= '9'
  }

  function DigitChar(d: nat): (c: char)
    requires d < 10
    ensures '0' <= c <= '9'
  {
    ['0', '1', '2', '3', '4', '5', '6', '7', '8', '9'][d]
  }

  /** The decimal representation of `n`, without leading zeros. */
  function Decimal(n: nat): (s: string)
    ensures |s| >= 1 && IsDigits(s)
    ensures |s| > 1 ==> s[0] != '0'
  {
    if n < 10 then [DigitChar(n)] else Decimal(n / 10) + [DigitChar(n % 10)]
  }

  function DigitValue(c: char): nat
  {
    if '0' <= c <= '9' then (c - '0') as nat else 0
  }

  /** The number a string of decimal digits denotes; leading zeros do not count. */
  function DecimalValue(s: string): nat
  {
    if s == [] then 0 else 10 * DecimalValue(s[..|s| - 1]) + DigitValue(s[|s| - 1])
  }

  function Zeros(k: nat): (s: string)
    ensures |s| == k && forall i :: 0 <= i < k ==> s[i] == '0'
  {
    seq(k, _ => '0')
  }

  /** `std::setfill('0') << std::setw(width)`; for width 4, Python's `'{:04d}'` on a natural. */
  function ZeroPad(s: string, width: nat): string
  {
    if |s| >= width then s else Zeros(width - |s|) + s
  }

  /** The label of the `i`-th word of a buffer table. */
  function IndexLabel(i: nat): string
  {
    ZeroPad(Decimal(i), 4)
  }

  lemma {:induction false} DecimalRoundTrip(n: nat)
    ensures DecimalValue(Decimal(n)) == n
  {
    var s := Decimal(n);
    if n < 10 {
      assert DigitValue(s[0]) == n;
    } else {
      var last := s[|s| - 1];
      assert s[..|s| - 1] == Decimal(n / 10);
      assert DigitValue(last) == n % 10 by {
        assert last == DigitChar(n % 10);
      }
      DecimalRoundTrip(n / 10);
      assert DecimalValue(s) == 10 * (n / 10) + n % 10;
    }
  }

  lemma {:induction false} LeadingZerosDoNotCount(k: nat, s: string)
    ensures DecimalValue(Zeros(k) + s) == DecimalValue(s)
  {
    if s == [] {
      assert Zeros(k) + s == Zeros(k);
      ZerosAreZero(k);
    } else {
      assert (Zeros(k) + s)[..|Zeros(k) + s| - 1] == Zeros(k) + s[..|s| - 1];
      LeadingZerosDoNotCount(k, s[..|s| - 1]);
    }
  }

  lemma {:induction false} ZerosAreZero(k: nat)
    ensures DecimalValue(Zeros(k)) == 0
  {
    if k > 0 {
      assert Zeros(k)[..k - 1] == Zeros(k - 1);
      ZerosAreZero(k - 1);
    }
  }

  /**
   * The label of word `i` is a string of at least four decimal digits that
   * ends in the decimal representation of `i`, and it denotes `i`: distinct
   * words get distinct labels.
   */
  lemma IndexLabelDenotesIndex(i: nat)
    ensures IsDigits(IndexLabel(i))
    ensures |IndexLabel(i)| == if |Decimal(i)| >= 4 then |Decimal(i)| else 4
    ensures i < 10000 ==> |IndexLabel(i)| == 4
    ensures DecimalValue(IndexLabel(i)) == i
  {
    var d := Decimal(i);
    DecimalRoundTrip(i);
    if |d| < 4 {
      LeadingZerosDoNotCount(4 - |d|, d);
    }
    if i < 10000 {
      DecimalLength(i);
    }
  }

  lemma {:induction false} DecimalLength(n: nat)
    ensures n < 10000 ==> |Decimal(n)| <= 4
    ensures n < 1000 ==> |Decimal(n)| <= 3
    ensures n < 100 ==> |Decimal(n)| <= 2
  {
    if n >= 10 {
      DecimalLength(n / 10);
    }
  }

  lemma IndexLabelsDistinct(i: nat, j: nat)
    requires IndexLabel(i) == IndexLabel(j)
    ensures i == j
  {
    IndexLabelDenotesIndex(i);
    IndexLabelDenotesIndex(j);
  }

  /** One row of a buffer table: a word's label and the word. */
  datatype Row = Row(tag: string, word: int)

  /** The rows of a buffer table, one per word read, in order. */
  method BufferTableRows(words: seq<int>) returns (rows: seq<Row>)
    ensures |rows| == |words|
    ensures forall i :: 0 <= i < |words| ==> rows[i] == Row(IndexLabel(i), words[i])
  {
    rows := [];
    var i := 0;
    while i < |words|
      invariant i <= |words| && |rows| == i
      invariant forall k :: 0 <= k < i ==> rows[k] == Row(IndexLabel(k), words[k])
    {
      rows := rows + [Row(IndexLabel(i), words[i])];
      i := i + 1;
    }
  }
}
