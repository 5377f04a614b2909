/** Length-prefixed record framing: an eight-byte big-endian size before each record. */
module Framing {
  import opened Common

  type Byte = b: int | 0 <= b < 256

  type Record = seq<Byte>

  const LENGTH_BYTES := 8

  // ---------- the size header ----------

  function Capacity(width: nat): (c: nat)
    ensures c >= 1
  {
    if width == 0 then 1 else 256 * Capacity(width - 1)
  }

  /** The low bytes of n, most significant first. */
  function BigEndian(n: nat, width: nat): (bs: seq<Byte>)
    ensures |bs| == width
  {
    if width == 0 then [] else BigEndian(n / 256, width - 1) + [n % 256]
  }

  function Number(bs: seq<Byte>): nat {
    if bs == [] then 0 else 256 * Number(bs[..|bs| - 1]) + bs[|bs| - 1]
  }

  lemma {:induction false} HeaderRoundTrip(n: nat, width: nat)
    requires n < Capacity(width)
    ensures Number(BigEndian(n, width)) == n
  {
    if width > 0 {
      HeaderRoundTrip(n / 256, width - 1);
      var bs := BigEndian(n, width);
      assert bs[..|bs| - 1] == BigEndian(n / 256, width - 1);
    }
  }

  lemma {:induction false} NumberRoundTrip(bs: seq<Byte>)
    ensures Number(bs) < Capacity(|bs|) && BigEndian(Number(bs), |bs|) == bs
  {
    if bs != [] {
      NumberRoundTrip(bs[..|bs| - 1]);
      assert bs == bs[..|bs| - 1] + [bs[|bs| - 1]];
    }
  }

  // ---------- frames ----------

  predicate Storable(record: Record) {
    |record| < Capacity(LENGTH_BYTES)
  }

  function Frame(record: Record): seq<Byte> {
    BigEndian(|record|, LENGTH_BYTES) + record
  }

  function Frames(records: seq<Record>): seq<Byte> {
    if records == [] then [] else Frame(records[0]) + Frames(records[1..])
  }

  /** What a reader yields before it stops, and the error that stopped it. */
  datatype Decoded = Decoded(records: seq<Record>, error: Option<string>)

  function Decode(payload: seq<Byte>): Decoded
    decreases |payload|
  {
    if payload == [] then Decoded([], None)
    else if |payload| < LENGTH_BYTES then Decoded([], Some("truncated record length"))
    else
      var size := Number(payload[..LENGTH_BYTES]);
      if |payload| - LENGTH_BYTES < size then Decoded([], Some("truncated record"))
      else
        var rest := Decode(payload[LENGTH_BYTES + size..]);
        Decoded([payload[LENGTH_BYTES..LENGTH_BYTES + size]] + rest.records, rest.error)
  }

  method ReadFrames(payload: seq<Byte>) returns (d: Decoded)
    ensures d == Decode(payload)
  {
    var rest, records := payload, [];
    while rest != []
      invariant Decode(payload) == Decoded(records + Decode(rest).records, Decode(rest).error)
      decreases |rest|
    {
      if |rest| < LENGTH_BYTES {
        return Decoded(records, Some("truncated record length"));
      }
      var size := Number(rest[..LENGTH_BYTES]);
      if |rest| - LENGTH_BYTES < size {
        return Decoded(records, Some("truncated record"));
      }
      var record := rest[LENGTH_BYTES..LENGTH_BYTES + size];
      assert records + ([record] + Decode(rest[LENGTH_BYTES + size..]).records)
          == records + [record] + Decode(rest[LENGTH_BYTES + size..]).records;
      records := records + [record];
      rest := rest[LENGTH_BYTES + size..];
    }
    return Decoded(records, None);
  }

  /** A frame in front of any bytes decodes to its record and then to whatever follows. */
  lemma DecodeFrame(record: Record, rest: seq<Byte>)
    requires Storable(record)
    ensures Decode(Frame(record) + rest) == Decoded([record] + Decode(rest).records, Decode(rest).error)
  {
    var payload := Frame(record) + rest;
    HeaderRoundTrip(|record|, LENGTH_BYTES);
    assert payload[..LENGTH_BYTES] == BigEndian(|record|, LENGTH_BYTES);
    assert payload[LENGTH_BYTES..LENGTH_BYTES + |record|] == record;
    assert payload[LENGTH_BYTES + |record|..] == rest;
  }

  ghost predicate AllStorable(records: seq<Record>) {
    forall i :: 0 <= i < |records| ==> Storable(records[i])
  }

  lemma FirstFrame(records: seq<Record>, rest: seq<Byte>)
    requires records != []
    ensures Frames(records) + rest == Frame(records[0]) + (Frames(records[1..]) + rest)
  {
  }

  lemma FirstRecord(records: seq<Record>, more: seq<Record>)
    requires records != []
    ensures records + more == [records[0]] + (records[1..] + more)
  {
  }

  lemma {:induction false} DecodeFrames(records: seq<Record>, rest: seq<Byte>)
    requires AllStorable(records)
    ensures Decode(Frames(records) + rest) == Decoded(records + Decode(rest).records, Decode(rest).error)
  {
    if records == [] {
      assert Frames(records) + rest == rest;
    } else {
      FirstFrame(records, rest);
      DecodeFrame(records[0], Frames(records[1..]) + rest);
      DecodeFrames(records[1..], rest);
      FirstRecord(records, Decode(rest).records);
    }
  }

  /** Decoding inverts framing. */
  lemma FramesRoundTrip(records: seq<Record>)
    requires AllStorable(records)
    ensures Decode(Frames(records)) == Decoded(records, None)
  {
    assert Frames(records) == Frames(records) + [];
    DecodeFrames(records, []);
  }

  /** And framing inverts decoding: bytes that decode without error are the framing of what they decode to. */
  lemma {:induction false} DecodedRoundTrip(payload: seq<Byte>)
    requires Decode(payload).error.None?
    ensures AllStorable(Decode(payload).records) && Frames(Decode(payload).records) == payload
    decreases |payload|
  {
    if payload != [] {
      var header := payload[..LENGTH_BYTES];
      NumberRoundTrip(header);
      var size := Number(header);
      var record, rest := payload[LENGTH_BYTES..LENGTH_BYTES + size], payload[LENGTH_BYTES + size..];
      DecodedRoundTrip(rest);
      var records := Decode(payload).records;
      assert records[1..] == Decode(rest).records;
      assert payload == header + record + rest;
    }
  }

  lemma {:induction false} FramesAppend(a: seq<Record>, b: seq<Record>)
    ensures Frames(a + b) == Frames(a) + Frames(b)
  {
    if a == [] {
      assert a + b == b;
    } else {
      assert (a + b)[1..] == a[1..] + b;
      FramesAppend(a[1..], b);
    }
  }

  // ---------- truncation ----------

  /** Bytes cut inside a single frame never decode to a record. */
  lemma CutFrame(record: Record, n: nat)
    requires Storable(record) && 0 < n < |Frame(record)|
    ensures Decode(Frame(record)[..n]).records == [] && Decode(Frame(record)[..n]).error.Some?
  {
    var cut := Frame(record)[..n];
    if n >= LENGTH_BYTES {
      HeaderRoundTrip(|record|, LENGTH_BYTES);
      assert cut[..LENGTH_BYTES] == BigEndian(|record|, LENGTH_BYTES);
    }
  }

  /** The number of whole frames within the first n bytes. */
  function WholeFrames(records: seq<Record>, n: nat): (k: nat)
    ensures k <= |records|
    ensures |Frames(records[..k])| <= n
    ensures k < |records| ==> n < |Frames(records[..k])| + |Frame(records[k])|
  {
    if records == [] || n < |Frame(records[0])| then 0
    else
      var k := WholeFrames(records[1..], n - |Frame(records[0])|);
      assert records[..k + 1][1..] == records[1..][..k];
      k + 1
  }

  /**
   * Cutting the framed bytes anywhere yields exactly the records whose frames are whole, and an error unless the cut
   * falls between two frames. Nothing is ever misread.
   */
  lemma TruncationYieldsPrefix(records: seq<Record>, n: nat)
    requires AllStorable(records) && n < |Frames(records)|
    ensures var d, k := Decode(Frames(records)[..n]), WholeFrames(records, n);
            && k < |records|
            && d.records == records[..k]
            && (d.error.None? <==> n == |Frames(records[..k])|)
  {
    var k := WholeFrames(records, n);
    assert records[..|records|] == records;
    assert records == records[..k] + records[k..];
    FramesAppend(records[..k], records[k..]);
    var whole := Frames(records[..k]);
    var m := n - |whole|;
    var cut := Frame(records[k])[..m];
    assert Frames(records)[..n] == whole + cut;
    DecodeFrames(records[..k], cut);
    if m > 0 {
      CutFrame(records[k], m);
    }
  }
}
