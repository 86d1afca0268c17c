/**
 The framed encryption stream as a pure format: what EncryptStream, its
 writer and DecryptStream's reader produce and accept, independent of how
 the bytes are chunked on the way.
 */
module FrameFormat {
  import opened Bytes
  import opened Aead

  /** nonce(12) + frameLen(4) */
  const HEADER_SIZE: nat := 16

  /** Sixteen zero bytes: zero nonce, zero frame length. */
  const EOF_MARKER: Bytes := [0, 0, 0, 0, 0, 0, 0, 0, 0, 0, 0, 0, 0, 0, 0, 0]

  // ---------------------------------------------------------------- encoder

  /** The nonce of the write that runs with this counter: eight bytes big-endian, then four zeros. */
  function Nonce(counter: nat): (nonce: Bytes)
    requires counter < TWO_64
    ensures |nonce| == NONCE_SIZE
  {
    BigEndian(counter, 8) + [0, 0, 0, 0]
  }

  /** `counter++` on a uint64. */
  function NextCounter(counter: nat): (next: nat)
    requires counter < TWO_64
    ensures next < TWO_64
  {
    if counter + 1 == TWO_64 then 0 else counter + 1
  }

  /** One frame. The length field is `uint32(len(ciphertext))`, which truncates. */
  function Frame(c: Cipher, counter: nat, text: Bytes): Bytes
    requires counter < TWO_64
  {
    var sealed := c.seal(Nonce(counter), text);
    Nonce(counter) + BigEndian(|sealed| % TWO_32, 4) + sealed
  }

  /** The frames of a sequence of writes, the first of them running with `counter`. */
  function Frames(c: Cipher, counter: nat, writes: seq<Bytes>): Bytes
    requires counter < TWO_64
    decreases |writes|
  {
    if writes == [] then []
    else Frame(c, counter, writes[0]) + Frames(c, NextCounter(counter), writes[1..])
  }

  /** Everything one stream writes: salt, frames, and the marker of its first Close. */
  function Stream(derive: KeyDerivation, salt: Bytes, writes: seq<Bytes>): Bytes {
    salt + (Frames(derive(salt), 1, writes) + EOF_MARKER)
  }

  /** A write whose ciphertext length fits the 32-bit field. */
  predicate Fits(text: Bytes) {
    |text| + TAG_SIZE < TWO_32
  }

  predicate AllFit(writes: seq<Bytes>) {
    forall i :: 0 <= i < |writes| ==> Fits(writes[i])
  }

  // ---------------------------------------------------------------- decoder

  /** How a reader's byte stream ends. */
  datatype End =
    | CleanEof(unread: Bytes)
    | ShortSalt
    | ShortHeader
    | ShortData
    | AuthFailed

  datatype Decoded = Decoded(text: Bytes, end: End)

  datatype FrameRead = Got(text: Bytes, rest: Bytes) | Stop(end: End)

  /** The frame at the front of `src`. */
  function ReadFrame(c: Cipher, src: Bytes): (r: FrameRead)
    ensures r.Got? ==> |r.rest| < |src|
  {
    if |src| < HEADER_SIZE then Stop(ShortHeader)
    else
      var frameLen := FromBigEndian(src[12..16]);
      if frameLen == 0 then Stop(CleanEof(src[HEADER_SIZE..]))
      else if |src| < HEADER_SIZE + frameLen then Stop(ShortData)
      else
        match c.open(src[..12], src[HEADER_SIZE..HEADER_SIZE + frameLen])
        case None => Stop(AuthFailed)
        case Some(text) => Got(text, src[HEADER_SIZE + frameLen..])
  }

  /** All the plaintext up to the first marker or the first error. */
  function Decode(c: Cipher, src: Bytes): Decoded
    decreases |src|
  {
    match ReadFrame(c, src)
    case Stop(end) => Decoded([], end)
    case Got(text, rest) =>
      var later := Decode(c, rest);
      Decoded(text + later.text, later.end)
  }

  /** DecryptStream followed by reading to the end. */
  function DecodeStream(derive: KeyDerivation, src: Bytes): Decoded {
    if |src| < SALT_SIZE then Decoded([], ShortSalt)
    else Decode(derive(src[..SALT_SIZE]), src[SALT_SIZE..])
  }

  // ---------------------------------------------------------- one frame

  lemma FrameParts(c: Cipher, counter: nat, text: Bytes, rest: Bytes)
    requires counter < TWO_64 && c.Sound()
    ensures var src := Frame(c, counter, text) + rest;
            && |Frame(c, counter, text)| == HEADER_SIZE + |text| + TAG_SIZE
            && src[..12] == Nonce(counter)
            && FromBigEndian(src[12..16]) == (|text| + TAG_SIZE) % TWO_32
            && src[HEADER_SIZE..] == c.seal(Nonce(counter), text) + rest
  {
    var sealed := c.seal(Nonce(counter), text);
    var src := Frame(c, counter, text) + rest;
    var field := BigEndian(|sealed| % TWO_32, 4);
    Limits();
    BigEndianRoundTrip(|sealed| % TWO_32, 4);
    assert src == Nonce(counter) + (field + (sealed + rest));
    assert src[12..16] == field;
    assert src[..12] == Nonce(counter);
    assert src[HEADER_SIZE..] == sealed + rest;
  }

  /**
   The wire format of a frame, byte by byte: eight bytes of counter and four
   zeros for the nonce, four bytes of length, the most significant first, and
   the ciphertext under that nonce.
   */
  lemma FrameBytes(c: Cipher, counter: nat, text: Bytes)
    requires counter < TWO_64 && c.Sound() && Fits(text)
    ensures var f := Frame(c, counter, text);
            && |f| == 16 + |text| + 16
            && (forall i :: 0 <= i < 8 ==> f[i] == ByteOf(counter, 7 - i))
            && (forall i :: 8 <= i < 12 ==> f[i] == 0)
            && (forall i :: 12 <= i < 16 ==> f[i] == ByteOf(|text| + 16, 15 - i))
            && f[16..] == c.seal(f[..12], text)
  {
    FrameSplit(c, counter, text);
    var f := Frame(c, counter, text);
    forall i | 0 <= i < 8 ensures f[i] == ByteOf(counter, 7 - i) {
      BigEndianByte(counter, 8, i);
      assert f[i] == f[..12][i];
    }
    forall i | 8 <= i < 12 ensures f[i] == 0 {
      assert f[i] == f[..12][i];
    }
    forall i | 12 <= i < 16 ensures f[i] == ByteOf(|text| + 16, 15 - i) {
      BigEndianByte(|text| + 16, 4, i - 12);
      assert f[i] == f[12..16][i - 12];
    }
  }

  lemma FrameSplit(c: Cipher, counter: nat, text: Bytes)
    requires counter < TWO_64 && c.Sound() && Fits(text)
    ensures var f := Frame(c, counter, text);
            && |f| == 16 + |text| + 16
            && f[..12] == BigEndian(counter, 8) + [0, 0, 0, 0]
            && f[12..16] == BigEndian(|text| + 16, 4)
            && f[16..] == c.seal(f[..12], text)
  {
    HeaderSplit(Nonce(counter), BigEndian(|text| + 16, 4), c.seal(Nonce(counter), text));
  }

  lemma HeaderSplit(nonce: Bytes, field: Bytes, sealed: Bytes)
    requires |nonce| == 12 && |field| == 4
    ensures var f := nonce + field + sealed;
            f[..12] == nonce && f[12..16] == field && f[16..] == sealed
  {
  }

  /** A frame is read back exactly when its ciphertext length fits the header field. */
  lemma FrameRoundTripIff(c: Cipher, counter: nat, text: Bytes, rest: Bytes)
    requires counter < TWO_64 && c.Sound()
    ensures ReadFrame(c, Frame(c, counter, text) + rest) == Got(text, rest) <==> Fits(text)
  {
    FrameParts(c, counter, text, rest);
    var sealed := c.seal(Nonce(counter), text);
    var src := Frame(c, counter, text) + rest;
    if Fits(text) {
      assert src[HEADER_SIZE..HEADER_SIZE + |sealed|] == (sealed + rest)[..|sealed|] == sealed;
      assert src[HEADER_SIZE + |sealed|..] == (sealed + rest)[|sealed|..] == rest;
    } else {
      assert (|text| + TAG_SIZE) % TWO_32 < |text| + TAG_SIZE;
    }
  }

  /**
   The failing family the length field allows: a write of 2^32 - 16 bytes (or a
   multiple of 2^32 later) is followed by what reads as a clean end of stream,
   so it and everything after it are silently dropped.
   */
  lemma WrappedLengthReadsAsEof(c: Cipher, counter: nat, text: Bytes, rest: Bytes)
    requires counter < TWO_64 && c.Sound()
    requires (|text| + TAG_SIZE) % TWO_32 == 0
    ensures Decode(c, Frame(c, counter, text) + rest)
         == Decoded([], CleanEof(c.seal(Nonce(counter), text) + rest))
  {
    FrameParts(c, counter, text, rest);
  }

  // ------------------------------------------------------- whole streams

  /** The counter of a writer that started at `start` and has written `k` times. */
  function CounterAt(start: nat, k: nat): (counter: nat)
    requires start < TWO_64
    ensures counter < TWO_64
  {
    if k == 0 then start else NextCounter(CounterAt(start, k - 1))
  }

  lemma {:induction false} CounterShift(start: nat, k: nat)
    requires start < TWO_64
    ensures CounterAt(NextCounter(start), k) == CounterAt(start, k + 1)
  {
    if k > 0 {
      CounterShift(start, k - 1);
    }
  }

  lemma FramesOne(c: Cipher, counter: nat, text: Bytes)
    requires counter < TWO_64
    ensures Frames(c, counter, [text]) == Frame(c, counter, text)
  {
    var one := [text];
    assert one[1..] == [];
    assert Frames(c, NextCounter(counter), one[1..]) == [];
    assert Frame(c, counter, text) + [] == Frame(c, counter, text);
  }

  /** Appending a write appends its frame, with the counter the writer has then. */
  lemma {:induction false} FramesSnoc(c: Cipher, counter: nat, writes: seq<Bytes>, text: Bytes)
    requires counter < TWO_64
    ensures Frames(c, counter, writes + [text])
         == Frames(c, counter, writes) + Frame(c, CounterAt(counter, |writes|), text)
    decreases |writes|
  {
    if writes == [] {
      assert writes + [text] == [text];
      FramesOne(c, counter, text);
    } else {
      var tail := writes[1..];
      var next := NextCounter(counter);
      FramesSnoc(c, next, tail, text);
      CounterShift(counter, |tail|);
      var last := Frame(c, CounterAt(counter, |writes|), text);
      FramesCons(c, counter, writes[0], tail + [text]);
      FramesCons(c, counter, writes[0], tail);
      assert writes + [text] == [writes[0]] + (tail + [text]);
      assert writes == [writes[0]] + tail;
      Regroup(Frame(c, counter, writes[0]), Frames(c, next, tail), last);
    }
  }

  lemma FramesCons(c: Cipher, counter: nat, text: Bytes, writes: seq<Bytes>)
    requires counter < TWO_64
    ensures Frames(c, counter, [text] + writes) == Frame(c, counter, text) + Frames(c, NextCounter(counter), writes)
  {
    assert ([text] + writes)[1..] == writes;
  }

  lemma DecodeOne(c: Cipher, counter: nat, text: Bytes, later: Bytes)
    requires counter < TWO_64 && c.Sound() && Fits(text)
    ensures var d := Decode(c, later);
            Decode(c, Frame(c, counter, text) + later) == Decoded(text + d.text, d.end)
  {
    FrameRoundTripIff(c, counter, text, later);
  }

  /** One frame by itself: the counter it was written with, and its text. */
  datatype Numbered = Numbered(counter: nat, text: Bytes)

  /** Frames in any order, whatever their counters. */
  predicate AllFrames(frames: seq<Numbered>) {
    forall i :: 0 <= i < |frames| ==> frames[i].counter < TWO_64 && Fits(frames[i].text)
  }

  function Concat(c: Cipher, frames: seq<Numbered>): Bytes
    requires AllFrames(frames)
  {
    if frames == [] then [] else Frame(c, frames[0].counter, frames[0].text) + Concat(c, frames[1..])
  }

  function Texts(frames: seq<Numbered>): (texts: seq<Bytes>)
    ensures |texts| == |frames| && forall i :: 0 <= i < |texts| ==> texts[i] == frames[i].text
  {
    if frames == [] then [] else [frames[0].text] + Texts(frames[1..])
  }

  /**
   The decoder believes the nonce in each header: any frames of the stream's
   cipher, dropped, repeated or reordered in whatever way, decode to their
   texts in the order they come.
   */
  lemma {:induction false} DecodeAnyFrames(c: Cipher, frames: seq<Numbered>, rest: Bytes)
    requires c.Sound() && AllFrames(frames)
    ensures Decode(c, Concat(c, frames) + rest)
         == Decoded(Flat(Texts(frames)) + Decode(c, rest).text, Decode(c, rest).end)
  {
    if frames == [] {
      assert Concat(c, frames) + rest == rest;
    } else {
      var first, tail := frames[0], frames[1..];
      Regroup(Frame(c, first.counter, first.text), Concat(c, tail), rest);
      DecodeOne(c, first.counter, first.text, Concat(c, tail) + rest);
      DecodeAnyFrames(c, tail, rest);
      assert Texts(frames)[1..] == Texts(tail);
      Regroup(first.text, Flat(Texts(tail)), Decode(c, rest).text);
    }
  }

  /** The frames one writer makes of these texts. */
  function InSequence(counter: nat, writes: seq<Bytes>): (frames: seq<Numbered>)
    requires counter < TWO_64 && AllFit(writes)
    ensures AllFrames(frames) && |frames| == |writes|
    decreases |writes|
  {
    if writes == [] then [] else [Numbered(counter, writes[0])] + InSequence(NextCounter(counter), writes[1..])
  }

  lemma {:induction false} FramesInSequence(c: Cipher, counter: nat, writes: seq<Bytes>)
    requires counter < TWO_64 && AllFit(writes)
    ensures Frames(c, counter, writes) == Concat(c, InSequence(counter, writes))
    ensures Texts(InSequence(counter, writes)) == writes
    decreases |writes|
  {
    if writes != [] {
      var tail := InSequence(NextCounter(counter), writes[1..]);
      FramesInSequence(c, NextCounter(counter), writes[1..]);
      assert InSequence(counter, writes)[1..] == tail;
      assert Texts(InSequence(counter, writes)) == [writes[0]] + Texts(tail) == writes;
    }
  }

  /**
   A frame that does not open ends the stream with an error, after the texts of
   the frames before it and whatever follows.
   */
  lemma UnopenedFrameStops(c: Cipher, frames: seq<Numbered>, nonce: Bytes, sealed: Bytes, rest: Bytes)
    requires c.Sound() && AllFrames(frames)
    requires |nonce| == 12 && 0 < |sealed| < TWO_32 && c.open(nonce, sealed) == None
    ensures Decode(c, Concat(c, frames) + (nonce + BigEndian(|sealed|, 4) + sealed + rest))
         == Decoded(Flat(Texts(frames)), AuthFailed)
  {
    var bad := nonce + BigEndian(|sealed|, 4) + sealed + rest;
    Limits();
    BigEndianRoundTrip(|sealed|, 4);
    assert bad[..12] == nonce && bad[12..16] == BigEndian(|sealed|, 4) && bad[16..16 + |sealed|] == sealed;
    DecodeAnyFrames(c, frames, bad);
    assert Flat(Texts(frames)) + [] == Flat(Texts(frames));
  }

  /** Decoding distributes over the run of frames a writer makes. */
  lemma DecodeFrames(c: Cipher, counter: nat, writes: seq<Bytes>, rest: Bytes)
    requires counter < TWO_64 && c.Sound() && AllFit(writes)
    ensures Decode(c, Frames(c, counter, writes) + rest)
         == Decoded(Flat(writes) + Decode(c, rest).text, Decode(c, rest).end)
  {
    FramesInSequence(c, counter, writes);
    DecodeAnyFrames(c, InSequence(counter, writes), rest);
  }

  lemma MarkerEnds(c: Cipher, unread: Bytes)
    ensures Decode(c, EOF_MARKER + unread) == Decoded([], CleanEof(unread))
  {
    var src := EOF_MARKER + unread;
    assert src[12..16] == [0, 0, 0, 0] == BigEndian(0, 4);
    Limits();
    BigEndianRoundTrip(0, 4);
    assert src[HEADER_SIZE..] == unread;
  }

  /** Frames and their marker, as the decoder expects them. */
  function Closed(c: Cipher, counter: nat, writes: seq<Bytes>): Bytes
    requires counter < TWO_64
  {
    Frames(c, counter, writes) + EOF_MARKER
  }

  lemma ClosedDecodes(c: Cipher, writes: seq<Bytes>, after: Bytes)
    requires c.Sound() && AllFit(writes)
    ensures Decode(c, Closed(c, 1, writes) + after) == Decoded(Flat(writes), CleanEof(after))
  {
    Regroup(Frames(c, 1, writes), EOF_MARKER, after);
    DecodeFrames(c, 1, writes, EOF_MARKER + after);
    MarkerEnds(c, after);
  }

  lemma SaltThen(derive: KeyDerivation, salt: Bytes, body: Bytes)
    requires |salt| == SALT_SIZE
    ensures DecodeStream(derive, salt + body) == Decode(derive(salt), body)
  {
    assert (salt + body)[..SALT_SIZE] == salt;
    assert (salt + body)[SALT_SIZE..] == body;
  }

  /**
   Stream round trip: whatever follows the first marker (such as the marker of
   a second Close) stays unread and changes nothing.
   */
  lemma StreamRoundTrip(derive: KeyDerivation, salt: Bytes, writes: seq<Bytes>, after: Bytes)
    requires |salt| == SALT_SIZE && AllSound(derive) && AllFit(writes)
    ensures DecodeStream(derive, Stream(derive, salt, writes) + after) == Decoded(Flat(writes), CleanEof(after))
  {
    var c := derive(salt);
    Regroup(salt, Closed(c, 1, writes), after);
    SaltThen(derive, salt, Closed(c, 1, writes) + after);
    ClosedDecodes(c, writes, after);
  }

  /** A proper prefix of one frame is a short read, and delivers nothing. */
  lemma CutInsideFrame(c: Cipher, counter: nat, text: Bytes, cut: nat)
    requires counter < TWO_64 && c.Sound() && Fits(text)
    requires cut < |Frame(c, counter, text)|
    ensures var d := Decode(c, Frame(c, counter, text)[..cut]);
            d.text == [] && (d.end == ShortHeader || d.end == ShortData)
  {
    FrameParts(c, counter, text, []);
    var frame := Frame(c, counter, text);
    assert frame + [] == frame;
    if cut >= HEADER_SIZE {
      assert frame[..cut][12..16] == frame[12..16];
    }
  }

  /** How many whole frames fit in the first `cut` bytes. */
  function WholeFrames(c: Cipher, counter: nat, writes: seq<Bytes>, cut: nat): (n: nat)
    requires counter < TWO_64
    ensures n <= |writes|
    decreases |writes|
  {
    if writes == [] || cut < |Frame(c, counter, writes[0])| then 0
    else 1 + WholeFrames(c, NextCounter(counter), writes[1..], cut - |Frame(c, counter, writes[0])|)
  }

  predicate IsLargest(c: Cipher, counter: nat, writes: seq<Bytes>, cut: nat, n: nat)
    requires counter < TWO_64 && n <= |writes|
  {
    && |Frames(c, counter, writes[..n])| <= cut
    && (n < |writes| ==> cut < |Frames(c, counter, writes[..n + 1])|)
  }

  lemma NoneWithin(c: Cipher, counter: nat, writes: seq<Bytes>, cut: nat)
    requires counter < TWO_64 && (writes == [] || cut < |Frame(c, counter, writes[0])|)
    ensures IsLargest(c, counter, writes, cut, 0)
  {
    assert writes[..0] == [];
    if writes != [] {
      PrefixLength(c, counter, writes, 0);
    }
  }

  lemma OneMoreWithin(c: Cipher, counter: nat, writes: seq<Bytes>, cut: nat, n: nat)
    requires counter < TWO_64 && writes != [] && |Frame(c, counter, writes[0])| <= cut && n < |writes|
    requires IsLargest(c, NextCounter(counter), writes[1..], cut - |Frame(c, counter, writes[0])|, n)
    ensures IsLargest(c, counter, writes, cut, n + 1)
  {
    PrefixLength(c, counter, writes, n);
    if n + 1 < |writes| {
      PrefixLength(c, counter, writes, n + 1);
    }
  }

  /** It is the largest number of writes whose frames end within the cut. */
  lemma {:induction false} WholeFramesIsLargest(c: Cipher, counter: nat, writes: seq<Bytes>, cut: nat)
    requires counter < TWO_64
    ensures IsLargest(c, counter, writes, cut, WholeFrames(c, counter, writes, cut))
    decreases |writes|
  {
    if writes == [] || cut < |Frame(c, counter, writes[0])| {
      NoneWithin(c, counter, writes, cut);
    } else {
      var tail, later := writes[1..], cut - |Frame(c, counter, writes[0])|;
      WholeFramesIsLargest(c, NextCounter(counter), tail, later);
      OneMoreWithin(c, counter, writes, cut, WholeFrames(c, NextCounter(counter), tail, later));
    }
  }

  lemma PrefixLength(c: Cipher, counter: nat, writes: seq<Bytes>, n: nat)
    requires counter < TWO_64 && n < |writes|
    ensures |Frames(c, counter, writes[..n + 1])|
         == |Frame(c, counter, writes[0])| + |Frames(c, NextCounter(counter), writes[1..][..n])|
  {
    assert writes[..n + 1] == [writes[0]] + writes[1..][..n];
    FramesCons(c, counter, writes[0], writes[1..][..n]);
  }

  lemma ClosedCons(c: Cipher, counter: nat, writes: seq<Bytes>)
    requires counter < TWO_64 && writes != []
    ensures Closed(c, counter, writes)
         == Frame(c, counter, writes[0]) + Closed(c, NextCounter(counter), writes[1..])
  {
    Regroup(Frame(c, counter, writes[0]), Frames(c, NextCounter(counter), writes[1..]), EOF_MARKER);
  }

  lemma CutOfConcat(a: Bytes, b: Bytes, cut: nat)
    requires cut <= |a| + |b|
    ensures cut <= |a| ==> (a + b)[..cut] == a[..cut]
    ensures cut >= |a| ==> (a + b)[..cut] == a + b[..cut - |a|]
  {
  }

  lemma WholeFramesStep(c: Cipher, counter: nat, writes: seq<Bytes>, cut: nat)
    requires counter < TWO_64 && writes != []
    ensures var first := |Frame(c, counter, writes[0])|;
            WholeFrames(c, counter, writes, cut)
            == if cut < first then 0 else 1 + WholeFrames(c, NextCounter(counter), writes[1..], cut - first)
  {
  }

  /** The first `cut` bytes decode to the first `n` writes and then a short read. */
  ghost predicate CutDecodes(c: Cipher, counter: nat, writes: seq<Bytes>, cut: nat, n: nat)
    requires counter < TWO_64 && cut <= |Closed(c, counter, writes)| && n <= |writes|
  {
    var d := Decode(c, Closed(c, counter, writes)[..cut]);
    && (d.end == ShortHeader || d.end == ShortData)
    && d.text == Flat(writes[..n])
  }

  lemma CutDecodesNothing(c: Cipher, counter: nat, writes: seq<Bytes>, cut: nat)
    requires counter < TWO_64 && c.Sound() && AllFit(writes) && cut < |Closed(c, counter, writes)|
    requires writes == [] || cut < |Frame(c, counter, writes[0])|
    ensures CutDecodes(c, counter, writes, cut, 0)
  {
    if writes == [] {
      assert |Closed(c, counter, writes)[..cut]| < HEADER_SIZE;
    } else {
      ClosedCons(c, counter, writes);
      CutOfConcat(Frame(c, counter, writes[0]), Closed(c, NextCounter(counter), writes[1..]), cut);
      CutInsideFrame(c, counter, writes[0], cut);
    }
  }

  lemma CutDecodesMore(c: Cipher, counter: nat, writes: seq<Bytes>, cut: nat, n: nat)
    requires counter < TWO_64 && c.Sound() && writes != [] && Fits(writes[0]) && n < |writes|
    requires |Frame(c, counter, writes[0])| <= cut <= |Closed(c, counter, writes)|
    requires cut - |Frame(c, counter, writes[0])| <= |Closed(c, NextCounter(counter), writes[1..])|
    requires CutDecodes(c, NextCounter(counter), writes[1..], cut - |Frame(c, counter, writes[0])|, n)
    ensures CutDecodes(c, counter, writes, cut, n + 1)
  {
    var frame := Frame(c, counter, writes[0]);
    var later := Closed(c, NextCounter(counter), writes[1..]);
    ClosedCons(c, counter, writes);
    CutOfConcat(frame, later, cut);
    DecodeOne(c, counter, writes[0], later[..cut - |frame|]);
    FlatPrefixCons(writes, n);
  }

  lemma FlatPrefixCons(writes: seq<Bytes>, n: nat)
    requires n < |writes|
    ensures Flat(writes[..n + 1]) == writes[0] + Flat(writes[1..][..n])
  {
    assert writes[..n + 1] == [writes[0]] + writes[1..][..n];
    FlatCons(writes[0], writes[1..][..n]);
  }

  /**
   Cut anywhere before the marker ends, a frame stream is an error and never a
   clean end; it delivers exactly the writes whose frames are whole.
   */
  lemma {:induction false} TruncatedFrames(c: Cipher, counter: nat, writes: seq<Bytes>, cut: nat)
    requires counter < TWO_64 && c.Sound() && AllFit(writes)
    requires cut < |Closed(c, counter, writes)|
    ensures CutDecodes(c, counter, writes, cut, WholeFrames(c, counter, writes, cut))
    decreases |writes|
  {
    if writes == [] || cut < |Frame(c, counter, writes[0])| {
      CutDecodesNothing(c, counter, writes, cut);
    } else {
      var rest := cut - |Frame(c, counter, writes[0])|;
      WholeFramesStep(c, counter, writes, cut);
      ClosedCons(c, counter, writes);
      TruncatedFrames(c, NextCounter(counter), writes[1..], rest);
      CutDecodesMore(c, counter, writes, cut, WholeFrames(c, NextCounter(counter), writes[1..], rest));
    }
  }

  lemma CutAfterSalt(derive: KeyDerivation, salt: Bytes, writes: seq<Bytes>, cut: nat)
    requires |salt| == SALT_SIZE <= cut < |Stream(derive, salt, writes)|
    ensures DecodeStream(derive, Stream(derive, salt, writes)[..cut])
         == Decode(derive(salt), Closed(derive(salt), 1, writes)[..cut - SALT_SIZE])
  {
    var body := Closed(derive(salt), 1, writes);
    CutOfConcat(salt, body, cut);
    SaltThen(derive, salt, body[..cut - SALT_SIZE]);
  }

  /** The same for a whole stream, the salt included. */
  lemma TruncatedStream(derive: KeyDerivation, salt: Bytes, writes: seq<Bytes>, cut: nat)
    requires |salt| == SALT_SIZE && AllSound(derive) && AllFit(writes)
    requires cut < |Stream(derive, salt, writes)|
    ensures var d := DecodeStream(derive, Stream(derive, salt, writes)[..cut]);
            && (d.end == ShortSalt || d.end == ShortHeader || d.end == ShortData)
            && d.text == Flat(writes[..WholeWrites(derive, salt, writes, cut)])
            && d.text <= Flat(writes)
  {
    FlatOfPrefix(writes, WholeWrites(derive, salt, writes, cut));
    if cut < SALT_SIZE {
      CutInSalt(derive, Stream(derive, salt, writes)[..cut]);
    } else {
      CutAfterSalt(derive, salt, writes, cut);
      assert derive(salt).Sound();
      TruncatedFrames(derive(salt), 1, writes, cut - SALT_SIZE);
    }
  }

  /** How many writes are whole in the first `cut` bytes of a stream. */
  function WholeWrites(derive: KeyDerivation, salt: Bytes, writes: seq<Bytes>, cut: nat): (n: nat)
    ensures n <= |writes|
  {
    if cut < SALT_SIZE then 0 else WholeFrames(derive(salt), 1, writes, cut - SALT_SIZE)
  }

  lemma CutInSalt(derive: KeyDerivation, src: Bytes)
    requires |src| < SALT_SIZE
    ensures DecodeStream(derive, src) == Decoded([], ShortSalt)
  {
  }

  lemma FlatOfPrefix(writes: seq<Bytes>, n: nat)
    requires n <= |writes|
    ensures Flat(writes[..n]) <= Flat(writes)
  {
    FlatAppend(writes[..n], writes[n..]);
    assert writes[..n] + writes[n..] == writes;
  }

  /** Framing never makes the text shorter. */
  lemma {:induction false} FramesOutweigh(c: Cipher, counter: nat, writes: seq<Bytes>)
    requires counter < TWO_64 && c.Sound()
    ensures |Flat(writes)| <= |Frames(c, counter, writes)|
    decreases |writes|
  {
    if writes != [] {
      FrameParts(c, counter, writes[0], []);
      FramesOutweigh(c, NextCounter(counter), writes[1..]);
    }
  }

  // --------------------------------------------------------------- nonces

  lemma {:induction false} CounterCounts(k: nat)
    requires k < TWO_64
    ensures CounterAt(1, k) == if k == TWO_64 - 1 then 0 else 1 + k
  {
    if k > 0 {
      CounterCounts(k - 1);
    }
  }

  /** The nonce of write number `i`, counting from zero. */
  function NonceOfWrite(i: nat): Bytes {
    Nonce(CounterAt(1, i))
  }

  lemma NonceInjective(m: nat, n: nat)
    requires m < TWO_64 && n < TWO_64 && Nonce(m) == Nonce(n)
    ensures m == n
  {
    Limits();
    assert Nonce(m)[..8] == BigEndian(m, 8) && Nonce(n)[..8] == BigEndian(n, 8);
    BigEndianInjective(m, n, 8);
  }

  lemma NoncesDiffer(m: nat, n: nat)
    requires m < TWO_64 && n < TWO_64 && m != n
    ensures Nonce(m) != Nonce(n)
  {
    if Nonce(m) == Nonce(n) {
      NonceInjective(m, n);
    }
  }

  /**
   The deterministic construction of section 8.2.1 of NIST SP 800-38D: the
   nonces of the first `n` writes are pairwise distinct and none is the
   reserved zero nonce, exactly for fewer than 2^64 writes.
   */
  lemma NoncesUniqueIff(n: nat)
    ensures UniqueNonces(n) <==> n < TWO_64
  {
    if n < TWO_64 {
      forall i, j | 0 <= i < j < n ensures NonceOfWrite(i) != NonceOfWrite(j) {
        CounterOfWrite(i);
        CounterOfWrite(j);
        NoncesDiffer(1 + i, 1 + j);
      }
      forall i | 0 <= i < n ensures NonceOfWrite(i) != Nonce(0) {
        CounterOfWrite(i);
        NoncesDiffer(1 + i, 0);
      }
    } else {
      CounterWraps();
    }
  }

  ghost predicate UniqueNonces(n: nat) {
    && (forall i, j :: 0 <= i < j < n ==> NonceOfWrite(i) != NonceOfWrite(j))
    && (forall i :: 0 <= i < n ==> NonceOfWrite(i) != Nonce(0))
  }

  lemma CounterOfWrite(i: nat)
    requires i < TWO_64 - 1
    ensures NonceOfWrite(i) == Nonce(1 + i)
  {
    CounterCounts(i);
  }

  lemma CounterWraps()
    ensures NonceOfWrite(TWO_64 - 1) == Nonce(0)
  {
    CounterCounts(TWO_64 - 1);
  }

  // ------------------------------------------------- one-shot form

  /** Encrypt: salt, nonce, ciphertext. */
  function EncryptOnce(derive: KeyDerivation, salt: Bytes, nonce: Bytes, text: Bytes): Bytes {
    salt + nonce + derive(salt).seal(nonce, text)
  }

  /** Decrypt, with None for its two error returns. */
  function DecryptOnce(derive: KeyDerivation, data: Bytes): Option<Bytes> {
    if |data| < SALT_SIZE + NONCE_SIZE then None
    else derive(data[..SALT_SIZE]).open(data[SALT_SIZE..SALT_SIZE + NONCE_SIZE], data[SALT_SIZE + NONCE_SIZE..])
  }

  lemma OnceRoundTrip(derive: KeyDerivation, salt: Bytes, nonce: Bytes, text: Bytes)
    requires |salt| == SALT_SIZE && |nonce| == NONCE_SIZE && AllSound(derive)
    ensures DecryptOnce(derive, EncryptOnce(derive, salt, nonce, text)) == Some(text)
    ensures var data := EncryptOnce(derive, salt, nonce, text);
            |data| == 16 + 12 + |text| + 16 && data[..16] == salt && data[16..28] == nonce
    ensures forall short :: |short| < 28 ==> DecryptOnce(derive, short) == None
  {
    var sealed := derive(salt).seal(nonce, text);
    var data := EncryptOnce(derive, salt, nonce, text);
    assert data == salt + (nonce + sealed);
    assert data[..SALT_SIZE] == salt;
    assert data[SALT_SIZE..SALT_SIZE + NONCE_SIZE] == nonce;
    assert data[SALT_SIZE + NONCE_SIZE..] == sealed;
    assert derive(salt).Sound();
  }
}
