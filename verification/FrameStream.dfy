/**
 The stateful ends of the encrypted stream: encryptWriter over an io.Writer
 that may fail, and decryptReader over an io.Reader that may fragment.
 */
module FrameStream {
  import opened Bytes
  import opened Aead
  import opened FrameFormat

  /** An io.Writer: it stores all of `p`, or stops after part of it with an error. */
  class Sink {
    var data: Bytes
    /** How many writes it refused so far. */
    ghost var refused: nat

    constructor ()
      ensures data == [] && refused == 0
    {
      data, refused := [], 0;
    }

    method Write(p: Bytes) returns (ok: bool)
      modifies this
      ensures refused == old(refused) + if ok then 0 else 1
      ensures ok ==> data == old(data) + p
      ensures !ok ==> old(data) <= data <= old(data) + p
    {
      ok := true;
      if * {
        var n :| 0 <= n <= |p|;
        data, refused := data + p[..n], refused + 1;
        assert p == p[..n] + p[n..];
        return false;
      }
      data := data + p;
    }
  }

  /** An io.Reader: each call returns some of what is left, or fails at the end. */
  class Source {
    var rest: Bytes

    constructor (bytes: Bytes)
      ensures rest == bytes
    {
      rest := bytes;
    }

    /** At most `max` bytes; none exactly at the end of the input. */
    method Read(max: nat) returns (chunk: Bytes)
      requires max > 0
      modifies this
      ensures old(rest) == chunk + rest
      ensures |chunk| <= max
      ensures chunk == [] <==> old(rest) == []
    {
      chunk := [];
      if rest != [] {
        var n :| 0 < n <= max && n <= |rest|;
        chunk, rest := rest[..n], rest[n..];
      }
    }
  }

  /** io.ReadFull: exactly `n` bytes whatever the fragmentation, or failure after using up the source. */
  method ReadFull(src: Source, n: nat) returns (ok: bool, data: Bytes)
    modifies src
    ensures ok <==> n <= |old(src.rest)|
    ensures ok ==> data == old(src.rest)[..n] && src.rest == old(src.rest)[n..]
    ensures !ok ==> src.rest == []
  {
    data := [];
    while |data| < n
      invariant |data| <= n
      invariant old(src.rest) == data + src.rest
    {
      var chunk := src.Read(n - |data|);
      if chunk == [] {
        return false, data;
      }
      data := data + chunk;
    }
    ok := true;
  }

  class EncryptWriter {
    const dst: Sink
    const gcm: Cipher
    var counter: nat
    /** The nonces used so far, including those of writes the destination refused. */
    ghost var nonces: seq<Bytes>

    /** What the destination held at the start, and the texts written since. */
    ghost const base: Bytes
    ghost var texts: seq<Bytes>

    ghost predicate Valid()
      reads this
    {
      && counter == CounterAt(1, |nonces|)
      && |texts| == |nonces|
      && forall i :: 0 <= i < |nonces| ==> nonces[i] == NonceOfWrite(i)
    }

    /** No write has failed and the stream is still open: the destination holds exactly the frames. */
    ghost predicate Framed()
      reads this, dst
    {
      dst.data == base + Frames(gcm, 1, texts)
    }

    constructor (dst: Sink, gcm: Cipher)
      ensures Valid() && Framed() && this.dst == dst && this.gcm == gcm
      ensures counter == 1 && nonces == [] && texts == [] && base == dst.data
    {
      this.dst, this.gcm := dst, gcm;
      counter := 1;
      nonces, texts, base := [], [], dst.data;
      new;
      assert dst.data == dst.data + [];
    }

    lemma LogGrows(sent: seq<Bytes>, texts0: seq<Bytes>, p: Bytes)
      requires counter == NextCounter(CounterAt(1, |sent|)) && nonces == sent + [NonceOfWrite(|sent|)]
      requires texts == texts0 + [p] && |texts0| == |sent|
      requires forall i :: 0 <= i < |sent| ==> sent[i] == NonceOfWrite(i)
      ensures Valid()
    {
    }

    lemma StillFramed(sent: seq<Bytes>, p: Bytes, before: Bytes)
      requires texts == sent + [p] && dst.data == before + Frame(gcm, CounterAt(1, |sent|), p)
      ensures before == base + Frames(gcm, 1, sent) ==> Framed()
    {
      FramesSnoc(gcm, 1, sent, p);
      Regroup(base, Frames(gcm, 1, sent), Frame(gcm, CounterAt(1, |sent|), p));
    }

    /**
     One frame per call; it fails only when the destination refuses a write.
     The counter advances before the destination is tried.
     */
    method Write(p: Bytes) returns (ok: bool)
      requires Valid()
      modifies this, dst
      ensures Valid()
      ensures counter == NextCounter(old(counter))
      ensures nonces == old(nonces) + [Nonce(old(counter))] && texts == old(texts) + [p]
      ensures ok && old(Framed()) ==> Framed()
      ensures dst.refused == old(dst.refused) + if ok then 0 else 1
      ensures ok ==> dst.data == old(dst.data) + Frame(gcm, old(counter), p)
      ensures !ok ==> old(dst.data) <= dst.data <= old(dst.data) + Frame(gcm, old(counter), p)
    {
      var nonce := Nonce(counter);
      counter := NextCounter(counter);
      nonces, texts := nonces + [nonce], texts + [p];

      var sealed := gcm.seal(nonce, p);
      ghost var before := dst.data;
      LogGrows(old(nonces), old(texts), p);
      ok := SendFrame(nonce + BigEndian(|sealed| % TWO_32, 4), sealed);
      if ok {
        StillFramed(old(texts), p, before);
      }
    }

    /**
     What the writer left behind after Close reads back as exactly the texts
     written; anything appended later, such as a second marker, stays unread.
     */
    lemma ReadsBack(derive: KeyDerivation, after: Bytes)
      requires AllSound(derive) && AllFit(texts) && |base| == SALT_SIZE && gcm == derive(base)
      requires dst.data == base + Frames(gcm, 1, texts) + EOF_MARKER + after
      ensures DecodeStream(derive, dst.data) == Decoded(Flat(texts), CleanEof(after))
    {
      Regroup(base, Frames(gcm, 1, texts), EOF_MARKER);
      StreamRoundTrip(derive, base, texts, after);
    }

    lemma ReadsBackTwiceClosed(derive: KeyDerivation)
      requires |base| == SALT_SIZE && gcm == derive(base)
      requires dst.data == base + Frames(gcm, 1, texts) + EOF_MARKER + EOF_MARKER
      ensures AllSound(derive) && AllFit(texts) ==>
                DecodeStream(derive, dst.data) == Decoded(Flat(texts), CleanEof(EOF_MARKER))
    {
      if AllSound(derive) && AllFit(texts) {
        ReadsBack(derive, EOF_MARKER);
      }
    }

    /** The two destination writes of a frame. */
    method SendFrame(header: Bytes, sealed: Bytes) returns (ok: bool)
      modifies dst
      ensures dst.refused == old(dst.refused) + if ok then 0 else 1
      ensures ok ==> dst.data == old(dst.data) + (header + sealed)
      ensures !ok ==> old(dst.data) <= dst.data <= old(dst.data) + (header + sealed)
    {
      ok := dst.Write(header);
      Regroup(old(dst.data), header, sealed);
      if !ok {
        return;
      }
      ok := dst.Write(sealed);
    }

    /** Appends the marker; nothing stops a second call from appending another. */
    method Close() returns (ok: bool)
      requires Valid()
      modifies dst
      ensures Valid()
      ensures dst.refused == old(dst.refused) + if ok then 0 else 1
      ensures ok ==> dst.data == old(dst.data) + EOF_MARKER
      ensures !ok ==> old(dst.data) <= dst.data <= old(dst.data) + EOF_MARKER
    {
      ok := dst.Write(EOF_MARKER);
    }
  }

  /** EncryptStream, with the random salt as an argument; null when the salt cannot be written. */
  method EncryptStream(derive: KeyDerivation, salt: Bytes, dst: Sink) returns (w: EncryptWriter?)
    requires |salt| == SALT_SIZE
    modifies dst
    ensures w != null ==> w.Valid() && fresh(w) && w.dst == dst && w.gcm == derive(salt)
    ensures w != null ==> w.counter == 1 && w.nonces == [] && w.texts == [] && w.Framed()
    ensures w != null ==> w.base == dst.data == old(dst.data) + salt
    ensures dst.refused == old(dst.refused) + if w != null then 0 else 1
    ensures w == null ==> old(dst.data) <= dst.data <= old(dst.data) + salt
  {
    var ok := dst.Write(salt);
    if !ok {
      return null;
    }
    w := new EncryptWriter(dst, derive(salt));
  }

  /** The part of a Read that takes one frame off the source. */
  method NextFrame(src: Source, gcm: Cipher) returns (r: FrameRead)
    modifies src
    ensures r == ReadFrame(gcm, old(src.rest))
    ensures r.Got? ==> src.rest == r.rest
    ensures r.Stop? && r.end.CleanEof? ==> src.rest == r.end.unread
  {
    ghost var input := src.rest;
    var ok, header := ReadFull(src, HEADER_SIZE);
    if !ok {
      return Stop(ShortHeader);
    }
    assert header[12..16] == input[12..16] && header[..12] == input[..12];
    var frameLen := FromBigEndian(header[12..16]);
    if frameLen == 0 {
      return Stop(CleanEof(src.rest));
    }
    var sealed;
    ok, sealed := ReadFull(src, frameLen);
    if !ok {
      return Stop(ShortData);
    }
    assert sealed == input[HEADER_SIZE..HEADER_SIZE + frameLen];
    assert src.rest == input[HEADER_SIZE + frameLen..];
    var plain := gcm.open(header[..12], sealed);
    r := if plain == None then Stop(AuthFailed) else Got(plain.value, src.rest);
  }

  /** What one Read returns besides its byte count: nil, io.EOF, or an error. */
  datatype ReadResult = Nil | Eof | Failed(end: End)

  class DecryptReader {
    const src: Source
    const gcm: Cipher
    var done: bool
    /** The slice `buf`: the first `len` cells of an array that later frames reuse. */
    var store: array<byte>
    var len: nat
    var pos: nat

    ghost predicate Valid()
      reads this
    {
      pos <= len <= store.Length
    }

    /** Everything still to be delivered, and how the stream will end. */
    ghost function Future(): (d: Decoded)
      requires Valid()
      reads this, store, src
    {
      Decoded(store[pos..len] + Unread().text, Unread().end)
    }

    /** The part of the future that is still in the source. */
    ghost function Unread(): Decoded
      reads this, src
    {
      if done then Decoded([], CleanEof(src.rest)) else Decode(gcm, src.rest)
    }

    constructor (src: Source, gcm: Cipher)
      ensures Valid() && fresh(store) && this.src == src && this.gcm == gcm
      ensures Future() == Decode(gcm, src.rest)
    {
      this.src, this.gcm := src, gcm;
      done := false;
      store := new byte[0];
      len, pos := 0, 0;
    }

    /** `copy(p, buf[pos:])` with the new position: delivers the front of the future. */
    method CopyOut(p: array<byte>) returns (n: nat)
      requires Valid() && p != store
      modifies this`pos, p
      ensures Valid() && pos == old(pos) + n
      ensures n == if p.Length < len - old(pos) then p.Length else len - old(pos)
      ensures old(Future()) == Decoded(p[..n] + Future().text, Future().end)
      ensures p[n..] == old(p[n..])
    {
      n := if p.Length < len - pos then p.Length else len - pos;
      ghost var before := pos;
      forall i | 0 <= i < n {
        p[i] := store[pos + i];
      }
      pos := pos + n;
      assert p[..n] == store[before..pos];
      Advanced(before);
    }

    lemma Advanced(before: nat)
      requires Valid() && before <= pos
      ensures store[before..len] + Unread().text == store[before..pos] + Future().text
    {
      assert store[before..len] == store[before..pos] + store[pos..len];
      Regroup(store[before..pos], store[pos..len], Unread().text);
    }

    /** `gcm.Open(r.buf[:0], ...)`: the plaintext replaces the buffer, in place when it fits. */
    method Refill(text: Bytes)
      requires Valid() && pos == len && !done
      modifies this`store, this`len, this`pos, store
      ensures Valid() && pos == 0 && len == |text|
      ensures store == old(store) || fresh(store)
      ensures Future() == Decoded(text + Decode(gcm, src.rest).text, Decode(gcm, src.rest).end)
    {
      if store.Length < |text| {
        store := new byte[|text|];
      }
      forall i | 0 <= i < |text| {
        store[i] := text[i];
      }
      len, pos := |text|, 0;
      assert store[pos..len] == text;
    }

    /** Nothing is buffered once `pos` has reached `len`. */
    lemma Drained()
      requires Valid() && pos == len && !done
      ensures Future() == Decode(gcm, src.rest)
    {
    }

    /**
     Each call delivers the front of the future. Buffered bytes are never
     overwritten while any is undelivered; io.EOF is returned only when nothing
     is left and the marker was read.
     */
    method Read(p: array<byte>) returns (n: nat, res: ReadResult)
      requires Valid() && p != store
      modifies this, store, src, p
      ensures Valid() && (store == old(store) || fresh(store))
      ensures n <= p.Length && p[n..] == old(p[n..])
      ensures res.Nil? ==> old(Future()) == Decoded(p[..n] + Future().text, Future().end)
      ensures res.Nil? ==> n == p.Length || pos == len
      ensures res.Nil? && p.Length > 0 ==>
                || |src.rest| < |old(src.rest)|
                || (src.rest == old(src.rest) && len == old(len) && store == old(store) && pos > old(pos))
      ensures res.Eof? ==> n == 0 && old(Future()) == Decoded([], CleanEof(src.rest)) && Future() == old(Future())
      ensures res.Failed? ==> n == 0 && old(Future()) == Decoded([], res.end) && !res.end.CleanEof?
      ensures old(pos < len) ==> store == old(store) && store[..] == old(store[..]) && len == old(len)
    {
      if pos < len {
        n := CopyOut(p);
        return n, Nil;
      }
      if done {
        return 0, Eof;
      }
      Drained();
      var frame := NextFrame(src, gcm);
      if frame.Stop? {
        done := frame.end.CleanEof?;
        return 0, if done then Eof else Failed(frame.end);
      }
      Refill(frame.text);
      n := CopyOut(p);
      res := Nil;
    }
  }

  /** DecryptStream: null when the source ends within the salt. */
  method DecryptStream(derive: KeyDerivation, src: Source) returns (r: DecryptReader?)
    modifies src
    ensures r == null <==> |old(src.rest)| < 16
    ensures r == null ==> DecodeStream(derive, old(src.rest)) == Decoded([], ShortSalt)
    ensures r != null ==> r.Valid() && fresh(r) && fresh(r.store) && r.src == src
    ensures r != null ==> r.Future() == DecodeStream(derive, old(src.rest))
  {
    var ok, salt := ReadFull(src, SALT_SIZE);
    if !ok {
      return null;
    }
    r := new DecryptReader(src, derive(salt));
  }

  /**
   io.Copy from a decrypting reader, with nonempty buffers of any sizes: what
   is delivered, and how it ends, is fixed by the source's bytes alone.
   */
  method CopyAll(derive: KeyDerivation, src: Source) returns (out: Bytes, end: End)
    modifies src
    ensures Decoded(out, end) == DecodeStream(derive, old(src.rest))
    ensures end.CleanEof? ==> src.rest == end.unread
  {
    var r := DecryptStream(derive, src);
    if r == null {
      return [], ShortSalt;
    }
    out := [];
    ghost var whole := r.Future();
    while true
      invariant r.Valid() && r.src == src && fresh(r) && fresh(r.store)
      invariant whole == Decoded(out + r.Future().text, r.Future().end)
      decreases |src.rest|, r.len - r.pos
    {
      var size :| size > 0;
      var p := new byte[size];
      ghost var before := r.Future();
      var n, res := r.Read(p);
      if res.Eof? {
        return out, CleanEof(src.rest);
      } else if res.Failed? {
        return out, res.end;
      }
      Regroup(out, p[..n], r.Future().text);
      out := out + p[..n];
    }
  }

  /** What a run of writes and one Close leave behind when the destination refuses nothing. */
  method SendAll(derive: KeyDerivation, salt: Bytes, writes: seq<Bytes>, dst: Sink) returns (w: EncryptWriter?)
    requires |salt| == SALT_SIZE && dst.data == []
    modifies dst
    ensures dst.refused == old(dst.refused) + if w != null then 0 else 1
    ensures w != null ==> fresh(w) && w.Valid() && w.dst == dst && w.gcm == derive(salt)
    ensures w != null ==> w.base == salt && w.texts == writes
    ensures w != null ==> dst.data == w.base + Frames(w.gcm, 1, writes) + EOF_MARKER
  {
    w := EncryptStream(derive, salt, dst);
    if w == null {
      return;
    }
    for i := 0 to |writes|
      invariant fresh(w) && w.Valid() && w.Framed() && w.dst == dst && w.gcm == derive(salt)
      invariant w.base == salt && w.texts == writes[..i] && dst.refused == old(dst.refused)
    {
      var ok := w.Write(writes[i]);
      if !ok {
        return null;
      }
    }
    assert writes[..|writes|] == writes;
    var ok := w.Close();
    if !ok {
      return null;
    }
  }

  /**
   The whole way: a stream is opened, written to, closed twice as the backup
   path does, and copied out again. Unless the destination refused a write,
   what comes out is what was written, and the second marker is not read.
   */
  method SendAndReceive(derive: KeyDerivation, salt: Bytes, writes: seq<Bytes>, dst: Sink)
      returns (ok: bool, out: Bytes, end: End)
    requires |salt| == SALT_SIZE && dst.data == []
    modifies dst
    ensures ok <==> dst.refused == old(dst.refused)
    ensures ok && AllSound(derive) && AllFit(writes) ==> out == Flat(writes) && end == CleanEof(EOF_MARKER)
  {
    ok, out, end := false, [], ShortSalt;
    var w := SendAll(derive, salt, writes, dst);
    if w == null {
      return;
    }
    ok := w.Close();
    if !ok {
      return;
    }
    w.ReadsBackTwiceClosed(derive);
    out, end := Receive(derive, dst.data);
  }

  method Receive(derive: KeyDerivation, data: Bytes) returns (out: Bytes, end: End)
    ensures Decoded(out, end) == DecodeStream(derive, data)
  {
    var src := new Source(data);
    out, end := CopyAll(derive, src);
  }
}
