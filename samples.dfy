/**
 * Decryption of the payload of one `mdat` box with the `senc` and `trun` boxes
 * popped for it: the `cenc` scheme of ISO/IEC 23001-7 (section 10.1), sample by
 * sample, each sample with a fresh counter-mode cipher keyed by the content key
 * and the sample's IV, sub-sample by sub-sample where the sample has pairs.
 *
 * The specification is written forwards, the way the loops run: the state
 * after the first `k` pairs (or samples) is a function of the state after the
 * first `k - 1`.
 */
module Samples {
  import opened Wrappers
  import opened Ctr
  import opened Boxes

  /** `BytesIO(box.data)`: a byte buffer and a read cursor. */
  class ByteReader {
    const data: seq<byte>
    var pos: nat

    ghost predicate Valid()
      reads this
    {
      pos <= |data|
    }

    constructor (data: seq<byte>)
      ensures Valid() && this.data == data && pos == 0
    {
      this.data := data;
      pos := 0;
    }

    /** `read(n)`: the next `n` bytes, or all that are left when fewer remain. */
    method Read(n: nat) returns (chunk: seq<byte>)
      requires Valid()
      modifies this
      ensures Valid()
      ensures pos == Min(old(pos) + n, |data|)
      ensures chunk == data[old(pos)..pos]
    {
      var end := Min(pos + n, |data|);
      chunk := data[pos..end];
      pos := end;
    }
  }

  // ---------------------------------------------------------------------------
  // One sample: the (clear, cipher) pairs read from offset `pos` of `data`
  // ---------------------------------------------------------------------------

  /** Where the clear bytes of a pair read from `start` stop and its cipher bytes start. */
  function ClearStop(span: Subsample, data: seq<byte>, start: nat): (p: nat)
    requires start <= |data|
    ensures start <= p <= |data|
  {
    Min(start + span.clearBytes, |data|)
  }

  /** Where a pair read from `start` stops. */
  function PairStop(span: Subsample, data: seq<byte>, start: nat): (p: nat)
    requires start <= |data|
    ensures ClearStop(span, data, start) <= p <= |data|
  {
    Min(ClearStop(span, data, start) + span.cipherBytes, |data|)
  }

  /** Where pair `k` starts reading; for `k == |spans|`, where the sample stops. */
  function SpanStart(spans: seq<Subsample>, data: seq<byte>, pos: nat, k: nat): (p: nat)
    requires pos <= |data| && k <= |spans|
    ensures pos <= p <= |data|
  {
    if k == 0 then pos else PairStop(spans[k - 1], data, SpanStart(spans, data, pos, k - 1))
  }

  /** Where the clear bytes of pair `k` stop and its cipher bytes start. */
  function ClearEnd(spans: seq<Subsample>, data: seq<byte>, pos: nat, k: nat): nat
    requires pos <= |data| && k < |spans|
  {
    ClearStop(spans[k], data, SpanStart(spans, data, pos, k))
  }

  /** The cipher bytes of pair `k` (fewer than asked for when the buffer runs out). */
  function CipherPart(spans: seq<Subsample>, data: seq<byte>, pos: nat, k: nat): seq<byte>
    requires pos <= |data| && k < |spans|
  {
    data[ClearEnd(spans, data, pos, k)..SpanStart(spans, data, pos, k + 1)]
  }

  /** How many keystream bytes the cipher has used when pair `k` is reached. */
  function CipherUsed(spans: seq<Subsample>, data: seq<byte>, pos: nat, k: nat): nat
    requires pos <= |data| && k <= |spans|
  {
    if k == 0 then 0 else CipherUsed(spans, data, pos, k - 1) + |CipherPart(spans, data, pos, k - 1)|
  }

  /**
   * The output of the first `k` pairs: each clear span copied, each cipher span
   * transformed with the keystream that continues from the previous one.
   */
  function SpansOut(E: BlockCipher, key: seq<byte>, iv: seq<byte>, spans: seq<Subsample>,
                    data: seq<byte>, pos: nat, k: nat): seq<byte>
    requires pos <= |data| && k <= |spans|
  {
    if k == 0 then []
    else
      SpansOut(E, key, iv, spans, data, pos, k - 1)
        + data[SpanStart(spans, data, pos, k - 1)..ClearEnd(spans, data, pos, k - 1)]
        + Crypt(E, key, iv, CipherUsed(spans, data, pos, k - 1), CipherPart(spans, data, pos, k - 1))
  }

  /** The sizes of the first `k` pairs added up. */
  function Covered(spans: seq<Subsample>, k: nat): nat
    requires k <= |spans|
  {
    if k == 0 then 0 else Covered(spans, k - 1) + spans[k - 1].clearBytes + spans[k - 1].cipherBytes
  }

  /** The reads stop after the pairs' total size, or at the end of the buffer if that comes first. */
  lemma {:induction false} SpanStartCovered(spans: seq<Subsample>, data: seq<byte>, pos: nat, k: nat)
    requires pos <= |data| && k <= |spans|
    ensures SpanStart(spans, data, pos, k) == Min(pos + Covered(spans, k), |data|)
  {
    if k > 0 {
      SpanStartCovered(spans, data, pos, k - 1);
    }
  }

  /** The output has exactly as many bytes as were read: nothing is dropped or added. */
  lemma {:induction false} SpansOutLength(E: BlockCipher, key: seq<byte>, iv: seq<byte>, spans: seq<Subsample>,
                                          data: seq<byte>, pos: nat, k: nat)
    requires pos <= |data| && k <= |spans|
    ensures |SpansOut(E, key, iv, spans, data, pos, k)| == SpanStart(spans, data, pos, k) - pos
  {
    if k > 0 {
      SpansOutLength(E, key, iv, spans, data, pos, k - 1);
    }
  }

  /** The cipher bytes of the first `k` pairs, concatenated. */
  function CipherStream(spans: seq<Subsample>, data: seq<byte>, pos: nat, k: nat): seq<byte>
    requires pos <= |data| && k <= |spans|
  {
    if k == 0 then [] else CipherStream(spans, data, pos, k - 1) + CipherPart(spans, data, pos, k - 1)
  }

  /** The cipher spans' outputs of the first `k` pairs, concatenated. */
  function DecryptedParts(E: BlockCipher, key: seq<byte>, iv: seq<byte>, spans: seq<Subsample>,
                          data: seq<byte>, pos: nat, k: nat): seq<byte>
    requires pos <= |data| && k <= |spans|
  {
    if k == 0 then []
    else
      DecryptedParts(E, key, iv, spans, data, pos, k - 1)
        + Crypt(E, key, iv, CipherUsed(spans, data, pos, k - 1), CipherPart(spans, data, pos, k - 1))
  }

  /** The keystream offset at pair `k` is the number of cipher bytes read before it. */
  lemma {:induction false} CipherUsedCountsCipherBytes(spans: seq<Subsample>, data: seq<byte>, pos: nat, k: nat)
    requires pos <= |data| && k <= |spans|
    ensures CipherUsed(spans, data, pos, k) == |CipherStream(spans, data, pos, k)|
  {
    if k > 0 {
      CipherUsedCountsCipherBytes(spans, data, pos, k - 1);
    }
  }

  /**
   * The cipher spans of a sample form one counter-mode stream: transforming them
   * span by span, the keystream continuing, is transforming their concatenation
   * from keystream byte 0.
   */
  lemma {:induction false} SubsamplesFormOneStream(E: BlockCipher, key: seq<byte>, iv: seq<byte>,
                                                   spans: seq<Subsample>, data: seq<byte>, pos: nat, k: nat)
    requires pos <= |data| && k <= |spans|
    ensures DecryptedParts(E, key, iv, spans, data, pos, k) == Crypt(E, key, iv, 0, CipherStream(spans, data, pos, k))
  {
    if k > 0 {
      SubsamplesFormOneStream(E, key, iv, spans, data, pos, k - 1);
      CipherUsedCountsCipherBytes(spans, data, pos, k - 1);
      StreamContinues(E, key, iv, DecryptedParts(E, key, iv, spans, data, pos, k - 1),
                      CipherStream(spans, data, pos, k - 1), CipherPart(spans, data, pos, k - 1),
                      CipherUsed(spans, data, pos, k - 1));
    }
  }

  /** One step of the above: the next span continues the keystream where the stream so far stopped. */
  lemma StreamContinues(E: BlockCipher, key: seq<byte>, iv: seq<byte>, prev: seq<byte>,
                        before: seq<byte>, part: seq<byte>, used: nat)
    requires prev == Crypt(E, key, iv, 0, before) && used == |before|
    ensures prev + Crypt(E, key, iv, used, part) == Crypt(E, key, iv, 0, before + part)
  {
    CryptSplit(E, key, iv, 0, before, part);
  }

  /**
   * Which spans the sample is read in. A nonzero `stsz` sample size wins and is
   * read as one cipher span; otherwise a sample without sub-sample pairs is one
   * cipher span of its `trun` size; otherwise the pairs themselves.
   */
  function SampleLayout(sample: SencSample, info: TrunSample, sampleSize: nat): seq<Subsample>
  {
    if sampleSize != 0 then [Subsample(0, sampleSize)]
    else if sample.subsamples == [] then [Subsample(0, info.sampleSize)]
    else sample.subsamples
  }

  /** The output for the sample read from offset `pos`, or the error raised before anything is read. */
  function SampleOut(E: BlockCipher, key: seq<byte>, sample: SencSample, info: TrunSample,
                     sampleSize: Option<nat>, data: seq<byte>, pos: nat): (r: Result<seq<byte>, DecryptError>)
    requires pos <= |data|
    ensures r.Success? ==> pos + |r.value| <= |data|
  {
    match NewCipherFault(key, sample.iv)
    case Some(fault) => Failure(CipherRefused(fault))
    case None =>
      if sampleSize.None? then Failure(SampleSizeUnbound)
      else
        var layout := SampleLayout(sample, info, sampleSize.value);
        SpansOutLength(E, key, sample.iv, layout, data, pos, |layout|);
        Success(SpansOut(E, key, sample.iv, layout, data, pos, |layout|))
  }

  /** A sample fails exactly when the cipher refuses its key or IV, or no `stsz` sample size was seen. */
  lemma SampleOutSucceeds(E: BlockCipher, key: seq<byte>, sample: SencSample, info: TrunSample,
                          sampleSize: Option<nat>, data: seq<byte>, pos: nat)
    requires pos <= |data|
    ensures SampleOut(E, key, sample, info, sampleSize, data, pos).Success?
            <==> NewCipherFault(key, sample.iv).None? && sampleSize.Some?
  {
  }

  /** A nonzero `stsz` sample size wins: that many bytes (or what is left) are read and all transformed. */
  lemma FixedSampleSizeWins(E: BlockCipher, key: seq<byte>, sample: SencSample, info: TrunSample,
                            n: nat, data: seq<byte>, pos: nat)
    requires pos <= |data| && n != 0 && NewCipherFault(key, sample.iv).None?
    ensures SampleOut(E, key, sample, info, Some(n), data, pos)
            == Success(Crypt(E, key, sample.iv, 0, data[pos..Min(pos + n, |data|)]))
  {
    WholeSpan(E, key, sample.iv, n, data, pos);
  }

  /** Otherwise a sample without pairs is read whole, at its `trun` size, and all transformed. */
  lemma UnsplitSampleUsesTrunSize(E: BlockCipher, key: seq<byte>, sample: SencSample, info: TrunSample,
                                  data: seq<byte>, pos: nat)
    requires pos <= |data| && sample.subsamples == [] && NewCipherFault(key, sample.iv).None?
    ensures SampleOut(E, key, sample, info, Some(0), data, pos)
            == Success(Crypt(E, key, sample.iv, 0, data[pos..Min(pos + info.sampleSize, |data|)]))
  {
    WholeSpan(E, key, sample.iv, info.sampleSize, data, pos);
  }

  /**
   * Otherwise the sample is its pairs: clear spans copied, and the cipher spans,
   * taken together, transformed as one stream from keystream byte 0.
   */
  lemma SplitSampleUsesPairs(E: BlockCipher, key: seq<byte>, sample: SencSample, info: TrunSample,
                             data: seq<byte>, pos: nat)
    requires pos <= |data| && sample.subsamples != [] && NewCipherFault(key, sample.iv).None?
    ensures SampleOut(E, key, sample, info, Some(0), data, pos)
            == Success(SpansOut(E, key, sample.iv, sample.subsamples, data, pos, |sample.subsamples|))
  {
  }

  /**
   * A sample's output is exactly as long as what it read: its layout's total
   * size, or what was left of the buffer.
   */
  lemma SampleOutConsumes(E: BlockCipher, key: seq<byte>, sample: SencSample, info: TrunSample,
                          n: nat, data: seq<byte>, pos: nat)
    requires pos <= |data| && NewCipherFault(key, sample.iv).None?
    ensures var layout := SampleLayout(sample, info, n);
            SampleOut(E, key, sample, info, Some(n), data, pos).Success?
            && pos + |SampleOut(E, key, sample, info, Some(n), data, pos).value| == Min(pos + Covered(layout, |layout|), |data|)
  {
    var layout := SampleLayout(sample, info, n);
    SpansOutLength(E, key, sample.iv, layout, data, pos, |layout|);
    SpanStartCovered(layout, data, pos, |layout|);
  }

  /** A single cipher span is read whole, up to the end of the buffer, and transformed from keystream byte 0. */
  lemma WholeSpan(E: BlockCipher, key: seq<byte>, iv: seq<byte>, n: nat, data: seq<byte>, pos: nat)
    requires pos <= |data|
    ensures SpanStart([Subsample(0, n)], data, pos, 1) == Min(pos + n, |data|)
    ensures SpansOut(E, key, iv, [Subsample(0, n)], data, pos, 1) == Crypt(E, key, iv, 0, data[pos..Min(pos + n, |data|)])
  {
    var spans := [Subsample(0, n)];
    assert ClearEnd(spans, data, pos, 0) == pos;
    assert data[pos..pos] == [];
  }

  // ---------------------------------------------------------------------------
  // One mdat box: the samples in order
  // ---------------------------------------------------------------------------

  /** Python's `zip`: pairs by position, as many as the shorter list has. */
  function Zip<A, B>(xs: seq<A>, ys: seq<B>): (pairs: seq<(A, B)>)
    ensures |pairs| == Min(|xs|, |ys|)
  {
    if xs == [] || ys == [] then [] else [(xs[0], ys[0])] + Zip(xs[1..], ys[1..])
  }

  /** `zip` pairs the k-th element of one list with the k-th of the other; what is left over is dropped. */
  lemma {:induction false} ZipPairs<A, B>(xs: seq<A>, ys: seq<B>, k: nat)
    requires k < |Zip(xs, ys)|
    ensures k < |xs| && k < |ys| && Zip(xs, ys)[k] == (xs[k], ys[k])
  {
    if k > 0 {
      ZipPairs(xs[1..], ys[1..], k - 1);
    }
  }

  /**
   * The output of the first `j` samples, or the first error. The reader starts
   * at offset 0 and every sample's output is as long as what it read, so each
   * sample starts reading at the length of the output so far.
   */
  function SamplesOut(E: BlockCipher, key: seq<byte>, pairs: seq<(SencSample, TrunSample)>,
                      sampleSize: Option<nat>, data: seq<byte>, j: nat): (r: Result<seq<byte>, DecryptError>)
    requires j <= |pairs|
    ensures r.Success? ==> |r.value| <= |data|
  {
    if j == 0 then Success([])
    else
      match SamplesOut(E, key, pairs, sampleSize, data, j - 1)
      case Failure(e) => Failure(e)
      case Success(done) =>
        match SampleOut(E, key, pairs[j - 1].0, pairs[j - 1].1, sampleSize, data, |done|)
        case Failure(e) => Failure(e)
        case Success(out) => Success(done + out)
  }

  /** The new payload of an mdat box, from the sample tables of the senc and trun boxes popped for it. */
  function MdatPayload(E: BlockCipher, key: seq<byte>, samples: seq<SencSample>, infos: seq<TrunSample>,
                       sampleSize: Option<nat>, data: seq<byte>): Result<seq<byte>, DecryptError>
  {
    var pairs := Zip(samples, infos);
    SamplesOut(E, key, pairs, sampleSize, data, |pairs|)
  }

  /** Once a sample fails, the box fails with that error: later samples are never read. */
  lemma {:induction false} SamplesOutFailureSticks(E: BlockCipher, key: seq<byte>, pairs: seq<(SencSample, TrunSample)>,
                                                   sampleSize: Option<nat>, data: seq<byte>, j: nat, n: nat, e: DecryptError)
    requires j <= n <= |pairs|
    requires SamplesOut(E, key, pairs, sampleSize, data, j) == Failure(e)
    ensures SamplesOut(E, key, pairs, sampleSize, data, n) == Failure(e)
    decreases n - j
  {
    if j < n {
      SamplesOutFailureSticks(E, key, pairs, sampleSize, data, j + 1, n, e);
    }
  }

  /** An mdat box fails only because a cipher was refused or no sample size was bound. */
  lemma {:induction false} SamplesOutErrors(E: BlockCipher, key: seq<byte>, pairs: seq<(SencSample, TrunSample)>,
                                            sampleSize: Option<nat>, data: seq<byte>, j: nat)
    requires j <= |pairs|
    ensures var r := SamplesOut(E, key, pairs, sampleSize, data, j);
            r.Failure? ==> r.error.CipherRefused? || r.error == SampleSizeUnbound
  {
    if j > 0 {
      SamplesOutErrors(E, key, pairs, sampleSize, data, j - 1);
    }
  }

  // ---------------------------------------------------------------------------
  // The decryption loops
  // ---------------------------------------------------------------------------

  /** The sub-sample loop: copy each clear span, decrypt each cipher span with the running cipher. */
  method DecryptSpans(cipher: CtrCipher, spans: seq<Subsample>, reader: ByteReader) returns (plain: seq<byte>)
    requires reader.Valid() && cipher.used == 0
    modifies reader, cipher
    ensures reader.Valid()
    ensures plain == SpansOut(cipher.E, cipher.key, cipher.iv, spans, reader.data, old(reader.pos), |spans|)
    ensures reader.pos == SpanStart(spans, reader.data, old(reader.pos), |spans|)
    ensures cipher.used == CipherUsed(spans, reader.data, old(reader.pos), |spans|)
  {
    plain := [];
    ghost var E, key, iv, data, start := cipher.E, cipher.key, cipher.iv, reader.data, reader.pos;
    for k := 0 to |spans|
      invariant reader.Valid() && reader.pos == SpanStart(spans, data, start, k)
      invariant cipher.used == CipherUsed(spans, data, start, k)
      invariant plain == SpansOut(E, key, iv, spans, data, start, k)
    {
      ghost var here, used, done := reader.pos, cipher.used, plain;
      var clear := reader.Read(spans[k].clearBytes);
      ghost var mid := reader.pos;
      var cipherBytes := reader.Read(spans[k].cipherBytes);
      var decrypted := cipher.Decrypt(cipherBytes);
      plain := plain + clear + decrypted;
      SpansOutNext(E, key, iv, spans, data, start, k, here, mid, reader.pos);
    }
  }

  /** One iteration of the sub-sample loop, in terms of the reader's offsets. */
  lemma SpansOutNext(E: BlockCipher, key: seq<byte>, iv: seq<byte>, spans: seq<Subsample>,
                     data: seq<byte>, pos: nat, k: nat, here: nat, mid: nat, next: nat)
    requires pos <= |data| && k < |spans|
    requires here == SpanStart(spans, data, pos, k)
    requires mid == Min(here + spans[k].clearBytes, |data|)
    requires next == Min(mid + spans[k].cipherBytes, |data|)
    ensures next == SpanStart(spans, data, pos, k + 1)
    ensures CipherUsed(spans, data, pos, k + 1) == CipherUsed(spans, data, pos, k) + |data[mid..next]|
    ensures SpansOut(E, key, iv, spans, data, pos, k + 1)
            == SpansOut(E, key, iv, spans, data, pos, k) + data[here..mid]
               + Crypt(E, key, iv, CipherUsed(spans, data, pos, k), data[mid..next])
  {
  }

  /** Decrypt the sample at the reader's cursor; the cipher is created afresh for it. */
  method DecryptSample(E: BlockCipher, key: seq<byte>, sample: SencSample, info: TrunSample,
                       sampleSize: Option<nat>, reader: ByteReader) returns (r: Result<seq<byte>, DecryptError>)
    requires reader.Valid()
    modifies reader
    ensures reader.Valid()
    ensures r == SampleOut(E, key, sample, info, sampleSize, reader.data, old(reader.pos))
    ensures r.Success? ==> reader.pos == old(reader.pos) + |r.value|
  {
    var fault := NewCipherFault(key, sample.iv);
    if fault.Some? {
      return Failure(CipherRefused(fault.value));
    }
    var cipher := new CtrCipher(E, key, sample.iv);
    if sampleSize.None? {
      return Failure(SampleSizeUnbound);
    }
    ghost var pos := reader.pos;
    var plain: seq<byte>;
    if sampleSize.value != 0 {
      var cipherBytes := reader.Read(sampleSize.value);
      plain := cipher.Decrypt(cipherBytes);
      WholeSpan(E, key, sample.iv, sampleSize.value, reader.data, pos);
    } else if sample.subsamples == [] {
      var cipherBytes := reader.Read(info.sampleSize);
      plain := cipher.Decrypt(cipherBytes);
      WholeSpan(E, key, sample.iv, info.sampleSize, reader.data, pos);
    } else {
      plain := DecryptSpans(cipher, sample.subsamples, reader);
      SpansOutLength(E, key, sample.iv, sample.subsamples, reader.data, pos, |sample.subsamples|);
    }
    r := Success(plain);
  }

  /** The body of the `mdat` branch: rebuild the payload sample by sample. */
  method DecryptMdat(E: BlockCipher, key: seq<byte>, samples: seq<SencSample>, infos: seq<TrunSample>,
                     sampleSize: Option<nat>, data: seq<byte>) returns (r: Result<seq<byte>, DecryptError>)
    ensures r == MdatPayload(E, key, samples, infos, sampleSize, data)
  {
    var clearBox: seq<byte> := [];
    var reader := new ByteReader(data);
    var pairs := Zip(samples, infos);
    for j := 0 to |pairs|
      invariant reader.Valid() && reader.data == data && reader.pos == |clearBox|
      invariant SamplesOut(E, key, pairs, sampleSize, data, j) == Success(clearBox)
    {
      ghost var done := clearBox;
      var (sample, info) := pairs[j];
      var out := DecryptSample(E, key, sample, info, sampleSize, reader);
      if out.Failure? {
        SamplesOutStops(E, key, pairs, sampleSize, data, j, done, out.error);
        return Failure(out.error);
      }
      SamplesOutGrows(E, key, pairs, sampleSize, data, j, done, out.value);
      clearBox := clearBox + out.value;
    }
    r := Success(clearBox);
  }

  /** A sample that succeeds extends the output of the samples before it. */
  lemma SamplesOutGrows(E: BlockCipher, key: seq<byte>, pairs: seq<(SencSample, TrunSample)>,
                        sampleSize: Option<nat>, data: seq<byte>, j: nat, done: seq<byte>, out: seq<byte>)
    requires j < |pairs|
    requires SamplesOut(E, key, pairs, sampleSize, data, j) == Success(done)
    requires SampleOut(E, key, pairs[j].0, pairs[j].1, sampleSize, data, |done|) == Success(out)
    ensures SamplesOut(E, key, pairs, sampleSize, data, j + 1) == Success(done + out)
  {
  }

  /** A sample that fails makes the whole box fail with its error. */
  lemma SamplesOutStops(E: BlockCipher, key: seq<byte>, pairs: seq<(SencSample, TrunSample)>,
                        sampleSize: Option<nat>, data: seq<byte>, j: nat, done: seq<byte>, e: DecryptError)
    requires j < |pairs|
    requires SamplesOut(E, key, pairs, sampleSize, data, j) == Success(done)
    requires SampleOut(E, key, pairs[j].0, pairs[j].1, sampleSize, data, |done|) == Failure(e)
    ensures SamplesOut(E, key, pairs, sampleSize, data, |pairs|) == Failure(e)
  {
    SamplesOutFailureSticks(E, key, pairs, sampleSize, data, j + 1, |pairs|, e);
  }
}
