/**
 * The box tree of a fragmented ISO base-media file (ISO/IEC 14496-12) as the
 * decryptor sees it after parsing, and the two header rewrites applied to every
 * top-level box: the sample-entry format rewrite (`fix_headers`) and the removal
 * of `sinf` children from the first sample entry of every `stsd`.
 *
 * Parsing and re-serialisation are the box library's; here a box is a value.
 * Where the source mutates a parsed box in place, the model rebuilds the value.
 */
module Boxes {
  import opened Wrappers
  import opened Ctr

  type FourCC = seq<byte>

  const ENC: seq<byte> := [0x65, 0x6E, 0x63]          // "enc"
  const MP4A: FourCC := [0x6D, 0x70, 0x34, 0x61]      // "mp4a"
  const MOOF: FourCC := [0x6D, 0x6F, 0x6F, 0x66]      // "moof"
  const MDAT: FourCC := [0x6D, 0x64, 0x61, 0x74]      // "mdat"
  const SINF: FourCC := [0x73, 0x69, 0x6E, 0x66]      // "sinf"
  const STSD: FourCC := [0x73, 0x74, 0x73, 0x64]      // "stsd"
  const STSZ: FourCC := [0x73, 0x74, 0x73, 0x7A]      // "stsz"
  const SENC: FourCC := [0x73, 0x65, 0x6E, 0x63]      // "senc"
  const TRUN: FourCC := [0x74, 0x72, 0x75, 0x6E]      // "trun"

  /** One (clear, cipher) pair of a sub-sample encrypted sample (ISO/IEC 23001-7, section 7.2). */
  datatype Subsample = Subsample(clearBytes: nat, cipherBytes: nat)

  /** One `senc` entry: the sample's IV and its sub-sample pairs, possibly none. */
  datatype SencSample = SencSample(iv: seq<byte>, subsamples: seq<Subsample>)

  /** One `trun` entry; only the sample size is used. */
  datatype TrunSample = TrunSample(sampleSize: nat)

  /** A sample entry of an `stsd` box: its coding name and its child boxes (`esds`, `sinf`, ...). */
  datatype SampleEntry = SampleEntry(format: FourCC, children: seq<Box>)

  datatype Box =
    | Container(kind: FourCC, children: seq<Box>)   // moov, trak, moof, traf, sinf, ...
    | Stsd(entries: seq<SampleEntry>)
    | Stsz(sampleSize: nat)
    | Senc(sampleEncryptionInfo: seq<SencSample>)
    | Trun(sampleInfo: seq<TrunSample>)
    | Mdat(data: seq<byte>)
    | Leaf(kind: FourCC, payload: seq<byte>)         // any other box, kept as it is

  /** `senc_box.sample_encryption_info`; only `senc` boxes carry one. */
  function SampleEncryptionInfo(b: Box): seq<SencSample>
  {
    if b.Senc? then b.sampleEncryptionInfo else []
  }

  /** `trun_box.sample_info`; only `trun` boxes carry one. */
  function SampleInfo(b: Box): seq<TrunSample>
  {
    if b.Trun? then b.sampleInfo else []
  }

  /** The errors the decryptor can raise. */
  datatype DecryptError =
    | CipherRefused(fault: CipherFault)   // AES.new raised ValueError
    | SampleSizeUnbound                   // `sample_size` read before any stsz box was seen
    | NoSampleEntry                       // `stsd.entries[0]` on an stsd without entries
    | EmptyQueue                          // `popleft` on an empty deque

  /** The four-character type of a box. */
  function Type(b: Box): FourCC
  {
    match b
    case Container(kind, _) => kind
    case Stsd(_) => STSD
    case Stsz(_) => STSZ
    case Senc(_) => SENC
    case Trun(_) => TRUN
    case Mdat(_) => MDAT
    case Leaf(kind, _) => kind
  }

  predicate IsSinf(b: Box)
  {
    Type(b) == SINF
  }

  /** `pattern in s` on byte strings: `pattern` occurs somewhere in `s`. */
  predicate Contains(s: seq<byte>, pattern: seq<byte>)
    decreases |s|
  {
    |pattern| <= |s| && (s[..|pattern|] == pattern || Contains(s[1..], pattern))
  }

  lemma Mp4aIsPlain()
    ensures !Contains(MP4A, ENC)
  {
    assert MP4A[..3][0] != ENC[0];
    assert MP4A[1..][..3][0] != ENC[0];
    assert MP4A[1..][1..] == [0x34, 0x61];
  }

  // ---------------------------------------------------------------------------
  // Finding boxes
  // ---------------------------------------------------------------------------

  /** The box types the decryptor searches for. */
  datatype Tag = StsdTag | StszTag | SencTag | TrunTag

  predicate Is(b: Box, t: Tag)
  {
    match t
    case StsdTag => b.Stsd?
    case StszTag => b.Stsz?
    case SencTag => b.Senc?
    case TrunTag => b.Trun?
  }

  /**
   * The boxes of type `t` at or below `b`, depth first, in document order. A
   * match is not searched further; only `children` are descended into (sample
   * entries are not).
   */
  function Find(b: Box, t: Tag): (found: seq<Box>)
    ensures forall x <- found :: Is(x, t)
    decreases b, 1
  {
    if Is(b, t) then [b]
    else if b.Container? then FindAll(b.children, t)
    else []
  }

  function FindAll(bs: seq<Box>, t: Tag): (found: seq<Box>)
    ensures forall x <- found :: Is(x, t)
    decreases bs, 0
  {
    if bs == [] then [] else Find(bs[0], t) + FindAll(bs[1..], t)
  }

  /** Two sibling lists whose members have the same finds, member by member, have the same finds. */
  lemma {:induction false} FindAllPointwise(xs: seq<Box>, ys: seq<Box>, t: Tag)
    requires |xs| == |ys|
    requires forall k :: 0 <= k < |xs| ==> Find(xs[k], t) == Find(ys[k], t)
    ensures FindAll(xs, t) == FindAll(ys, t)
    decreases |xs|
  {
    if xs != [] {
      FindAllPointwise(xs[1..], ys[1..], t);
    }
  }

  // ---------------------------------------------------------------------------
  // fix_headers: every sample-entry format containing "enc" becomes "mp4a"
  // ---------------------------------------------------------------------------

  function FormatFixed(e: SampleEntry): SampleEntry
  {
    if Contains(e.format, ENC) then e.(format := MP4A) else e
  }

  /** The tree after `fix_headers`: every entry of every stsd found has its format fixed. */
  function HeadersFixed(b: Box): Box
    decreases b
  {
    match b
    case Stsd(entries) =>
      Stsd(seq(|entries|, k requires 0 <= k < |entries| => FormatFixed(entries[k])))
    case Container(kind, children) =>
      Container(kind, seq(|children|, k requires 0 <= k < |children| => HeadersFixed(children[k])))
    case _ => b
  }

  /** The rewrite of the sample entries of one stsd box, as the loop over its entries does it. */
  method FixEntries(entries: seq<SampleEntry>) returns (fixed: seq<SampleEntry>)
    ensures |fixed| == |entries|
    ensures forall k :: 0 <= k < |entries| ==> fixed[k].children == entries[k].children
    ensures forall k :: 0 <= k < |entries| ==>
              fixed[k].format == if Contains(entries[k].format, ENC) then MP4A else entries[k].format
  {
    fixed := entries;
    for j := 0 to |fixed|
      invariant |fixed| == |entries|
      invariant forall k :: 0 <= k < j ==> fixed[k] == FormatFixed(entries[k])
      invariant forall k :: j <= k < |fixed| ==> fixed[k] == entries[k]
    {
      if Contains(fixed[j].format, ENC) {
        fixed := fixed[j := fixed[j].(format := MP4A)];
      }
    }
  }

  /** `fix_headers(box)`. */
  method FixHeaders(box: Box) returns (fixed: Box)
    ensures fixed == HeadersFixed(box)
    decreases box
  {
    match box
    case Stsd(entries) =>
      var es := FixEntries(entries);
      assert es == seq(|entries|, k requires 0 <= k < |entries| => FormatFixed(entries[k]));
      fixed := Stsd(es);
    case Container(kind, children) =>
      var cs := children;
      for j := 0 to |cs|
        invariant |cs| == |children|
        invariant forall k :: 0 <= k < j ==> cs[k] == HeadersFixed(children[k])
        invariant forall k :: j <= k < |cs| ==> cs[k] == children[k]
      {
        var c := FixHeaders(cs[j]);
        cs := cs[j := c];
      }
      assert cs == seq(|children|, k requires 0 <= k < |children| => HeadersFixed(children[k]));
      fixed := Container(kind, cs);
    case _ =>
      fixed := box;
  }

  /** After `fix_headers`, the stsd boxes found are the original ones with their entries fixed, in the same order. */
  lemma {:induction false} HeadersFixedStsds(b: Box)
    ensures Find(HeadersFixed(b), StsdTag) ==
            seq(|Find(b, StsdTag)|, k requires 0 <= k < |Find(b, StsdTag)| => HeadersFixed(Find(b, StsdTag)[k]))
    decreases b
  {
    if b.Container? {
      HeadersFixedStsdsAll(b.children);
      assert HeadersFixed(b).children == seq(|b.children|, k requires 0 <= k < |b.children| => HeadersFixed(b.children[k]));
    }
  }

  lemma {:induction false} HeadersFixedStsdsAll(bs: seq<Box>)
    ensures FindAll(seq(|bs|, k requires 0 <= k < |bs| => HeadersFixed(bs[k])), StsdTag) ==
            seq(|FindAll(bs, StsdTag)|, k requires 0 <= k < |FindAll(bs, StsdTag)| => HeadersFixed(FindAll(bs, StsdTag)[k]))
    decreases bs
  {
    if bs != [] {
      var mapped := seq(|bs|, k requires 0 <= k < |bs| => HeadersFixed(bs[k]));
      assert mapped[1..] == seq(|bs[1..]|, k requires 0 <= k < |bs[1..]| => HeadersFixed(bs[1..][k]));
      HeadersFixedStsds(bs[0]);
      HeadersFixedStsdsAll(bs[1..]);
    }
  }

  /** `fix_headers` leaves no encrypted format behind in any stsd it can find. */
  lemma NoEncryptedFormatRemains(b: Box)
    ensures forall s <- Find(HeadersFixed(b), StsdTag), e <- s.entries :: !Contains(e.format, ENC)
  {
    HeadersFixedStsds(b);
    Mp4aIsPlain();
  }

  /** `fix_headers` touches nothing but stsd boxes: every other search finds the same boxes. */
  lemma {:induction false} HeadersFixedKeepsFinds(b: Box, t: Tag)
    requires t != StsdTag
    ensures Find(HeadersFixed(b), t) == Find(b, t)
    decreases b
  {
    if b.Container? {
      var cs := b.children;
      var fixed := HeadersFixed(b).children;
      forall k | 0 <= k < |cs| ensures Find(fixed[k], t) == Find(cs[k], t) {
        HeadersFixedKeepsFinds(cs[k], t);
      }
      FindAllPointwise(fixed, cs, t);
    }
  }

  /** Rewriting headers twice is rewriting them once. */
  lemma {:induction false} HeadersFixedIdempotent(b: Box)
    ensures HeadersFixed(HeadersFixed(b)) == HeadersFixed(b)
    decreases b
  {
    Mp4aIsPlain();
    match b
    case Container(kind, children) =>
      forall k | 0 <= k < |children| ensures HeadersFixed(HeadersFixed(children[k])) == HeadersFixed(children[k]) {
        HeadersFixedIdempotent(children[k]);
      }
    case _ =>
  }

  // ---------------------------------------------------------------------------
  // sinf removal from the first sample entry of every stsd
  // ---------------------------------------------------------------------------

  /**
   * The children left by removing `sinf` boxes from a list while iterating over
   * that same list: after each removal the next child shifts into the visited
   * slot and is never looked at.
   */
  function SinfStripped(cs: seq<Box>): (kept: seq<Box>)
    ensures |kept| <= |cs|
  {
    if cs == [] then []
    else if !IsSinf(cs[0]) then [cs[0]] + SinfStripped(cs[1..])
    else if |cs| == 1 then []
    else [cs[1]] + SinfStripped(cs[2..])
  }

  /** The children that are not `sinf`, in order. */
  function NonSinf(cs: seq<Box>): seq<Box>
  {
    if cs == [] then [] else (if IsSinf(cs[0]) then [] else [cs[0]]) + NonSinf(cs[1..])
  }

  /** Every child that is not `sinf` survives, in its order. */
  lemma {:induction false} SinfStrippedKeepsOthers(cs: seq<Box>)
    ensures NonSinf(SinfStripped(cs)) == NonSinf(cs)
    decreases |cs|
  {
    if cs == [] {
    } else if !IsSinf(cs[0]) {
      SinfStrippedKeepsOthers(cs[1..]);
      assert ([cs[0]] + SinfStripped(cs[1..]))[1..] == SinfStripped(cs[1..]);
    } else if |cs| == 1 {
    } else {
      SinfStrippedKeepsOthers(cs[2..]);
      assert ([cs[1]] + SinfStripped(cs[2..]))[1..] == SinfStripped(cs[2..]);
      assert cs[1..][1..] == cs[2..];
    }
  }

  /** No two adjacent children are both `sinf`. */
  predicate NoAdjacentSinf(cs: seq<Box>)
  {
    forall k :: 0 <= k < |cs| - 1 && IsSinf(cs[k]) ==> !IsSinf(cs[k + 1])
  }

  /** Without two `sinf` children in a row, every `sinf` child is removed and nothing else. */
  lemma {:induction false} SinfStrippedComplete(cs: seq<Box>)
    requires NoAdjacentSinf(cs)
    ensures SinfStripped(cs) == NonSinf(cs)
    decreases |cs|
  {
    if cs == [] {
    } else if !IsSinf(cs[0]) {
      assert NoAdjacentSinf(cs[1..]) by {
        forall k | 0 <= k < |cs[1..]| - 1 && IsSinf(cs[1..][k]) ensures !IsSinf(cs[1..][k + 1]) {
          assert cs[1..][k] == cs[k + 1];
        }
      }
      SinfStrippedComplete(cs[1..]);
    } else if |cs| == 1 {
    } else {
      assert !IsSinf(cs[1]);
      assert NoAdjacentSinf(cs[2..]) by {
        forall k | 0 <= k < |cs[2..]| - 1 && IsSinf(cs[2..][k]) ensures !IsSinf(cs[2..][k + 1]) {
          assert cs[2..][k] == cs[k + 2];
        }
      }
      SinfStrippedComplete(cs[2..]);
      assert cs[1..][1..] == cs[2..];
    }
  }

  /** Two `sinf` children in a row: the second one is skipped and stays. */
  lemma SinfStrippedSkipsFollower(a: Box, b: Box, rest: seq<Box>)
    requires IsSinf(a) && IsSinf(b)
    ensures SinfStripped([a, b] + rest) == [b] + SinfStripped(rest)
    ensures IsSinf(SinfStripped([a, b] + rest)[0])
  {
    SinfStrippedPassesOver(a, b, rest);
  }

  /**
   * `for b in children: if b.type == b"sinf": children.remove(b)`. The removed
   * element is the visited one: parsed boxes record their stream offset, so no
   * two children compare equal.
   */
  method StripSinf(children: seq<Box>) returns (kept: seq<Box>)
    ensures kept == SinfStripped(children)
  {
    kept := children;
    var i := 0;
    while i < |kept|
      invariant i <= |kept| + 1
      invariant i <= |kept| ==> SinfStripped(children) == kept[..i] + SinfStripped(kept[i..])
      invariant i == |kept| + 1 ==> SinfStripped(children) == kept
      decreases |kept| + 1 - i
    {
      var b := kept[i];
      if IsSinf(b) {
        if i + 1 < |kept| {
          StripRemoveStep(kept, i);
        } else {
          StripRemoveLastStep(kept, i);
        }
        kept := kept[..i] + kept[i + 1..];
      } else {
        StripKeepStep(kept, i);
      }
      i := i + 1;
    }
    if i == |kept| {
      assert kept[..i] == kept && kept[i..] == [];
    }
  }

  /** One iteration of the removal loop that visits a box it keeps. */
  lemma StripKeepStep(kept: seq<Box>, i: nat)
    requires i < |kept| && !IsSinf(kept[i])
    ensures kept[..i] + SinfStripped(kept[i..]) == kept[..i + 1] + SinfStripped(kept[i + 1..])
  {
    assert kept[i..][0] == kept[i];
    assert kept[i..][1..] == kept[i + 1..];
    assert kept[..i + 1] == kept[..i] + [kept[i]];
  }

  /** One iteration that removes a `sinf` box: the box after it slides into its place and is passed over. */
  lemma StripRemoveStep(kept: seq<Box>, i: nat)
    requires i + 1 < |kept| && IsSinf(kept[i])
    ensures var shifted := kept[..i] + kept[i + 1..];
            kept[..i] + SinfStripped(kept[i..]) == shifted[..i + 1] + SinfStripped(shifted[i + 1..])
  {
    SinfStrippedAt(kept, i);
    ShiftedSlices(kept, i);
  }

  lemma SinfStrippedAt(kept: seq<Box>, i: nat)
    requires i + 1 < |kept| && IsSinf(kept[i])
    ensures SinfStripped(kept[i..]) == [kept[i + 1]] + SinfStripped(kept[i + 2..])
  {
    assert kept[i..] == [kept[i], kept[i + 1]] + kept[i + 2..];
    SinfStrippedPassesOver(kept[i], kept[i + 1], kept[i + 2..]);
  }

  /** Removing the box at `i` moves the box after it to `i` and the rest down by one. */
  lemma ShiftedSlices(kept: seq<Box>, i: nat)
    requires i + 1 < |kept|
    ensures var shifted := kept[..i] + kept[i + 1..];
            shifted[..i + 1] == kept[..i] + [kept[i + 1]] && shifted[i + 1..] == kept[i + 2..]
  {
  }

  /** Removing a `sinf` box passes over the box after it. */
  lemma SinfStrippedPassesOver(a: Box, b: Box, post: seq<Box>)
    requires IsSinf(a)
    ensures SinfStripped([a, b] + post) == [b] + SinfStripped(post)
  {
    assert ([a, b] + post)[2..] == post;
  }

  /** One iteration that removes a `sinf` box in last place. */
  lemma StripRemoveLastStep(kept: seq<Box>, i: nat)
    requires i + 1 == |kept| && IsSinf(kept[i])
    ensures kept[..i] + SinfStripped(kept[i..]) == kept[..i] + kept[i + 1..]
  {
    assert kept[i..] == [kept[i]];
    assert kept[i + 1..] == [];
  }


  /**
   * The tree after the stsd loop: the first entry of each stsd loses its `sinf`
   * children; an stsd without entries raises.
   */
  function ProtectionStripped(b: Box): Result<Box, DecryptError>
    decreases b, 1
  {
    match b
    case Stsd(entries) =>
      if entries == [] then Failure(NoSampleEntry)
      else Success(Stsd(entries[0 := entries[0].(children := SinfStripped(entries[0].children))]))
    case Container(kind, children) =>
      (match ProtectionStrippedAll(children)
       case Failure(e) => Failure(e)
       case Success(cs) => Success(Container(kind, cs)))
    case _ => Success(b)
  }

  /** The same, sibling by sibling. */
  function ProtectionStrippedAll(bs: seq<Box>): Result<seq<Box>, DecryptError>
    decreases bs, 0
  {
    if bs == [] then Success([])
    else
      match ProtectionStripped(bs[0])
      case Failure(e) => Failure(e)
      case Success(first) =>
        match ProtectionStrippedAll(bs[1..])
        case Failure(e) => Failure(e)
        case Success(rest) => Success([first] + rest)
  }

  /** Siblings stripped one by one, each without error, make the siblings stripped. */
  lemma {:induction false} ProtectionStrippedPointwise(bs: seq<Box>, cs: seq<Box>)
    requires |bs| == |cs|
    requires forall k :: 0 <= k < |bs| ==> ProtectionStripped(bs[k]) == Success(cs[k])
    ensures ProtectionStrippedAll(bs) == Success(cs)
    decreases |bs|
  {
    if bs != [] {
      ProtectionStrippedPointwise(bs[1..], cs[1..]);
      assert cs == [cs[0]] + cs[1..];
    }
  }

  /** The first sibling that raises makes the siblings raise its error. */
  lemma {:induction false} ProtectionStrippedAllFails(bs: seq<Box>, j: nat)
    requires j < |bs| && ProtectionStripped(bs[j]).Failure?
    requires forall k :: 0 <= k < j ==> ProtectionStripped(bs[k]).Success?
    ensures ProtectionStrippedAll(bs) == Failure(ProtectionStripped(bs[j]).error)
    decreases j
  {
    if j > 0 {
      ProtectionStrippedAllFails(bs[1..], j - 1);
    }
  }

  /** The loop over the stsd boxes of one top-level box. */
  method StripProtection(box: Box) returns (r: Result<Box, DecryptError>)
    ensures r == ProtectionStripped(box)
    decreases box
  {
    match box
    case Stsd(entries) =>
      if |entries| == 0 {
        return Failure(NoSampleEntry);
      }
      var entry := entries[0];
      var kept := StripSinf(entry.children);
      r := Success(Stsd(entries[0 := entry.(children := kept)]));
    case Container(kind, children) =>
      var cs := children;
      for j := 0 to |cs|
        invariant |cs| == |children|
        invariant forall k :: 0 <= k < j ==> ProtectionStripped(children[k]) == Success(cs[k])
        invariant forall k :: j <= k < |cs| ==> cs[k] == children[k]
      {
        var c := StripProtection(cs[j]);
        if c.Failure? {
          ProtectionStrippedAllFails(children, j);
          return Failure(c.error);
        }
        cs := cs[j := c.value];
      }
      ProtectionStrippedPointwise(children, cs);
      r := Success(Container(kind, cs));
    case _ =>
      r := Success(box);
  }

  /** Stripping fails exactly when some stsd box that can be found has no sample entry, and then with `NoSampleEntry`. */
  lemma {:induction false} ProtectionStrippedFails(b: Box)
    ensures ProtectionStripped(b).Failure? <==> exists s <- Find(b, StsdTag) :: s.entries == []
    ensures ProtectionStripped(b).Failure? ==> ProtectionStripped(b).error == NoSampleEntry
    decreases b, 1
  {
    if b.Container? {
      ProtectionStrippedAllFailsWhen(b.children);
    }
  }

  lemma {:induction false} ProtectionStrippedAllFailsWhen(bs: seq<Box>)
    ensures ProtectionStrippedAll(bs).Failure? <==> exists s <- FindAll(bs, StsdTag) :: s.entries == []
    ensures ProtectionStrippedAll(bs).Failure? ==> ProtectionStrippedAll(bs).error == NoSampleEntry
    decreases bs, 0
  {
    if bs != [] {
      ProtectionStrippedFails(bs[0]);
      ProtectionStrippedAllFailsWhen(bs[1..]);
      var first, rest := Find(bs[0], StsdTag), FindAll(bs[1..], StsdTag);
      if exists s: Box <- first + rest :: s.entries == [] {
        var s: Box :| s in first + rest && s.entries == [];
        assert s in first || s in rest;
      }
      if exists s <- first :: s.entries == [] {
        var s: Box :| s in first && s.entries == [];
        assert s in first + rest;
      }
      if exists s <- rest :: s.entries == [] {
        var s: Box :| s in rest && s.entries == [];
        assert s in first + rest;
      }
    }
  }

  /** Stripping touches nothing but stsd boxes: every other search finds the same boxes. */
  lemma {:induction false} ProtectionStrippedKeepsFinds(b: Box, t: Tag)
    requires t != StsdTag
    requires ProtectionStripped(b).Success?
    ensures Find(ProtectionStripped(b).value, t) == Find(b, t)
    decreases b, 1
  {
    if b.Container? {
      ProtectionStrippedAllKeepsFinds(b.children, t);
    }
  }

  lemma {:induction false} ProtectionStrippedAllKeepsFinds(bs: seq<Box>, t: Tag)
    requires t != StsdTag
    requires ProtectionStrippedAll(bs).Success?
    ensures FindAll(ProtectionStrippedAll(bs).value, t) == FindAll(bs, t)
    decreases bs, 0
  {
    if bs != [] {
      var first := ProtectionStripped(bs[0]).value;
      var rest := ProtectionStrippedAll(bs[1..]).value;
      ProtectionStrippedKeepsFinds(bs[0], t);
      ProtectionStrippedAllKeepsFinds(bs[1..], t);
      assert ([first] + rest)[0] == first && ([first] + rest)[1..] == rest;
    }
  }

  /** `after` holds the stsd boxes of `before`, in order, each with the `sinf` children of its first entry removed. */
  predicate StsdsStripped(before: seq<Box>, after: seq<Box>)
  {
    |after| == |before|
    && forall k :: 0 <= k < |before| ==>
         before[k].Stsd? && before[k].entries != []
         && after[k] == Stsd(before[k].entries[0 := before[k].entries[0].(children := SinfStripped(before[k].entries[0].children))])
  }

  lemma StsdsStrippedJoin(b1: seq<Box>, a1: seq<Box>, b2: seq<Box>, a2: seq<Box>)
    requires StsdsStripped(b1, a1) && StsdsStripped(b2, a2)
    ensures StsdsStripped(b1 + b2, a1 + a2)
  {
    forall k | |b1| <= k < |b1| + |b2|
      ensures (b1 + b2)[k] == b2[k - |b1|] && (a1 + a2)[k] == a2[k - |b1|]
    {
    }
  }

  /**
   * Stripping changes the stsd boxes and nothing else: those found afterwards
   * are the original ones, in the same order, each with the `sinf` children of
   * its first entry removed and its other entries as they were.
   */
  lemma {:induction false} ProtectionStrippedStsds(b: Box)
    requires ProtectionStripped(b).Success?
    ensures StsdsStripped(Find(b, StsdTag), Find(ProtectionStripped(b).value, StsdTag))
    decreases b, 1
  {
    if b.Container? {
      ProtectionStrippedAllStsds(b.children);
    }
  }

  lemma {:induction false} ProtectionStrippedAllStsds(bs: seq<Box>)
    requires ProtectionStrippedAll(bs).Success?
    ensures StsdsStripped(FindAll(bs, StsdTag), FindAll(ProtectionStrippedAll(bs).value, StsdTag))
    decreases bs, 0
  {
    if bs != [] {
      var first := ProtectionStripped(bs[0]).value;
      var rest := ProtectionStrippedAll(bs[1..]).value;
      ProtectionStrippedStsds(bs[0]);
      ProtectionStrippedAllStsds(bs[1..]);
      assert ([first] + rest)[0] == first && ([first] + rest)[1..] == rest;
      StsdsStrippedJoin(Find(bs[0], StsdTag), Find(first, StsdTag), FindAll(bs[1..], StsdTag), FindAll(rest, StsdTag));
    }
  }

  // ---------------------------------------------------------------------------
  // The shape of a tree, and what the rewrites leave alone
  // ---------------------------------------------------------------------------

  /**
   * A box with the contents of its stsd boxes left out: the type and order of
   * every box, and the contents of every box other than an stsd, are kept.
   */
  function Erased(b: Box): Box
    decreases b
  {
    match b
    case Stsd(_) => Stsd([])
    case Container(kind, children) =>
      Container(kind, seq(|children|, k requires 0 <= k < |children| => Erased(children[k])))
    case _ => b
  }

  /** `fix_headers` changes nothing but the contents of stsd boxes. */
  lemma {:induction false} HeadersFixedErased(b: Box)
    ensures Erased(HeadersFixed(b)) == Erased(b)
    decreases b
  {
    match b
    case Container(kind, children) =>
      var fixed := HeadersFixed(b).children;
      forall k | 0 <= k < |children| ensures Erased(fixed[k]) == Erased(children[k]) {
        HeadersFixedErased(children[k]);
      }
    case _ =>
  }

  /** Removing `sinf` changes nothing but the contents of stsd boxes. */
  lemma {:induction false} ProtectionStrippedErased(b: Box)
    requires ProtectionStripped(b).Success?
    ensures Erased(ProtectionStripped(b).value) == Erased(b)
    decreases b, 1
  {
    if b.Container? {
      ProtectionStrippedAllErased(b.children);
      var cs := ProtectionStrippedAll(b.children).value;
      assert ProtectionStripped(b).value == Container(b.kind, cs);
    }
  }

  lemma {:induction false} ProtectionStrippedAllErased(bs: seq<Box>)
    requires ProtectionStrippedAll(bs).Success?
    ensures var cs := ProtectionStrippedAll(bs).value;
            |cs| == |bs| && forall k :: 0 <= k < |bs| ==> Erased(cs[k]) == Erased(bs[k])
    decreases bs, 0
  {
    if bs != [] {
      var first := ProtectionStripped(bs[0]).value;
      var rest := ProtectionStrippedAll(bs[1..]).value;
      ProtectionStrippedErased(bs[0]);
      ProtectionStrippedAllErased(bs[1..]);
      var cs := [first] + rest;
      forall k | 0 <= k < |bs| ensures Erased(cs[k]) == Erased(bs[k]) {
        if k > 0 {
          assert cs[k] == rest[k - 1] && bs[k] == bs[1..][k - 1];
        }
      }
    }
  }

  // ---------------------------------------------------------------------------
  // Trees the box library produces
  // ---------------------------------------------------------------------------

  /** The four-character type of the boxes a search looks for. */
  function TagType(t: Tag): FourCC
  {
    match t
    case StsdTag => STSD
    case StszTag => STSZ
    case SencTag => SENC
    case TrunTag => TRUN
  }

  /**
   * A tree the box library can produce: it parses every box of type stsd,
   * stsz, senc, trun or mdat into its own structure, so no other box has one
   * of those types.
   */
  predicate Parsed(b: Box)
    decreases b
  {
    match b
    case Container(kind, children) =>
      kind !in {STSD, STSZ, SENC, TRUN, MDAT} && forall c <- children :: Parsed(c)
    case Leaf(kind, _) => kind !in {STSD, STSZ, SENC, TRUN, MDAT}
    case _ => true
  }

  /** In a parsed tree a box's type and its structure agree: searches and the `mdat` test see the same boxes. */
  lemma ParsedTypes(b: Box)
    requires Parsed(b)
    ensures b.Mdat? <==> Type(b) == MDAT
    ensures forall t :: Is(b, t) <==> Type(b) == TagType(t)
  {
  }

  /** The box library's own search: a box whose type matches is yielded, otherwise its children are searched in order. */
  function FindByType(b: Box, kind: FourCC): seq<Box>
    decreases b, 1
  {
    if Type(b) == kind then [b]
    else if b.Container? then FindAllByType(b.children, kind)
    else []
  }

  function FindAllByType(bs: seq<Box>, kind: FourCC): seq<Box>
    decreases bs, 0
  {
    if bs == [] then [] else FindByType(bs[0], kind) + FindAllByType(bs[1..], kind)
  }

  /** In a parsed tree the constructor-based search and the library's type-based search return the same boxes. */
  lemma {:induction false} ParsedFind(b: Box, t: Tag)
    requires Parsed(b)
    ensures Find(b, t) == FindByType(b, TagType(t))
    decreases b, 1
  {
    ParsedTypes(b);
    if b.Container? && !Is(b, t) {
      ParsedFindAll(b.children, t);
    }
  }

  lemma {:induction false} ParsedFindAll(bs: seq<Box>, t: Tag)
    requires forall c <- bs :: Parsed(c)
    ensures FindAll(bs, t) == FindAllByType(bs, TagType(t))
    decreases bs, 0
  {
    if bs != [] {
      assert bs[0] in bs;
      ParsedFind(bs[0], t);
      ParsedFindAll(bs[1..], t);
    }
  }
}
