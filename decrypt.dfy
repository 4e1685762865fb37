/**
 * `decrypt(key, inp, out)`: the loop over the top-level boxes of the file.
 *
 * Every box has its headers fixed, updates the sticky `stsz` sample size, and
 * has the `sinf` children of its stsd boxes' first entries removed. A `moof`
 * queues all its `senc` and `trun` boxes; an `mdat` pops one of each and has
 * its payload decrypted with them. Every box, rewritten, is kept in input order
 * and the whole list is written out once the input is exhausted, so an error
 * anywhere means nothing is written.
 *
 * Parsing the input and building the output are the box library's: the input
 * is the sequence of parsed boxes and the output the sequence of boxes to build.
 *
 * The first half of each pass (the header rewrites and the `stsz` lookup) does
 * not depend on the loop's state, so the specification describes it per box
 * (`Prepare`) and runs the state machine (`Run`) over the prepared boxes.
 */
module Decrypt {
  import opened Wrappers
  import opened Ctr
  import opened Boxes
  import opened Samples

  /** The loop's state after some boxes: the two deques, the sample size if bound, and the boxes kept. */
  datatype Progress = Progress(sencBoxes: seq<Box>, trunBoxes: seq<Box>, sampleSize: Option<nat>, boxes: seq<Box>)

  /**
   * A box after the state-independent half of a pass: the box with its headers
   * fixed and its `sinf` children removed (or the error the removal raises), and
   * the size of its last `stsz` box if it has one.
   */
  datatype Prepared = Prepared(rewritten: Result<Box, DecryptError>, stszSize: Option<nat>)

  /** The size of the last of the `stsz` boxes `found`, if there is one. */
  function LastSize(found: seq<Box>): Option<nat>
    requires forall x <- found :: x.Stsz?
  {
    if found == [] then None
    else
      var last := found[|found| - 1];
      assert last in found;
      Some(last.sampleSize)
  }

  function Prepare(box: Box): Prepared
  {
    var fixed := HeadersFixed(box);
    Prepared(ProtectionStripped(fixed), LastSize(Find(fixed, StszTag)))
  }

  function PrepareAll(input: seq<Box>): seq<Prepared>
  {
    seq(|input|, k requires 0 <= k < |input| => Prepare(input[k]))
  }

  /** One pass of the box loop over a prepared box. */
  function Step(E: BlockCipher, key: seq<byte>, p: Progress, prepared: Prepared): Result<Progress, DecryptError>
  {
    match prepared.rewritten
    case Failure(e) => Failure(e)
    case Success(b) => Advance(E, key, p, b, if prepared.stszSize.Some? then prepared.stszSize else p.sampleSize)
  }

  /**
   * The rest of the pass for the rewritten box `b`, with the sample size `size`:
   * a `moof` queues its `senc` and `trun` boxes; an `mdat` pops one of each and
   * has its payload decrypted; every box is then kept.
   */
  function Advance(E: BlockCipher, key: seq<byte>, p: Progress, b: Box, size: Option<nat>): Result<Progress, DecryptError>
  {
    if Type(b) == MOOF then
      Success(Progress(p.sencBoxes + Find(b, SencTag), p.trunBoxes + Find(b, TrunTag), size, p.boxes + [b]))
    else if b.Mdat? then
      if p.sencBoxes == [] || p.trunBoxes == [] then Failure(EmptyQueue)
      else
        match MdatPayload(E, key, SampleEncryptionInfo(p.sencBoxes[0]), SampleInfo(p.trunBoxes[0]), size, b.data)
        case Failure(e) => Failure(e)
        case Success(payload) => Success(Progress(p.sencBoxes[1..], p.trunBoxes[1..], size, p.boxes + [Mdat(payload)]))
    else
      Success(Progress(p.sencBoxes, p.trunBoxes, size, p.boxes + [b]))
  }

  /** The state after the first `n` prepared boxes, or the first error. */
  function Run(E: BlockCipher, key: seq<byte>, prepared: seq<Prepared>, n: nat): Result<Progress, DecryptError>
    requires n <= |prepared|
  {
    if n == 0 then Success(Progress([], [], None, []))
    else
      match Run(E, key, prepared, n - 1)
      case Failure(e) => Failure(e)
      case Success(p) => Step(E, key, p, prepared[n - 1])
  }

  /** The boxes `decrypt` writes out, or the error it raises. */
  function DecryptedBoxes(E: BlockCipher, key: seq<byte>, input: seq<Box>): Result<seq<Box>, DecryptError>
  {
    match Run(E, key, PrepareAll(input), |input|)
    case Failure(e) => Failure(e)
    case Success(p) => Success(p.boxes)
  }

  // ---------------------------------------------------------------------------
  // The loop
  // ---------------------------------------------------------------------------

  /** `decrypt(key, inp, out)` on the parsed input boxes; the result is what is built and written. */
  method Decrypt(E: BlockCipher, key: seq<byte>, input: seq<Box>) returns (r: Result<seq<Box>, DecryptError>)
    ensures r == DecryptedBoxes(E, key, input)
  {
    ghost var prepared := PrepareAll(input);
    var state := Progress([], [], None, []);
    for i := 0 to |input|
      invariant Run(E, key, prepared, i) == Success(state)
    {
      var next := DecryptBox(E, key, state, input[i], prepared[i]);
      RunPass(E, key, prepared, i, state, next);
      if next.Failure? {
        return Failure(next.error);
      }
      state := next.value;
    }
    r := Success(state.boxes);
  }

  /** The body of the box loop, for one parsed box. */
  method DecryptBox(E: BlockCipher, key: seq<byte>, state: Progress, box: Box, ghost prepared: Prepared)
    returns (r: Result<Progress, DecryptError>)
    requires prepared == Prepare(box)
    ensures r == Step(E, key, state, prepared)
  {
    var fixed := FixHeaders(box);
    var sampleSize := state.sampleSize;
    var stszs := Find(fixed, StszTag);
    assert forall x <- stszs :: x.Stsz?;
    for k := 0 to |stszs|
      invariant k == 0 ==> sampleSize == state.sampleSize
      invariant k > 0 ==> sampleSize == Some(stszs[k - 1].sampleSize)
    {
      sampleSize := Some(stszs[k].sampleSize);
    }
    var stripped := StripProtection(fixed);
    if stripped.Failure? {
      return Failure(stripped.error);
    }
    r := QueueOrDecrypt(E, key, state, stripped.value, sampleSize);
  }

  /** The `moof` and `mdat` branches of the loop body, and the `append`. */
  method QueueOrDecrypt(E: BlockCipher, key: seq<byte>, state: Progress, box: Box, sampleSize: Option<nat>)
    returns (r: Result<Progress, DecryptError>)
    ensures r == Advance(E, key, state, box, sampleSize)
  {
    var sencBoxes, trunBoxes, boxes := state.sencBoxes, state.trunBoxes, state.boxes;
    var kept := box;
    if Type(box) == MOOF {
      sencBoxes := sencBoxes + Find(box, SencTag);
      trunBoxes := trunBoxes + Find(box, TrunTag);
    } else if box.Mdat? {
      if |sencBoxes| == 0 || |trunBoxes| == 0 {
        return Failure(EmptyQueue);
      }
      var senc := sencBoxes[0];
      sencBoxes := sencBoxes[1..];
      var trun := trunBoxes[0];
      trunBoxes := trunBoxes[1..];
      var clearBox := DecryptMdat(E, key, SampleEncryptionInfo(senc), SampleInfo(trun), sampleSize, box.data);
      if clearBox.Failure? {
        return Failure(clearBox.error);
      }
      kept := Mdat(clearBox.value);
    }
    boxes := boxes + [kept];
    r := Success(Progress(sencBoxes, trunBoxes, sampleSize, boxes));
  }

  /** The state after `n + 1` boxes is one pass of the loop from the state after `n`. */
  lemma RunNext(E: BlockCipher, key: seq<byte>, prepared: seq<Prepared>, n: nat, p: Progress)
    requires n < |prepared| && Run(E, key, prepared, n) == Success(p)
    ensures Run(E, key, prepared, n + 1) == Step(E, key, p, prepared[n])
  {
  }

  /** A pass of the loop moves `Run` on by one box; an error ends it, and is what the whole run results in. */
  lemma RunPass(E: BlockCipher, key: seq<byte>, prepared: seq<Prepared>, n: nat, p: Progress, next: Result<Progress, DecryptError>)
    requires n < |prepared| && Run(E, key, prepared, n) == Success(p) && next == Step(E, key, p, prepared[n])
    ensures Run(E, key, prepared, n + 1) == next
    ensures next.Failure? ==> Run(E, key, prepared, |prepared|) == Failure(next.error)
  {
    if next.Failure? {
      RunFailureSticks(E, key, prepared, n + 1, |prepared|, next.error);
    }
  }

  /** An error ends the loop: every longer prefix fails with it. */
  lemma {:induction false} RunFailureSticks(E: BlockCipher, key: seq<byte>, prepared: seq<Prepared>,
                                            j: nat, n: nat, e: DecryptError)
    requires j <= n <= |prepared|
    requires Run(E, key, prepared, j) == Failure(e)
    ensures Run(E, key, prepared, n) == Failure(e)
    decreases n - j
  {
    if j < n {
      RunFailureSticks(E, key, prepared, j + 1, n, e);
    }
  }

  // ---------------------------------------------------------------------------
  // What the rewrites keep
  // ---------------------------------------------------------------------------

  /** The rewrites keep a box's type, its payload if it is an `mdat`, and its `senc` and `trun` boxes. */
  lemma PrepareKeeps(box: Box)
    requires Prepare(box).rewritten.Success?
    ensures var b := Prepare(box).rewritten.value;
            Type(b) == Type(box) && b.Mdat? == box.Mdat? && (box.Mdat? ==> b == box)
            && Find(b, SencTag) == Find(box, SencTag) && Find(b, TrunTag) == Find(box, TrunTag)
  {
    HeadersFixedKeepsFinds(box, SencTag);
    HeadersFixedKeepsFinds(box, TrunTag);
    ProtectionStrippedKeepsFinds(HeadersFixed(box), SencTag);
    ProtectionStrippedKeepsFinds(HeadersFixed(box), TrunTag);
  }

  /** The sample size a box leaves behind is that of its own last `stsz` box, if it has one. */
  lemma PrepareSize(box: Box)
    ensures Prepare(box).stszSize == LastSize(Find(box, StszTag))
  {
    HeadersFixedKeepsFinds(box, StszTag);
  }

  /** Removing `sinf` fails, with `NoSampleEntry`, exactly when the box holds an `stsd` box without entries. */
  lemma PrepareFails(box: Box)
    ensures Prepare(box).rewritten.Failure? <==> exists s <- Find(box, StsdTag) :: s.entries == []
    ensures Prepare(box).rewritten.Failure? ==> Prepare(box).rewritten.error == NoSampleEntry
  {
    var found := Find(box, StsdTag);
    var fixed := Find(HeadersFixed(box), StsdTag);
    HeadersFixedStsds(box);
    ProtectionStrippedFails(HeadersFixed(box));
    if exists s <- found :: s.entries == [] {
      var s: Box :| s in found && s.entries == [];
      var k :| 0 <= k < |found| && found[k] == s;
      assert fixed[k] == HeadersFixed(s) && HeadersFixed(s).entries == [];
      assert fixed[k] in fixed;
    }
    if exists s <- fixed :: s.entries == [] {
      var s: Box :| s in fixed && s.entries == [];
      var k :| 0 <= k < |fixed| && fixed[k] == s;
      assert found[k] in found && found[k].Stsd?;
      assert HeadersFixed(found[k]) == s;
    }
  }

  // ---------------------------------------------------------------------------
  // One box per box, in order
  // ---------------------------------------------------------------------------

  /** A pass that succeeds keeps exactly one more box and leaves the boxes kept before it as they were. */
  lemma StepKeeps(E: BlockCipher, key: seq<byte>, p: Progress, prepared: Prepared, q: Progress)
    requires Step(E, key, p, prepared) == Success(q)
    ensures |q.boxes| == |p.boxes| + 1 && q.boxes[..|p.boxes|] == p.boxes
  {
  }

  /** One box is kept per box read. */
  lemma {:induction false} RunLength(E: BlockCipher, key: seq<byte>, prepared: seq<Prepared>, n: nat)
    requires n <= |prepared| && Run(E, key, prepared, n).Success?
    ensures |Run(E, key, prepared, n).value.boxes| == n
  {
    if n > 0 {
      RunSucceededBefore(E, key, prepared, n);
      var p := Run(E, key, prepared, n - 1).value;
      var q := Run(E, key, prepared, n).value;
      RunLength(E, key, prepared, n - 1);
      RunNext(E, key, prepared, n - 1, p);
      StepKeeps(E, key, p, prepared[n - 1], q);
    }
  }

  /** A state reached without error was reached from one without error. */
  lemma RunSucceededBefore(E: BlockCipher, key: seq<byte>, prepared: seq<Prepared>, m: nat)
    requires 0 < m <= |prepared| && Run(E, key, prepared, m).Success?
    ensures Run(E, key, prepared, m - 1).Success?
  {
  }

  /** Once the loop is past box `m - 1`, the boxes kept for the first `k` boxes are those kept when box `k - 1` was read. */
  lemma {:induction false} RunKeepsBoxes(E: BlockCipher, key: seq<byte>, prepared: seq<Prepared>, k: nat, m: nat)
    requires k <= m <= |prepared| && Run(E, key, prepared, m).Success?
    ensures Run(E, key, prepared, k).Success?
    ensures |Run(E, key, prepared, m).value.boxes| == m
    ensures Run(E, key, prepared, m).value.boxes[..k] == Run(E, key, prepared, k).value.boxes
    decreases m
  {
    RunLength(E, key, prepared, m);
    if k < m {
      RunSucceededBefore(E, key, prepared, m);
      var p := Run(E, key, prepared, m - 1).value;
      var q := Run(E, key, prepared, m).value;
      RunLength(E, key, prepared, m - 1);
      RunNext(E, key, prepared, m - 1, p);
      StepKeeps(E, key, p, prepared[m - 1], q);
      RunKeepsBoxes(E, key, prepared, k, m - 1);
      assert q.boxes[..k] == q.boxes[..m - 1][..k];
    }
  }

  // ---------------------------------------------------------------------------
  // The deques and the sample size, stated over the boxes read so far
  // ---------------------------------------------------------------------------

  /** What a prepared box queues: all its boxes of type `t` in document order if it is a `moof`, else nothing. */
  function QueuedBy(prepared: Prepared, t: Tag): seq<Box>
  {
    if prepared.rewritten.Success? && Type(prepared.rewritten.value) == MOOF then Find(prepared.rewritten.value, t)
    else []
  }

  /** Everything queued by the `moof` boxes among the first `n`. */
  function Queued(prepared: seq<Prepared>, n: nat, t: Tag): seq<Box>
    requires n <= |prepared|
  {
    if n == 0 then [] else Queued(prepared, n - 1, t) + QueuedBy(prepared[n - 1], t)
  }

  predicate IsMdat(prepared: Prepared)
  {
    prepared.rewritten.Success? && prepared.rewritten.value.Mdat?
  }

  /** How many of the first `n` boxes are `mdat` boxes. */
  function MdatCount(prepared: seq<Prepared>, n: nat): nat
    requires n <= |prepared|
  {
    if n == 0 then 0 else MdatCount(prepared, n - 1) + (if IsMdat(prepared[n - 1]) then 1 else 0)
  }

  /** The size of the last `stsz` box among the first `n` boxes, if there is one. */
  function LastStsz(prepared: seq<Prepared>, n: nat): Option<nat>
    requires n <= |prepared|
  {
    if n == 0 then None
    else if prepared[n - 1].stszSize.Some? then prepared[n - 1].stszSize
    else LastStsz(prepared, n - 1)
  }

  /** A deque after `n` boxes: what the `moof` boxes among them queued, less one box popped per `mdat`. */
  predicate DequeAt(prepared: seq<Prepared>, n: nat, t: Tag, deque: seq<Box>)
    requires n <= |prepared|
  {
    var popped := MdatCount(prepared, n);
    popped <= |Queued(prepared, n, t)| && deque == Queued(prepared, n, t)[popped..]
  }

  /** The loop's state after `n` boxes: the sample size of the last `stsz` seen, and the two deques. */
  predicate StateAt(prepared: seq<Prepared>, n: nat, p: Progress)
    requires n <= |prepared|
  {
    p.sampleSize == LastStsz(prepared, n) && DequeAt(prepared, n, SencTag, p.sencBoxes) && DequeAt(prepared, n, TrunTag, p.trunBoxes)
  }

  lemma {:induction false} RunState(E: BlockCipher, key: seq<byte>, prepared: seq<Prepared>, n: nat)
    requires n <= |prepared| && Run(E, key, prepared, n).Success?
    ensures StateAt(prepared, n, Run(E, key, prepared, n).value)
  {
    if n > 0 {
      RunSucceededBefore(E, key, prepared, n);
      var p := Run(E, key, prepared, n - 1).value;
      var q := Run(E, key, prepared, n).value;
      RunState(E, key, prepared, n - 1);
      RunNext(E, key, prepared, n - 1, p);
      StepState(E, key, prepared, n - 1, p, q);
    }
  }

  /** One pass of the loop keeps the state description true. */
  lemma StepState(E: BlockCipher, key: seq<byte>, prepared: seq<Prepared>, n: nat, p: Progress, q: Progress)
    requires n < |prepared| && StateAt(prepared, n, p)
    requires Step(E, key, p, prepared[n]) == Success(q)
    ensures StateAt(prepared, n + 1, q)
  {
    var b := prepared[n].rewritten.value;
    if Type(b) == MOOF {
      assert !IsMdat(prepared[n]);
      DequeExtended(prepared, n, SencTag, p.sencBoxes);
      DequeExtended(prepared, n, TrunTag, p.trunBoxes);
    } else if b.Mdat? {
      DequePopped(prepared, n, SencTag, p.sencBoxes);
      DequePopped(prepared, n, TrunTag, p.trunBoxes);
    } else {
      DequeKept(prepared, n, SencTag, p.sencBoxes);
      DequeKept(prepared, n, TrunTag, p.trunBoxes);
    }
  }

  /** A `moof` extends a deque with its boxes of the deque's type. */
  lemma DequeExtended(prepared: seq<Prepared>, n: nat, t: Tag, deque: seq<Box>)
    requires n < |prepared| && DequeAt(prepared, n, t, deque) && !IsMdat(prepared[n])
    ensures DequeAt(prepared, n + 1, t, deque + QueuedBy(prepared[n], t))
  {
    var queued, popped := Queued(prepared, n, t), MdatCount(prepared, n);
    assert queued[popped..] + QueuedBy(prepared[n], t) == (queued + QueuedBy(prepared[n], t))[popped..];
  }

  /** An `mdat` pops the front of a deque. */
  lemma DequePopped(prepared: seq<Prepared>, n: nat, t: Tag, deque: seq<Box>)
    requires n < |prepared| && DequeAt(prepared, n, t, deque) && IsMdat(prepared[n]) && deque != []
    ensures DequeAt(prepared, n + 1, t, deque[1..])
  {
    var queued, popped := Queued(prepared, n, t), MdatCount(prepared, n);
    assert QueuedBy(prepared[n], t) == [];
    assert Queued(prepared, n + 1, t) == queued + [];
    assert queued[popped..][1..] == queued[popped + 1..];
  }

  /** Any other box leaves a deque alone. */
  lemma DequeKept(prepared: seq<Prepared>, n: nat, t: Tag, deque: seq<Box>)
    requires n < |prepared| && DequeAt(prepared, n, t, deque) && !IsMdat(prepared[n])
    requires !(prepared[n].rewritten.Success? && Type(prepared[n].rewritten.value) == MOOF)
    ensures DequeAt(prepared, n + 1, t, deque)
  {
    assert Queued(prepared, n + 1, t) == Queued(prepared, n, t) + [];
  }

  // ---------------------------------------------------------------------------
  // What `decrypt` writes
  // ---------------------------------------------------------------------------

  /** What a pass keeps: the rewritten box, or for an `mdat` the box rebuilt from the payload decrypted with the fronts of the deques. */
  lemma StepKept(E: BlockCipher, key: seq<byte>, p: Progress, prepared: Prepared, q: Progress)
    requires Step(E, key, p, prepared) == Success(q)
    ensures prepared.rewritten.Success?
    ensures var b := prepared.rewritten.value;
            !b.Mdat? ==> q.boxes == p.boxes + [b]
    ensures var b := prepared.rewritten.value;
            b.Mdat? ==>
              p.sencBoxes != [] && p.trunBoxes != []
              && var payload := MdatPayload(E, key, SampleEncryptionInfo(p.sencBoxes[0]), SampleInfo(p.trunBoxes[0]), q.sampleSize, b.data);
                 payload.Success? && q.boxes == p.boxes + [Mdat(payload.value)]
  {
    assert Type(Mdat([])) != MOOF;
  }

  /**
   * The box written for box `k`, in terms of the boxes read before it: the
   * rewritten box, unless it is an `mdat`; the `mdat` after `i` earlier `mdat`
   * boxes is rebuilt from its payload decrypted with the `i`-th `senc` and
   * `trun` boxes queued by the `moof` boxes before it, and with the sample size
   * of the last `stsz` box up to and including it.
   */
  predicate WrittenAs(E: BlockCipher, key: seq<byte>, prepared: seq<Prepared>, k: nat, written: Box)
    requires k < |prepared|
  {
    prepared[k].rewritten.Success?
    && var b := prepared[k].rewritten.value;
       if !b.Mdat? then written == b
       else
         var i := MdatCount(prepared, k);
         i < |Queued(prepared, k, SencTag)| && i < |Queued(prepared, k, TrunTag)|
         && var payload := MdatPayload(E, key, SampleEncryptionInfo(Queued(prepared, k, SencTag)[i]),
                                       SampleInfo(Queued(prepared, k, TrunTag)[i]), LastStsz(prepared, k + 1), b.data);
            payload.Success? && written == Mdat(payload.value)
  }

  lemma StepWritten(E: BlockCipher, key: seq<byte>, prepared: seq<Prepared>, k: nat, p: Progress, q: Progress)
    requires k < |prepared| && StateAt(prepared, k, p) && |p.boxes| == k
    requires Step(E, key, p, prepared[k]) == Success(q) && q.sampleSize == LastStsz(prepared, k + 1)
    ensures |q.boxes| == k + 1 && WrittenAs(E, key, prepared, k, q.boxes[k])
  {
    StepKept(E, key, p, prepared[k], q);
  }

  /** The box kept for the last box read is written as `WrittenAs` says. */
  lemma RunWritten(E: BlockCipher, key: seq<byte>, prepared: seq<Prepared>, k: nat)
    requires k < |prepared| && Run(E, key, prepared, k + 1).Success?
    ensures |Run(E, key, prepared, k + 1).value.boxes| == k + 1
    ensures WrittenAs(E, key, prepared, k, Run(E, key, prepared, k + 1).value.boxes[k])
  {
    RunSucceededBefore(E, key, prepared, k + 1);
    var p := Run(E, key, prepared, k).value;
    var q := Run(E, key, prepared, k + 1).value;
    RunLength(E, key, prepared, k);
    RunState(E, key, prepared, k);
    RunState(E, key, prepared, k + 1);
    RunNext(E, key, prepared, k, p);
    StepWritten(E, key, prepared, k, p, q);
  }

  /**
   * `decrypt` writes one box per box read, in input order, each as `WrittenAs`
   * says; in particular a box other than an `mdat` is written as rewritten.
   */
  lemma DecryptedBox(E: BlockCipher, key: seq<byte>, input: seq<Box>, k: nat)
    requires k < |input| && DecryptedBoxes(E, key, input).Success?
    ensures |DecryptedBoxes(E, key, input).value| == |input|
    ensures WrittenAs(E, key, PrepareAll(input), k, DecryptedBoxes(E, key, input).value[k])
    ensures Prepare(input[k]).rewritten.Success?
  {
    var prepared := PrepareAll(input);
    var out := DecryptedBoxes(E, key, input).value;
    RunKeepsBoxes(E, key, prepared, k + 1, |input|);
    RunWritten(E, key, prepared, k);
    assert out[k] == out[..k + 1][k];
  }

  /** An `mdat` fails with `EmptyQueue` exactly when a deque is empty: decrypting its samples raises other errors only. */
  lemma StepEmptyQueue(E: BlockCipher, key: seq<byte>, p: Progress, prepared: Prepared)
    requires IsMdat(prepared)
    ensures Step(E, key, p, prepared) == Failure(EmptyQueue) <==> p.sencBoxes == [] || p.trunBoxes == []
  {
    var b := prepared.rewritten.value;
    assert Type(b) != MOOF;
    if p.sencBoxes != [] && p.trunBoxes != [] {
      var size := if prepared.stszSize.Some? then prepared.stszSize else p.sampleSize;
      var pairs := Zip(SampleEncryptionInfo(p.sencBoxes[0]), SampleInfo(p.trunBoxes[0]));
      SamplesOutErrors(E, key, pairs, size, b.data, |pairs|);
    }
  }

  /** An `mdat` read when every queued `senc` or every queued `trun` box has been popped fails with `EmptyQueue`, and only then. */
  lemma EmptyQueueFails(E: BlockCipher, key: seq<byte>, prepared: seq<Prepared>, n: nat)
    requires n < |prepared| && Run(E, key, prepared, n).Success? && IsMdat(prepared[n])
    ensures Run(E, key, prepared, n + 1) == Failure(EmptyQueue) <==>
            MdatCount(prepared, n) == |Queued(prepared, n, SencTag)| || MdatCount(prepared, n) == |Queued(prepared, n, TrunTag)|
  {
    var p := Run(E, key, prepared, n).value;
    RunState(E, key, prepared, n);
    RunNext(E, key, prepared, n, p);
    StepEmptyQueue(E, key, p, prepared[n]);
  }

  /** The deques only ever hold boxes of their own type, so popping never yields a box without a table. */
  lemma {:induction false} QueuedTyped(prepared: seq<Prepared>, n: nat, t: Tag)
    requires n <= |prepared|
    ensures forall x <- Queued(prepared, n, t) :: Is(x, t)
  {
    if n > 0 {
      QueuedTyped(prepared, n - 1, t);
      assert forall x <- QueuedBy(prepared[n - 1], t) :: Is(x, t);
    }
  }

  /** A box that is read without error queues its own `senc` or `trun` boxes if it is a `moof`, and counts as an `mdat` if it is one. */
  lemma QueuedByBox(box: Box, t: Tag)
    requires Prepare(box).rewritten.Success? && (t == SencTag || t == TrunTag)
    ensures QueuedBy(Prepare(box), t) == if Type(box) == MOOF then Find(box, t) else []
    ensures IsMdat(Prepare(box)) <==> box.Mdat?
  {
    PrepareKeeps(box);
  }

  /**
   * What the rewrites change in a box: the contents of its stsd boxes and
   * nothing else. The stsd boxes found afterwards are the original ones, in
   * order, each with its entries' formats fixed and the `sinf` children of its
   * first entry removed.
   */
  lemma PrepareChanges(box: Box)
    requires Prepare(box).rewritten.Success?
    ensures Erased(Prepare(box).rewritten.value) == Erased(box)
    ensures var found := Find(box, StsdTag);
            StsdsStripped(seq(|found|, k requires 0 <= k < |found| => HeadersFixed(found[k])),
                          Find(Prepare(box).rewritten.value, StsdTag))
  {
    HeadersFixedErased(box);
    ProtectionStrippedErased(HeadersFixed(box));
    HeadersFixedStsds(box);
    ProtectionStrippedStsds(HeadersFixed(box));
    var found := Find(box, StsdTag);
    assert Find(HeadersFixed(box), StsdTag) == seq(|found|, k requires 0 <= k < |found| => HeadersFixed(found[k]));
  }

  /** `decrypt` writes a box other than an `mdat` changed only in its stsd boxes, as `PrepareChanges` says. */
  lemma DecryptedNonMdat(E: BlockCipher, key: seq<byte>, input: seq<Box>, k: nat)
    requires k < |input| && DecryptedBoxes(E, key, input).Success? && !input[k].Mdat?
    ensures |DecryptedBoxes(E, key, input).value| == |input|
    ensures var written := DecryptedBoxes(E, key, input).value[k];
            var found := Find(input[k], StsdTag);
            Erased(written) == Erased(input[k])
            && StsdsStripped(seq(|found|, j requires 0 <= j < |found| => HeadersFixed(found[j])), Find(written, StsdTag))
  {
    DecryptedBox(E, key, input, k);
    PrepareKeeps(input[k]);
    PrepareChanges(input[k]);
  }

  /** In a tree the box library produced, the loop treats a box as an `mdat` exactly when its type is `mdat`. */
  lemma ParsedMdat(box: Box)
    requires Parsed(box) && Prepare(box).rewritten.Success?
    ensures IsMdat(Prepare(box)) <==> Type(box) == MDAT
  {
    PrepareKeeps(box);
    ParsedTypes(box);
  }
}
