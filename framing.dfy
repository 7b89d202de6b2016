/**
 * Layout of the acquisition data stream.
 *
 * After a "start daq" command the instrument streams, for every event, a
 * sample region of `osc` bytes followed by a padding region of `cut` bytes
 * that the client reads and throws away. A sample region holds 2·N int16
 * samples, little-endian, with the two channels interleaved sample by
 * sample: flat sample 2·s + c is sample s of channel c.
 */
module Framing {
  import opened CommandCodec

  /** Number of extra samples per channel requested and discarded after every event. */
  const CUT_OFF: nat := 100

  /** Bytes taken by 2·n int16 samples (`np.zeros(2 * n, dtype=np.int16).nbytes`). */
  function SampleBytes(n: nat): nat
  {
    2 * (2 * n)
  }

  /** A buffer of SampleBytes(n) bytes is read as exactly 2·n int16 samples. */
  lemma SampleBytesHoldSamples(bs: seq<byte>, n: nat)
    requires |bs| == SampleBytes(n)
    ensures |bs| % 2 == 0 && |Samples(bs)| == 2 * n
  {
  }

  /** The signed 16-bit sample stored little-endian in (lo, hi). */
  function Int16(lo: byte, hi: byte): (v: int)
    ensures -0x8000 <= v < 0x8000
  {
    var u := lo + 256 * hi;
    if u < 0x8000 then u else u - 0x1_0000
  }

  /** Int16 is the two's-complement reading of the 16 bits (lo, hi): adding 2^16 modulo 2^16 gives them back. */
  lemma Int16Bits(lo: byte, hi: byte)
    ensures (Int16(lo, hi) + 0x1_0000) % 0x1_0000 == lo + 256 * hi
  {
  }

  /** The int16 array whose byte view is `bytes` (`buffer` when `view = buffer.view(np.uint8)`). */
  function Samples(bytes: seq<byte>): (xs: seq<int>)
    requires |bytes| % 2 == 0
    ensures |xs| == |bytes| / 2
  {
    seq(|bytes| / 2, k requires 0 <= k < |bytes| / 2 => Int16(bytes[2 * k], bytes[2 * k + 1]))
  }

  /**
   * The sample regions of the first `count` events of `wire`, one after the
   * other, with every padding region left out.
   */
  function SampleRegions(wire: seq<byte>, count: nat, osc: nat, cut: nat): (r: seq<byte>)
    requires count * (osc + cut) <= |wire|
    ensures |r| == count * osc
    decreases count
  {
    if count == 0 then []
    else
      var start := (count - 1) * (osc + cut);
      SampleRegions(wire, count - 1, osc, cut) + wire[start .. start + osc]
  }

  /** Byte j of event e's sample region lands at e·osc + j, and comes from wire byte e·(osc + cut) + j. */
  lemma {:induction false} SampleRegionsAt(wire: seq<byte>, count: nat, osc: nat, cut: nat, e: nat, j: nat)
    requires count * (osc + cut) <= |wire|
    requires e < count && j < osc
    ensures e * osc + j < count * osc
    ensures e * (osc + cut) + j < |wire|
    ensures SampleRegions(wire, count, osc, cut)[e * osc + j] == wire[e * (osc + cut) + j]
  {
    var prefix := SampleRegions(wire, count - 1, osc, cut);
    assert |prefix| == (count - 1) * osc;
    assert (count - 1) * osc + osc == count * osc;
    assert (count - 1) * (osc + cut) + osc + cut == count * (osc + cut);
    if e < count - 1 {
      SampleRegionsAt(wire, count - 1, osc, cut, e, j);
    } else {
      assert e * osc == (count - 1) * osc;
    }
  }

  /** One event longer: the regions of count + 1 events extend those of count events by event count's region. */
  lemma SampleRegionsSnoc(wire: seq<byte>, count: nat, osc: nat, cut: nat)
    requires (count + 1) * (osc + cut) <= |wire|
    ensures count * (osc + cut) + osc <= |wire|
    ensures SampleRegions(wire, count + 1, osc, cut)
         == SampleRegions(wire, count, osc, cut) + wire[count * (osc + cut) .. count * (osc + cut) + osc]
  {
    assert (count + 1) * (osc + cut) == count * (osc + cut) + osc + cut;
  }

  /**
   * Padding never reaches the result: two streams that agree on every byte
   * of the first `count` sample regions give the same sample bytes, however
   * their padding differs.
   */
  lemma {:induction false} PaddingIsDiscarded(w1: seq<byte>, w2: seq<byte>, count: nat, osc: nat, cut: nat)
    requires count * (osc + cut) <= |w1| && count * (osc + cut) <= |w2|
    requires forall k :: 0 <= k < count * (osc + cut) && k % (osc + cut) < osc ==> w1[k] == w2[k]
    ensures SampleRegions(w1, count, osc, cut) == SampleRegions(w2, count, osc, cut)
  {
    if count > 0 {
      MulStep(count - 1, osc + cut);
      PaddingIsDiscarded(w1, w2, count - 1, osc, cut);
      LastRegionAgrees(w1, w2, count - 1, osc, cut);
    }
  }

  /** Region e agrees in two streams that agree on every sample byte of the first e + 1 events. */
  lemma LastRegionAgrees(w1: seq<byte>, w2: seq<byte>, e: nat, osc: nat, cut: nat)
    requires (e + 1) * (osc + cut) <= |w1| && (e + 1) * (osc + cut) <= |w2|
    requires forall k :: 0 <= k < (e + 1) * (osc + cut) && k % (osc + cut) < osc ==> w1[k] == w2[k]
    ensures 0 <= e * (osc + cut) && e * (osc + cut) + osc <= |w1| && e * (osc + cut) + osc <= |w2|
    ensures w1[e * (osc + cut) .. e * (osc + cut) + osc] == w2[e * (osc + cut) .. e * (osc + cut) + osc]
  {
    var start := e * (osc + cut);
    MulStep(e, osc + cut);
    forall k | start <= k < start + osc
      ensures w1[k] == w2[k]
    {
      DivModUnique(k, osc + cut, e, k - start);
    }
  }

  // ---------------------------------------------------------------------
  // The numpy views the client returns

  /** `flat.reshape((2, n), order='F')`: element [c][s] is flat[c + 2·s]. */
  function FortranReshape2(flat: seq<int>, n: nat): (a: seq<seq<int>>)
    requires |flat| == 2 * n
    ensures |a| == 2 && |a[0]| == n && |a[1]| == n
  {
    seq(2, c requires 0 <= c < 2 => seq(n, s requires 0 <= s < n => flat[c + 2 * s]))
  }

  /** `flat.reshape((2, n, amount), order='F')`: element [c][s][e] is flat[c + 2·s + 2·n·e]. */
  function FortranReshape3(flat: seq<int>, n: nat, amount: nat): (a: seq<seq<seq<int>>>)
    requires |flat| == 2 * n * amount
    ensures |a| == 2
    ensures forall c :: 0 <= c < 2 ==> |a[c]| == n && forall s :: 0 <= s < n ==> |a[c][s]| == amount
  {
    seq(2, c requires 0 <= c < 2 =>
      seq(n, s requires 0 <= s < n =>
        seq(amount, e requires 0 <= e < amount =>
          assert c + 2 * s + 2 * n * e < 2 * n * amount by { FlatIndexBound(n, amount, c, s, e); }
          flat[c + 2 * s + 2 * n * e])))
  }

  lemma FlatIndexBound(n: nat, amount: nat, c: nat, s: nat, e: nat)
    requires c < 2 && s < n && e < amount
    ensures c + 2 * s + 2 * n * e < 2 * n * amount
  {
    assert 2 * n * e + 2 * n <= 2 * n * amount by { MulMonotone(2 * n, e + 1, amount); }
  }

  /** `.transpose((2, 0, 1))` of an array of shape (2, n, amount): element [e][c][s] is a[c][s][e]. */
  function Transpose201(a: seq<seq<seq<int>>>, n: nat, amount: nat): (t: seq<seq<seq<int>>>)
    requires |a| == 2
    requires forall c :: 0 <= c < 2 ==> |a[c]| == n && forall s :: 0 <= s < n ==> |a[c][s]| == amount
    ensures |t| == amount
    ensures forall e :: 0 <= e < amount ==> |t[e]| == 2 && forall c :: 0 <= c < 2 ==> |t[e][c]| == n
  {
    seq(amount, e requires 0 <= e < amount =>
      seq(2, c requires 0 <= c < 2 =>
        seq(n, s requires 0 <= s < n => a[c][s][e])))
  }

  /** The (amount, 2, n) array `acquire_set` returns for the sample bytes `view`. */
  function EventArray(view: seq<byte>, n: nat, amount: nat): (r: seq<seq<seq<int>>>)
    requires |view| == amount * SampleBytes(n)
    ensures |r| == amount
    ensures forall e :: 0 <= e < amount ==> |r[e]| == 2 && forall c :: 0 <= c < 2 ==> |r[e][c]| == n
  {
    assert |view| == 2 * (2 * n * amount);
    var flat := Samples(view);
    var a := FortranReshape3(flat, n, amount);
    Transpose201(a, n, amount)
  }

  /**
   * Channel c of the first m samples of a single-event view: the int16 at
   * sample index 2·s + c, for every s < m.
   */
  function Channel(view: seq<byte>, m: nat, c: nat): (ch: seq<int>)
    requires SampleBytes(m) <= |view| && c < 2
    ensures |ch| == m
    decreases m
  {
    if m == 0 then []
    else Channel(view, m - 1, c) + [Int16(view[2 * (2 * (m - 1) + c)], view[2 * (2 * (m - 1) + c) + 1])]
  }

  /** The (2, n) frame `acquire_single` yields for the sample bytes `view`, one row per channel. */
  function Frame(view: seq<byte>, n: nat): (f: seq<seq<int>>)
    requires |view| == SampleBytes(n)
    ensures |f| == 2 && |f[0]| == n && |f[1]| == n
  {
    [Channel(view, n, 0), Channel(view, n, 1)]
  }

  /** Dropping a bytes and then b bytes drops a + b bytes. */
  lemma DropDrop(s: seq<byte>, a: nat, b: nat)
    requires a + b <= |s|
    ensures s[a..][b..] == s[a + b..]
  {
  }

  /** One more group of s: (a + 1)·s = a·s + s. */
  lemma MulStep(a: nat, s: nat)
    ensures 0 <= a * s && (a + 1) * s == a * s + s
  {
  }

  /**
   * The frames `acquire_single` yields for the next `count` events of
   * `wire`, each event being a sample region of SampleBytes(n) bytes
   * followed by `cut` bytes of padding; it stops early where the stream
   * holds no further complete event.
   */
  function Frames(wire: seq<byte>, count: nat, n: nat, cut: nat): (fs: seq<seq<seq<int>>>)
    ensures |fs| <= count
    decreases count
  {
    var stride := SampleBytes(n) + cut;
    if count == 0 || |wire| < stride then []
    else [Frame(wire[..SampleBytes(n)], n)] + Frames(wire[stride..], count - 1, n, cut)
  }

  /** A stream holding `count` complete events yields `count` frames. */
  lemma {:induction false} FramesLength(wire: seq<byte>, count: nat, n: nat, cut: nat)
    requires count * (SampleBytes(n) + cut) <= |wire|
    ensures |Frames(wire, count, n, cut)| == count
    decreases count
  {
    if count > 0 {
      FramesStep(wire, count, n, cut);
      FramesLength(wire[SampleBytes(n) + cut..], count - 1, n, cut);
    }
  }

  /** Frame i is the frame of the sample region that starts at stream byte i·(osc + cut). */
  lemma FramesAt(wire: seq<byte>, count: nat, n: nat, cut: nat, i: nat)
    requires count * (SampleBytes(n) + cut) <= |wire| && i < count
    ensures i * (SampleBytes(n) + cut) + SampleBytes(n) <= |wire|
    ensures |Frames(wire, count, n, cut)| == count
    ensures Frames(wire, count, n, cut)[i]
              == Frame(wire[i * (SampleBytes(n) + cut)..i * (SampleBytes(n) + cut) + SampleBytes(n)], n)
  {
    FramesLength(wire, count, n, cut);
    FramesViews(wire, count, n, cut, i);
    ViewsAt(wire, count, SampleBytes(n), cut, i);
  }

  /**
   * The sample regions of the next `count` events of `wire` as separate
   * views, each of osc bytes, stopping early where the stream holds no
   * further complete event.
   */
  function Views(wire: seq<byte>, count: nat, osc: nat, cut: nat): (vs: seq<seq<byte>>)
    ensures |vs| <= count
    decreases count
  {
    if count == 0 || |wire| < osc + cut then []
    else [wire[..osc]] + Views(wire[osc + cut..], count - 1, osc, cut)
  }

  /** Frame i is the frame of view i. */
  lemma {:induction false} FramesViews(wire: seq<byte>, count: nat, n: nat, cut: nat, i: nat)
    requires i < |Frames(wire, count, n, cut)|
    ensures i < |Views(wire, count, SampleBytes(n), cut)|
    ensures |Views(wire, count, SampleBytes(n), cut)[i]| == SampleBytes(n)
    ensures Frames(wire, count, n, cut)[i] == Frame(Views(wire, count, SampleBytes(n), cut)[i], n)
    decreases i
  {
    if i > 0 {
      FramesViews(wire[SampleBytes(n) + cut..], count - 1, n, cut, i - 1);
    }
  }

  /** View i is the osc bytes at stream offset i·(osc + cut). */
  lemma {:induction false} ViewsAt(wire: seq<byte>, count: nat, osc: nat, cut: nat, i: nat)
    requires count * (osc + cut) <= |wire| && i < count
    ensures i * (osc + cut) + osc <= |wire|
    ensures i < |Views(wire, count, osc, cut)|
    ensures Views(wire, count, osc, cut)[i] == wire[i * (osc + cut)..i * (osc + cut) + osc]
    decreases i
  {
    SlotBounds(count, i, osc + cut, osc);
    MulStep(count - 1, osc + cut);
    if i > 0 {
      ViewsAt(wire[osc + cut..], count - 1, osc, cut, i - 1);
      SlotShift(wire, osc + cut, osc, i);
    } else {
      assert i * (osc + cut) == 0;
    }
  }

  /** With at least one complete event left, Frames takes the first and recurs on the rest. */
  lemma FramesStep(rest: seq<byte>, left: nat, n: nat, cut: nat)
    requires 0 < left && left * (SampleBytes(n) + cut) <= |rest|
    ensures SampleBytes(n) + cut <= |rest|
    ensures (left - 1) * (SampleBytes(n) + cut) <= |rest| - (SampleBytes(n) + cut)
    ensures Frames(rest, left, n, cut)
              == [Frame(rest[..SampleBytes(n)], n)] + Frames(rest[SampleBytes(n) + cut..], left - 1, n, cut)
  {
    MulStep(left - 1, SampleBytes(n) + cut);
  }

  /** Dropping one event of `stride` bytes and then k - 1 more drops k events. */
  lemma DropEvents(wire: seq<byte>, k: nat, stride: nat)
    requires 0 < k && k * stride <= |wire|
    ensures stride <= |wire| && (k - 1) * stride <= |wire| - stride
    ensures wire[stride..][(k - 1) * stride..] == wire[k * stride..]
  {
    MulStep(k - 1, stride);
  }

  /** Slot i of `count` slots of `stride` bytes ends its first osc bytes within the slots. */
  lemma SlotBounds(count: nat, i: nat, stride: nat, osc: nat)
    requires i < count && osc <= stride
    ensures i * stride + osc <= count * stride
  {
    MulStep(i, stride);
    MulMonotone(stride, i + 1, count);
  }

  /** Slot i - 1 of the stream after its first slot is slot i of the stream. */
  lemma SlotShift(wire: seq<byte>, stride: nat, osc: nat, i: nat)
    requires 0 < i && i * stride + osc <= |wire| && stride <= |wire|
    ensures (i - 1) * stride + osc <= |wire| - stride
    ensures wire[stride..][(i - 1) * stride..(i - 1) * stride + osc] == wire[i * stride..i * stride + osc]
  {
    MulStep(i - 1, stride);
  }

  /** Sample s of channel c is the int16 at sample index 2·s + c. */
  lemma {:induction false} ChannelAt(view: seq<byte>, m: nat, c: nat, s: nat)
    requires SampleBytes(m) <= |view| && c < 2 && s < m
    ensures 2 * (2 * s + c) + 1 < |view|
    ensures Channel(view, m, c)[s] == Int16(view[2 * (2 * s + c)], view[2 * (2 * s + c) + 1])
    decreases m
  {
    if s < m - 1 {
      ChannelAt(view, m - 1, c, s);
    }
  }

  /**
   * Sample s of channel c in a frame is the int16 at sample index 2·s + c of
   * the frame's bytes: channels are interleaved sample by sample.
   */
  lemma FrameAt(view: seq<byte>, n: nat, c: nat, s: nat)
    requires |view| == SampleBytes(n) && c < 2 && s < n
    ensures |Frame(view, n)[c]| == n
    ensures 2 * (2 * s + c) + 1 < |view|
    ensures Frame(view, n)[c][s] == Int16(view[2 * (2 * s + c)], view[2 * (2 * s + c) + 1])
  {
    ChannelAt(view, n, c, s);
  }

  /** The frame is `view.view(np.int16).reshape((2, n), order='F')`. */
  lemma FrameIsReshape(view: seq<byte>, n: nat)
    requires |view| == SampleBytes(n)
    ensures Frame(view, n) == FortranReshape2(Samples(view), n)
  {
    var f, g := Frame(view, n), FortranReshape2(Samples(view), n);
    forall c | 0 <= c < 2
      ensures f[c] == g[c]
    {
      forall s | 0 <= s < n
        ensures f[c][s] == g[c][s]
      {
        ChannelAt(view, n, c, s);
      }
    }
  }

  /** In the batch array, [e][c][s] is flat sample c + 2·s + 2·n·e of the byte view. */
  lemma EventArrayViewAt(view: seq<byte>, n: nat, amount: nat, e: nat, c: nat, s: nat)
    requires |view| == amount * SampleBytes(n)
    requires e < amount && c < 2 && s < n
    ensures 2 * (c + 2 * s + 2 * n * e) + 1 < |view|
    ensures EventArray(view, n, amount)[e][c][s]
              == Int16(view[2 * (c + 2 * s + 2 * n * e)], view[2 * (c + 2 * s + 2 * n * e) + 1])
  {
    FlatIndexBound(n, amount, c, s, e);
    assert |view| == 2 * (2 * n * amount);
    assert EventArray(view, n, amount)[e][c][s] == Samples(view)[c + 2 * s + 2 * n * e];
  }

  lemma EventOffset(n: nat, e: nat, c: nat, s: nat)
    ensures 2 * (c + 2 * s + 2 * n * e) == e * SampleBytes(n) + 2 * (2 * s + c)
  {
    assert e * SampleBytes(n) == e * (4 * n);
  }

  /**
   * Reassembly of a batch: sample s of channel c of event e is the int16 at
   * sample index 2·s + c of event e's sample region on the wire, which starts
   * at byte e·(osc + cut).
   */
  lemma EventArrayAt(wire: seq<byte>, n: nat, amount: nat, e: nat, c: nat, s: nat)
    requires amount * (SampleBytes(n) + SampleBytes(CUT_OFF)) <= |wire|
    requires e < amount && c < 2 && s < n
    ensures e * (SampleBytes(n) + SampleBytes(CUT_OFF)) + 2 * (2 * s + c) + 1 < |wire|
    ensures var base := e * (SampleBytes(n) + SampleBytes(CUT_OFF));
            EventArray(SampleRegions(wire, amount, SampleBytes(n), SampleBytes(CUT_OFF)), n, amount)[e][c][s]
              == Int16(wire[base + 2 * (2 * s + c)], wire[base + 2 * (2 * s + c) + 1])
  {
    var osc, cut := SampleBytes(n), SampleBytes(CUT_OFF);
    var view := SampleRegions(wire, amount, osc, cut);
    EventArrayViewAt(view, n, amount, e, c, s);
    EventOffset(n, e, c, s);
    SampleRegionsAt(wire, amount, osc, cut, e, 2 * (2 * s + c));
    SampleRegionsAt(wire, amount, osc, cut, e, 2 * (2 * s + c) + 1);
  }
}
