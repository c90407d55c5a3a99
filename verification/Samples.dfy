/** Sample indices of exact times, and mixing a decoded audio stream (`src/decode/decoder.cpp`). */
module Samples {
  import opened Wrappers
  import opened Gcds
  import opened RationalTimes
  import opened Model

  const SAMPLE_RATE: int := 48000

  function Ceiling(x: real): int {
    -((-x).Floor)
  }

  lemma CeilingBounds(x: real)
    ensures (Ceiling(x) - 1) as real < x <= Ceiling(x) as real
  {
  }

  /** An index is below the rounded-up end exactly when its instant is before the end. */
  lemma BelowCeiling(s: int, x: real)
    ensures s < Ceiling(x) <==> s as real < x
  {
    CeilingBounds(x);
  }

  /** `scaled`: the product is formed first and refused when it leaves 64 bits. */
  function Scaled(time: Time, rate: int64, ceiling: bool): (r: Option<int>)
    requires rate > 0
    ensures r.Some? <==> time.value * rate <= MAX
    ensures r.Some? ==>
              var exact := time.Seconds() * rate as real;
              r.value == if ceiling then Ceiling(exact) else exact.Floor
  {
    if time.value > MAX / rate then
      ProductExceeds(time.value, rate);
      None
    else
      ProductFits(time.value, rate);
      var product: int64 := time.value * rate;
      ScaledSeconds(time, rate);
      RoundedQuotient(product, time.rate);
      Some(product / time.rate + (if ceiling && product % time.rate != 0 then 1 else 0))
  }

  lemma RoundedQuotient(a: nat, b: nat)
    requires b > 0
    ensures a / b == (a as real / b as real).Floor
    ensures Ceiling(a as real / b as real) == a / b + (if a % b != 0 then 1 else 0)
  {
    FloorOfQuotient(a, b);
    var q := a as real / b as real;
    QuotientLess(a / b, 1, a, b);
    if a % b == 0 {
      assert (a / b) * b == a;
    } else {
      assert (a / b) * b < a;
    }
  }

  function SampleFloor(time: Time): (r: Option<int>)
    ensures r.Some? <==> time.value * 48000 <= MAX
    ensures r.Some? ==> r.value == (time.Seconds() * 48000.0).Floor
  {
    Scaled(time, SAMPLE_RATE, false)
  }

  function SampleCeil(time: Time): (r: Option<int>)
    ensures r.Some? <==> time.value * 48000 <= MAX
    ensures r.Some? ==> r.value == Ceiling(time.Seconds() * 48000.0)
  {
    Scaled(time, SAMPLE_RATE, true)
  }

  // ----- decoded streams

  /** A run of decoded stereo samples at consecutive source sample indices. */
  datatype Block<V> = Block(start: int, samples: seq<(V, V)>) {
    function End(): int { start + |samples| }

    predicate Holds(s: int) { start <= s < End() }
  }

  predicate OrderedBlocks<V>(blocks: seq<Block<V>>) {
    forall i, j :: 0 <= i < j < |blocks| ==> blocks[i].End() <= blocks[j].start
  }

  /** What a stream contributes at one source sample: nothing past its end or in a gap between blocks. */
  function ValueAt<V>(blocks: seq<Block<V>>, streamEnd: int, s: int, channel: nat): Option<V> {
    if s >= streamEnd || blocks == [] then None
    else if blocks[0].Holds(s) then
      var pair := blocks[0].samples[s - blocks[0].start];
      Some(if channel == 0 then pair.0 else pair.1)
    else ValueAt(blocks[1..], streamEnd, s, channel)
  }

  lemma {:induction false} ValueInBlock<V>(blocks: seq<Block<V>>, streamEnd: int, s: int, channel: nat, i: nat)
    requires OrderedBlocks(blocks) && i < |blocks| && blocks[i].Holds(s) && s < streamEnd
    ensures var pair := blocks[i].samples[s - blocks[i].start];
            ValueAt(blocks, streamEnd, s, channel) == Some(if channel == 0 then pair.0 else pair.1)
  {
    if i > 0 {
      assert blocks[0].End() <= blocks[i].start;
      ValueInBlock(blocks[1..], streamEnd, s, channel, i - 1);
    }
  }

  lemma {:induction false} ValueInGap<V>(blocks: seq<Block<V>>, streamEnd: int, s: int, channel: nat)
    requires forall i :: 0 <= i < |blocks| ==> !blocks[i].Holds(s)
    ensures ValueAt(blocks, streamEnd, s, channel) == None
  {
    if blocks != [] {
      assert forall i :: 0 <= i < |blocks[1..]| ==> blocks[1..][i] == blocks[i + 1];
      ValueInGap(blocks[1..], streamEnd, s, channel);
    }
  }

  lemma NothingAfterEnd<V>(blocks: seq<Block<V>>, streamEnd: int, s: int, channel: nat)
    requires s >= streamEnd
    ensures ValueAt(blocks, streamEnd, s, channel) == None
  {
  }

  /** How one contribution changes the mix: `blend` is the program's multiply and add. */
  function Blended<V>(blend: (V, nat, V) -> V, mixed: V, gain: nat, value: Option<V>): V {
    if value.None? then mixed else blend(mixed, gain, value.value)
  }

  /** A forward-only reader has passed a source sample when no discarded block reaches it. */
  ghost predicate ReadyAt<V>(blocks: seq<Block<V>>, read: nat, s: int) {
    read <= |blocks| && forall i :: 0 <= i < read - 1 ==> blocks[i].End() <= s
  }

  /** Adds `count` frames of one block, both channels, to an interleaved buffer. */
  method AddBlock<V>(block: Block<V>, position: int, at: nat, count: nat, buffer: array<V>,
                     blend: (V, nat, V) -> V, gain: nat)
    requires block.start <= position && position + count <= block.End()
    requires 2 * (at + count) <= buffer.Length
    modifies buffer
    ensures forall j :: 0 <= j < 2 * at || 2 * (at + count) <= j < buffer.Length ==> buffer[j] == old(buffer[j])
    ensures forall j :: 2 * at <= j < 2 * (at + count) ==>
              var pair := block.samples[position - block.start + (j / 2 - at)];
              buffer[j] == blend(old(buffer[j]), gain, if j % 2 == 0 then pair.0 else pair.1)
  {
    for i := 0 to 2 * count
      invariant forall j :: 0 <= j < 2 * at || 2 * at + i <= j < buffer.Length ==> buffer[j] == old(buffer[j])
      invariant forall j :: 2 * at <= j < 2 * at + i ==>
                  var pair := block.samples[position - block.start + (j / 2 - at)];
                  buffer[j] == blend(old(buffer[j]), gain, if j % 2 == 0 then pair.0 else pair.1)
    {
      var pair := block.samples[position - block.start + i / 2];
      buffer[2 * at + i] := blend(buffer[2 * at + i], gain, if i % 2 == 0 then pair.0 else pair.1);
    }
  }

  /**
   `Decoder::mix` over the blocks a stream decodes to. Requests move forward, so a reader that cannot
   go back still delivers, for every requested sample, exactly what the stream holds there.
   `read` counts decoded blocks; the current one is the last of them.
   */
  method Mix<V>(blocks: seq<Block<V>>, streamEnd: int, read: nat, source: int, buffer: array<V>, from: nat, count: nat,
                blend: (V, nat, V) -> V, gain: nat)
    returns (next: nat)
    requires OrderedBlocks(blocks) && ReadyAt(blocks, read, source)
    requires 2 * (from + count) <= buffer.Length
    modifies buffer
    ensures read <= next && ReadyAt(blocks, next, source + count)
    ensures forall j :: 0 <= j < 2 * from || 2 * (from + count) <= j < buffer.Length ==> buffer[j] == old(buffer[j])
    ensures forall j :: 2 * from <= j < 2 * (from + count) ==>
              buffer[j] == Blended(blend, old(buffer[j]), gain,
                                   ValueAt(blocks, streamEnd, source + (j / 2 - from), j % 2))
  {
    hide ValueAt, OrderedBlocks, Block.Holds;
    next := read;
    var end := if source + count < streamEnd then source + count else streamEnd;
    var position := source;
    while position < end
      invariant source <= position && (position <= end || position == source)
      invariant read <= next && ReadyAt(blocks, next, position)
      invariant forall j :: 0 <= j < 2 * from || 2 * (from + (position - source)) <= j < buffer.Length ==>
                  buffer[j] == old(buffer[j])
      invariant forall j :: 2 * from <= j < 2 * (from + (position - source)) ==>
                  buffer[j] == Blended(blend, old(buffer[j]), gain,
                                       ValueAt(blocks, streamEnd, source + (j / 2 - from), j % 2))
      decreases |blocks| - next, end - position
    {
      if next == 0 || position >= blocks[next - 1].End() {
        if next == |blocks| {
          break;
        }
        next := next + 1;
        continue;
      }
      var block := blocks[next - 1];
      if position < block.start {
        var skipped := if end < block.start then end else block.start;
        forall s, channel: nat | position <= s < skipped
          ensures ValueAt(blocks, streamEnd, s, channel) == None
        {
          GapBefore(blocks, next - 1, s);
          ValueInGap(blocks, streamEnd, s, channel);
        }
        position := skipped;
        continue;
      }
      var taken := if end < block.End() then end - position else block.End() - position;
      forall s, channel: nat | position <= s < position + taken
        ensures ValueAt(blocks, streamEnd, s, channel)
                == Some(if channel == 0 then block.samples[s - block.start].0 else block.samples[s - block.start].1)
      {
        ValueInBlock(blocks, streamEnd, s, channel, next - 1);
      }
      AddBlock(block, position, from + (position - source), taken, buffer, blend, gain);
      position := position + taken;
    }
    forall s, channel: nat | position <= s < source + count
      ensures ValueAt(blocks, streamEnd, s, channel) == None
    {
      if s >= streamEnd {
        NothingAfterEnd(blocks, streamEnd, s, channel);
      } else {
        GapAfter(blocks, next, position, s);
        ValueInGap(blocks, streamEnd, s, channel);
      }
    }
  }

  lemma GapBefore<V>(blocks: seq<Block<V>>, current: nat, s: int)
    requires OrderedBlocks(blocks) && current < |blocks| && s < blocks[current].start
    requires forall i :: 0 <= i < current ==> blocks[i].End() <= s
    ensures forall i :: 0 <= i < |blocks| ==> !blocks[i].Holds(s)
  {
    forall i | current < i < |blocks|
      ensures blocks[current].start <= blocks[i].start
    {
      assert blocks[current].End() <= blocks[i].start;
    }
  }

  lemma GapAfter<V>(blocks: seq<Block<V>>, read: nat, position: int, s: int)
    requires ReadyAt(blocks, read, position) && read == |blocks| && position <= s
    requires read == 0 || blocks[read - 1].End() <= position
    ensures forall i :: 0 <= i < |blocks| ==> !blocks[i].Holds(s)
  {
  }
}
