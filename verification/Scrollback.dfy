/** The PTY scrollback ring: whole output chunks, trimmed to a byte budget. */
module Scrollback {
  import opened Retention
  import opened Utf8

  const SCROLLBACK_CAP_BYTES := 64 * 1024
  /** Largest chunk the PTY reader hands over in one read. */
  const PTY_CHUNK := 4096

  const USIZE_MAX := 0xFFFF_FFFF_FFFF_FFFF
  /** No allocation is larger than this, so no chunk is longer. */
  const ISIZE_MAX := 0x7FFF_FFFF_FFFF_FFFF

  type Bytes = s: seq<byte> | |s| <= ISIZE_MAX

  function SaturatingAdd(a: nat, b: nat): nat {
    if a + b > USIZE_MAX then USIZE_MAX else a + b
  }

  function SaturatingSub(a: nat, b: nat): nat {
    if a < b then 0 else a - b
  }

  function Len(b: Bytes): nat { |b| }

  class ScrollbackRing {
    var chunks: seq<Bytes>
    var total: nat
    /** Every chunk ever pushed, oldest first. */
    ghost var pushed: seq<Bytes>

    ghost predicate Valid()
      reads this
    {
      && total == Weight(chunks, Len)
      && total <= SCROLLBACK_CAP_BYTES
      && chunks == Retained(pushed, Len, SCROLLBACK_CAP_BYTES)
    }

    constructor ()
      ensures Valid() && pushed == [] && chunks == []
    {
      chunks := [];
      total := 0;
      pushed := [];
    }

    /** Neither saturation nor the empty-deque arm of the trimming loop is ever
        reached; what is left is the longest suffix of the history that fits. */
    method Push(bytes: Bytes)
      requires Valid()
      modifies this
      ensures Valid()
      ensures pushed == old(pushed) + [bytes]
      ensures IsLongestFittingSuffix(chunks, pushed, Len, SCROLLBACK_CAP_BYTES)
    {
      ghost var before := chunks;
      RetainedPush(pushed, bytes, Len, SCROLLBACK_CAP_BYTES);
      WeightAppend(chunks, bytes, Len);
      total := SaturatingAdd(total, |bytes|);
      chunks := chunks + [bytes];
      while total > SCROLLBACK_CAP_BYTES
        invariant pushed == old(pushed)
        invariant total == Weight(chunks, Len)
        invariant Retained(chunks, Len, SCROLLBACK_CAP_BYTES) == Retained(before + [bytes], Len, SCROLLBACK_CAP_BYTES)
        decreases |chunks|
      {
        if chunks == [] {
          assert false;
        }
        DropFront(chunks, Len, SCROLLBACK_CAP_BYTES);
        total := SaturatingSub(total, |chunks[0]|);
        chunks := chunks[1..];
      }
      AlreadyFits(chunks, Len, SCROLLBACK_CAP_BYTES);
      pushed := pushed + [bytes];
      RetainedIsLongest(pushed, Len, SCROLLBACK_CAP_BYTES);
    }

    method Snapshot() returns (copy: seq<Bytes>)
      requires Valid()
      ensures copy == Retained(pushed, Len, SCROLLBACK_CAP_BYTES)
    {
      copy := chunks;
    }
  }

  /** With reads of at most 4096 bytes, more than 60 KiB is kept once anything
      has been dropped, and never more than 64 KiB. */
  lemma ReplayIsNearlyFull(pushed: seq<Bytes>)
    requires forall i :: 0 <= i < |pushed| ==> 1 <= |pushed[i]| <= PTY_CHUNK
    ensures var kept := Retained(pushed, Len, SCROLLBACK_CAP_BYTES);
            && Weight(kept, Len) <= 64 * 1024
            && (kept != pushed ==> Weight(kept, Len) > 60 * 1024)
  {
    RetainedIsLongest(pushed, Len, SCROLLBACK_CAP_BYTES);
    var kept := Retained(pushed, Len, SCROLLBACK_CAP_BYTES);
    if kept != pushed {
      NearlyFull(pushed, Len, SCROLLBACK_CAP_BYTES, PTY_CHUNK);
    }
  }
}
