// A fixed-size circular buffer: it holds the last pushes of its history.
module Ring {
  import opened Common

  /** The last n of a history. */
  function LastOf<T>(h: seq<T>, n: nat): (r: seq<T>)
    ensures |r| == if |h| < n then |h| else n
  {
    if |h| <= n then h else h[|h| - n..]
  }

  /** The slots hold the last pushes: in order up to pos before the buffer wraps, the oldest at pos after. */
  ghost predicate Holds<T>(slots: seq<T>, pos: nat, full: bool, h: seq<T>, empty: T) {
    && pos < |slots|
    && (!full ==> |h| == pos && slots[..pos] == h && forall i :: pos <= i < |slots| ==> slots[i] == empty)
    && (full ==> |h| >= |slots| && slots[pos..] + slots[..pos] == LastOf(h, |slots|))
  }

  function Next(pos: nat, size: nat): nat {
    if pos + 1 == size then 0 else pos + 1
  }

  /** One push. */
  lemma PushHolds<T>(slots: seq<T>, pos: nat, full: bool, h: seq<T>, empty: T, e: T)
    requires Holds(slots, pos, full, h, empty)
    ensures Holds(slots[pos := e], Next(pos, |slots|), full || pos + 1 == |slots|, h + [e], empty)
  {
    var after := slots[pos := e];
    if full {
      PushFull(slots, pos, h, e);
    } else if pos + 1 == |slots| {
      assert after == h + [e];
      assert after[0..] + after[..0] == after;
    } else {
      assert after[..pos + 1] == slots[..pos] + [e];
    }
  }

  lemma PushFull<T>(slots: seq<T>, pos: nat, h: seq<T>, e: T)
    requires pos < |slots| <= |h| && slots[pos..] + slots[..pos] == LastOf(h, |slots|)
    ensures var after, next := slots[pos := e], Next(pos, |slots|);
            after[next..] + after[..next] == LastOf(h + [e], |slots|)
  {
    var n, after := |slots|, slots[pos := e];
    var was := slots[pos..] + slots[..pos];
    assert LastOf(h + [e], n) == was[1..] + [e] by {
      assert h == h[..|h| - n] + was;
    }
    assert after[..pos + 1] == slots[..pos] + [e] && after[pos + 1..] == slots[pos + 1..];
    assert was[1..] == slots[pos + 1..] + slots[..pos];
    assert was[1..] + [e] == slots[pos + 1..] + (slots[..pos] + [e]);
    if pos + 1 == n {
      assert after[pos + 1..] + after[..pos + 1] == after[0..] + after[..0];
    }
  }

  class RingBuffer<T(0)> {
    const buf: array<T>
    var pos: nat
    var full: bool
    ghost const empty: T
    ghost var history: seq<T>

    ghost predicate Valid()
      reads this, buf
    {
      Holds(buf[..], pos, full, history, empty)
    }

    constructor (size: nat, blank: T)
      requires size > 0
      ensures Valid() && fresh(buf) && buf.Length == size && history == [] && empty == blank
    {
      buf := new T[size](_ => blank);
      pos, full, empty, history := 0, false, blank, [];
    }

    method Push(e: T)
      requires Valid()
      modifies this`pos, this`full, this`history, buf
      ensures Valid() && history == old(history) + [e]
    {
      hide Holds;
      ghost var before := buf[..];
      PushHolds(before, pos, full, history, empty, e);
      Room();
      buf[pos] := e;
      assert buf[..] == before[pos := e];
      history := history + [e];
      pos := pos + 1;
      if pos == buf.Length {
        pos := 0;
        full := true;
      }
    }

    lemma Room()
      requires Valid()
      ensures pos < buf.Length
    {
    }

    /** All entries in chronological order. */
    method Snapshot() returns (out: array<T>)
      requires Valid()
      ensures fresh(out) && out[..] == LastOf(history, buf.Length)
    {
      var n := if full then buf.Length else pos;
      var any := buf[0];
      out := new T[n](_ => any);
      if full {
        var tail := buf.Length - pos;
        Copy(buf, pos, buf.Length, out, 0);
        assert out[..tail] == buf[pos..];
        Copy(buf, 0, pos, out, tail);
        assert out[tail..] == buf[..pos];
        assert out[..] == out[..tail] + out[tail..];
      } else {
        Copy(buf, 0, pos, out, 0);
      }
    }

    static method Copy(src: array<T>, from: nat, to: nat, dst: array<T>, at: nat)
      requires from <= to <= src.Length && at + (to - from) <= dst.Length && src != dst
      modifies dst
      ensures dst[..at] == old(dst[..at]) && dst[at..at + (to - from)] == src[from..to]
      ensures dst[at + (to - from)..] == old(dst[at + (to - from)..])
    {
      for i := 0 to to - from
        invariant forall k :: 0 <= k < dst.Length ==>
                  dst[k] == if at <= k < at + i then src[from + (k - at)] else old(dst[k])
      {
        dst[at + i] := src[from + i];
      }
    }
  }
}
