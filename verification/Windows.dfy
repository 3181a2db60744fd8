/** Bounded per-key windows over time, and the cooldown that keeps a key from firing again. */
module Windows {
  import opened Wire

  /** Buf from its first entry at or after the cutoff; pruning stops there. */
  function Prune(buf: seq<int>, cutoff: int): seq<int>
  {
    if buf == [] || buf[0] >= cutoff then buf else Prune(buf[1..], cutoff)
  }

  /** Every entry at or after the cutoff. */
  function InWindow(buf: seq<int>, cutoff: int): seq<int>
  {
    if buf == [] then []
    else InWindow(buf[..|buf| - 1], cutoff) + if buf[|buf| - 1] >= cutoff then [buf[|buf| - 1]] else []
  }

  /** The values seen at or after the cutoff. */
  function Recent<V>(seen: map<V, int>, cutoff: int): map<V, int>
  {
    map v | v in seen && seen[v] >= cutoff :: seen[v]
  }

  ghost predicate SortedTimes(buf: seq<int>)
  {
    forall i, j :: 0 <= i < j < |buf| ==> buf[i] <= buf[j]
  }

  lemma {:induction false} InWindowFront(buf: seq<int>, cutoff: int)
    requires buf != []
    ensures InWindow(buf, cutoff) == (if buf[0] >= cutoff then [buf[0]] else []) + InWindow(buf[1..], cutoff)
  {
    if |buf| > 1 {
      InWindowFront(buf[..|buf| - 1], cutoff);
      assert buf[..|buf| - 1][1..] == buf[1..][..|buf| - 2];
    } else {
      assert buf[..0] == [] && buf[1..] == [];
    }
  }

  lemma {:induction false} InWindowBound(buf: seq<int>, cutoff: int)
    ensures |InWindow(buf, cutoff)| <= |buf|
    ensures |InWindow(buf, cutoff)| == |buf| <==> forall i :: 0 <= i < |buf| ==> buf[i] >= cutoff
    ensures |InWindow(buf, cutoff)| == |buf| ==> InWindow(buf, cutoff) == buf
  {
    if buf != [] {
      InWindowBound(buf[..|buf| - 1], cutoff);
    }
  }

  /** No entry behind one in the window is out of it. */
  ghost predicate Settles(buf: seq<int>, cutoff: int)
  {
    forall i, j :: 0 <= i < j < |buf| && buf[i] >= cutoff ==> buf[j] >= cutoff
  }

  lemma SettlesFront(buf: seq<int>, cutoff: int)
    requires buf != []
    ensures buf[0] >= cutoff ==> (Settles(buf, cutoff) <==> forall j :: 0 <= j < |buf| ==> buf[j] >= cutoff)
    ensures buf[0] < cutoff ==> (Settles(buf, cutoff) <==> Settles(buf[1..], cutoff))
  {
    if buf[0] >= cutoff {
      assert Settles(buf, cutoff) ==> forall j :: 0 < j < |buf| ==> buf[j] >= cutoff;
    } else if Settles(buf[1..], cutoff) {
      forall i, j | 0 <= i < j < |buf| && buf[i] >= cutoff ensures buf[j] >= cutoff {
        assert buf[1..][i - 1] == buf[i] && buf[1..][j - 1] == buf[j];
      }
    }
  }

  /**
   * Pruning keeps exactly the entries in the window if and only if no entry behind the first one
   * in the window is out of it - as when the times never decrease.
   */
  lemma {:induction false} PruneExactIff(buf: seq<int>, cutoff: int)
    ensures Prune(buf, cutoff) == InWindow(buf, cutoff) <==> Settles(buf, cutoff)
    ensures |Prune(buf, cutoff)| >= |InWindow(buf, cutoff)|
  {
    if buf != [] {
      InWindowFront(buf, cutoff);
      InWindowBound(buf, cutoff);
      SettlesFront(buf, cutoff);
      PruneExactIff(buf[1..], cutoff);
      hide Settles, InWindow;
    }
  }

  // --- the windows as they run -------------------------------------------------

  function At<V>(m: map<string, seq<V>>, key: string): seq<V>
  {
    if key in m then m[key] else []
  }

  class SlidingCounter {
    const window: int
    var times: map<string, seq<int>>

    constructor (window: int)
      ensures this.window == window && times == map[]
    {
      this.window := window;
      times := map[];
    }

    method Add(key: string, t: int) returns (n: nat)
      modifies this
      ensures times == old(times)[key := Prune(At(old(times), key) + [t], t - window)]
      ensures n == |times[key]|
    {
      var cutoff := t - window;
      var buf := At(times, key) + [t];
      var i := 0;
      while i < |buf|
        invariant i <= |buf| && Prune(buf[i..], cutoff) == Prune(buf, cutoff)
      {
        if buf[i] >= cutoff {
          break;
        }
        assert buf[i..][1..] == buf[i + 1..];
        i := i + 1;
      }
      buf := buf[i..];
      times := times[key := buf];
      n := |buf|;
    }

    method Reset(key: string)
      modifies this
      ensures times == old(times) - {key}
    {
      times := times - {key};
    }
  }

  function SeenAt<V>(m: map<string, map<V, int>>, key: string): map<V, int>
  {
    if key in m then m[key] else map[]
  }

  class DistinctWindow<V(==)> {
    const window: int
    var seen: map<string, map<V, int>>

    constructor (window: int)
      ensures this.window == window && seen == map[]
    {
      this.window := window;
      seen := map[];
    }

    method Add(key: string, value: V, t: int) returns (n: nat)
      modifies this
      ensures seen == old(seen)[key := Recent(SeenAt(old(seen), key)[value := t], t - window)]
      ensures n == |seen[key]|
    {
      var cutoff := t - window;
      var m := SeenAt(seen, key)[value := t];
      ghost var whole := m;
      var rest := m.Keys;
      while rest != {}
        invariant rest <= m.Keys <= whole.Keys
        invariant forall v :: v in m ==> m[v] == whole[v]
        invariant forall v :: v in whole && v !in rest ==> (v in m <==> whole[v] >= cutoff)
        decreases rest
      {
        var v :| v in rest;
        rest := rest - {v};
        if m[v] < cutoff {
          m := m - {v};
        }
      }
      assert m == Recent(whole, cutoff);
      seen := seen[key := m];
      n := |m|;
    }

    method Reset(key: string)
      modifies this
      ensures seen == old(seen) - {key}
    {
      seen := seen - {key};
    }
  }

  predicate Rested(last: Option<int>, t: int, d: int)
  {
    last.None? || t - last.value >= d
  }

  class Cooldown {
    const d: int
    var last: map<string, int>

    constructor (d: int)
      ensures this.d == d && last == map[]
    {
      this.d := d;
      last := map[];
    }

    function LastOf(key: string): Option<int>
      reads this
    {
      if key in last then Some(last[key]) else None
    }

    method Firable(key: string, t: int) returns (ok: bool)
      modifies this
      ensures ok == Rested(old(LastOf(key)), t, d)
      ensures last == if ok then old(last)[key := t] else old(last)
    {
      if key in last && t - last[key] < d {
        return false;
      }
      last := last[key := t];
      ok := true;
    }
  }
}
