/** The specification of the consumer in `Recent`: repeatedly take the latest line at
    the front of any container, the first container winning ties. */
module LogMerge {
  import opened Common
  import opened Ordering
  import opened LogLines

  /** A line together with the container it came from. */
  datatype Tagged = Tagged(lane: nat, line: LogLine)

  /** Line `x` of lane `k` is chosen over line `y` of lane `i`. */
  predicate Beats(k: nat, x: LogLine, i: nat, y: LogLine)
  {
    y.timestamp < x.timestamp || (x.timestamp == y.timestamp && k < i)
  }

  ghost predicate IsLatest(rests: seq<seq<LogLine>>, i: nat)
  {
    && i < |rests| && rests[i] != []
    && forall k :: 0 <= k < |rests| && rests[k] != [] ==> !Beats(k, rests[k][0], i, rests[i][0])
  }

  lemma LatestUnique(rests: seq<seq<LogLine>>, i: nat, j: nat)
    requires IsLatest(rests, i) && IsLatest(rests, j)
    ensures i == j
  {
  }

  predicate NothingLeft(rests: seq<seq<LogLine>>)
  {
    forall k :: 0 <= k < |rests| ==> rests[k] == []
  }

  function Latest(rests: seq<seq<LogLine>>): (i: nat)
    requires !NothingLeft(rests)
    ensures IsLatest(rests, i)
  {
    var init := rests[..|rests| - 1];
    var last := rests[|rests| - 1];
    if NothingLeft(init) then |rests| - 1
    else
      var i := Latest(init);
      assert IsLatest(init, i);
      if last != [] && Beats(|rests| - 1, last[0], i, rests[i][0]) then |rests| - 1 else i
  }

  lemma {:induction false} TotalAdvance(rests: seq<seq<LogLine>>, i: nat)
    requires i < |rests| && rests[i] != []
    ensures Total(rests[i := rests[i][1..]]) == Total(rests) - 1
  {
    var n := |rests| - 1;
    var next := rests[i := rests[i][1..]];
    if i == n {
      assert next[..n] == rests[..n];
    } else {
      TotalAdvance(rests[..n], i);
      assert next[..n] == rests[..n][i := rests[i][1..]];
    }
  }

  function Merge(rests: seq<seq<LogLine>>): (r: seq<Tagged>)
    decreases Total(rests)
  {
    if NothingLeft(rests) then []
    else
      var i := Latest(rests);
      TotalAdvance(rests, i);
      [Tagged(i, rests[i][0])] + Merge(rests[i := rests[i][1..]])
  }

  /** The lines of one lane in a tagged list, in order. */
  function Taken(out: seq<Tagged>, lane: nat): (r: seq<LogLine>)
  {
    if out == [] then []
    else
      var t := out[|out| - 1];
      Taken(out[..|out| - 1], lane) + (if t.lane == lane then [t.line] else [])
  }

  lemma TakenAppend(out: seq<Tagged>, t: Tagged, lane: nat)
    ensures Taken(out + [t], lane) == Taken(out, lane) + (if t.lane == lane then [t.line] else [])
  {
    assert (out + [t])[..|out|] == out;
  }

  function Skip(s: seq<LogLine>, n: nat): (r: seq<LogLine>)
  {
    if n <= |s| then s[n..] else []
  }

  /** What every lane still holds once `out` was taken. */
  function Rests(lanes: seq<seq<LogLine>>, out: seq<Tagged>): (r: seq<seq<LogLine>>)
    ensures |r| == |lanes|
  {
    seq(|lanes|, i requires 0 <= i < |lanes| => Skip(lanes[i], |Taken(out, i)|))
  }

  lemma RestsAdvance(lanes: seq<seq<LogLine>>, out: seq<Tagged>, t: Tagged)
    requires t.lane < |lanes| && Rests(lanes, out)[t.lane] != []
    ensures Rests(lanes, out + [t]) == Rests(lanes, out)[t.lane := Rests(lanes, out)[t.lane][1..]]
  {
    var r := Rests(lanes, out);
    forall i | 0 <= i < |lanes| ensures Rests(lanes, out + [t])[i] == r[t.lane := r[t.lane][1..]][i] {
      TakenAppend(out, t, i);
    }
  }

  lemma MergeHead(rests: seq<seq<LogLine>>)
    requires !NothingLeft(rests)
    ensures Merge(rests) == [Tagged(Latest(rests), rests[Latest(rests)][0])]
                            + Merge(rests[Latest(rests) := rests[Latest(rests)][1..]])
  {
  }

  /** A merged prefix leaves the merge of what it did not take. */
  lemma {:induction false} MergeSplit(lanes: seq<seq<LogLine>>, out: seq<Tagged>)
    requires out <= Merge(lanes)
    ensures Merge(lanes) == out + Merge(Rests(lanes, out))
  {
    if out == [] {
      assert Rests(lanes, []) == lanes;
    } else {
      var n := |out| - 1;
      assert out[..n] <= Merge(lanes);
      MergeSplit(lanes, out[..n]);
      assert out == out[..n] + [out[n]];
      MergeSplitNext(lanes, out[..n], out[n], Merge(Rests(lanes, out[..n])));
    }
  }

  lemma MergeHeadIs(r: seq<seq<LogLine>>, m: seq<Tagged>, t: Tagged)
    requires m == Merge(r) && m != [] && m[0] == t
    ensures t.lane < |r| && r[t.lane] != [] && m == [t] + Merge(r[t.lane := r[t.lane][1..]])
  {
    MergeHead(r);
  }

  lemma MergeSplitNext(lanes: seq<seq<LogLine>>, out: seq<Tagged>, t: Tagged, m: seq<Tagged>)
    requires m == Merge(Rests(lanes, out)) && out + [t] <= out + m
    ensures out + m == out + [t] + Merge(Rests(lanes, out + [t]))
  {
    PrefixHead(out, t, m);
    MergeHeadIs(Rests(lanes, out), m, t);
    RestsAdvance(lanes, out, t);
    Regroup(out, [t], Merge(Rests(lanes, out + [t])));
  }

  lemma PrefixHead<T>(out: seq<T>, t: T, m: seq<T>)
    requires out + [t] <= out + m
    ensures m != [] && m[0] == t
  {
    assert (out + [t])[|out|] == (out + m)[|out|];
  }

  /** A merged prefix can be extended by a lane's next line exactly when that line is
      the latest of all the lines still to come. */
  lemma MergeExtends(lanes: seq<seq<LogLine>>, out: seq<Tagged>, i: nat)
    requires i < |lanes| && Rests(lanes, out)[i] != []
    ensures out + [Tagged(i, Rests(lanes, out)[i][0])] <= Merge(lanes)
       <==> out <= Merge(lanes) && IsLatest(Rests(lanes, out), i)
  {
    var t := Tagged(i, Rests(lanes, out)[i][0]);
    if out <= Merge(lanes) {
      MergeSplit(lanes, out);
      NextIsLatest(Rests(lanes, out), i);
      PrefixNext(out, t, Merge(Rests(lanes, out)));
    } else {
      PrefixOfPrefix(out, t, Merge(lanes));
    }
  }

  lemma NextIsLatest(r: seq<seq<LogLine>>, i: nat)
    requires i < |r| && r[i] != []
    ensures Merge(r) != [] && (Merge(r)[0] == Tagged(i, r[i][0]) <==> IsLatest(r, i))
  {
    MergeHead(r);
    if IsLatest(r, i) {
      LatestUnique(r, i, Latest(r));
    }
  }

  lemma PrefixNext<T>(out: seq<T>, t: T, m: seq<T>)
    requires m != []
    ensures out + [t] <= out + m <==> m[0] == t
  {
    assert (out + m)[|out|] == m[0];
    assert (out + [t])[|out|] == t;
  }

  lemma PrefixOfPrefix<T>(out: seq<T>, t: T, m: seq<T>)
    ensures out + [t] <= m ==> out <= m
  {
    if out + [t] <= m {
      assert (out + [t])[..|out|] == m[..|out|];
    }
  }

  function Lines(out: seq<Tagged>): (r: seq<LogLine>)
    ensures |r| == |out|
    ensures forall k :: 0 <= k < |r| ==> r[k] == out[k].line
  {
    seq(|out|, k requires 0 <= k < |out| => out[k].line)
  }

  lemma {:induction false} FlattenAround(rests: seq<seq<LogLine>>, i: nat)
    requires i < |rests|
    ensures Flatten(rests) == Flatten(rests[..i]) + rests[i] + Flatten(rests[i + 1..])
  {
    var n := |rests| - 1;
    if i == n {
      assert rests[i + 1..] == [];
    } else {
      FlattenAround(rests[..n], i);
      var tail := rests[i + 1..];
      assert rests[..n][..i] == rests[..i];
      assert tail[..|tail| - 1] == rests[..n][i + 1..];
    }
  }

  lemma {:induction false} FlattenMembers(rests: seq<seq<LogLine>>, x: LogLine) returns (k: nat)
    requires x in Flatten(rests)
    ensures k < |rests| && x in rests[k]
  {
    var n := |rests| - 1;
    if x in rests[n] {
      k := n;
    } else {
      k := FlattenMembers(rests[..n], x);
    }
  }

  /** The merge of latest-first lanes is "concatenate everything and sort by time,
      latest first, keeping the order of equal timestamps". */
  lemma {:induction false} MergeIsSort(rests: seq<seq<LogLine>>)
    requires forall k :: 0 <= k < |rests| ==> Descending(rests[k])
    ensures Lines(Merge(rests)) == StableSort(Later, Flatten(rests))
    decreases Total(rests)
  {
    if NothingLeft(rests) {
      NothingToFlatten(rests);
    } else {
      var i := Latest(rests);
      var next := rests[i := rests[i][1..]];
      TotalAdvance(rests, i);
      AdvanceDescending(rests, i, next);
      MergeIsSort(next);
      SortHead(rests, i);
      MergeHead(rests);
      LinesCons(Tagged(i, rests[i][0]), Merge(next));
    }
  }

  lemma LinesCons(t: Tagged, out: seq<Tagged>)
    ensures Lines([t] + out) == [t.line] + Lines(out)
  {
  }

  lemma AdvanceDescending(rests: seq<seq<LogLine>>, i: nat, next: seq<seq<LogLine>>)
    requires i < |rests| && rests[i] != [] && next == rests[i := rests[i][1..]]
    requires forall k :: 0 <= k < |rests| ==> Descending(rests[k])
    ensures forall k :: 0 <= k < |next| ==> Descending(next[k])
  {
  }

  /** Removing the first line of a lane from the concatenation. */
  lemma FlattenAdvance(rests: seq<seq<LogLine>>, i: nat, next: seq<seq<LogLine>>)
    requires i < |rests| && rests[i] != [] && next == rests[i := rests[i][1..]]
    ensures var s, j := Flatten(rests), |Flatten(rests[..i])|;
      j < |s| && s[j] == rests[i][0] && s[..j] + s[j + 1..] == Flatten(next)
  {
    FlattenAround(rests, i);
    FlattenAround(next, i);
    var a, b := Flatten(rests[..i]), Flatten(rests[i + 1..]);
    assert next[..i] == rests[..i] && next[i + 1..] == rests[i + 1..];
    RemoveFirst(a, rests[i], b);
  }

  lemma RemoveFirst<T>(a: seq<T>, x: seq<T>, b: seq<T>)
    requires x != []
    ensures var s := a + x + b;
      s[|a|] == x[0] && s[..|a|] + s[|a| + 1..] == a + x[1..] + b
  {
  }

  lemma SortHead(rests: seq<seq<LogLine>>, i: nat)
    requires IsLatest(rests, i)
    requires forall k :: 0 <= k < |rests| ==> Descending(rests[k])
    ensures StableSort(Later, Flatten(rests)) ==
            [rests[i][0]] + StableSort(Later, Flatten(rests[i := rests[i][1..]]))
  {
    FlattenAdvance(rests, i, rests[i := rests[i][1..]]);
    LatestInFlatten(rests, i);
    TimeOrders();
    StableSortHead(Later, Flatten(rests), |Flatten(rests[..i])|);
  }

  lemma {:induction false} NothingToFlatten(rests: seq<seq<LogLine>>)
    requires NothingLeft(rests)
    ensures Flatten(rests) == []
  {
    if rests != [] {
      NothingToFlatten(rests[..|rests| - 1]);
    }
  }

  lemma LatestBeats(rests: seq<seq<LogLine>>, i: nat, l: nat, x: LogLine)
    requires IsLatest(rests, i) && l < |rests| && Descending(rests[l]) && x in rests[l]
    ensures !Later(x, rests[i][0])
    ensures l < i ==> Later(rests[i][0], x)
  {
    HeadIsLatest(rests[l], x);
    assert l != i ==> !Beats(l, rests[l][0], i, rests[i][0]);
  }

  lemma LatestInFlatten(rests: seq<seq<LogLine>>, i: nat)
    requires IsLatest(rests, i)
    requires forall k :: 0 <= k < |rests| ==> Descending(rests[k])
    ensures |Flatten(rests[..i])| < |Flatten(rests)|
    ensures forall k :: 0 <= k < |Flatten(rests[..i])| ==> Later(rests[i][0], Flatten(rests)[k])
    ensures forall k :: |Flatten(rests[..i])| < k < |Flatten(rests)| ==> !Later(Flatten(rests)[k], rests[i][0])
  {
    var s, a, b := Flatten(rests), Flatten(rests[..i]), Flatten(rests[i + 1..]);
    FlattenAround(rests, i);
    forall k | 0 <= k < |a| ensures Later(rests[i][0], s[k]) {
      AtPart(a, rests[i], b, k);
      LatestInFront(rests, i, a[k]);
    }
    forall k | |a| < k < |s| ensures !Later(s[k], rests[i][0]) {
      AtPart(a, rests[i], b, k);
      if k < |a| + |rests[i]| {
        LatestBeats(rests, i, i, rests[i][k - |a|]);
      } else {
        LatestBehind(rests, i, b[k - |a| - |rests[i]|]);
      }
    }
  }

  lemma AtPart<T>(a: seq<T>, m: seq<T>, b: seq<T>, k: nat)
    requires k < |a + m + b|
    ensures (a + m + b)[k] == if k < |a| then a[k] else if k < |a| + |m| then m[k - |a|] else b[k - |a| - |m|]
  {
  }

  lemma LatestInFront(rests: seq<seq<LogLine>>, i: nat, x: LogLine)
    requires IsLatest(rests, i) && x in Flatten(rests[..i])
    requires forall k :: 0 <= k < |rests| ==> Descending(rests[k])
    ensures Later(rests[i][0], x)
  {
    var l := FlattenMembers(rests[..i], x);
    LatestBeats(rests, i, l, x);
  }

  lemma LatestBehind(rests: seq<seq<LogLine>>, i: nat, x: LogLine)
    requires IsLatest(rests, i) && x in Flatten(rests[i + 1..])
    requires forall k :: 0 <= k < |rests| ==> Descending(rests[k])
    ensures !Later(x, rests[i][0])
  {
    var l := FlattenMembers(rests[i + 1..], x);
    LatestBeats(rests, i, i + 1 + l, x);
  }

  lemma HeadIsLatest(s: seq<LogLine>, x: LogLine)
    requires Descending(s) && x in s
    ensures x.timestamp <= s[0].timestamp
  {
  }

  /** The merge hands out every line of every lane, each lane in its own order. */
  lemma {:induction false} MergeTakes(rests: seq<seq<LogLine>>, out: seq<Tagged>, lane: nat)
    requires out == Merge(rests) && lane < |rests|
    ensures Taken(out, lane) == rests[lane]
    decreases Total(rests)
  {
    if !NothingLeft(rests) {
      var i := Latest(rests);
      var next := rests[i := rests[i][1..]];
      TotalAdvance(rests, i);
      MergeTakes(next, Merge(next), lane);
      TakenPrepend(Tagged(i, rests[i][0]), Merge(next), lane);
    }
  }

  lemma {:induction false} TakenPrepend(t: Tagged, out: seq<Tagged>, lane: nat)
    ensures Taken([t] + out, lane) == (if t.lane == lane then [t.line] else []) + Taken(out, lane)
  {
    if out == [] {
      TakenAppend([], t, lane);
      assert [t] + [] == [] + [t];
    } else {
      var n := |out| - 1;
      TakenPrepend(t, out[..n], lane);
      assert ([t] + out)[..n + 1] == [t] + out[..n];
      assert out == out[..n] + [out[n]];
      TakenAppend([t] + out[..n], out[n], lane);
      assert [t] + out[..n] + [out[n]] == [t] + out;
    }
  }

  lemma {:induction false} TakenConcat(a: seq<Tagged>, b: seq<Tagged>, lane: nat)
    ensures Taken(a + b, lane) == Taken(a, lane) + Taken(b, lane)
  {
    if b == [] {
      assert a + b == a;
    } else {
      var n := |b| - 1;
      TakenConcat(a, b[..n], lane);
      assert a + b == (a + b[..n]) + [b[n]];
      assert b == b[..n] + [b[n]];
      TakenAppend(a + b[..n], b[n], lane);
      TakenAppend(b[..n], b[n], lane);
    }
  }

  lemma {:induction false} TakenFrom(out: seq<Tagged>, lane: nat, x: LogLine) returns (k: nat)
    requires x in Taken(out, lane)
    ensures k < |out| && out[k] == Tagged(lane, x)
  {
    var n := |out| - 1;
    if out[n] == Tagged(lane, x) {
      k := n;
    } else {
      k := TakenFrom(out[..n], lane, x);
    }
  }
}
