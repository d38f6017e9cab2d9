/** Stitching tool calls together from streaming fragments (proxy/agent.go). */
module ToolCalls {
  import opened Common

  /** One delta; the index is absent in some dialects. */
  datatype Fragment = Fragment(index: Option<int>, id: string, name: string, arguments: string)

  datatype Buf = Buf(id: string, name: string, arguments: string)

  datatype ToolCall = ToolCall(id: string, name: string, arguments: string)

  /** The accumulator's state: indices by first appearance, their buffers, the next free index. */
  datatype Acc = Acc(order: seq<int>, byIdx: map<int, Buf>, next: int)

  const EMPTY: Acc := Acc([], map[], 0)

  /** Which buffer a fragment goes to: its index, else the latest call for a bare
      continuation, else a new one. */
  function IndexFor(a: Acc, d: Fragment): int {
    if d.index.Some? then d.index.value
    else if d.id == "" && d.name == "" && a.order != [] then a.order[|a.order| - 1]
    else a.next
  }

  function Merge(buf: Buf, d: Fragment): Buf {
    Buf(if d.id != "" then d.id else buf.id, if d.name != "" then d.name else buf.name, buf.arguments + d.arguments)
  }

  function Step(a: Acc, d: Fragment): Acc {
    var idx := IndexFor(a, d);
    if idx in a.byIdx then a.(byIdx := a.byIdx[idx := Merge(a.byIdx[idx], d)])
    else Acc(a.order + [idx], a.byIdx[idx := Merge(Buf("", "", ""), d)], if idx >= a.next then idx + 1 else a.next)
  }

  function AddAll(a: Acc, ds: seq<Fragment>): Acc {
    if ds == [] then a else Step(AddAll(a, ds[..|ds| - 1]), ds[|ds| - 1])
  }

  function Finished(a: Acc, uuid: int -> string, n: nat): seq<ToolCall>
    requires n <= |a.order| && forall i | i in a.order :: i in a.byIdx
  {
    if n == 0 then []
    else
      var before := Finished(a, uuid, n - 1);
      var idx := a.order[n - 1];
      if a.byIdx[idx].name == "" then before else before + [Named(a.byIdx[idx], uuid(idx))]
  }

  function Named(buf: Buf, uuid: string): ToolCall {
    ToolCall(if buf.id == "" then "call_" + uuid else buf.id, buf.name, buf.arguments)
  }

  /** No index twice, exactly the buffered ones, all below the next free index. */
  ghost predicate WellFormed(a: Acc) {
    && (forall i, j | 0 <= i < j < |a.order| :: a.order[i] != a.order[j])
    && (forall i :: i in a.order <==> i in a.byIdx)
    && (forall i | i in a.order :: i < a.next)
  }

  class ToolCallAccumulator {
    var order: seq<int>
    var byIdx: map<int, Buf>
    var next: int

    function View(): Acc
      reads this
    {
      Acc(order, byIdx, next)
    }

    constructor ()
      ensures View() == EMPTY && WellFormed(View())
    {
      order, byIdx, next := [], map[], 0;
    }

    method Add(deltas: seq<Fragment>)
      requires WellFormed(View())
      modifies this
      ensures View() == AddAll(old(View()), deltas) && WellFormed(View())
    {
      hide WellFormed, Step;
      for k := 0 to |deltas|
        invariant View() == AddAll(old(View()), deltas[..k]) && WellFormed(View())
      {
        assert deltas[..k + 1][..k] == deltas[..k];
        StepKeepsWellFormed(View(), deltas[k]);
        AddOne(deltas[k]);
      }
      assert deltas[..|deltas|] == deltas;
    }

    /** The body of the loop: find or open the buffer, then fill it. */
    method AddOne(d: Fragment)
      modifies this
      ensures View() == Step(old(View()), d)
    {
      var idx := next;
      if d.index.Some? {
        idx := d.index.value;
      } else if d.id == "" && d.name == "" {
        if |order| > 0 {
          idx := order[|order| - 1];
        }
      }
      var buf := Buf("", "", "");
      if idx in byIdx {
        buf := byIdx[idx];
      } else {
        order := order + [idx];
        if idx >= next {
          next := idx + 1;
        }
      }
      if d.id != "" {
        buf := buf.(id := d.id);
      }
      if d.name != "" {
        buf := buf.(name := d.name);
      }
      assert buf.arguments + "" == buf.arguments;
      if d.arguments != "" {
        buf := buf.(arguments := buf.arguments + d.arguments);
      }
      byIdx := byIdx[idx := buf];
    }

    method Finalize(uuid: int -> string) returns (calls: seq<ToolCall>)
      requires WellFormed(View())
      ensures calls == Finished(View(), uuid, |order|)
    {
      calls := [];
      for k := 0 to |order|
        invariant calls == Finished(View(), uuid, k)
      {
        var buf := byIdx[order[k]];
        if buf.name != "" {
          var id := buf.id;
          if id == "" {
            id := "call_" + uuid(order[k]);
          }
          calls := calls + [ToolCall(id, buf.name, buf.arguments)];
        }
      }
    }
  }

  lemma StepKeepsWellFormed(a: Acc, d: Fragment)
    requires WellFormed(a)
    ensures WellFormed(Step(a, d))
  {
    var idx := IndexFor(a, d);
    if idx !in a.byIdx {
      assert idx !in a.order;
      forall i ensures i in a.order + [idx] <==> i in a.order || i == idx {}
    }
  }

  /** A new call without an index never collides with one already open, indexed or not. */
  lemma UnindexedCallIsNew(a: Acc, d: Fragment)
    requires WellFormed(a) && d.index.None? && (d.id != "" || d.name != "")
    ensures IndexFor(a, d) !in a.byIdx
    ensures Step(a, d).order == a.order + [a.next] && Step(a, d).byIdx == a.byIdx[a.next := Merge(Buf("", "", ""), d)]
  {
    assert a.next !in a.order;
  }

  // ---- Reassembly undoes fragmentation ----

  datatype Call = Call(index: int, id: string, name: string, arguments: string)

  function Concat(ps: seq<Fragment>): string {
    if ps == [] then "" else Concat(ps[..|ps| - 1]) + ps[|ps| - 1].arguments
  }

  /** The pieces of one call: id and name on the first, arguments spread over all. */
  predicate IsFragmentation(ps: seq<Fragment>, id: string, name: string, arguments: string) {
    && ps != [] && ps[0].id == id && ps[0].name == name
    && (forall k | 0 < k < |ps| :: ps[k].id == "" && ps[k].name == "")
    && Concat(ps) == arguments
  }

  function Folded(ps: seq<Fragment>): Buf {
    if ps == [] then Buf("", "", "") else Merge(Folded(ps[..|ps| - 1]), ps[|ps| - 1])
  }

  lemma {:induction false} FragmentationFolds(ps: seq<Fragment>, id: string, name: string, arguments: string)
    requires IsFragmentation(ps, id, name, arguments)
    ensures Folded(ps) == Buf(id, name, arguments)
  {
    var init := ps[..|ps| - 1];
    if init == [] {
      assert Folded(init) == Buf("", "", "") && Concat(init) == "" && ps[|ps| - 1] == ps[0];
      assert "" + ps[0].arguments == ps[0].arguments;
    } else {
      FragmentationFolds(init, id, name, Concat(init));
    }
  }

  /** The fragments of one index, in order. */
  function OfIndex(fs: seq<Fragment>, i: int): seq<Fragment> {
    if fs == [] then []
    else
      var before := OfIndex(fs[..|fs| - 1], i);
      if fs[|fs| - 1].index == Some(i) then before + [fs[|fs| - 1]] else before
  }

  /** Indices by first appearance. */
  function FirstSeen(fs: seq<Fragment>): seq<int>
    requires forall f | f in fs :: f.index.Some?
  {
    if fs == [] then []
    else
      var before := FirstSeen(fs[..|fs| - 1]);
      var i := fs[|fs| - 1].index.value;
      if i in before then before else before + [i]
  }

  /** What an indexed stream leaves behind: first-appearance order, and for each index the
      fold of its own fragments, however the streams were interleaved. */
  lemma {:induction false} IndexedStream(fs: seq<Fragment>)
    requires forall f | f in fs :: f.index.Some?
    ensures var a := AddAll(EMPTY, fs);
            && WellFormed(a) && a.order == FirstSeen(fs)
            && (forall i :: i in a.byIdx <==> OfIndex(fs, i) != [])
            && (forall i | i in a.byIdx :: a.byIdx[i] == Folded(OfIndex(fs, i)))
  {
    if fs != [] {
      var init, f := fs[..|fs| - 1], fs[|fs| - 1];
      IndexedStream(init);
      var before, a := AddAll(EMPTY, init), AddAll(EMPTY, fs);
      StepKeepsWellFormed(before, f);
      hide WellFormed, OfIndex, Folded;
      forall i ensures i in a.byIdx <==> OfIndex(fs, i) != [] {
        FoldedStep(fs, i);
      }
      forall i | i in a.byIdx ensures a.byIdx[i] == Folded(OfIndex(fs, i)) {
        FoldedStep(fs, i);
      }
    }
  }

  /** The last fragment of a stream joins the fold of its own index and no other. */
  lemma FoldedStep(fs: seq<Fragment>, i: int)
    requires fs != []
    ensures var before, f := OfIndex(fs[..|fs| - 1], i), fs[|fs| - 1];
            if f.index == Some(i) then
              OfIndex(fs, i) != [] && Folded(OfIndex(fs, i)) == Merge(if before == [] then Buf("", "", "") else Folded(before), f)
            else OfIndex(fs, i) == before
  {
    var own := OfIndex(fs[..|fs| - 1], i);
    if fs[|fs| - 1].index == Some(i) {
      assert OfIndex(fs, i)[..|own|] == own;
    }
  }

  predicate DistinctIndices(calls: seq<Call>) {
    forall i, j | 0 <= i < j < |calls| :: calls[i].index != calls[j].index
  }

  /** Any order-preserving interleaving of fragmentations of the calls, and nothing else. */
  predicate Interleaves(fs: seq<Fragment>, calls: seq<Call>) {
    && (forall f | f in fs :: f.index.Some? && exists k :: 0 <= k < |calls| && f.index.value == calls[k].index)
    && (forall k | 0 <= k < |calls| ::
          calls[k].name != "" && IsFragmentation(OfIndex(fs, calls[k].index), calls[k].id, calls[k].name, calls[k].arguments))
  }

  lemma {:induction false} OfIndexFinds(fs: seq<Fragment>, i: int)
    ensures OfIndex(fs, i) != [] ==> exists f :: f in fs && f.index == Some(i)
  {
    if fs != [] && OfIndex(fs, i) != [] && fs[|fs| - 1].index != Some(i) {
      OfIndexFinds(fs[..|fs| - 1], i);
      var f :| f in fs[..|fs| - 1] && f.index == Some(i);
      assert f in fs;
    }
  }

  lemma {:induction false} FinishedAll(a: Acc, uuid: int -> string, n: nat)
    requires n <= |a.order| && forall i | i in a.order :: i in a.byIdx && a.byIdx[i].name != ""
    ensures |Finished(a, uuid, n)| == n
    ensures forall k | 0 <= k < n :: Finished(a, uuid, n)[k] == Named(a.byIdx[a.order[k]], uuid(a.order[k]))
  {
    if n > 0 {
      hide Named;
      FinishedAll(a, uuid, n - 1);
      var idx := a.order[n - 1];
      assert idx in a.order;
      assert Finished(a, uuid, n) == Finished(a, uuid, n - 1) + [Named(a.byIdx[idx], uuid(idx))];
      hide Finished;
    }
  }

  /** Reassembly undoes fragmentation: the calls come back whole, each exactly once, in the
      order of their first fragments. */
  lemma ReassemblyIsExact(fs: seq<Fragment>, calls: seq<Call>, uuid: int -> string)
    requires DistinctIndices(calls) && Interleaves(fs, calls)
    ensures var a := AddAll(EMPTY, fs);
            && WellFormed(a) && a.order == FirstSeen(fs)
            && (forall i :: i in a.order <==> exists k :: 0 <= k < |calls| && calls[k].index == i)
            && |Finished(a, uuid, |a.order|)| == |a.order|
            && (forall n, k | 0 <= n < |a.order| && 0 <= k < |calls| && calls[k].index == a.order[n] ::
                  Finished(a, uuid, |a.order|)[n]
                  == Named(Buf(calls[k].id, calls[k].name, calls[k].arguments), uuid(calls[k].index)))
  {
    IndexedStream(fs);
    var a := AddAll(EMPTY, fs);
    forall k | 0 <= k < |calls|
      ensures calls[k].index in a.byIdx
      ensures a.byIdx[calls[k].index] == Buf(calls[k].id, calls[k].name, calls[k].arguments)
    {
      FragmentationFolds(OfIndex(fs, calls[k].index), calls[k].id, calls[k].name, calls[k].arguments);
    }
    forall i | i in a.order ensures exists k :: 0 <= k < |calls| && calls[k].index == i {
      OfIndexFinds(fs, i);
    }
    FinishedAll(a, uuid, |a.order|);
  }

  // ---- Streams without indices ----

  /** The pieces of one call without an index: they open one buffer and fill only that. */
  lemma {:induction false} UnindexedPieces(a: Acc, ps: seq<Fragment>, id: string, name: string, arguments: string)
    requires WellFormed(a) && name != "" && IsFragmentation(ps, id, name, arguments)
    requires forall p | p in ps :: p.index.None?
    ensures AddAll(a, ps) == Acc(a.order + [a.next], a.byIdx[a.next := Buf(id, name, arguments)], a.next + 1)
    ensures WellFormed(AddAll(a, ps))
  {
    hide WellFormed;
    var init, p := ps[..|ps| - 1], ps[|ps| - 1];
    if init == [] {
      UnindexedCallIsNew(a, p);
      assert Concat(init) == "";
      assert AddAll(a, init) == a;
      assert "" + p.arguments == p.arguments;
      StepKeepsWellFormed(a, p);
    } else {
      UnindexedPieces(a, init, id, name, Concat(init));
      BareContinuation(AddAll(a, init), p);
      StepKeepsWellFormed(AddAll(a, init), p);
    }
  }

  /** A fragment with neither index, id nor name goes on with the latest call. */
  lemma BareContinuation(a: Acc, p: Fragment)
    requires WellFormed(a) && a.order != [] && p.index.None? && p.id == "" && p.name == ""
    ensures var last := a.order[|a.order| - 1];
            && last in a.byIdx
            && Step(a, p) == a.(byIdx := a.byIdx[last := a.byIdx[last].(arguments := a.byIdx[last].arguments + p.arguments)])
  {
    assert a.order[|a.order| - 1] in a.order;
  }

  function Flatten(pieces: seq<seq<Fragment>>): seq<Fragment> {
    if pieces == [] then [] else Flatten(pieces[..|pieces| - 1]) + pieces[|pieces| - 1]
  }

  lemma {:induction false} AddAllSplits(a: Acc, xs: seq<Fragment>, ys: seq<Fragment>)
    ensures AddAll(a, xs + ys) == AddAll(AddAll(a, xs), ys)
  {
    hide *;
    if ys == [] {
      AddAllNone(AddAll(a, xs));
      assert xs + ys == xs;
    } else {
      var init, y := ys[..|ys| - 1], ys[|ys| - 1];
      AddAllSplits(a, xs, init);
      AddAllStep(a, xs + init, y);
      AddAllStep(AddAll(a, xs), init, y);
      assert xs + ys == (xs + init) + [y] && ys == init + [y];
    }
  }

  lemma AddAllNone(a: Acc)
    ensures AddAll(a, []) == a
  {
  }

  lemma AddAllStep(a: Acc, ds: seq<Fragment>, d: Fragment)
    ensures AddAll(a, ds + [d]) == Step(AddAll(a, ds), d)
  {
    hide Step;
    assert (ds + [d])[..|ds|] == ds;
  }

  /** Each call's pieces, without an index. */
  predicate Sequential(pieces: seq<seq<Fragment>>, calls: seq<Call>) {
    && |pieces| == |calls|
    && forall k | 0 <= k < |calls| ::
         calls[k].name != "" && IsFragmentation(pieces[k], calls[k].id, calls[k].name, calls[k].arguments)
         && forall p | p in pieces[k] :: p.index.None?
  }

  lemma {:induction false} SequentialBuffers(pieces: seq<seq<Fragment>>, calls: seq<Call>)
    requires Sequential(pieces, calls)
    ensures var a := AddAll(EMPTY, Flatten(pieces));
            && WellFormed(a) && |a.order| == |calls| && a.next == |calls|
            && (forall k | 0 <= k < |calls| :: a.order[k] == k && k in a.byIdx
                                               && a.byIdx[k] == Buf(calls[k].id, calls[k].name, calls[k].arguments))
  {
    hide WellFormed, Step;
    if calls != [] {
      var n := |calls| - 1;
      SequentialBuffers(pieces[..n], calls[..n]);
      var before := AddAll(EMPTY, Flatten(pieces[..n]));
      UnindexedPieces(before, pieces[n], calls[n].id, calls[n].name, calls[n].arguments);
      AddAllSplits(EMPTY, Flatten(pieces[..n]), pieces[n]);
    } else {
      StartsWellFormed();
    }
  }

  lemma StartsWellFormed()
    ensures WellFormed(EMPTY)
  {
  }

  /** Calls streamed one after the other without any index come back whole and in order. */
  lemma SequentialReassembly(pieces: seq<seq<Fragment>>, calls: seq<Call>, uuid: int -> string)
    requires Sequential(pieces, calls)
    ensures var a := AddAll(EMPTY, Flatten(pieces));
            && WellFormed(a) && |a.order| == |calls|
            && |Finished(a, uuid, |calls|)| == |calls|
            && (forall k | 0 <= k < |calls| ::
                  Finished(a, uuid, |calls|)[k] == Named(Buf(calls[k].id, calls[k].name, calls[k].arguments), uuid(k)))
  {
    hide AddAll, Flatten;
    SequentialBuffers(pieces, calls);
    FinishedAll(AddAll(EMPTY, Flatten(pieces)), uuid, |calls|);
  }
}
