/**
 * The street selection that both passes iterate over: every way of the
 * document that has a `name` tag, in document order, paired with the value
 * of its first `name` tag as read before any mutation.
 */
module Streets {
  import opened Wrappers
  import opened Tags

  /** A selected street: the position of its way in the document and its original name. */
  datatype Street = Street(index: nat, original: string)

  /** A way is selected when it has a `name` tag. */
  predicate Named(w: Way)
  {
    HasKey(w, Name)
  }

  /** Positions of the named ways among the first `n` ways of the document. */
  function NamedIndices(doc: seq<Way>, n: nat): set<nat>
    requires n <= |doc|
  {
    set j: nat | j < n && Named(doc[j])
  }

  /** The streets list names valid positions, each with the name its way reads back. */
  predicate Describes(doc: seq<Way>, items: seq<Street>)
  {
    forall k :: 0 <= k < |items| ==>
      items[k].index < |doc| && Lookup(doc[items[k].index], Name) == Some(items[k].original)
  }

  /** Every street of the list points into a document of `n` ways. */
  predicate InBounds(items: seq<Street>, n: nat)
  {
    forall m :: 0 <= m < |items| ==> items[m].index < n
  }

  /** Positions strictly increase along the list, so no way is listed twice. */
  predicate Increasing(items: seq<Street>)
  {
    forall k1, k2 :: 0 <= k1 < k2 < |items| ==> items[k1].index < items[k2].index
  }

  /** Every named way among the first `n` ways is listed. */
  predicate Complete(doc: seq<Way>, n: nat, items: seq<Street>)
    requires n <= |doc|
  {
    forall j :: 0 <= j < n && Named(doc[j]) ==> exists k :: 0 <= k < |items| && items[k].index == j
  }

  /**
   * The streets among the first `n` ways of the document: exactly the named
   * ones, in document order, each once, with its current name
   * (add_kyrgyz_names.py:125-128).
   */
  function StreetsUpTo(doc: seq<Way>, n: nat): (r: seq<Street>)
    requires n <= |doc|
    ensures Describes(doc, r) && Increasing(r)
    ensures forall k :: 0 <= k < |r| ==> r[k].index < n
    ensures Complete(doc, n, r)
    ensures |r| == |NamedIndices(doc, n)|
  {
    if n == 0 then
      assert NamedIndices(doc, n) == {};
      []
    else
      var prev := StreetsUpTo(doc, n - 1);
      if Named(doc[n - 1]) then
        var r := prev + [Street(n - 1, Lookup(doc[n - 1], Name).value)];
        ExtendSelection(doc, n, prev, r);
        NamedIndicesStep(doc, n);
        r
      else
        NamedIndicesStep(doc, n);
        assert Complete(doc, n, prev) by {
          assert forall j :: 0 <= j < n - 1 && Named(doc[j]) ==>
            exists k :: 0 <= k < |prev| && prev[k].index == j;
        }
        prev
  }

  /** Appending the named way at position `n - 1` extends a selection of `n - 1` ways to `n`. */
  lemma ExtendSelection(doc: seq<Way>, n: nat, prev: seq<Street>, r: seq<Street>)
    requires 0 < n <= |doc| && Named(doc[n - 1])
    requires Describes(doc, prev) && Increasing(prev)
    requires forall k :: 0 <= k < |prev| ==> prev[k].index < n - 1
    requires Complete(doc, n - 1, prev)
    requires r == prev + [Street(n - 1, Lookup(doc[n - 1], Name).value)]
    ensures Describes(doc, r) && Increasing(r)
    ensures forall k :: 0 <= k < |r| ==> r[k].index < n
    ensures Complete(doc, n, r)
  {
    ExtendOrder(doc, n, prev, r);
    ExtendComplete(doc, n, prev, r[|prev|], r);
  }

  /** The appended street reads back its name and comes after every earlier one. */
  lemma ExtendOrder(doc: seq<Way>, n: nat, prev: seq<Street>, r: seq<Street>)
    requires 0 < n <= |doc| && Named(doc[n - 1])
    requires Describes(doc, prev) && Increasing(prev)
    requires forall k :: 0 <= k < |prev| ==> prev[k].index < n - 1
    requires r == prev + [Street(n - 1, Lookup(doc[n - 1], Name).value)]
    ensures Describes(doc, r) && Increasing(r)
    ensures forall k :: 0 <= k < |r| ==> r[k].index < n
  {
    assert forall k :: 0 <= k < |prev| ==> r[k] == prev[k];
  }

  /** Every named way among the first `n` is listed once the way at `n - 1` is appended. */
  lemma ExtendComplete(doc: seq<Way>, n: nat, prev: seq<Street>, st: Street, r: seq<Street>)
    requires 0 < n <= |doc|
    requires Complete(doc, n - 1, prev)
    requires st.index == n - 1 && r == prev + [st]
    ensures Complete(doc, n, r)
  {
    forall j | 0 <= j < n && Named(doc[j])
      ensures exists k :: 0 <= k < |r| && r[k].index == j
    {
      if j == n - 1 {
        assert r[|prev|].index == j;
      } else {
        var k :| 0 <= k < |prev| && prev[k].index == j;
        assert r[k].index == j;
      }
    }
  }

  /** One more way adds its position to the named positions exactly when it is named. */
  lemma NamedIndicesStep(doc: seq<Way>, n: nat)
    requires 0 < n <= |doc|
    ensures Named(doc[n - 1]) ==> |NamedIndices(doc, n)| == |NamedIndices(doc, n - 1)| + 1
    ensures !Named(doc[n - 1]) ==> NamedIndices(doc, n) == NamedIndices(doc, n - 1)
  {
    var a := NamedIndices(doc, n - 1);
    var b := NamedIndices(doc, n);
    if Named(doc[n - 1]) {
      assert b == a + {n - 1};
      assert n - 1 !in a;
    } else {
      assert b == a;
    }
  }

  /** The streets of the whole document. */
  function StreetsOf(doc: seq<Way>): seq<Street>
  {
    StreetsUpTo(doc, |doc|)
  }
}
