/** The resolution protocol of a node: how a transformation's raw return
    value becomes the Bag the node emits (`isflag`, `split_tokens`, `_resolve`). */
module Resolution {
  import opened Structs

  /** `isflag`: only NOT_MODIFIED is a flag token; BEGIN and END are not. */
  predicate IsFlag(v: Value)
    ensures IsFlag(v) ==> v.TokenV?
    ensures v.TokenV? ==> (IsFlag(v) <==> v.token == NotModified)
  {
    v == TokenV(NotModified)
  }

  /** The tuple holds an element that is not a flag, so the prefix scan stops inside it. */
  predicate HasData(items: seq<Value>) {
    exists k :: 0 <= k < |items| && !IsFlag(items[k])
  }

  /** `split_tokens` is defined on everything except a tuple made only of flags
      (the empty tuple included): there its unbounded scan indexes past the end. */
  predicate Splittable(o: Value) {
    o.TupleV? ==> HasData(o.items)
  }

  /** The index at which the scan `while isflag(output[i])` stops: the length
      of the maximal leading run of flags. */
  function LeadingFlags(items: seq<Value>): (n: nat)
    requires HasData(items)
    ensures n < |items| && !IsFlag(items[n])
    ensures forall j :: 0 <= j < n ==> IsFlag(items[j])
  {
    if !IsFlag(items[0]) then 0
    else
      assert HasData(items[1..]) by {
        var k :| 0 <= k < |items| && !IsFlag(items[k]);
        assert k != 0 && items[1..][k - 1] == items[k];
      }
      1 + LeadingFlags(items[1..])
  }

  /** `split_tokens`: a token is all control and no data; a non-tuple is all data;
      a tuple splits after its maximal leading run of flags. */
  function SplitTokens(o: Value): (r: (seq<Value>, seq<Value>))
    requires Splittable(o)
    ensures o.TokenV? ==> r == ([o], [])
    ensures !o.TokenV? && !o.TupleV? ==> r == ([], [o])
    ensures o.TupleV? ==> r.0 + r.1 == o.items
    ensures o.TupleV? ==> forall v <- r.0 :: IsFlag(v)
    ensures o.TupleV? ==> r.1 != [] && !IsFlag(r.1[0])
  {
    match o
    case TokenV(_) => ([o], [])
    case TupleV(items) =>
      var n := LeadingFlags(items);
      assert items[..n] + items[n..] == items;
      (items[..n], items[n..])
    case _ => ([], [o])
  }

  /** `_resolve` hands back the input bag itself: the output is not a Bag and
      its token prefix is exactly one NOT_MODIFIED. */
  predicate PassThrough(o: Value)
    requires Splittable(o)
  {
    !o.BagV? && SplitTokens(o).0 == [TokenV(NotModified)]
  }

  /** `_resolve`: the Bag a node emits for `output`, given the bag it consumed. */
  function Resolve(inputBag: Bag, o: Value): (r: Bag)
    requires Splittable(o)
    ensures o.BagV? ==> r == o.bag
    ensures o == TokenV(NotModified) ==> r == inputBag
    ensures o.TokenV? && o != TokenV(NotModified) ==> r == Bag([], false, false)
    ensures o.RawV? ==> r == Bag([o], false, false)
    ensures o.TupleV? ==>
      r == if PassThrough(o) then inputBag else Bag(o.items[LeadingFlags(o.items)..], false, false)
  {
    if o.BagV? then o.bag
    else
      var (tokens, data) := SplitTokens(o);
      if |tokens| == 1 && tokens[0] == TokenV(NotModified) then inputBag
      else NewBag(TupleV(data))
  }

  /** The split is unique: any cut of a tuple into a run of flags followed by
      a remainder that starts with a non-flag is the one `split_tokens` makes. */
  lemma SplitTokensUnique(items: seq<Value>, p: seq<Value>, q: seq<Value>)
    requires p + q == items
    requires forall v <- p :: IsFlag(v)
    requires q != [] && !IsFlag(q[0])
    ensures HasData(items)
    ensures SplitTokens(TupleV(items)) == (p, q)
  {
    assert items[|p|] == q[0];
    assert forall j :: 0 <= j < |p| ==> items[j] == p[j];
    var n := LeadingFlags(items);
    assert n == |p|;
    assert p == items[..n] && q == items[n..];
  }

  /** Pass-through holds exactly for the bare NOT_MODIFIED token and for tuples
      whose first element is NOT_MODIFIED and whose second is not a flag,
      whatever data follows. */
  lemma PassThroughShapes(o: Value)
    requires Splittable(o)
    ensures PassThrough(o) <==>
      o == TokenV(NotModified) ||
      (o.TupleV? && |o.items| >= 2 && IsFlag(o.items[0]) && !IsFlag(o.items[1]))
  {
  }

  /** `_resolve` returns its input bag, whatever that bag is, exactly when the
      output passes through; otherwise the result does not depend on the input bag. */
  lemma ResolveIdentityIff(o: Value)
    requires Splittable(o)
    ensures PassThrough(o) <==> forall b :: Resolve(b, o) == b
    ensures !PassThrough(o) ==> forall b, c :: Resolve(b, o) == Resolve(c, o)
  {
    if !PassThrough(o) {
      var b0 := Bag([], false, false);
      var b1 := Bag([], true, false);
      assert Resolve(b0, o) == Resolve(b1, o);
      assert Resolve(b0, o) != b0 || Resolve(b1, o) != b1;
    }
  }

  /** Trailing data after a single NOT_MODIFIED is ignored, even if it holds tokens. */
  lemma ResolveIgnoresTrailingData(b: Bag, x: Value, rest: seq<Value>)
    requires !IsFlag(x)
    ensures Splittable(TupleV([TokenV(NotModified), x] + rest))
    ensures Resolve(b, TupleV([TokenV(NotModified), x] + rest)) == b
  {
    var o := TupleV([TokenV(NotModified), x] + rest);
    assert o.items[1] == x;
    PassThroughShapes(o);
  }

  /** Two leading NOT_MODIFIED flags are not a pass-through: the data after
      them is wrapped into a new bag. */
  lemma ResolveDoubleFlagWraps(b: Bag, x: Value, rest: seq<Value>)
    requires !IsFlag(x)
    ensures Splittable(TupleV([TokenV(NotModified), TokenV(NotModified), x] + rest))
    ensures Resolve(b, TupleV([TokenV(NotModified), TokenV(NotModified), x] + rest))
         == Bag([x] + rest, false, false)
  {
    var items := [TokenV(NotModified), TokenV(NotModified), x] + rest;
    SplitTokensUnique(items, items[..2], items[2..]);
    assert items[2..] == [x] + rest;
  }

  // The scan bounded by the tuple's length, so that a tuple whose only element
  // is NOT_MODIFIED passes the input bag through instead of overrunning.

  /** The maximal leading run of flags, stopping at the end of the tuple. */
  function LeadingFlagsBounded(items: seq<Value>): (n: nat)
    ensures n <= |items|
    ensures forall j :: 0 <= j < n ==> IsFlag(items[j])
    ensures n < |items| ==> !IsFlag(items[n])
  {
    if items == [] || !IsFlag(items[0]) then 0 else 1 + LeadingFlagsBounded(items[1..])
  }

  /** `split_tokens` with a bounded scan: defined on every output. */
  function SplitTokensBounded(o: Value): (r: (seq<Value>, seq<Value>))
    ensures o.TupleV? ==> r.0 + r.1 == o.items && forall v <- r.0 :: IsFlag(v)
    ensures o.TupleV? && r.1 != [] ==> !IsFlag(r.1[0])
  {
    match o
    case TokenV(_) => ([o], [])
    case TupleV(items) =>
      var n := LeadingFlagsBounded(items);
      assert items[..n] + items[n..] == items;
      (items[..n], items[n..])
    case _ => ([], [o])
  }

  /** `_resolve` over the bounded scan. */
  function ResolveBounded(inputBag: Bag, o: Value): Bag {
    if o.BagV? then o.bag
    else
      var (tokens, data) := SplitTokensBounded(o);
      if |tokens| == 1 && tokens[0] == TokenV(NotModified) then inputBag
      else NewBag(TupleV(data))
  }

  /** As written, a tuple of flags alone is outside `split_tokens`' domain:
      `(NOT_MODIFIED,)` and `()` both make the scan index past the end. */
  lemma SoleFlagTupleOverruns()
    ensures !Splittable(TupleV([TokenV(NotModified)]))
    ensures !Splittable(TupleV([]))
  {
  }

  /** The corrected resolution agrees with the original wherever the original is defined. */
  lemma ResolveBoundedAgrees(b: Bag, o: Value)
    requires Splittable(o)
    ensures ResolveBounded(b, o) == Resolve(b, o)
  {
  }

  /** The evidently intended behaviour on flag-only tuples: `(NOT_MODIFIED,)`
      passes the input bag through; `()` and two or more flags give an empty bag. */
  lemma ResolveBoundedAllFlags(b: Bag, items: seq<Value>)
    requires forall v <- items :: IsFlag(v)
    ensures ResolveBounded(b, TupleV(items)) == if |items| == 1 then b else Bag([], false, false)
  {
  }
}
