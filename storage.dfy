/** Query parameters and the options that build them, as the storage layer defines them. */
module Storage {

  /** Go's `uint64`: the width of the storage layer's Offset and Limit. */
  newtype uint64 = x: int | 0 <= x < 0x1_0000_0000_0000_0000

  datatype QueryParams = QueryParams(offset: uint64, limit: uint64)

  /** The zero value a list call starts from before any option is applied. */
  const ZeroParams := QueryParams(0, 0)

  /** A mutator on a QueryParams value, written as a tag and its argument. */
  datatype QueryOption = WithOffset(offset: uint64) | WithLimit(limit: uint64)

  /** The effect of one option on the parameters it is applied to. */
  function Apply(p: QueryParams, o: QueryOption): (q: QueryParams)
  {
    match o
    case WithOffset(n) => p.(offset := n)
    case WithLimit(n) => p.(limit := n)
  }

  /** Options applied left to right, starting from `p`. */
  function ApplyAll(p: QueryParams, opts: seq<QueryOption>): (q: QueryParams)
    decreases |opts|
  {
    if opts == [] then p else ApplyAll(Apply(p, opts[0]), opts[1..])
  }

  /** Reference definition: the argument of the last offset option, or `d` when there is none. */
  function LastOffset(opts: seq<QueryOption>, d: uint64): (n: uint64)
    decreases |opts|
  {
    if opts == [] then d
    else match opts[|opts| - 1]
      case WithOffset(n) => n
      case WithLimit(_) => LastOffset(opts[..|opts| - 1], d)
  }

  /** Reference definition: the argument of the last limit option, or `d` when there is none. */
  function LastLimit(opts: seq<QueryOption>, d: uint64): (n: uint64)
    decreases |opts|
  {
    if opts == [] then d
    else match opts[|opts| - 1]
      case WithLimit(n) => n
      case WithOffset(_) => LastLimit(opts[..|opts| - 1], d)
  }

  /** Applying a concatenation is applying its parts one after the other. */
  lemma {:induction false} ApplyAllConcat(p: QueryParams, xs: seq<QueryOption>, ys: seq<QueryOption>)
    ensures ApplyAll(p, xs + ys) == ApplyAll(ApplyAll(p, xs), ys)
    decreases |xs|
  {
    if xs == [] {
      assert xs + ys == ys;
    } else {
      assert (xs + ys)[1..] == xs[1..] + ys;
      ApplyAllConcat(Apply(p, xs[0]), xs[1..], ys);
    }
  }

  /** Each field ends up with the value of the last option that sets it: options on
      different fields never interfere, and among options on one field the last wins. */
  lemma {:induction false} ApplyAllLastWins(p: QueryParams, opts: seq<QueryOption>)
    ensures ApplyAll(p, opts) == QueryParams(LastOffset(opts, p.offset), LastLimit(opts, p.limit))
    decreases |opts|
  {
    if opts != [] {
      var init, last := opts[..|opts| - 1], opts[|opts| - 1];
      assert opts == init + [last];
      ApplyAllConcat(p, init, [last]);
      ApplyAllLastWins(p, init);
    }
  }

  /** An offset option and a limit option give the same parameters in either order. */
  lemma DisjointOptionsCommute(p: QueryParams, offset: uint64, limit: uint64)
    ensures ApplyAll(p, [WithOffset(offset), WithLimit(limit)])
         == ApplyAll(p, [WithLimit(limit), WithOffset(offset)])
         == QueryParams(offset, limit)
  {
    ApplyAllLastWins(p, [WithOffset(offset), WithLimit(limit)]);
    ApplyAllLastWins(p, [WithLimit(limit), WithOffset(offset)]);
    assert [WithOffset(offset), WithLimit(limit)][..1] == [WithOffset(offset)];
    assert [WithLimit(limit), WithOffset(offset)][..1] == [WithLimit(limit)];
  }

  /** Builds the parameters a list call sees: a zero-valued QueryParams that every
      option, in order, mutates in place. */
  method ApplyOptions(opts: seq<QueryOption>) returns (params: QueryParams)
    ensures params == ApplyAll(ZeroParams, opts)
    ensures params == QueryParams(LastOffset(opts, 0), LastLimit(opts, 0))
  {
    params := ZeroParams;
    for i := 0 to |opts|
      invariant ApplyAll(params, opts[i..]) == ApplyAll(ZeroParams, opts)
    {
      match opts[i] {
        case WithOffset(n) => params := params.(offset := n);
        case WithLimit(n) => params := params.(limit := n);
      }
    }
    assert opts[|opts|..] == [];
    ApplyAllLastWins(ZeroParams, opts);
  }
}
