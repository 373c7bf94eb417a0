/** An in-memory store standing in for the flag server's storage backend: the
    collaborator the server delegates every flag and variant operation to. */
module MemStore {
  import opened Flipt
  import opened Storage

  datatype StoreError = NotFound(key: string) | AlreadyExists(key: string)

  /** The `(value, error)` pair a store call returns. */
  datatype Result<T> = Ok(value: T) | Err(error: StoreError)

  /** No two flags share a key. */
  ghost predicate DistinctKeys(fs: seq<Flag>)
  {
    forall i, j :: 0 <= i < j < |fs| ==> fs[i].key != fs[j].key
  }

  /** The position of the first flag with `key`, or -1 when there is none. */
  function IndexOfKey(fs: seq<Flag>, key: string): (i: int)
    ensures -1 <= i < |fs|
    ensures 0 <= i ==> fs[i].key == key && forall j :: 0 <= j < i ==> fs[j].key != key
    ensures i == -1 <==> forall j :: 0 <= j < |fs| ==> fs[j].key != key
    decreases |fs|
  {
    if fs == [] then -1
    else if fs[0].key == key then 0
    else
      var k := IndexOfKey(fs[1..], key);
      if k < 0 then -1 else k + 1
  }

  /** The flags with any key but `key`, in their original order. */
  function WithoutKey(fs: seq<Flag>, key: string): (r: seq<Flag>)
    ensures forall f :: f in r <==> f in fs && f.key != key
    ensures DistinctKeys(fs) ==> DistinctKeys(r)
    decreases |fs|
  {
    if fs == [] then []
    else if fs[0].key == key then WithoutKey(fs[1..], key)
    else
      var rest := WithoutKey(fs[1..], key);
      assert DistinctKeys(fs) ==> forall f :: f in rest ==> f.key != fs[0].key by {
        if DistinctKeys(fs) {
          forall f | f in rest ensures f.key != fs[0].key {
            var j :| 0 <= j < |fs[1..]| && fs[1..][j] == f;
            assert fs[j + 1] == f;
          }
        }
      }
      [fs[0]] + rest
  }

  /** Removing a key no flag holds changes nothing. */
  lemma {:induction false} WithoutKeyAbsent(fs: seq<Flag>, key: string)
    requires forall j :: 0 <= j < |fs| ==> fs[j].key != key
    ensures WithoutKey(fs, key) == fs
    decreases |fs|
  {
    if fs != [] {
      var tail := fs[1..];
      forall j | 0 <= j < |tail| ensures tail[j].key != key {
        assert tail[j] == fs[j + 1];
      }
      WithoutKeyAbsent(tail, key);
      assert [fs[0]] + tail == fs;
    }
  }

  /** Putting the head back in front of the tail with one element cut out. */
  lemma ConsCut<T>(s: seq<T>, i: nat)
    requires 0 < i < |s|
    ensures [s[0]] + (s[1..][..i - 1] + s[1..][i..]) == s[..i] + s[i + 1..]
  {
    assert s[1..][..i - 1] == s[1..i] && s[1..][i..] == s[i + 1..];
    assert [s[0]] + s[1..i] == s[..i];
  }

  /** Removing a key that only the flag at `i` holds cuts that flag out of the
      sequence: the flags before and after it keep their order. With distinct keys
      this is every flag holding the key. */
  lemma {:induction false} WithoutKeyCutsOut(fs: seq<Flag>, key: string, i: nat)
    requires i < |fs| && fs[i].key == key
    requires forall j :: 0 <= j < |fs| && j != i ==> fs[j].key != key
    ensures WithoutKey(fs, key) == fs[..i] + fs[i + 1..]
    decreases i
  {
    var tail := fs[1..];
    forall j | 0 <= j < |tail| && j != i - 1 ensures tail[j].key != key {
      assert tail[j] == fs[j + 1];
    }
    if i == 0 {
      WithoutKeyAbsent(tail, key);
      assert fs[..0] + tail == tail;
    } else {
      assert fs[0].key != key;
      assert WithoutKey(fs, key) == [fs[0]] + WithoutKey(tail, key);
      WithoutKeyCutsOut(tail, key, i - 1);
      ConsCut(fs, i);
    }
  }

  function Min(a: int, b: int): (m: int)
    ensures m <= a && m <= b && (m == a || m == b)
  {
    if a <= b then a else b
  }

  /** At most `p.limit` elements of `s`, starting at position `p.offset`. */
  function Page<T>(s: seq<T>, p: QueryParams): (r: seq<T>)
    ensures |r| <= p.limit as int
    ensures |r| == if |s| <= p.offset as int then 0 else Min(p.limit as int, |s| - p.offset as int)
    ensures forall i :: 0 <= i < |r| ==> r[i] == s[p.offset as int + i]
  {
    var lo := Min(p.offset as int, |s|);
    s[lo..Min(lo + p.limit as int, |s|)]
  }

  /** The decimal digits of `n`, the form in which the store hands out variant ids. */
  function DecimalString(n: nat): (s: string)
    ensures 1 <= |s|
    ensures 10 <= n ==> 2 <= |s|
    ensures forall i :: 0 <= i < |s| ==> '0' <= s[i] <= '9'
  {
    if n < 10 then [Digit(n)] else DecimalString(n / 10) + [Digit(n % 10)]
  }

  function Digit(d: nat): (c: char)
    requires d < 10
    ensures '0' <= c <= '9'
  {
    (('0' as int) + d) as char
  }

  /** Different numbers have different decimal strings, so the ids never collide. */
  lemma {:induction false} DecimalStringInjective(a: nat, b: nat)
    requires DecimalString(a) == DecimalString(b)
    ensures a == b
    decreases a
  {
    var s := DecimalString(a);
    assert s[|s| - 1] == Digit(a % 10) == Digit(b % 10);
    if 10 <= a {
      assert 10 <= b;
      assert DecimalString(a / 10) == s[..|s| - 1] == DecimalString(b / 10);
      DecimalStringInjective(a / 10, b / 10);
    } else {
      assert b < 10;
    }
  }

  class Store {
    /** Flags in insertion order, which is also the order a list returns them in. */
    var flags: seq<Flag>
    /** Variants by id. */
    var variants: map<string, Variant>
    /** The number the next variant id is made from. */
    var nextVariantId: nat
    /** The options the most recent list call received, as a test double records its
        arguments so that a test can check them. */
    var lastListOptions: seq<QueryOption>

    ghost predicate Valid()
      reads this
    {
      && DistinctKeys(flags)
      && 1 <= nextVariantId
      && (forall id :: id in variants ==> variants[id].id == id)
      && (forall k: nat :: nextVariantId <= k ==> DecimalString(k) !in variants)
    }

    constructor ()
      ensures Valid()
      ensures flags == [] && variants == map[] && nextVariantId == 1 && lastListOptions == []
    {
      flags, variants, nextVariantId, lastListOptions := [], map[], 1, [];
    }

    function GetFlag(key: string): (r: Result<Flag>)
      reads this
      ensures r.Ok? <==> exists f :: f in flags && f.key == key
      ensures r.Ok? ==> r.value in flags && r.value.key == key
      ensures r.Err? ==> r.error == NotFound(key)
    {
      var i := IndexOfKey(flags, key);
      if i < 0 then Err(NotFound(key)) else Ok(flags[i])
    }

    /** The page the options select; a list never fails for being empty. */
    method ListFlags(opts: seq<QueryOption>) returns (r: Result<seq<Flag>>)
      modifies this`lastListOptions
      ensures r == Ok(Page(flags, ApplyAll(ZeroParams, opts)))
      ensures lastListOptions == opts
    {
      lastListOptions := opts;
      var params := ApplyOptions(opts);
      r := Ok(Page(flags, params));
    }

    /** The total a list can page through: every page with a positive limit is
        empty exactly when it starts at or past this count. */
    function CountFlags(): (n: nat)
      reads this
      ensures forall p: QueryParams :: 1 <= p.limit ==> (Page(flags, p) == [] <==> n <= p.offset as int)
    {
      |flags|
    }

    method CreateFlag(req: CreateFlagRequest) returns (r: Result<Flag>)
      requires Valid()
      modifies this`flags
      ensures Valid()
      ensures r.Ok? <==> forall f :: f in old(flags) ==> f.key != req.key
      ensures r.Ok? ==> r.value == Flag(req.key, req.name, req.description, req.enabled)
      ensures r.Ok? ==> flags == old(flags) + [r.value]
      ensures r.Err? ==> r.error == AlreadyExists(req.key) && flags == old(flags)
      ensures variants == old(variants) && nextVariantId == old(nextVariantId)
    {
      if IndexOfKey(flags, req.key) >= 0 {
        r := Err(AlreadyExists(req.key));
      } else {
        var f := Flag(req.key, req.name, req.description, req.enabled);
        flags := flags + [f];
        r := Ok(f);
      }
    }

    method UpdateFlag(req: UpdateFlagRequest) returns (r: Result<Flag>)
      requires Valid()
      modifies this`flags
      ensures Valid()
      ensures r.Ok? <==> exists f :: f in old(flags) && f.key == req.key
      ensures r.Ok? ==> r.value == Flag(req.key, req.name, req.description, req.enabled)
      ensures |flags| == |old(flags)|
      ensures forall i :: 0 <= i < |flags| ==>
                flags[i] == if old(flags)[i].key == req.key then r.value else old(flags)[i]
      ensures r.Err? ==> r.error == NotFound(req.key) && flags == old(flags)
      ensures variants == old(variants) && nextVariantId == old(nextVariantId)
    {
      var i := IndexOfKey(flags, req.key);
      if i < 0 {
        r := Err(NotFound(req.key));
      } else {
        var f := Flag(req.key, req.name, req.description, req.enabled);
        flags := flags[i := f];
        r := Ok(f);
      }
    }

    /** Deleting is idempotent: a key that is not there is not an error. */
    method DeleteFlag(req: DeleteFlagRequest) returns (r: Result<Empty>)
      requires Valid()
      modifies this`flags
      ensures Valid()
      ensures r == Ok(Empty)
      ensures flags == WithoutKey(old(flags), req.key)
      ensures variants == old(variants) && nextVariantId == old(nextVariantId)
    {
      flags := WithoutKey(flags, req.key);
      r := Ok(Empty);
    }

    method CreateVariant(req: CreateVariantRequest) returns (r: Result<Variant>)
      requires Valid()
      modifies this`variants, this`nextVariantId
      ensures Valid()
      ensures r.Ok?
      ensures r.value == Variant(DecimalString(old(nextVariantId)), req.flagKey, req.key,
                                 req.name, req.description, req.attachment)
      ensures r.value.id !in old(variants)
      ensures variants == old(variants)[r.value.id := r.value]
      ensures nextVariantId == old(nextVariantId) + 1 && flags == old(flags)
    {
      var id := DecimalString(nextVariantId);
      var v := Variant(id, req.flagKey, req.key, req.name, req.description, req.attachment);
      forall k: nat | nextVariantId + 1 <= k ensures DecimalString(k) != id {
        if DecimalString(k) == id {
          DecimalStringInjective(k, nextVariantId);
        }
      }
      variants := variants[id := v];
      nextVariantId := nextVariantId + 1;
      r := Ok(v);
    }

    method UpdateVariant(req: UpdateVariantRequest) returns (r: Result<Variant>)
      requires Valid()
      modifies this`variants
      ensures Valid()
      ensures r.Ok? <==> req.id in old(variants)
      ensures r.Ok? ==> r.value == Variant(req.id, req.flagKey, req.key, req.name,
                                           req.description, req.attachment)
      ensures r.Ok? ==> variants == old(variants)[req.id := r.value]
      ensures r.Err? ==> r.error == NotFound(req.id) && variants == old(variants)
      ensures nextVariantId == old(nextVariantId) && flags == old(flags)
    {
      if req.id !in variants {
        r := Err(NotFound(req.id));
      } else {
        var v := Variant(req.id, req.flagKey, req.key, req.name, req.description, req.attachment);
        variants := variants[req.id := v];
        r := Ok(v);
      }
    }

    /** Deleting is idempotent: an id that is not there is not an error. */
    method DeleteVariant(req: DeleteVariantRequest) returns (r: Result<Empty>)
      requires Valid()
      modifies this`variants
      ensures Valid()
      ensures r == Ok(Empty)
      ensures variants == old(variants) - {req.id}
      ensures nextVariantId == old(nextVariantId) && flags == old(flags)
    {
      variants := variants - {req.id};
      r := Ok(Empty);
    }
  }
}
