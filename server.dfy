/** The flag server: list pagination normalisation and the request facade that
    passes every flag and variant call through to its store. */
module FlagServer {
  import opened Flipt
  import opened Storage
  import opened MemStore

  /** The page size used when a request asks for none (or for a non-positive one). */
  const DefaultLimit: uint64 := 20
  /** The largest page size a request can obtain. */
  const MaxLimit: uint64 := 50

  /** The bounds every parameter value handed to the store respects. */
  predicate ValidParams(p: QueryParams)
  {
    1 <= p.limit <= MaxLimit && p.offset as int < 0x8000_0000
  }

  /** The request's raw offset and limit turned into safe query parameters: a negative
      offset reads as 0, a non-positive limit as DefaultLimit, a larger one than
      MaxLimit as MaxLimit. Total over every `int32` pair. */
  function Normalize(offset: int32, limit: int32): (p: QueryParams)
    ensures ValidParams(p)
  {
    QueryParams(
      if offset < 0 then 0 else offset as uint64,
      if limit <= 0 then DefaultLimit
      else if limit as int > MaxLimit as int then MaxLimit
      else limit as uint64)
  }

  /** The options the server hands to the store's list call. */
  function PaginationOptions(offset: int32, limit: int32): (opts: seq<QueryOption>)
    ensures |opts| == 2
    ensures ApplyAll(ZeroParams, opts) == Normalize(offset, limit)
  {
    var p := Normalize(offset, limit);
    DisjointOptionsCommute(ZeroParams, p.offset, p.limit);
    [WithOffset(p.offset), WithLimit(p.limit)]
  }

  /** The rule, field by field, for every `int32` input. */
  lemma NormalizePolicy(offset: int32, limit: int32)
    ensures offset < 0 ==> Normalize(offset, limit).offset == 0
    ensures 0 <= offset ==> Normalize(offset, limit).offset as int == offset as int
    ensures limit <= 0 ==> Normalize(offset, limit).limit == DefaultLimit
    ensures 50 < limit ==> Normalize(offset, limit).limit == MaxLimit
    ensures 1 <= limit <= 50 ==> Normalize(offset, limit).limit as int == limit as int
    ensures Normalize(offset, limit).offset == Normalize(offset, 0).offset
    ensures Normalize(offset, limit).limit == Normalize(0, limit).limit
  {
  }

  /** The raw values reach the store unchanged exactly when they are already in
      bounds: an out-of-range offset or limit never leaks into a store call. */
  lemma NormalizeKeepsOnlyValidInput(offset: int32, limit: int32)
    ensures Normalize(offset, limit).offset as int == offset as int
            && Normalize(offset, limit).limit as int == limit as int
        <==> 0 <= offset && 1 <= limit <= 50
  {
  }

  /** Normalising normalised parameters changes nothing. */
  lemma NormalizeIdempotent(offset: int32, limit: int32)
    ensures var p := Normalize(offset, limit);
            Normalize(p.offset as int32, p.limit as int32) == p
  {
  }

  /** Larger requested limits never give smaller normalised limits, once positive. */
  lemma NormalizeLimitMonotone(offset: int32, a: int32, b: int32)
    requires 1 <= a <= b
    ensures Normalize(offset, a).limit <= Normalize(offset, b).limit
  {
  }

  /** The facade. It holds the store it was built with and nothing else. */
  class Server {
    const store: Store

    constructor (store: Store)
      ensures this.store == store
    {
      this.store := store;
    }

    /** The flag the store holds under the requested key, or the store's error. */
    function GetFlag(req: GetFlagRequest): (r: Result<Flag>)
      reads store
      ensures r.Ok? <==> exists f :: f in store.flags && f.key == req.key
      ensures r.Ok? ==> r.value in store.flags && r.value.key == req.key
      ensures r.Err? ==> r.error == NotFound(req.key)
    {
      store.GetFlag(req.key)
    }

    /** One page of the store's flags, chosen by the normalised pagination of the
        request. The options the store's list
        call receives fold to the normalised params: no raw value reaches it. */
    method ListFlags(req: ListFlagRequest) returns (r: Result<FlagList>)
      modifies store`lastListOptions
      ensures ApplyAll(ZeroParams, store.lastListOptions) == Normalize(req.offset, req.limit)
      ensures r.Ok?
      ensures r.value.flags == Page(store.flags, Normalize(req.offset, req.limit))
      ensures |r.value.flags| <= MaxLimit as int
      ensures r.value.flags != [] <==> Normalize(req.offset, req.limit).offset as int < |store.flags|
    {
      var opts := PaginationOptions(req.offset, req.limit);
      var page := store.ListFlags(opts);
      match page {
        case Err(e) => r := Err(e);
        case Ok(flags) => r := Ok(FlagList(flags));
      }
    }

    method CreateFlag(req: CreateFlagRequest) returns (r: Result<Flag>)
      requires store.Valid()
      modifies store`flags
      ensures store.Valid()
      ensures r.Ok? <==> forall f :: f in old(store.flags) ==> f.key != req.key
      ensures r.Ok? ==> r.value == Flag(req.key, req.name, req.description, req.enabled)
      ensures r.Ok? ==> store.flags == old(store.flags) + [r.value]
      ensures r.Err? ==> r.error == AlreadyExists(req.key) && store.flags == old(store.flags)
      ensures store.variants == old(store.variants) && store.nextVariantId == old(store.nextVariantId)
    {
      r := store.CreateFlag(req);
    }

    method UpdateFlag(req: UpdateFlagRequest) returns (r: Result<Flag>)
      requires store.Valid()
      modifies store`flags
      ensures store.Valid()
      ensures r.Ok? <==> exists f :: f in old(store.flags) && f.key == req.key
      ensures r.Ok? ==> r.value == Flag(req.key, req.name, req.description, req.enabled)
      ensures |store.flags| == |old(store.flags)|
      ensures forall i :: 0 <= i < |store.flags| ==>
                store.flags[i] == if old(store.flags)[i].key == req.key then r.value else old(store.flags)[i]
      ensures r.Err? ==> r.error == NotFound(req.key)
      ensures store.variants == old(store.variants) && store.nextVariantId == old(store.nextVariantId)
    {
      r := store.UpdateFlag(req);
    }

    method DeleteFlag(req: DeleteFlagRequest) returns (r: Result<Empty>)
      requires store.Valid()
      modifies store`flags
      ensures store.Valid()
      ensures r == Ok(Empty)
      ensures store.flags == WithoutKey(old(store.flags), req.key)
      ensures GetFlag(GetFlagRequest(req.key)) == Err(NotFound(req.key))
      ensures store.variants == old(store.variants) && store.nextVariantId == old(store.nextVariantId)
    {
      r := store.DeleteFlag(req);
    }

    method CreateVariant(req: CreateVariantRequest) returns (r: Result<Variant>)
      requires store.Valid()
      modifies store`variants, store`nextVariantId
      ensures store.Valid()
      ensures r.Ok?
      ensures r.value.flagKey == req.flagKey && r.value.key == req.key && r.value.name == req.name
      ensures r.value.description == req.description && r.value.attachment == req.attachment
      ensures r.value.id == DecimalString(old(store.nextVariantId)) && r.value.id !in old(store.variants)
      ensures store.variants == old(store.variants)[r.value.id := r.value]
      ensures store.nextVariantId == old(store.nextVariantId) + 1
      ensures store.flags == old(store.flags)
    {
      r := store.CreateVariant(req);
    }

    method UpdateVariant(req: UpdateVariantRequest) returns (r: Result<Variant>)
      requires store.Valid()
      modifies store`variants
      ensures store.Valid()
      ensures r.Ok? <==> req.id in old(store.variants)
      ensures r.Ok? ==> r.value == Variant(req.id, req.flagKey, req.key, req.name,
                                           req.description, req.attachment)
      ensures r.Ok? ==> store.variants == old(store.variants)[req.id := r.value]
      ensures r.Err? ==> r.error == NotFound(req.id) && store.variants == old(store.variants)
      ensures store.flags == old(store.flags) && store.nextVariantId == old(store.nextVariantId)
    {
      r := store.UpdateVariant(req);
    }

    method DeleteVariant(req: DeleteVariantRequest) returns (r: Result<Empty>)
      requires store.Valid()
      modifies store`variants
      ensures store.Valid()
      ensures r == Ok(Empty)
      ensures store.variants == old(store.variants) - {req.id}
      ensures store.flags == old(store.flags) && store.nextVariantId == old(store.nextVariantId)
    {
      r := store.DeleteVariant(req);
    }
  }
}
