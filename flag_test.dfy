/** The flag server's test scenarios, each restated as a method whose result the
    verifier checks for every run rather than for one. */
module FlagTest {
  import opened Flipt
  import opened Storage
  import opened MemStore
  import opened FlagServer

  /** The matcher a list call's options are checked with: apply them, in order, to a
      zero-valued QueryParams and compare with what the case expects. */
  method MatchesExpected(opts: seq<QueryOption>, expected: QueryParams) returns (ok: bool)
    ensures ok <==> ApplyAll(ZeroParams, opts) == expected
  {
    var params := ApplyOptions(opts);
    ok := params == expected;
  }

  datatype PaginationCase = PaginationCase(name: string, offset: int32, limit: int32, expected: QueryParams)

  const PaginationTable: seq<PaginationCase> := [
    PaginationCase("default/no pagination", 0, 0, QueryParams(0, 20)),
    PaginationCase("negative offset", -1, 0, QueryParams(0, 20)),
    PaginationCase("negative limit", 0, -1, QueryParams(0, 20)),
    PaginationCase("zero limit", 0, 0, QueryParams(0, 20)),
    PaginationCase("max limit", 0, 100, QueryParams(0, 50))
  ]

  /** Every row of the table: the options the server builds fold to the expected parameters. */
  lemma PaginationTableHolds()
    ensures forall tt :: tt in PaginationTable ==>
              ApplyAll(ZeroParams, PaginationOptions(tt.offset, tt.limit)) == tt.expected
  {
  }

  /** The extreme `int32` inputs are normalised too. */
  lemma NormalizeExtremes()
    ensures Normalize(-0x8000_0000, -0x8000_0000) == QueryParams(0, 20)
    ensures Normalize(0x7FFF_FFFF, 0x7FFF_FFFF) == QueryParams(0x7FFF_FFFF, 50)
  {
  }

  /** A store holding the flags with the given keys, in order. */
  method StoreWithFlags(keys: seq<string>) returns (store: Store)
    requires forall i, j :: 0 <= i < j < |keys| ==> keys[i] != keys[j]
    ensures fresh(store) && store.Valid()
    ensures |store.flags| == |keys|
    ensures forall i :: 0 <= i < |keys| ==> store.flags[i] == Flag(keys[i], "", "", false)
  {
    store := new Store();
    for n := 0 to |keys|
      invariant fresh(store) && store.Valid()
      invariant |store.flags| == n
      invariant forall i :: 0 <= i < n ==> store.flags[i] == Flag(keys[i], "", "", false)
    {
      var created := store.CreateFlag(CreateFlagRequest(keys[n], "", "", false));
    }
  }

  method TestGetFlag() returns (got: Result<Flag>)
    ensures got == Ok(Flag("foo", "", "", true))
  {
    var store := new Store();
    var created := store.CreateFlag(CreateFlagRequest("foo", "", "", true));
    var s := new Server(store);
    got := s.GetFlag(GetFlagRequest("foo"));
  }

  method TestListFlags() returns (got: Result<FlagList>)
    ensures got.Ok? && got.value.flags != []
  {
    var store := StoreWithFlags(["foo"]);
    var s := new Server(store);
    got := s.ListFlags(ListFlagRequest(0, 0));
  }

  /** One row of the pagination table against a store holding three flags; the
      matcher checks the options the store's list call actually received. */
  method TestListFlagsPagination(tt: PaginationCase) returns (matched: bool, got: Result<FlagList>)
    requires tt in PaginationTable
    ensures matched
    ensures got.Ok? && got.value.flags != []
  {
    var store := StoreWithFlags(["foo", "bar", "baz"]);
    var s := new Server(store);
    got := s.ListFlags(ListFlagRequest(tt.offset, tt.limit));
    matched := MatchesExpected(store.lastListOptions, tt.expected);
  }

  method TestCreateFlag() returns (got: Result<Flag>)
    ensures got == Ok(Flag("key", "name", "desc", true))
  {
    var store := new Store();
    var s := new Server(store);
    got := s.CreateFlag(CreateFlagRequest("key", "name", "desc", true));
  }

  method TestUpdateFlag() returns (got: Result<Flag>)
    ensures got == Ok(Flag("key", "name", "desc", true))
  {
    var store := StoreWithFlags(["key"]);
    var s := new Server(store);
    assert store.flags[0] in store.flags;
    got := s.UpdateFlag(UpdateFlagRequest("key", "name", "desc", true));
  }

  method TestDeleteFlag() returns (got: Result<Empty>)
    ensures got == Ok(Empty)
  {
    var store := StoreWithFlags(["key"]);
    var s := new Server(store);
    got := s.DeleteFlag(DeleteFlagRequest("key"));
  }

  method TestCreateVariant() returns (got: Result<Variant>)
    ensures got == Ok(Variant("1", "flagKey", "key", "name", "desc", ""))
  {
    var store := new Store();
    var s := new Server(store);
    got := s.CreateVariant(CreateVariantRequest("flagKey", "key", "name", "desc", ""));
  }

  method TestUpdateVariant() returns (got: Result<Variant>)
    ensures got == Ok(Variant("1", "flagKey", "key", "name", "desc", ""))
  {
    var store := new Store();
    var s := new Server(store);
    var created := s.CreateVariant(CreateVariantRequest("flagKey", "", "", "", ""));
    got := s.UpdateVariant(UpdateVariantRequest("1", "flagKey", "key", "name", "desc", ""));
  }

  method TestDeleteVariant() returns (got: Result<Empty>)
    ensures got == Ok(Empty)
  {
    var store := new Store();
    var s := new Server(store);
    var created := s.CreateVariant(CreateVariantRequest("flagKey", "key", "name", "desc", ""));
    got := s.DeleteVariant(DeleteVariantRequest("1"));
  }
}
