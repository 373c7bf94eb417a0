/** Plain record fields of the flipt RPC messages that the flag server handles.
    Only the fields the server passes through are kept; attachments are opaque. */
module Flipt {

  /** Go's `int32`: the width of the raw Offset and Limit fields of a list request. */
  newtype int32 = x: int | -0x8000_0000 <= x < 0x8000_0000

  datatype Flag = Flag(key: string, name: string, description: string, enabled: bool)

  /** A variant belongs to the flag named by `flagKey`; `id` is assigned by the store. */
  datatype Variant = Variant(
    id: string,
    flagKey: string,
    key: string,
    name: string,
    description: string,
    attachment: string)

  datatype GetFlagRequest = GetFlagRequest(key: string)

  /** Offset and Limit are untrusted: any `int32` may arrive. */
  datatype ListFlagRequest = ListFlagRequest(offset: int32, limit: int32)

  /** A page of flags. */
  datatype FlagList = FlagList(flags: seq<Flag>)

  datatype CreateFlagRequest = CreateFlagRequest(key: string, name: string, description: string, enabled: bool)

  datatype UpdateFlagRequest = UpdateFlagRequest(key: string, name: string, description: string, enabled: bool)

  datatype DeleteFlagRequest = DeleteFlagRequest(key: string)

  datatype CreateVariantRequest = CreateVariantRequest(
    flagKey: string,
    key: string,
    name: string,
    description: string,
    attachment: string)

  datatype UpdateVariantRequest = UpdateVariantRequest(
    id: string,
    flagKey: string,
    key: string,
    name: string,
    description: string,
    attachment: string)

  datatype DeleteVariantRequest = DeleteVariantRequest(id: string)

  /** The empty acknowledgement a successful delete returns. */
  datatype Empty = Empty
}
