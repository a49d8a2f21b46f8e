/**
 * Normalisation of the pagination block of every list response
 * (src/app/data-access/schemas/shared.ts).
 */
module Pagination {
  import opened Wrappers

  /** The `info` block as the API sends it: every field is a number or `null`. */
  datatype RawInfo = RawInfo(count: Option<int>, pages: Option<int>, next: Option<int>, prev: Option<int>)

  /** The `info` block after validation: `null` has become 0 (`next == 0` means "no further page"). */
  datatype Info = Info(count: int, pages: int, next: int, prev: int)

  /** The `nullableNumber` schema: a number or `null`, transformed by `v ?? 0`. */
  function NullableNumber(v: Option<int>): (r: int)
    ensures v == None ==> r == 0
    ensures v != None ==> r == v.value
  {
    match v
    case None => 0
    case Some(n) => n
  }

  /** `paginationInfoSchema`: each of the four fields goes through `nullableNumber` on its own. */
  function NormalizeInfo(raw: RawInfo): (info: Info)
    ensures info.count == NullableNumber(raw.count)
    ensures info.pages == NullableNumber(raw.pages)
    ensures info.next == NullableNumber(raw.next)
    ensures info.prev == NullableNumber(raw.prev)
  {
    Info(NullableNumber(raw.count), NullableNumber(raw.pages), NullableNumber(raw.next), NullableNumber(raw.prev))
  }

  /** A normalised block seen again as a raw one, with every field present. */
  function AsRaw(info: Info): RawInfo
  {
    RawInfo(Some(info.count), Some(info.pages), Some(info.next), Some(info.prev))
  }

  /** Normalisation loses nothing when no field is `null`, and turns every `null` into 0. */
  lemma NormalizeExact(raw: RawInfo)
    ensures raw.count.Some? && raw.pages.Some? && raw.next.Some? && raw.prev.Some?
            ==> AsRaw(NormalizeInfo(raw)) == raw
    ensures raw == RawInfo(None, None, None, None) ==> NormalizeInfo(raw) == Info(0, 0, 0, 0)
  {
  }

  /** Normalising a block that has already been normalised changes nothing. */
  lemma NormalizeIdempotent(raw: RawInfo)
    ensures NormalizeInfo(AsRaw(NormalizeInfo(raw))) == NormalizeInfo(raw)
  {
  }

  /** Each field is normalised independently: changing one raw field changes only that field. */
  lemma FieldsIndependent(raw: RawInfo, pages: Option<int>)
    ensures var a, b := NormalizeInfo(raw), NormalizeInfo(raw.(pages := pages));
            a.count == b.count && a.next == b.next && a.prev == b.prev && b.pages == NullableNumber(pages)
  {
  }
}
