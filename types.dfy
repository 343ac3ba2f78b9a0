/**
 * The record shapes of types.ts.
 */
module Types {
  import opened Wrappers

  /** `FortuneResult.category`: '수리' | '오행' | '음양' | '종합'. */
  datatype Category = Suri | Ohaeng | Eumyang | Jonghap

  /** `FortuneResult.status`: 'good' | 'bad' | 'neutral'. */
  datatype Status = Good | Bad | Neutral

  /** One entry of the fortune report; `tags` is optional in the interface. */
  datatype FortuneResult = FortuneResult(
    category: Category,
    title: string,
    name: string,
    description: string,
    status: Status,
    tags: Option<seq<string>>)

  /** A selectable Hanja: the glyph `h`, its Korean reading `k` and its stroke count `s`. */
  datatype HanjaItem = HanjaItem(h: string, k: string, s: int)
}
