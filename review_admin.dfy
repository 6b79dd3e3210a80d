/** The admin list column that shortens a review's text (admin.py,
    ReviewAdmin.get_short_text). Python strings are sequences of code points,
    so `len` and the slice `[:60]` count characters. */
module ReviewAdmin {

  const Limit: nat := 60
  const Ellipsis: string := "..."

  function Min(a: nat, b: nat): nat { if a <= b then a else b }

  /** Text of at most 60 characters is shown unchanged, 60 included; longer text
      is cut to its first 60 characters and marked with "...". */
  function ShortText(text: string): (r: string)
    ensures |text| <= Limit ==> r == text
    ensures |text| > Limit ==> |r| == Limit + |Ellipsis| && r[..Limit] == text[..Limit] && r[Limit..] == Ellipsis
  {
    if |text| > Limit then text[..Limit] + Ellipsis else text
  }

  /** Whatever the input, the column starts with the first min(60, len) characters
      of the text and is never longer than 63 characters. It equals the text when
      the text fits in 60 characters, and otherwise only when the text is already
      a shortened one: 63 characters whose last three are "...". */
  lemma ShortTextBounds(text: string)
    ensures Min(Limit, |text|) <= |ShortText(text)| <= Limit + |Ellipsis|
    ensures ShortText(text)[..Min(Limit, |text|)] == text[..Min(Limit, |text|)]
    ensures ShortText(text) == text <==>
              |text| <= Limit || (|text| == Limit + |Ellipsis| && text[Limit..] == Ellipsis)
  {
  }

  /** Shortening is idempotent: a shortened text is shortened to itself again. */
  lemma ShortTextIdempotent(text: string)
    ensures ShortText(ShortText(text)) == ShortText(text)
  {
  }
}
