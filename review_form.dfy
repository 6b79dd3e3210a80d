/** Client-side validation of the review text (reviews.js, validateForm).
    The text is the raw value of the input field: a JavaScript string, that is a
    sequence of UTF-16 code units, measured by `.length` without any trimming. */
module ReviewForm {

  /** One UTF-16 code unit, the element of a JavaScript string. */
  newtype CodeUnit = x: int | 0 <= x < 0x1_0000

  type JsString = seq<CodeUnit>

  const MinLength: nat := 10
  const MaxLength: nat := 1000

  /** What the validator concludes about the current input. */
  datatype Verdict = Accepted | TooShort | TooLong

  const TooShortMessage: string := "Пожалуйста, введите отзыв (минимум 10 символов)"
  const TooLongMessage: string := "Отзыв слишком длинный (максимум 1000 символов)"

  /** The verdict of the if/else chain of validateForm: the empty text and every
      text under 10 code units is too short (white space counts), every text over
      1000 code units is too long, and only the range 10..1000 is accepted. */
  function Check(text: JsString): (v: Verdict)
    ensures v == TooShort <==> |text| < MinLength
    ensures v == TooLong <==> |text| > MaxLength
    ensures v == Accepted <==> MinLength <= |text| <= MaxLength
  {
    if text == [] || |text| < MinLength then TooShort
    else if |text| > MaxLength then TooLong
    else Accepted
  }

  /** The message validateForm shows for a rejected text. */
  function RejectionMessage(v: Verdict): (m: string)
    requires v != Accepted
    ensures v == TooShort ==> m == TooShortMessage
    ensures v == TooLong ==> m == TooLongMessage
  {
    if v == TooShort then TooShortMessage else TooLongMessage
  }

  /** Validation looks at the length alone: two inputs of the same length get the
      same verdict whatever they contain, so ten spaces pass exactly as ten
      letters do. */
  lemma VerdictDependsOnLengthOnly(a: JsString, b: JsString)
    requires |a| == |b|
    ensures Check(a) == Check(b)
  {
  }
}
