# Review widget and admin text column, modelled in Dafny

This project models the client side of the film-review page of the `myapp`
Django application and one helper of its admin site:

- the review widget in `myapp/static/myapp/js/reviews.js`: the length check on
  the review text, the inline error slot, sending a review and adding the card
  the server returns, deleting a card after confirmation, and the date shown on
  each card (`DD.MM.YYYY HH:MM`);
- `ReviewAdmin.get_short_text` in `myapp/admin.py`, the column that cuts a
  review's text to 60 characters for the admin list.

Files:

- `review_form.dfy` — module `ReviewForm`: the review text as a sequence of
  UTF-16 code units, the three verdicts of `validateForm` and their messages.
- `date_format.dfy` — module `DateFormat`: `String(n)`, `padStart` and
  `formatDate` over the fields a `Date` reports, with a parser that reads the
  formatted text back. The round trip is proved, so the format is unambiguous.
- `review_widget.dfy` — module `ReviewWidget`. The visible state is a `Page`:
  the cards in document order, the "Пока нет отзывов" placeholder, the input's
  value and the error slot. Sending, submitting, adding a card and deleting
  are step functions from one page to the next. The class `Widget` keeps the
  same state in fields that its methods update in place. `AddReviewToList`, `SendForm`, `ValidateForm` and
  `DeleteReview` are each proved to leave exactly the page their step function
  gives; `ActivateReviewError` and `DeactivateReviewError` have no step function
  and state the error slot they leave directly.
- `review_admin.dfy` — module `ReviewAdmin`: `ShortText` and its properties.

The model follows the script as written; in particular:

- The text is not trimmed. Both the length check and the posted `review_text`
  use the input's value as typed, and the "too long" bound is `> 1000` on that
  same untrimmed length.
- A refused send always shows the constant "Ошибка при отправке отзыва". The
  server's `errors` field is never read.
- The script does not disable the send button or show a pending state.
  Nothing guards against a second submission while one is in flight.
- A send whose request fails outright, or whose ok response is not JSON, only
  reaches the console. The error slot stays as validation left it (hidden).

Network replies, the answer to `confirm`, and the page's `currentUsername`,
`isSuperuser` and title are inputs to the model. `SendOutcome` and
`DeleteOutcome` stand for the replies. `Config` stands for the page facts.

## Model

| member | source | states |
|---|---|---|
| `ReviewForm.Check` | myapp/static/myapp/js/reviews.js:70-86 | A text is too short exactly when it has fewer than 10 code units (the empty text included, white space counted). It is too long exactly when it has more than 1000. It is accepted exactly when its length is 10..1000, with both ends included. |
| `ReviewForm.RejectionMessage` | myapp/static/myapp/js/reviews.js:73-78 | A too-short text gets the "минимум 10 символов" message and a too-long text gets the "максимум 1000 символов" message. |
| `ReviewForm.VerdictDependsOnLengthOnly` | myapp/static/myapp/js/reviews.js:73-76 | Two texts of equal length get the same verdict whatever their content. No trimming or other normalisation takes place. |
| `DateFormat.NatToString` | myapp/static/myapp/js/reviews.js:183-187 | `String(n)` of a non-negative number is a non-empty run of decimal digits. It is one digit long exactly when n < 10, and it starts with '0' exactly when n is 0, so there are no leading zeros. |
| `DateFormat.IntToString` | myapp/static/myapp/js/reviews.js:185-189 | `String(year)` is non-empty and starts with '-' exactly when the year is negative. The digits after the sign are a non-empty run that starts with '0' only for the year 0, so the year is shown unpadded. |
| `DateFormat.Pad2` | myapp/static/myapp/js/reviews.js:183-187 | `String(n).padStart(2, "0")` puts one '0' before a single digit and leaves two or more digits unchanged. |
| `DateFormat.FormatDate` | myapp/static/myapp/js/reviews.js:181-190 | For the fields of a valid Date the text is 12 characters plus the unpadded year, with '.' at positions 2 and 5, ' ' before the time and ':' between hours and minutes. |
| `DateFormat.PadStart` | myapp/static/myapp/js/reviews.js:183-187 | `padStart(width, "0")` ends with the original text, fills only the positions to its left, and reaches `width` unless the text is already longer. |
| `DateFormat.Pad2Parses` | myapp/static/myapp/js/reviews.js:183-187 | Every field under 100 is padded to exactly two digits, and those digits read back as the field. |
| `DateFormat.NatToStringParses` | myapp/static/myapp/js/reviews.js:183-187 | The decimal digits of `String(n)` read back as n. |
| `DateFormat.IntToStringParses` | myapp/static/myapp/js/reviews.js:185-189 | The unpadded year text reads back as the year, negative years included. |
| `DateFormat.FormatDateRoundTrip` | myapp/static/myapp/js/reviews.js:181-190 | For every valid date's fields, the `DD.MM.YYYY HH:MM` text parses back to the same day, month (0-based plus one), year, hours and minutes. So each field is in its place, two digits wide except the year, with the separators between. |
| `DateFormat.FormatDateExample` | myapp/static/myapp/js/reviews.js:181-190 | 5 March 2024 at 09:07 is shown as "05.03.2024 09:07". |
| `ReviewAdmin.ShortText` | myapp/admin.py:16-17 | Text of at most 60 characters, exactly 60 included, is returned unchanged. Longer text becomes 63 characters: its first 60 followed by "...". |
| `ReviewAdmin.ShortTextBounds` | myapp/admin.py:17 | The result always starts with the first min(60, len) characters of the text and is at most 63 long. It equals the text exactly when the text has at most 60 characters or is already 60 characters plus "...". |
| `ReviewAdmin.ShortTextIdempotent` | myapp/admin.py:17 | Shortening an already shortened text changes nothing. |
| `ReviewWidget.CanDelete` | myapp/static/myapp/js/reviews.js:134 | A superuser may delete every review. Any other viewer may delete exactly the reviews whose username is their own. |
| `ReviewWidget.CardOf` | myapp/static/myapp/js/reviews.js:126-153 | The card built from a review carries its id, username as author, text, creation date and sentiment. It has a delete button iff the review is the viewer's own or the viewer is a superuser. |
| `ReviewWidget.ShownDateReadsBack` | myapp/static/myapp/js/reviews.js:142 | The date text a card shows reads back as exactly the card's creation fields, for every valid Date. |
| `ReviewWidget.InsertCard` | myapp/static/myapp/js/reviews.js:155-161 | Inserting after the title puts the card first, before all older cards in their order. Without a title it is appended last. Either way exactly one card is added and the rest are kept. |
| `ReviewWidget.IndexOf` | myapp/static/myapp/js/reviews.js:30-31 | Finds the first card in document order with the given id. There is none exactly when no card has that id. |
| `ReviewWidget.AddReview` | myapp/static/myapp/js/reviews.js:120-168 | The placeholder is removed and one card goes right after the title, or at the end when there is no title. The card shows the review's id, author (its username), text, date and sentiment. It has a delete button iff the review's username is the current user's or the viewer is a superuser. All other cards stay in order, and input and error are untouched. |
| `ReviewWidget.AfterSend` | myapp/static/myapp/js/reviews.js:88-118 | A created review puts its card right after the title, or last when there is no title, keeps all older cards in their order (so exactly one card is added), empties the input and resets the error slot to hidden "Пусто". A non-ok response shows "Ошибка при отправке отзыва" and leaves list, placeholder and input unchanged. A lost response changes nothing. |
| `ReviewWidget.AfterSubmit` | myapp/static/myapp/js/reviews.js:70-86 | A rejected text shows its rejection message and changes nothing else. An accepted text hides the error and is then sent. The list or the input can change only when the text was accepted (length 10..1000) and the review was created. |
| `ReviewWidget.AfterDelete` | myapp/static/myapp/js/reviews.js:10-50 | A declined confirmation or a failed request changes nothing. A successful delete removes only the first card with that id and keeps the others in order; the placeholder is then present iff the list became empty (or it already was present). When no card has that id nothing happens. Input and error are never touched. |
| `ReviewWidget.StepsKeepConsistent` | myapp/static/myapp/js/reviews.js:36-42 | Sending and deleting both keep the placeholder off a non-empty list. After a successful delete of an existing card the placeholder is shown exactly when no card is left. |
| `ReviewWidget.DeleteUndoesAdd` | myapp/static/myapp/js/reviews.js:155-161 | Deleting a review right after adding it (with an id new to the list) gives back the original cards, with or without a title. The placeholder is then present exactly when the list is empty. |
| `ReviewWidget.Widget.constructor` | myapp/static/myapp/js/reviews.js:4-7 | The widget starts from the page as rendered, which must not show the placeholder over cards. |
| `ReviewWidget.Widget.ActivateReviewError` | myapp/static/myapp/js/reviews.js:60-63 | The slot becomes visible with the given message. Only the slot's two fields may change. |
| `ReviewWidget.Widget.DeactivateReviewError` | myapp/static/myapp/js/reviews.js:65-68 | The slot becomes hidden with the text "Пусто". Only the slot's two fields may change. |
| `ReviewWidget.Widget.AddReviewToList` | myapp/static/myapp/js/reviews.js:120-168 | Updates the cards and the placeholder in place to exactly `AddReview` of the previous page. |
| `ReviewWidget.Widget.SendForm` | myapp/static/myapp/js/reviews.js:88-118 | Posts the input exactly as typed. It then updates the fields in place to exactly `AfterSend` of the previous page. |
| `ReviewWidget.Widget.ValidateForm` | myapp/static/myapp/js/reviews.js:70-86 | Sends the untrimmed input iff `Check` accepts it, and sends nothing otherwise. It then leaves exactly `AfterSubmit` of the previous page. |
| `ReviewWidget.Widget.DeleteReview` | myapp/static/myapp/js/reviews.js:10-50 | Sends a request iff the deletion was confirmed. The failure alert is shown iff a sent request failed. The cards and the placeholder become exactly `AfterDelete` of the previous page. |

## Left out

- `fetch`, the `X-CSRFToken` header, `JSON.stringify`, `response.json()` and the promise chain (reviews.js:17-28, 98-108). Network I/O is replaced by the `SendOutcome` and `DeleteOutcome` parameters; how a reply is read is folded into which outcome it is.
- `confirm`, `alert` and `console` (reviews.js:13, 47-48, 90, 116). The confirmation is a boolean parameter and the alert is a boolean result of `DeleteReview`.
- Styling writes: the card's opacity, and the button's colour and label in `showSuccess` (reviews.js:32, 170-179). The 300 ms delay before a card is removed (reviews.js:33-43) is not modelled: the model goes straight to the state after the timer has run.
- Interleavings of user actions with pending requests. The script reads the input at click time: for the length check (reviews.js:73) and for the posted body (reviews.js:105). It updates the list and clears the input only when the reply arrives. The model applies the check, the send and the reply as one step, so it does not capture text typed while a request is pending, which the clearing at reviews.js:111 would discard.
- `escapeHtml` (reviews.js:192-196) depends on the browser's HTML serialisation. A card holds the author and text unescaped.
- The sentiment class and badge strings (reviews.js:126-128). A card keeps the boolean they are chosen from.
- Parsing `created_at` with `new Date` and the viewer's time zone (reviews.js:182). `formatDate` is modelled from the date's fields; an invalid date, shown as "NaN", is not modelled.
- Event wiring: the `forEach` over existing `.del-btn` buttons (reviews.js:53-55), the click listeners, and the Ctrl+Enter shortcut (reviews.js:58, 199-203).
- The DOM layout is assumed as the page renders it: the `h3` title and the cards are children of the list, and the cards come after the title. The lookup at reviews.js:30 searches the whole document for `data-review-id`, which a card and its own delete button both carry (reviews.js:132, 136). A card comes before its button in document order, so for cards added by the script the first match is the card. The model assumes the same of the cards the server renders: if a rendered card lacked the attribute, reviews.js:34 would remove only its button.
- `ReviewWidget.Widget.constructor`: the page as rendered is required not to show the placeholder over cards. The template that renders it is not part of this model.
- `train_model.py` (dataset download, model training), `myapp/models.py` (an ORM declaration; `__str__` relies on `strftime`), `myapp/views.py` and `myapp/urls.py` (routing and templates) are not part of this model.
