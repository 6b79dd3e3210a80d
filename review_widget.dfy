/** The review widget of the page (reviews.js): the list of review cards, the
    "no reviews yet" placeholder, the text input and the inline error slot, and
    the three things that change them — validating and sending the form, adding
    the card the server returned, and deleting a card.

    The page is described twice. `Page` and the step functions below say, as
    values, what the widget looks like after each operation; the class `Widget`
    holds the same state in fields and its methods update them in place; those
    with a step function are proved to leave exactly the `Page` it gives, and the
    two that only set the error slot state that slot directly. Network replies
    and the answer to the confirmation dialog are parameters. */
module ReviewWidget {
  import opened ReviewForm
  import opened DateFormat

  /** The review the server sends back after a successful POST. */
  datatype Review = Review(id: string, username: string, text: JsString,
                           created: DateFormat.DateParts, sentiment: bool)

  /** One `.review-item` card: its `data-review-id`, the author and text shown,
      the date it was created (shown as `ShownDate`), the sentiment class and
      whether it has a delete button. */
  datatype Item = Item(id: string, author: string, text: JsString,
                       created: DateFormat.DateParts, positive: bool, canDelete: bool)

  /** The `#review-error` element: whether it has the `visible` class, and its text. */
  datatype ErrorSlot = ErrorSlot(visible: bool, message: string)

  const EmptyMessage: string := "Пусто"
  const SendFailedMessage: string := "Ошибка при отправке отзыва"
  const Hidden: ErrorSlot := ErrorSlot(false, EmptyMessage)

  /** What the hosting page supplies: whether the list has an `h3` title, and the
      viewer's user name and superuser flag. */
  datatype Config = Config(title: Option<string>, currentUsername: string, isSuperuser: bool)

  /** The widget's visible state: the cards in document order, whether the
      placeholder paragraph is present, the input's value and the error slot. */
  datatype Page = Page(items: seq<Item>, placeholder: bool, input: JsString, error: ErrorSlot)

  /** How the POST of a review ends: the server's review; a response whose status
      is not ok; or no usable response at all (the request failed, or the body
      was not JSON), which only reaches the console. */
  datatype SendOutcome = Created(review: Review) | Refused | Lost

  /** How the DELETE ends: an ok response with a JSON body, or anything else
      (failed request, status not ok, body not JSON). */
  datatype DeleteOutcome = Deleted | Failed

  /** The placeholder is only ever shown over an empty list. */
  predicate Consistent(p: Page)
  {
    p.placeholder ==> p.items == []
  }

  /** Who may delete a review: a superuser any review, anyone else only their own. */
  predicate CanDelete(cfg: Config, username: string)
    ensures cfg.isSuperuser ==> CanDelete(cfg, username)
    ensures !cfg.isSuperuser ==> (CanDelete(cfg, username) <==> username == cfg.currentUsername)
  {
    username == cfg.currentUsername || cfg.isSuperuser
  }

  /** The card addReviewToList builds from the server's review. */
  function CardOf(cfg: Config, review: Review): (card: Item)
    ensures card.id == review.id && card.author == review.username && card.text == review.text
    ensures card.created == review.created && card.positive == review.sentiment
    ensures card.canDelete <==> review.username == cfg.currentUsername || cfg.isSuperuser
  {
    Item(review.id, review.username, review.text, review.created,
         review.sentiment, CanDelete(cfg, review.username))
  }

  /** The `.review-date` text of a card. */
  function ShownDate(item: Item): string
  {
    DateFormat.FormatDate(item.created)
  }

  /** A card's shown date carries its creation time in full: for the fields of a
      valid Date it reads back as exactly those fields. */
  lemma ShownDateReadsBack(item: Item)
    requires InRange(item.created)
    ensures ParseDate(ShownDate(item)) == Some(item.created)
  {
    FormatDateRoundTrip(item.created);
  }

  /** The new card goes right after the title, which puts it first among the
      cards; with no title it is appended after all of them. */
  function InsertCard(items: seq<Item>, card: Item, hasTitle: bool): (r: seq<Item>)
    ensures |r| == |items| + 1
    ensures multiset(r) == multiset(items) + multiset{card}
    ensures hasTitle ==> r[0] == card && r[1..] == items
    ensures !hasTitle ==> r[|items|] == card && r[..|items|] == items
  {
    if hasTitle then [card] + items else items + [card]
  }

  /** The position of the first card with the given id, as querySelector finds it. */
  function IndexOf(items: seq<Item>, id: string): (r: Option<nat>)
    ensures r.None? <==> forall i :: 0 <= i < |items| ==> items[i].id != id
    ensures r.Some? ==> r.value < |items| && items[r.value].id == id
    ensures r.Some? ==> forall j :: 0 <= j < r.value ==> items[j].id != id
  {
    if items == [] then None
    else if items[0].id == id then Some(0)
    else match IndexOf(items[1..], id)
      case None => None
      case Some(k) => Some(k + 1)
  }

  // ---- The operations, as steps from one page to the next ----

  /** addReviewToList: the placeholder goes, one card for the review is inserted,
      every other card keeps its relative order, and input and error stay. The
      card shows the review's id, author, text, date and sentiment, and has a
      delete button exactly when the review is the viewer's own or the viewer is
      a superuser. */
  function AddReview(cfg: Config, p: Page, review: Review): (q: Page)
    ensures !q.placeholder && q.input == p.input && q.error == p.error
    ensures var k := if cfg.title.Some? then 0 else |p.items|;
              |q.items| == |p.items| + 1 && q.items[k].id == review.id &&
              q.items[k].author == review.username && q.items[k].text == review.text &&
              q.items[k].created == review.created && q.items[k].positive == review.sentiment &&
              (q.items[k].canDelete <==> review.username == cfg.currentUsername || cfg.isSuperuser) &&
              q.items[..k] + q.items[k + 1..] == p.items
  {
    var card := CardOf(cfg, review);
    var items := InsertCard(p.items, card, cfg.title.Some?);
    var k := if cfg.title.Some? then 0 else |p.items|;
    assert items[..k] + items[k + 1..] == p.items;
    Page(items, false, p.input, p.error)
  }

  /** sendForm once the response has arrived. A created review adds exactly one
      card, empties the input and hides the error; a refused one shows the send
      error and changes nothing else; a lost one changes nothing. */
  function AfterSend(cfg: Config, p: Page, outcome: SendOutcome): (q: Page)
    ensures outcome.Created? ==>
              |q.items| == |p.items| + 1 && q.input == [] && q.error == Hidden && !q.placeholder &&
              multiset(q.items) == multiset(p.items) + multiset{CardOf(cfg, outcome.review)}
    ensures outcome.Created? ==>
              var k := if cfg.title.Some? then 0 else |p.items|;
              |q.items| == |p.items| + 1 && q.items[k] == CardOf(cfg, outcome.review) &&
              q.items[..k] + q.items[k + 1..] == p.items
    ensures outcome.Refused? ==>
              q.items == p.items && q.placeholder == p.placeholder && q.input == p.input &&
              q.error == ErrorSlot(true, SendFailedMessage)
    ensures outcome.Lost? ==> q == p
  {
    match outcome
    case Created(review) => AddReview(cfg, p, review).(input := [], error := Hidden)
    case Refused => p.(error := ErrorSlot(true, SendFailedMessage))
    case Lost => p
  }

  /** validateForm followed, for an accepted text, by sendForm. A rejected text
      shows its message and changes nothing else; only an accepted text can
      change the list or the input, and before the request goes out the error is
      hidden, so a lost request leaves it hidden. */
  function AfterSubmit(cfg: Config, p: Page, outcome: SendOutcome): (q: Page)
    ensures Check(p.input) != Accepted ==>
              q.items == p.items && q.placeholder == p.placeholder && q.input == p.input &&
              q.error == ErrorSlot(true, RejectionMessage(Check(p.input)))
    ensures Check(p.input) == Accepted ==> q == AfterSend(cfg, p.(error := Hidden), outcome)
    ensures q.items != p.items || q.input != p.input ==>
              MinLength <= |p.input| <= MaxLength && outcome.Created?
  {
    var verdict := Check(p.input);
    if verdict == Accepted then AfterSend(cfg, p.(error := Hidden), outcome)
    else p.(error := ErrorSlot(true, RejectionMessage(verdict)))
  }

  /** deleteReview once the confirmation is answered and the response has
      arrived. Declined or failed: nothing changes. Deleted: the first card with
      that id goes and no other card moves; when none is left the placeholder is
      shown; when there is no such card nothing happens at all. */
  function AfterDelete(p: Page, id: string, confirmed: bool, outcome: DeleteOutcome): (q: Page)
    ensures !confirmed || outcome == Failed ==> q == p
    ensures q.input == p.input && q.error == p.error
    ensures IndexOf(p.items, id).None? ==> q == p
    ensures confirmed && outcome == Deleted && IndexOf(p.items, id).Some? ==>
              var k := IndexOf(p.items, id).value;
              q.items == p.items[..k] + p.items[k + 1..] &&
              multiset(q.items) + multiset{p.items[k]} == multiset(p.items) &&
              (q.placeholder <==> q.items == [] || p.placeholder)
  {
    if !confirmed || outcome == Failed then p
    else match IndexOf(p.items, id)
      case None => p
      case Some(k) =>
        var rest := p.items[..k] + p.items[k + 1..];
        assert p.items == p.items[..k] + [p.items[k]] + p.items[k + 1..];
        p.(items := rest, placeholder := if rest == [] then true else p.placeholder)
  }

  // ---- Properties across operations ----

  /** Every operation keeps the placeholder off a non-empty list; after a
      successful delete of an existing card it is shown exactly when the list
      has become empty. */
  lemma StepsKeepConsistent(cfg: Config, p: Page, outcome: SendOutcome, id: string,
                            confirmed: bool, result: DeleteOutcome)
    requires Consistent(p)
    ensures Consistent(AfterSubmit(cfg, p, outcome))
    ensures Consistent(AfterDelete(p, id, confirmed, result))
    ensures confirmed && result == Deleted && IndexOf(p.items, id).Some? ==>
              (AfterDelete(p, id, confirmed, result).placeholder <==>
               AfterDelete(p, id, confirmed, result).items == [])
  {
  }

  /** Deleting a review right after adding it restores the list: the card of a
      review whose id is new to the list is the first one with that id, wherever
      the title put it. The placeholder is then shown exactly when the list is
      empty again. */
  lemma DeleteUndoesAdd(cfg: Config, p: Page, review: Review)
    requires forall i :: 0 <= i < |p.items| ==> p.items[i].id != review.id
    ensures AfterDelete(AddReview(cfg, p, review), review.id, true, Deleted) ==
              p.(placeholder := p.items == [])
  {
  }

  // ---- The widget as the script holds it: fields updated in place ----

  class Widget {
    const config: Config
    var items: seq<Item>
    var placeholder: bool
    var input: JsString
    var errorVisible: bool
    var errorText: string

    function Snapshot(): Page
      reads this
    {
      Page(items, placeholder, input, ErrorSlot(errorVisible, errorText))
    }

    ghost predicate Valid()
      reads this
    {
      Consistent(Snapshot())
    }

    /** The widget over the page as the server rendered it. */
    constructor (config: Config, start: Page)
      requires Consistent(start)
      ensures Valid() && this.config == config && Snapshot() == start
    {
      this.config := config;
      items := start.items;
      placeholder := start.placeholder;
      input := start.input;
      errorVisible := start.error.visible;
      errorText := start.error.message;
    }

    /** activateReviewError: shows the slot with the given message. */
    method ActivateReviewError(message: string)
      modifies this`errorVisible, this`errorText
      ensures errorVisible && errorText == message
    {
      errorVisible := true;
      errorText := message;
    }

    /** deactivateReviewError: hides the slot and puts back its filler text. */
    method DeactivateReviewError()
      modifies this`errorVisible, this`errorText
      ensures Snapshot().error == Hidden
    {
      errorVisible := false;
      errorText := EmptyMessage;
    }

    /** addReviewToList. */
    method AddReviewToList(review: Review)
      requires Valid()
      modifies this`items, this`placeholder
      ensures Valid()
      ensures Snapshot() == AddReview(config, old(Snapshot()), review)
    {
      if placeholder {
        placeholder := false;
      }
      var card := CardOf(config, review);
      if config.title.Some? {
        items := [card] + items;
      } else {
        items := items + [card];
      }
    }

    /** sendForm, given how the request ends; returns the `review_text` it posts,
        the input exactly as typed. */
    method SendForm(outcome: SendOutcome) returns (body: JsString)
      requires Valid()
      modifies this`items, this`placeholder, this`input, this`errorVisible, this`errorText
      ensures Valid()
      ensures body == old(input)
      ensures Snapshot() == AfterSend(config, old(Snapshot()), outcome)
    {
      body := input;
      match outcome
      case Created(review) =>
        AddReviewToList(review);
        input := [];
        DeactivateReviewError();
      case Refused =>
        ActivateReviewError(SendFailedMessage);
      case Lost =>
    }

    /** validateForm, given how the request it may send ends; returns the
        `review_text` posted, or None when the text was rejected and nothing
        was sent. */
    method ValidateForm(outcome: SendOutcome) returns (sent: Option<JsString>)
      requires Valid()
      modifies this`items, this`placeholder, this`input, this`errorVisible, this`errorText
      ensures Valid()
      ensures sent == if Check(old(input)) == Accepted then Some(old(input)) else None
      ensures Snapshot() == AfterSubmit(config, old(Snapshot()), outcome)
    {
      var isValid := true;
      if input == [] || |input| < MinLength {
        ActivateReviewError(TooShortMessage);
        isValid := false;
      } else if |input| > MaxLength {
        ActivateReviewError(TooLongMessage);
        isValid := false;
      } else {
        DeactivateReviewError();
      }
      sent := None;
      if isValid {
        var body := SendForm(outcome);
        sent := Some(body);
      }
    }

    /** deleteReview for the card with the given id, given the answer to the
        confirmation dialog and how the request ends. Reports whether a request
        was sent and whether the failure alert was shown. */
    method DeleteReview(id: string, confirmed: bool, outcome: DeleteOutcome)
      returns (requested: bool, alerted: bool)
      requires Valid()
      modifies this`items, this`placeholder
      ensures Valid()
      ensures requested == confirmed
      ensures alerted == (confirmed && outcome == Failed)
      ensures Snapshot() == AfterDelete(old(Snapshot()), id, confirmed, outcome)
    {
      requested, alerted := false, false;
      if !confirmed {
        return;
      }
      requested := true;
      if outcome == Failed {
        alerted := true;
        return;
      }
      var found := IndexOf(items, id);
      if found.Some? {
        var k := found.value;
        items := items[..k] + items[k + 1..];
        if items == [] {
          placeholder := true;
        }
      }
    }
  }
}
