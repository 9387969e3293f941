/** The contact drawer: a four-state status machine around one POST to the
    contact endpoint, and the derivation of the text shown on failure from
    the error response's `detail` field. The two-second close timer after
    success belongs to the parent and is not modelled. */
module ContactModal {
  import opened Wrappers
  import opened Text

  datatype Status = Idle | Sending | Success | Failed

  datatype FormData = FormData(name: string, email: string, subject: string, message: string)

  const EMPTY_FORM: FormData := FormData("", "", "", "")

  /** The message thrown for a not-ok response without a usable `detail`. */
  const TRANSMISSION_FAILED: string := "Transmission failed"

  /** What the user sees when the error says nothing better. */
  const UPLINK_FAILED: string := "Uplink failed. Try again."

  /** The `detail` field of an error body: absent (or `null`), a string, or a
      list of validation errors whose `msg` may be missing. */
  datatype Detail = NoDetail | TextDetail(text: string) | ListDetail(items: seq<Option<string>>)

  /** How the request settled: an ok response, a not-ok one with its body's
      `detail`, or a thrown error (network failure, unreadable body) with
      its message. */
  datatype Reply = Delivered | Rejected(detail: Detail) | Thrown(message: string)

  /** JavaScript's `Array.prototype.join` writes a missing `msg` as "". */
  function MsgTexts(items: seq<Option<string>>): (r: seq<string>)
    ensures |r| == |items|
    ensures forall i :: 0 <= i < |items| ==> r[i] == items[i].GetOr("")
  {
    if items == [] then [] else [items[0].GetOr("")] + MsgTexts(items[1..])
  }

  /** The message of the error thrown for a not-ok response: a truthy
      `detail` (a non-empty string, or any list, the empty one included)
      gives its text; anything else gives TRANSMISSION_FAILED. */
  function ErrorText(detail: Detail): (msg: string)
    ensures detail.NoDetail? ==> msg == TRANSMISSION_FAILED
    ensures detail.TextDetail? ==> msg == (if detail.text == "" then TRANSMISSION_FAILED else detail.text)
    ensures detail.ListDetail? ==> msg == Join(MsgTexts(detail.items), ", ")
  {
    match detail
    case NoDetail => TRANSMISSION_FAILED
    case TextDetail(t) => if t != "" then t else TRANSMISSION_FAILED
    case ListDetail(items) => Join(MsgTexts(items), ", ")
  }

  /** The text the catch block stores: the error's message unless it is
      empty or exactly TRANSMISSION_FAILED, in which case the fallback. */
  function Displayed(message: string): (r: string)
    ensures r != "" && r != TRANSMISSION_FAILED
    ensures r == message || r == UPLINK_FAILED
    ensures r == UPLINK_FAILED <==> message == "" || message == TRANSMISSION_FAILED || message == UPLINK_FAILED
  {
    if message != "" && message != TRANSMISSION_FAILED then message else UPLINK_FAILED
  }

  /** The message caught for a reply, if it fails. */
  function Caught(reply: Reply): (r: Option<string>)
    ensures r.None? <==> reply.Delivered?
  {
    match reply
    case Delivered => None
    case Rejected(d) => Some(ErrorText(d))
    case Thrown(m) => Some(m)
  }

  /** A list-valued `detail` shows its messages joined by ", ", except that
      an empty list, or a single item whose message is missing, empty or the
      literal TRANSMISSION_FAILED, shows the fallback. Two or more items
      always show the joined text, which contains a comma. */
  lemma {:induction false} ListDetailShown(items: seq<Option<string>>)
    ensures Displayed(ErrorText(ListDetail(items))) ==
      if items == [] then UPLINK_FAILED
      else if |items| == 1 then Displayed(items[0].GetOr(""))
      else Join(MsgTexts(items), ", ")
  {
    var texts := MsgTexts(items);
    if |items| >= 2 {
      var joined := Join(texts, ", ");
      assert joined == texts[0] + ", " + Join(texts[1..], ", ");
      assert joined[|texts[0]|] == ',';
      assert ',' in joined;
      assert ',' !in TRANSMISSION_FAILED;
      assert ',' !in UPLINK_FAILED;
    }
  }

  /** A not-ok response with no `detail`, or an empty string one, shows the fallback. */
  lemma NoDetailShowsFallback(detail: Detail)
    requires detail.NoDetail? || detail == TextDetail("")
    ensures Displayed(ErrorText(detail)) == UPLINK_FAILED
  {
  }

  class Modal {
    var status: Status
    var errorMessage: string
    var form: FormData

    constructor ()
      ensures status == Idle && errorMessage == "" && form == EMPTY_FORM
    {
      status, errorMessage, form := Idle, "", EMPTY_FORM;
    }

    /** The effect on `isOpen`: opening resets everything; closing does nothing. */
    method OpenChanged(isOpen: bool)
      modifies this
      ensures isOpen ==> status == Idle && errorMessage == "" && form == EMPTY_FORM
      ensures !isOpen ==> status == old(status) && errorMessage == old(errorMessage) && form == old(form)
    {
      if isOpen {
        status := Idle;
        errorMessage := "";
        form := EMPTY_FORM;
      }
    }

    /** The four inputs' `onChange`: one field replaced, the others kept. */
    method EditName(v: string)
      modifies this
      ensures form == old(form).(name := v) && status == old(status) && errorMessage == old(errorMessage)
    {
      form := form.(name := v);
    }

    method EditEmail(v: string)
      modifies this
      ensures form == old(form).(email := v) && status == old(status) && errorMessage == old(errorMessage)
    {
      form := form.(email := v);
    }

    method EditSubject(v: string)
      modifies this
      ensures form == old(form).(subject := v) && status == old(status) && errorMessage == old(errorMessage)
    {
      form := form.(subject := v);
    }

    method EditMessage(v: string)
      modifies this
      ensures form == old(form).(message := v) && status == old(status) && errorMessage == old(errorMessage)
    {
      form := form.(message := v);
    }

    /** The synchronous start of `handleSubmit`. */
    method BeginSubmit()
      modifies this
      ensures status == Sending && errorMessage == old(errorMessage) && form == old(form)
    {
      status := Sending;
    }

    /** The rest of `handleSubmit` once the request settles: an ok response
        gives SUCCESS; any failure gives ERROR with the displayed text. */
    method FinishSubmit(reply: Reply)
      modifies this
      ensures form == old(form)
      ensures reply.Delivered? ==> status == Success && errorMessage == old(errorMessage)
      ensures !reply.Delivered? ==> status == Failed && errorMessage == Displayed(Caught(reply).value)
    {
      var caught := Caught(reply);
      if caught.None? {
        status := Success;
      } else {
        status := Failed;
        errorMessage := Displayed(caught.value);
      }
    }
  }

  /** The submit button's `disabled` attribute. */
  function SubmitDisabled(status: Status): (r: bool)
    ensures r <==> status == Sending
  {
    status.Sending?
  }
}
